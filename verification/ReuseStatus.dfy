/** The budget card of an integration and its batch form
    (prescreener_vault/reuse.py), against what the allocator would do next. */
module ReuseStatus {
  import opened Counting
  import opened ReuseModel

  datatype Status = Status(previousAttempts: nat, baseline: nat, source: Source, target: nat, used: nat,
                           remaining: nat, firstUsed: nat, repeatUsed: nat,
                           firstTarget: nat, firstRemaining: nat, repeatTarget: nat, repeatRemaining: nat)

  /** `_legacy_pool_targets` */
  function PoolTargets(policy: Policy, total: nat): (nat, nat) {
    match policy.repeatPercentage
    case None => (total, 0)
    case Some(percentage) =>
      var repeated := Target(percentage, total);
      (Positive(total - repeated), repeated)
  }

  /** `_profile_reuse_status_payload` */
  function Payload(policy: Policy, previousAttempts: nat, reading: Reading, counter: Option<Counter>): Status {
    var baseline := if counter.Some? && reading.source == CurrentMonthBootstrap && counter.value.baseline > reading.live
                    then counter.value.baseline else reading.live;
    var c := if counter.Some? then counter.value else EMPTY_COUNTER;
    var target := Target(policy.percentage, baseline);
    var (firstTarget, repeatTarget) := PoolTargets(policy, target);
    Status(previousAttempts, baseline, reading.source, target, c.claimed, Positive(target - c.claimed),
           c.first, c.repeated, firstTarget, Positive(firstTarget - c.first),
           repeatTarget, Positive(repeatTarget - c.repeated))
  }

  function CounterRow(db: Db, k: Slot): Option<Counter> {
    if k in db.counters then Some(db.counters[k]) else None
  }

  /** `profile_reuse_month_status` */
  function MonthStatus(cfg: Settings, db: Db, k: Slot): Status {
    Payload(cfg.policy(k.integration), PreviousAttempts(cfg, db, k), Baseline(cfg, db, k), CounterRow(db, k))
  }

  /** What the card says of the two pools: the repeat share is rounded down,
      the first pool is what it leaves, and each remainder is what its counter
      leaves of its target. */
  lemma CardPools(cfg: Settings, db: Db, k: Slot)
    ensures var card, policy := MonthStatus(cfg, db, k), cfg.policy(k.integration);
            var used := CounterAt(db, k);
            (policy.repeatPercentage.None? ==> card.firstTarget == card.target && card.repeatTarget == 0) &&
            (policy.repeatPercentage.Some? ==>
               card.repeatTarget * 10000 <= card.target * policy.repeatPercentage.value
                 < (card.repeatTarget + 1) * 10000 &&
               card.firstTarget == if card.repeatTarget <= card.target then card.target - card.repeatTarget else 0) &&
            card.used == used.claimed && card.firstUsed == used.first && card.repeatUsed == used.repeated &&
            card.firstRemaining == (if used.first <= card.firstTarget then card.firstTarget - used.first else 0) &&
            card.repeatRemaining == if used.repeated <= card.repeatTarget then card.repeatTarget - used.repeated else 0
  {
    var card, policy := MonthStatus(cfg, db, k), cfg.policy(k.integration);
    if policy.repeatPercentage.Some? {
      TargetIsFloor(policy.repeatPercentage.value, card.target);
    }
  }

  function ClaimNow(cfg: Settings, db: Db, k: Slot): (Db, bool) {
    ClaimSlot(db, k, cfg.policy(k.integration).percentage, Baseline(cfg, db, k))
  }

  /** The card shows a positive remainder exactly when the next claim would
      succeed, and a successful claim takes one from it.  Its baseline and
      target are those the claim would store. */
  lemma RemainingIffClaimable(cfg: Settings, db: Db, k: Slot)
    ensures MonthStatus(cfg, db, k).remaining > 0 <==> ClaimNow(cfg, db, k).1
    ensures MonthStatus(cfg, ClaimNow(cfg, db, k).0, k).remaining == Positive(MonthStatus(cfg, db, k).remaining - 1)
    ensures var card, stored := MonthStatus(cfg, db, k), CounterAt(ClaimNow(cfg, db, k).0, k);
            card.baseline == stored.baseline && card.target == stored.target &&
            card.previousAttempts == PreviousAttempts(cfg, db, k) &&
            (card.source == PreviousMonth <==> card.previousAttempts > 0)
  {
    var db' := ClaimNow(cfg, db, k).0;
    assert db'.attempts == db.attempts;
    assert Baseline(cfg, db', k) == Baseline(cfg, db, k);
  }

  /** How many of the next `tries` claims succeed on unchanged traffic. */
  function Granted(cfg: Settings, db: Db, k: Slot, tries: nat): nat
    decreases tries
  {
    if tries == 0 then 0
    else
      var (db', granted) := ClaimNow(cfg, db, k);
      (if granted then 1 else 0) + Granted(cfg, db', k, tries - 1)
  }

  /** The remainder is exactly the number of claims left in the month. */
  lemma {:induction false} RemainingCountsClaims(cfg: Settings, db: Db, k: Slot, tries: nat)
    ensures var remaining := MonthStatus(cfg, db, k).remaining;
            Granted(cfg, db, k, tries) == if tries <= remaining then tries else remaining
    decreases tries
  {
    if tries > 0 {
      RemainingIffClaimable(cfg, db, k);
      RemainingCountsClaims(cfg, ClaimNow(cfg, db, k).0, k, tries - 1);
    }
  }

  // ---- The batch form ----

  datatype Traffic = Traffic(previous: nat, current: nat)

  predicate HasTraffic(cfg: Settings, db: Db, k: Slot) {
    exists a :: a in db.attempts && cfg.integrationOf(db.attempts[a].survey) == k.integration &&
      db.attempts[a].initiated + 1 >= k.month
  }

  /** The grouped query: one row for each integration with any attempt since
      the start of the previous month, and none for the others. */
  function TrafficRows(cfg: Settings, db: Db, ids: set<IntegrationId>, month: Month): map<IntegrationId, Traffic> {
    map i | i in ids && HasTraffic(cfg, db, Slot(i, month)) ::
      Traffic(PreviousAttempts(cfg, db, Slot(i, month)), AttemptsFrom(cfg, db, i, month))
  }

  function CounterRows(db: Db, ids: set<IntegrationId>, month: Month): map<IntegrationId, Counter> {
    map i | i in ids && Slot(i, month) in db.counters :: db.counters[Slot(i, month)]
  }

  /** The loop body of the batch form: a missing row reads as no traffic. */
  function CardFromRows(policy: Policy, traffic: map<IntegrationId, Traffic>,
                        counters: map<IntegrationId, Counter>, i: IntegrationId): Status
  {
    var counts := if i in traffic then traffic[i] else Traffic(0, 0);
    var reading := if counts.previous > 0 then Reading(counts.previous, PreviousMonth)
                   else Reading(counts.current, CurrentMonthBootstrap);
    Payload(policy, counts.previous, reading, if i in counters then Some(counters[i]) else None)
  }

  lemma RowsGiveSameCard(cfg: Settings, db: Db, ids: set<IntegrationId>, month: Month, i: IntegrationId)
    requires i in ids
    ensures CardFromRows(cfg.policy(i), TrafficRows(cfg, db, ids, month), CounterRows(db, ids, month), i)
         == MonthStatus(cfg, db, Slot(i, month))
  {
  }

  function CardOf(cfg: Settings, db: Db, month: Month): IntegrationId -> Status {
    (i: IntegrationId) => MonthStatus(cfg, db, Slot(i, month))
  }

  /** `m` has the listed keys and no others, each with its own value. */
  ghost predicate Tabulates<V>(m: map<IntegrationId, V>, ids: seq<IntegrationId>, f: IntegrationId -> V) {
    (forall i :: i in m <==> i in ids) && (forall i :: i in m ==> m[i] == f(i))
  }

  lemma TabulateOneMore<V>(m: map<IntegrationId, V>, ids: seq<IntegrationId>, n: nat, f: IntegrationId -> V)
    requires n < |ids| && Tabulates(m, ids[..n], f)
    ensures Tabulates(m[ids[n] := f(ids[n])], ids[..n + 1], f)
  {
  }

  /** `profile_reuse_month_statuses`: two queries for many cards give every
      integration the card it would get on its own. */
  method MonthStatuses(cfg: Settings, db: Db, integrations: seq<IntegrationId>, month: Month)
    returns (statuses: map<IntegrationId, Status>)
    ensures Tabulates(statuses, integrations, CardOf(cfg, db, month))
  {
    statuses := map[];
    if integrations == [] {
      return;
    }
    var ids := set i | i in integrations;
    var traffic, counters := TrafficRows(cfg, db, ids, month), CounterRows(db, ids, month);
    for n := 0 to |integrations|
      invariant Tabulates(statuses, integrations[..n], CardOf(cfg, db, month))
    {
      var i := integrations[n];
      TabulateOneMore(statuses, integrations, n, CardOf(cfg, db, month));
      RowsGiveSameCard(cfg, db, ids, month, i);
      statuses := statuses[i := CardFromRows(cfg.policy(i), traffic, counters, i)];
    }
    assert integrations[..|integrations|] == integrations;
  }
}
