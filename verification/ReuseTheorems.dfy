/** What the allocator promises in every reachable state of every run. */
module ReuseTheorems {
  import opened Counting
  import opened ReuseModel
  import opened ReuseMatches
  import opened ReuseMachine
  import opened ReuseInvariants

  // ---- Rolling window and minimum interval ----

  /** The check of the last event bounds any interval that holds it. */
  lemma LastCheckBounds(cfg: Settings, events: seq<Event>, p: Profile, start: Instant)
    requires events != []
    requires var n := |events| - 1;
             events[n].stamp <= events[n].created && WindowOk(cfg, events, n) &&
             Within(p, start, start + cfg.policy(p.integration).window)(events[n])
    ensures var policy := cfg.policy(p.integration);
            CountIf(events, Within(p, start, start + policy.window)) <= policy.maxUses
  {
    var policy, n := cfg.policy(p.integration), |events| - 1;
    CountImplied(events[..n], Within(p, start, start + policy.window), Since(p, events[n].stamp - policy.window));
  }

  ghost predicate Checked(cfg: Settings, events: seq<Event>) {
    forall j :: 0 <= j < |events| ==> events[j].stamp <= events[j].created && WindowOk(cfg, events, j)
  }

  lemma EarlierWindowsOk(cfg: Settings, events: seq<Event>)
    requires events != [] && Checked(cfg, events)
    ensures Checked(cfg, events[..|events| - 1])
  {
    var earlier := events[..|events| - 1];
    forall j | 0 <= j < |earlier| ensures earlier[j].stamp <= earlier[j].created && WindowOk(cfg, earlier, j) {
      assert WindowOk(cfg, events, j) && earlier[..j] == events[..j];
    }
  }

  /** The commit-time check bounds every interval of window length, wherever
      it lies, not only the ones that end at a commit. */
  lemma {:induction false} EveryWindowBounded(cfg: Settings, events: seq<Event>, p: Profile, start: Instant)
    requires Checked(cfg, events)
    ensures var policy := cfg.policy(p.integration);
            CountIf(events, Within(p, start, start + policy.window)) <= policy.maxUses
  {
    if events != [] {
      var policy := cfg.policy(p.integration);
      var n := |events| - 1;
      var earlier := events[..n];
      if Within(p, start, start + policy.window)(events[n]) {
        LastCheckBounds(cfg, events, p, start);
      } else {
        EarlierWindowsOk(cfg, events);
        EveryWindowBounded(cfg, earlier, p, start);
      }
    }
  }

  /** At most `max_uses_per_window` reuses of a UID in any closed interval as
      long as the window. */
  lemma WindowLimit(cfg: Settings, states: seq<State>, steps: seq<Step>, k: nat, p: Profile, start: Instant)
    requires Run(cfg, states, steps) && k < |states|
    ensures var policy := cfg.policy(p.integration);
            CountIf(states[k].db.events, Within(p, start, start + policy.window)) <= policy.maxUses
  {
    RunKeepsInv(cfg, states, steps, k);
    EveryWindowBounded(cfg, states[k].db.events, p, start);
  }

  /** State stamps of one UID are a minimum interval apart; a commit's own
      `created_at` may lag its stamp, so two events are only guaranteed the
      interval less the first one's lag. */
  lemma MinimumInterval(cfg: Settings, states: seq<State>, steps: seq<Step>, k: nat, i: nat, j: nat)
    requires Run(cfg, states, steps) && k < |states| && i < j < |states[k].db.events|
    requires SameProfile(states[k].db.events[i], states[k].db.events[j])
    ensures var e, f := states[k].db.events[i], states[k].db.events[j];
            var interval := cfg.policy(e.integration).minInterval;
            e.stamp + interval <= f.stamp && f.created - e.created >= interval - (e.created - e.stamp)
  {
    RunKeepsInv(cfg, states, steps, k);
  }

  // ---- One identity per survey, one event per attempt ----

  /** No two attempts on one survey ever share a UID, whichever of the two
      columns carries it. */
  lemma NoSharedUid(cfg: Settings, states: seq<State>, steps: seq<Step>, k: nat, a: AttemptId, b: AttemptId, u: Uid)
    requires Run(cfg, states, steps) && k < |states|
    requires a in states[k].db.attempts && b in states[k].db.attempts && a != b
    requires states[k].db.attempts[a].survey == states[k].db.attempts[b].survey
    ensures !(states[k].db.attempts[a].Uses(u) && states[k].db.attempts[b].Uses(u))
  {
    RunKeepsInv(cfg, states, steps, k);
  }

  /** An attempt carries a provider UID exactly when it has an event; that
      event is its only one and names the same UID. */
  lemma OneEventPerAttempt(cfg: Settings, states: seq<State>, steps: seq<Step>, k: nat, a: AttemptId)
    requires Run(cfg, states, steps) && k < |states| && a in states[k].db.attempts
    ensures var db := states[k].db;
            (db.attempts[a].provider.Some? <==> HasEvent(db, a)) &&
            forall i, j | 0 <= i < |db.events| && 0 <= j < |db.events| &&
                db.events[i].attempt == a == db.events[j].attempt ::
              i == j && db.attempts[a].provider == Some(db.events[i].uid)
  {
    RunKeepsInv(cfg, states, steps, k);
    var db := states[k].db;
    forall j | 0 <= j < |db.events| && db.events[j].attempt == a
      ensures db.attempts[a].provider == Some(db.events[j].uid)
    {
      assert EventOk(cfg, db, db.events[j]);
    }
  }

  // ---- Monthly budget ----

  /** Slots in use are the pooled ones plus the claims still in flight, and
      without late attempts they never exceed the target. */
  lemma BudgetAccounting(cfg: Settings, states: seq<State>, steps: seq<Step>, n: nat, k: Slot)
    requires Run(cfg, states, steps) && n < |states| && k in states[n].db.counters
    ensures var s := states[n];
            var c := s.db.counters[k];
            c.claimed == c.first + c.repeated + CountIf(s.workers, HoldsSlot(k)) &&
            (!cfg.lateAttempts ==> c.claimed <= c.target)
  {
    RunKeepsInv(cfg, states, steps, n);
    assert ClaimsOk(states[n], k) && TargetOk(cfg, states[n], k);
  }

  /** Each pool counts the committed events, short only of marks in flight. */
  lemma PoolsCountEvents(cfg: Settings, states: seq<State>, steps: seq<Step>, n: nat, k: Slot, pool: Pool)
    requires Run(cfg, states, steps) && n < |states| && k in states[n].db.counters
    ensures var s := states[n];
            Pooled(s.db.counters[k], pool) + CountIf(s.workers, Marks(k, pool))
              == CountIf(s.db.events, Charged(k, pool))
  {
    RunKeepsInv(cfg, states, steps, n);
    assert PoolOk(states[n], k, pool);
  }

  /** Without late attempts targets never fall, although every claim reads its
      baseline before it locks the row (a missing row reads as zero). */
  lemma {:induction false} TargetNeverFalls(cfg: Settings, states: seq<State>, steps: seq<Step>, m: nat, n: nat,
                                            k: Slot)
    requires Run(cfg, states, steps) && m <= n < |states| && !cfg.lateAttempts
    ensures CounterAt(states[m].db, k).target <= CounterAt(states[n].db, k).target
  {
    if m < n {
      TargetNeverFalls(cfg, states, steps, m, n - 1, k);
      RunKeepsInv(cfg, states, steps, n - 1);
      assert StepAt(cfg, states, steps, n - 1);
      StepKeepsTarget(cfg, states[n - 1], steps[n - 1], k);
    }
  }

  // ---- The vault ----

  /** Every visit a vault row counts is its registration, a committed event or
      a reservation that some worker still holds. */
  lemma UsageConserved(cfg: Settings, states: seq<State>, steps: seq<Step>, k: nat, u: Uid)
    requires Run(cfg, states, steps) && k < |states| && u in states[k].db.vault
    ensures states[k].db.vault[u].usage
         == 1 + CountIf(states[k].db.events, EventOf(u)) + CountIf(states[k].workers, HoldsUid(u))
  {
    RunKeepsInv(cfg, states, steps, k);
    assert UidOk(states[k], u);
  }

  /** Neither guard of the compensating updates can stop a real compensation. */
  lemma CompensationNeverBlocked(cfg: Settings, states: seq<State>, steps: seq<Step>, k: nat, w: nat)
    requires Run(cfg, states, steps) && k < |states| && w < |states[k].workers|
    ensures var s := states[k];
            var pc := s.workers[w].pc;
            (pc.Undoing? ==> pc.hold.uid in s.db.vault && s.db.vault[pc.hold.uid].usage > 1) &&
            (pc.Failing? ==> pc.slot in s.db.counters && s.db.counters[pc.slot].claimed > 0)
  {
    RunKeepsInv(cfg, states, steps, k);
    var s := states[k];
    assert WorkerOk(cfg, s, s.workers[w]);
    match s.workers[w].pc
    case Undoing(slot, excluded, tries, hold) =>
      assert UidOk(s, hold.uid);
      CountAtLeastOne(s.workers, w, HoldsUid(hold.uid));
    case Failing(slot) =>
      assert ClaimsOk(s, slot);
      CountAtLeastOne(s.workers, w, HoldsSlot(slot));
    case _ =>
  }

  /** Once every worker has finished, nothing is left over from those that
      gave up: counts are exactly the committed events. */
  lemma NothingLeftOver(cfg: Settings, states: seq<State>, steps: seq<Step>, n: nat)
    requires Run(cfg, states, steps) && n < |states|
    requires forall w :: 0 <= w < |states[n].workers| ==> states[n].workers[w].pc.Finished?
    ensures forall u :: u in states[n].db.vault ==>
              states[n].db.vault[u].usage == 1 + CountIf(states[n].db.events, EventOf(u))
    ensures forall k :: k in states[n].db.counters ==>
              states[n].db.counters[k].claimed == CountIf(states[n].db.events, Charged(k, FirstReuse))
                                                + CountIf(states[n].db.events, Charged(k, ReturningReuse))
  {
    RunKeepsInv(cfg, states, steps, n);
    var s := states[n];
    forall u | u in s.db.vault ensures s.db.vault[u].usage == 1 + CountIf(s.db.events, EventOf(u)) {
      assert UidOk(s, u);
      CountNone(s.workers, HoldsUid(u));
    }
    forall k | k in s.db.counters
      ensures s.db.counters[k].claimed
           == CountIf(s.db.events, Charged(k, FirstReuse)) + CountIf(s.db.events, Charged(k, ReturningReuse))
    {
      assert ClaimsOk(s, k) && PoolOk(s, k, FirstReuse) && PoolOk(s, k, ReturningReuse);
      CountNone(s.workers, HoldsSlot(k));
      CountNone(s.workers, Marks(k, FirstReuse));
      CountNone(s.workers, Marks(k, ReturningReuse));
    }
  }

  /** A worker never retries a candidate and stops after five of them. */
  lemma FiveDistinctCandidates(cfg: Settings, states: seq<State>, steps: seq<Step>, k: nat)
    requires Run(cfg, states, steps) && k < |steps| && steps[k].Work? && steps[k].move.Reserve?
    ensures steps[k].w < |states[k].workers|
    ensures var pc := states[k].workers[steps[k].w].pc;
            pc.Scanning? && steps[k].move.choice !in pc.excluded && |pc.excluded| < 5
  {
    RunKeepsInv(cfg, states, steps, k);
    assert StepAt(cfg, states, steps, k);
    assert WorkerOk(cfg, states[k], states[k].workers[steps[k].w]);
  }

  // ---- The budget against the traffic ----

  /** The traffic a slot's budget is a share of. */
  function Traffic(cfg: Settings, db: Db, k: Slot): nat {
    var previous, current := PreviousAttempts(cfg, db, k), AttemptsFrom(cfg, db, k.integration, k.month);
    if previous >= current then previous else current
  }

  lemma TrafficGrows(cfg: Settings, s: State, step: Step, k: Slot)
    requires Enabled(cfg, s, step)
    ensures PreviousAttempts(cfg, s.db, k) <= PreviousAttempts(cfg, Next(cfg, s, step).db, k)
    ensures AttemptsFrom(cfg, s.db, k.integration, k.month)
         <= AttemptsFrom(cfg, Next(cfg, s, step).db, k.integration, k.month)
  {
    StepGrows(cfg, s, step);
    var db, db', i, m := s.db, Next(cfg, s, step).db, k.integration, k.month;
    SubsetSize(set a | a in db.attempts && cfg.integrationOf(db.attempts[a].survey) == i &&
                       db.attempts[a].initiated >= m,
               set a | a in db'.attempts && cfg.integrationOf(db'.attempts[a].survey) == i &&
                       db'.attempts[a].initiated >= m);
    if m > 0 {
      SubsetSize(set a | a in db.attempts && cfg.integrationOf(db.attempts[a].survey) == i &&
                         db.attempts[a].initiated == m - 1,
                 set a | a in db'.attempts && cfg.integrationOf(db'.attempts[a].survey) == i &&
                         db'.attempts[a].initiated == m - 1);
    }
  }

  /** No baseline and no reading is above the traffic it is taken from. */
  ghost predicate BaselinesOk(cfg: Settings, s: State) {
    (forall k :: CounterAt(s.db, k).baseline <= Traffic(cfg, s.db, k)) &&
    forall w :: 0 <= w < |s.workers| && s.workers[w].pc.Read? ==>
      s.workers[w].pc.reading.live <= Traffic(cfg, s.db, s.workers[w].pc.slot)
  }

  lemma CounterBaselineKept(cfg: Settings, s: State, step: Step, k: Slot)
    requires Enabled(cfg, s, step) && BaselinesOk(cfg, s)
    ensures CounterAt(Next(cfg, s, step).db, k).baseline <= Traffic(cfg, s.db, k)
  {
    assert CounterAt(s.db, k).baseline <= Traffic(cfg, s.db, k);
    if step.Work? && !step.move.Claim? {
      MoveKeepsBudget(cfg, s, s.workers[step.w], step.move, k);
    }
  }

  lemma ReadingKept(cfg: Settings, s: State, step: Step, w: nat)
    requires Enabled(cfg, s, step) && BaselinesOk(cfg, s)
    requires w < |Next(cfg, s, step).workers| && Next(cfg, s, step).workers[w].pc.Read?
    ensures var pc := Next(cfg, s, step).workers[w].pc; pc.reading.live <= Traffic(cfg, s.db, pc.slot)
  {
  }

  lemma StepKeepsBaselines(cfg: Settings, s: State, step: Step)
    requires Enabled(cfg, s, step) && BaselinesOk(cfg, s)
    ensures BaselinesOk(cfg, Next(cfg, s, step))
  {
    var s' := Next(cfg, s, step);
    forall k ensures CounterAt(s'.db, k).baseline <= Traffic(cfg, s'.db, k) {
      CounterBaselineKept(cfg, s, step, k);
      TrafficGrows(cfg, s, step, k);
    }
    forall w | 0 <= w < |s'.workers| && s'.workers[w].pc.Read?
      ensures s'.workers[w].pc.reading.live <= Traffic(cfg, s'.db, s'.workers[w].pc.slot)
    {
      ReadingKept(cfg, s, step, w);
      TrafficGrows(cfg, s, step, s'.workers[w].pc.slot);
    }
  }

  lemma {:induction false} RunKeepsBaselines(cfg: Settings, states: seq<State>, steps: seq<Step>, n: nat)
    requires Run(cfg, states, steps) && n < |states|
    ensures BaselinesOk(cfg, states[n])
  {
    if n > 0 {
      RunKeepsBaselines(cfg, states, steps, n - 1);
      assert StepAt(cfg, states, steps, n - 1);
      StepKeepsBaselines(cfg, states[n - 1], steps[n - 1]);
    }
  }

  lemma ShareGrows(percentage: nat, low: nat, high: nat)
    requires low <= high
    ensures low * percentage <= percentage * high
  {
  }

  /** In every run a stored target is at most the policy's percentage of the
      traffic, and without late attempts so are the slots in use. */
  lemma BudgetIsShareOfTraffic(cfg: Settings, states: seq<State>, steps: seq<Step>, n: nat, k: Slot)
    requires Run(cfg, states, steps) && n < |states|
    ensures var c, percentage := CounterAt(states[n].db, k), cfg.policy(k.integration).percentage;
            var previous, current := PreviousAttempts(cfg, states[n].db, k),
                                     AttemptsFrom(cfg, states[n].db, k.integration, k.month);
            var traffic := if previous >= current then previous else current;
            c.target * 10000 <= percentage * traffic &&
            (!cfg.lateAttempts ==> c.claimed * 10000 <= percentage * traffic)
  {
    RunKeepsInv(cfg, states, steps, n);
    RunKeepsBaselines(cfg, states, steps, n);
    var c, percentage := CounterAt(states[n].db, k), cfg.policy(k.integration).percentage;
    assert TargetOk(cfg, states[n], k);
    TargetIsFloor(percentage, c.baseline);
    ShareGrows(percentage, c.baseline, Traffic(cfg, states[n].db, k));
  }

  // ---- Whose profiles are reused ----

  /** A profile of the integration's own client, of an admitted gender and
      registered long enough before. */
  ghost predicate SourceOk(cfg: Settings, db: Db, i: IntegrationId, u: Uid, at: Instant) {
    u in db.vault &&
    var policy, row := cfg.policy(i), db.vault[u];
    row.clientCode == policy.clientCode && at - row.submitted >= policy.firstDelay && row.country != "" &&
    exists gender :: gender in policy.genders && gender in ["male", "female"] && SameGender(row.gender, gender)
  }

  ghost predicate Sourced(cfg: Settings, s: State) {
    (forall e :: e in s.db.events ==> SourceOk(cfg, s.db, e.integration, e.uid, e.created)) &&
    forall w :: 0 <= w < |s.workers| && HasReservation(s.workers[w].pc) ==>
      SourceOk(cfg, s.db, s.workers[w].pc.slot.integration, s.workers[w].pc.hold.uid, s.clock)
  }

  /** Who registered a row, and when, never changes. */
  ghost predicate SameRegistration(db: Db, db': Db, u: Uid)
    requires u in db.vault
  {
    u in db'.vault &&
    var row, row' := db.vault[u], db'.vault[u];
    row'.clientCode == row.clientCode && row'.submitted == row.submitted && row'.country == row.country &&
    row'.gender == row.gender
  }

  lemma MoveKeepsRegistration(cfg: Settings, s: State, worker: Worker, move: Move, u: Uid)
    requires CanMove(cfg, s, worker, move) && u in s.db.vault
    ensures SameRegistration(s.db, MoveDb(cfg, s, worker, move), u)
  {
    match move
    case Reserve(_, _) =>
    case Undo =>
    case _ => assert MoveDb(cfg, s, worker, move).vault == s.db.vault;
  }

  lemma RegistrationKept(cfg: Settings, s: State, step: Step, u: Uid)
    requires Enabled(cfg, s, step) && u in s.db.vault
    ensures SameRegistration(s.db, Next(cfg, s, step).db, u)
  {
    if step.Work? {
      MoveKeepsRegistration(cfg, s, s.workers[step.w], step.move, u);
    }
  }

  lemma SourceKept(cfg: Settings, s: State, step: Step, i: IntegrationId, u: Uid, at: Instant, later: Instant)
    requires Enabled(cfg, s, step) && SourceOk(cfg, s.db, i, u, at) && at <= later
    ensures SourceOk(cfg, Next(cfg, s, step).db, i, u, later)
  {
    RegistrationKept(cfg, s, step, u);
  }

  lemma ReservedIsSourced(cfg: Settings, s: State, w: nat, u: Uid, at: Instant)
    requires Enabled(cfg, s, Work(w, Reserve(u, at))) && WorkerOk(cfg, s, s.workers[w])
    ensures SourceOk(cfg, s.db, s.workers[w].pc.slot.integration, u, s.clock)
  {
    var worker := s.workers[w];
    FitsIff(cfg.policy(HomeOf(cfg, s.db, worker)), s.db.vault[u], u, s.db.attempts[worker.attempt].prescreener,
            worker.signature, worker.pc.excluded, at);
    InScopeIff(cfg.policy(HomeOf(cfg, s.db, worker)), worker.signature);
  }

  lemma HolderIsSourced(cfg: Settings, s: State, step: Step, w: nat)
    requires Enabled(cfg, s, step) && WorkersInv(cfg, s) && Sourced(cfg, s)
    requires w < |Next(cfg, s, step).workers| && HasReservation(Next(cfg, s, step).workers[w].pc)
    ensures var pc := Next(cfg, s, step).workers[w].pc;
            SourceOk(cfg, s.db, pc.slot.integration, pc.hold.uid, s.clock)
  {
    if step.Work? && step.w == w {
      assert WorkerOk(cfg, s, s.workers[w]);
      if step.move.Reserve? {
        ReservedIsSourced(cfg, s, w, step.move.choice, step.move.at);
      }
    }
  }

  lemma StepKeepsSourced(cfg: Settings, s: State, step: Step)
    requires Enabled(cfg, s, step) && WorkersInv(cfg, s) && Sourced(cfg, s)
    ensures Sourced(cfg, Next(cfg, s, step))
  {
    var s' := Next(cfg, s, step);
    StepGrows(cfg, s, step);
    EventsGrow(cfg, s, step);
    forall e | e in s'.db.events ensures SourceOk(cfg, s'.db, e.integration, e.uid, e.created) {
      if e in s.db.events {
        SourceKept(cfg, s, step, e.integration, e.uid, e.created, e.created);
      } else {
        assert WorkerOk(cfg, s, s.workers[step.w]);
        SourceKept(cfg, s, step, e.integration, e.uid, s.clock, e.created);
      }
    }
    forall w | 0 <= w < |s'.workers| && HasReservation(s'.workers[w].pc)
      ensures SourceOk(cfg, s'.db, s'.workers[w].pc.slot.integration, s'.workers[w].pc.hold.uid, s'.clock)
    {
      HolderIsSourced(cfg, s, step, w);
      SourceKept(cfg, s, step, s'.workers[w].pc.slot.integration, s'.workers[w].pc.hold.uid, s.clock, s'.clock);
    }
  }

  lemma {:induction false} RunKeepsSourced(cfg: Settings, states: seq<State>, steps: seq<Step>, n: nat)
    requires Run(cfg, states, steps) && n < |states|
    ensures Sourced(cfg, states[n])
  {
    if n > 0 {
      RunKeepsSourced(cfg, states, steps, n - 1);
      RunKeepsInv(cfg, states, steps, n - 1);
      assert StepAt(cfg, states, steps, n - 1);
      StepKeepsSourced(cfg, states[n - 1], steps[n - 1]);
    }
  }

  /** In every run an event reuses a profile of its integration's own client,
      of a gender that the policy admits, submitted at least the first delay
      before. */
  lemma OwnClientsOnly(cfg: Settings, states: seq<State>, steps: seq<Step>, n: nat, e: Event)
    requires Run(cfg, states, steps) && n < |states| && e in states[n].db.events
    ensures e.uid in states[n].db.vault
    ensures var policy, row := cfg.policy(e.integration), states[n].db.vault[e.uid];
            row.clientCode == policy.clientCode && e.created - row.submitted >= policy.firstDelay &&
            exists gender :: gender in policy.genders && gender in ["male", "female"] && SameGender(row.gender, gender)
  {
    RunKeepsSourced(cfg, states, steps, n);
  }
}
