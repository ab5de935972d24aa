/** The allocator's functions as they are written, updating the tables in
    place (prescreener_vault/reuse.py).  Each ends in the table state that the
    transaction of the same name has in ReuseModel; the last one is the whole
    saga, run with no other worker in between. */
module ReuseStore {
  import opened Counting
  import opened ReuseModel
  import opened ReuseMatches
  import opened ReuseMachine

  const MAX_CANDIDATE_SCAN := 500

  // ---- The queue order: usage_count, last_reused_at (nulls first), submitted_at, uid ----

  predicate StampBefore(a: Option<Instant>, b: Option<Instant>) {
    b.Some? && (a.None? || a.value < b.value)
  }

  predicate Before(vault: map<Uid, VaultRow>, u: Uid, v: Uid)
    requires u in vault && v in vault
  {
    var a, b := vault[u], vault[v];
    a.usage < b.usage ||
    (a.usage == b.usage &&
      (StampBefore(a.lastReused, b.lastReused) ||
      (a.lastReused == b.lastReused && (a.submitted < b.submitted || (a.submitted == b.submitted && u < v)))))
  }

  lemma BeforeIsTotal(vault: map<Uid, VaultRow>, u: Uid, v: Uid, w: Uid)
    requires u in vault && v in vault && w in vault
    ensures u != v ==> Before(vault, u, v) || Before(vault, v, u)
    ensures Before(vault, u, v) && Before(vault, v, w) ==> Before(vault, u, w)
    ensures !(Before(vault, u, v) && Before(vault, v, u))
  {
  }

  ghost predicate Queued(vault: map<Uid, VaultRow>, rows: seq<Uid>) {
    (forall i :: 0 <= i < |rows| ==> rows[i] in vault) &&
    forall i, j :: 0 <= i < j < |rows| ==> Before(vault, rows[i], rows[j])
  }

  /** One candidate query: who asks, for what, and when. */
  datatype Query = Query(policy: Policy, own: Uid, signature: Signature, excluded: set<Uid>, now: Instant)

  predicate Passes(vault: map<Uid, VaultRow>, q: Query, u: Uid) {
    u in vault && PassesFilter(q.policy, vault[u], u, q.own, q.signature, q.excluded, q.now)
  }

  /** What ORDER BY ... LIMIT over the unlocked passing rows returns. */
  ghost predicate Scan(vault: map<Uid, VaultRow>, q: Query, locked: set<Uid>, rows: seq<Uid>) {
    |rows| <= MAX_CANDIDATE_SCAN && Queued(vault, rows) &&
    (forall u :: u in rows ==> Passes(vault, q, u) && u !in locked) &&
    forall u :: Passes(vault, q, u) && u !in locked && u !in rows ==>
      |rows| == MAX_CANDIDATE_SCAN && forall v :: v in rows ==> Before(vault, v, u)
  }

  /** A scan that is not cut off misses no passing row. */
  lemma ShortScanIsComplete(vault: map<Uid, VaultRow>, q: Query, locked: set<Uid>, rows: seq<Uid>, u: Uid)
    requires Scan(vault, q, locked, rows) && Passes(vault, q, u) && u !in locked
    requires |set v | v in vault && Passes(vault, q, v) && v !in locked| <= MAX_CANDIDATE_SCAN
    ensures u in rows
  {
    if u !in rows {
      var all := set v | v in vault && Passes(vault, q, v) && v !in locked;
      assert Distinct(rows);
      DistinctSize(rows);
      assert u !in SetOf(rows) && SetOf(rows) + {u} <= all;
      SubsetSize(SetOf(rows) + {u}, all);
    }
  }

  /** The exact match and the two operational reads made on a scanned row. */
  predicate Acceptable(cfg: Settings, db: Db, survey: SurveyId, q: Query, u: Uid)
    requires u in db.vault
  {
    var i := cfg.integrationOf(survey);
    Usage(i, survey, u) !in db.usages &&
    !(exists b :: b in db.attempts && db.attempts[b].survey == survey &&
        (db.attempts[b].prescreener == u || db.attempts[b].provider == Some(u))) &&
    CountIf(db.events, Since(Profile(i, u), q.now - q.policy.window)) < q.policy.maxUses &&
    MatchesAll(CandidateDimensions(cfg.text, db.vault[u], q.now), q.signature.required)
  }

  /** The first acceptable row of the queue. */
  ghost predicate Fairest(cfg: Settings, db: Db, survey: SurveyId, q: Query, locked: set<Uid>, u: Uid) {
    Passes(db.vault, q, u) && u !in locked && Acceptable(cfg, db, survey, q, u) &&
    forall v :: v != u && Passes(db.vault, q, v) && v !in locked && Acceptable(cfg, db, survey, q, v) ==>
      Before(db.vault, u, v)
  }

  /** No acceptable row, unless the queue is longer than the scan. */
  ghost predicate NobodyLeft(cfg: Settings, db: Db, survey: SurveyId, q: Query, locked: set<Uid>) {
    |set v | v in db.vault && Passes(db.vault, q, v) && v !in locked| <= MAX_CANDIDATE_SCAN ==>
      forall v :: Passes(db.vault, q, v) && v !in locked ==> !Acceptable(cfg, db, survey, q, v)
  }

  /** None of the first `n` scanned rows is acceptable. */
  ghost predicate Skipped(cfg: Settings, db: Db, survey: SurveyId, q: Query, rows: seq<Uid>, n: nat)
    requires n <= |rows| && Queued(db.vault, rows)
  {
    forall i :: 0 <= i < n ==> !Acceptable(cfg, db, survey, q, rows[i])
  }

  lemma ScannedFrom(cfg: Settings, db: Db, survey: SurveyId, q: Query, locked: set<Uid>, rows: seq<Uid>, n: nat, v: Uid)
    requires Scan(db.vault, q, locked, rows) && n < |rows| && Skipped(cfg, db, survey, q, rows, n)
    requires v != rows[n] && Passes(db.vault, q, v) && v !in locked && Acceptable(cfg, db, survey, q, v)
    ensures Before(db.vault, rows[n], v)
  {
    if v in rows {
      var j :| 0 <= j < |rows| && rows[j] == v;
      if n < j {
        assert Before(db.vault, rows[n], rows[j]);
      }
    } else {
      assert rows[n] in rows;
    }
  }

  lemma FirstOfScanIsFairest(cfg: Settings, db: Db, survey: SurveyId, q: Query, locked: set<Uid>, rows: seq<Uid>,
                             n: nat)
    requires Scan(db.vault, q, locked, rows) && n < |rows|
    requires Skipped(cfg, db, survey, q, rows, n) && Acceptable(cfg, db, survey, q, rows[n])
    ensures Fairest(cfg, db, survey, q, locked, rows[n])
  {
    forall v | v != rows[n] && Passes(db.vault, q, v) && v !in locked && Acceptable(cfg, db, survey, q, v)
      ensures Before(db.vault, rows[n], v)
    {
      ScannedFrom(cfg, db, survey, q, locked, rows, n, v);
    }
  }

  lemma EmptyScanLeavesNobody(cfg: Settings, db: Db, survey: SurveyId, q: Query, locked: set<Uid>, rows: seq<Uid>)
    requires Scan(db.vault, q, locked, rows) && Skipped(cfg, db, survey, q, rows, |rows|)
    ensures NobodyLeft(cfg, db, survey, q, locked)
  {
    forall v | Passes(db.vault, q, v) && v !in locked &&
        |set w | w in db.vault && Passes(db.vault, q, w) && w !in locked| <= MAX_CANDIDATE_SCAN
      ensures !Acceptable(cfg, db, survey, q, v)
    {
      ShortScanIsComplete(db.vault, q, locked, rows, v);
    }
  }

  // ---- The same, said of the row ----

  /** A row that the search may take: it fits the query, is new to the survey
      and within its window, and gives every required answer. */
  ghost predicate Suits(cfg: Settings, db: Db, survey: SurveyId, q: Query, u: Uid) {
    u in db.vault && Fits(q.policy, db.vault[u], u, q.own, q.signature, q.excluded, q.now) &&
    Usage(cfg.integrationOf(survey), survey, u) !in db.usages &&
    (forall b :: b in db.attempts && db.attempts[b].survey == survey ==>
       db.attempts[b].prescreener != u && db.attempts[b].provider != Some(u)) &&
    CountIf(db.events, Since(Profile(cfg.integrationOf(survey), u), q.now - q.policy.window)) < q.policy.maxUses &&
    Answers(cfg.text, db.vault[u], q.signature.required, q.now)
  }

  /** Fewer visits first, then never reused or longest ago, then registered
      first, then the smaller UID. */
  predicate Ahead(x: VaultRow, u: Uid, y: VaultRow, v: Uid) {
    if x.usage != y.usage then x.usage < y.usage
    else if x.lastReused != y.lastReused then
      x.lastReused.None? || (y.lastReused.Some? && x.lastReused.value < y.lastReused.value)
    else if x.submitted != y.submitted then x.submitted < y.submitted
    else u < v
  }

  /** Rows the query finds, whatever the exact match says of them. */
  ghost function Fitting(vault: map<Uid, VaultRow>, q: Query, locked: set<Uid>): set<Uid> {
    set u | u in vault && Fits(q.policy, vault[u], u, q.own, q.signature, q.excluded, q.now) && u !in locked
  }

  lemma SuitsIff(cfg: Settings, db: Db, survey: SurveyId, q: Query, u: Uid)
    requires u in db.vault
    ensures Passes(db.vault, q, u) <==> Fits(q.policy, db.vault[u], u, q.own, q.signature, q.excluded, q.now)
    ensures Suits(cfg, db, survey, q, u) <==> Passes(db.vault, q, u) && Acceptable(cfg, db, survey, q, u)
  {
    FitsIff(q.policy, db.vault[u], u, q.own, q.signature, q.excluded, q.now);
    AnswersIff(cfg.text, db.vault[u], q.signature.required, q.now);
  }

  lemma FairestMeans(cfg: Settings, db: Db, survey: SurveyId, q: Query, locked: set<Uid>, u: Uid)
    requires Fairest(cfg, db, survey, q, locked, u)
    ensures Suits(cfg, db, survey, q, u) && u !in locked
    ensures forall v :: v != u && v !in locked && Suits(cfg, db, survey, q, v) ==> Ahead(db.vault[u], u, db.vault[v], v)
  {
    SuitsIff(cfg, db, survey, q, u);
    forall v | v != u && v !in locked && Suits(cfg, db, survey, q, v)
      ensures Ahead(db.vault[u], u, db.vault[v], v)
    {
      SuitsIff(cfg, db, survey, q, v);
    }
  }

  lemma NobodyLeftMeans(cfg: Settings, db: Db, survey: SurveyId, q: Query, locked: set<Uid>)
    requires NobodyLeft(cfg, db, survey, q, locked) && |Fitting(db.vault, q, locked)| <= MAX_CANDIDATE_SCAN
    ensures forall v :: v !in locked ==> !Suits(cfg, db, survey, q, v)
  {
    forall v | v in db.vault
      ensures Passes(db.vault, q, v) <==> Fits(q.policy, db.vault[v], v, q.own, q.signature, q.excluded, q.now)
      ensures Suits(cfg, db, survey, q, v) <==> Passes(db.vault, q, v) && Acceptable(cfg, db, survey, q, v)
    {
      SuitsIff(cfg, db, survey, q, v);
    }
    assert Fitting(db.vault, q, locked) == set v | v in db.vault && Passes(db.vault, q, v) && v !in locked;
  }

  lemma ScanMeans(vault: map<Uid, VaultRow>, q: Query, locked: set<Uid>, rows: seq<Uid>)
    requires Scan(vault, q, locked, rows)
    ensures forall u :: u in rows ==> u in Fitting(vault, q, locked)
    ensures forall i, j :: 0 <= i < j < |rows| ==> Ahead(vault[rows[i]], rows[i], vault[rows[j]], rows[j])
    ensures forall u :: u in Fitting(vault, q, locked) && u !in rows ==>
      |rows| == 500 && forall v :: v in rows ==> Ahead(vault[v], v, vault[u], u)
  {
    forall u | u in vault ensures u in Fitting(vault, q, locked) <==> Passes(vault, q, u) && u !in locked {
      FitsIff(q.policy, vault[u], u, q.own, q.signature, q.excluded, q.now);
    }
    forall u, v | u in vault && v in vault && Before(vault, u, v) ensures Ahead(vault[u], u, vault[v], v) {
    }
  }

  function QueryFor(cfg: Settings, db: Db, a: AttemptId, signature: Signature, excluded: set<Uid>, now: Instant): Query
    requires a in db.attempts
  {
    Query(cfg.policy(cfg.integrationOf(db.attempts[a].survey)), db.attempts[a].prescreener, signature, excluded, now)
  }

  function ClaimOn(db: Db, u: Uid, month: Month): Claimed
    requires u in db.vault
  {
    var h := HoldOn(u, db.vault[u]);
    Claimed(u, h.pool, h.usageNumber, month)
  }

  /** A candidate whose commit fails at some time read in the given span. */
  ghost predicate Refused(cfg: Settings, db: Db, a: AttemptId, u: Uid, month: Month, from: Instant, to: Instant)
    requires a in db.attempts
  {
    u in db.vault && exists stamp :: from <= stamp <= to && !MayCommit(cfg, db, a, ClaimOn(db, u, month), stamp)
  }

  ghost predicate AllRefused(cfg: Settings, db: Db, a: AttemptId, refused: set<Uid>, month: Month,
                             from: Instant, to: Instant)
    requires a in db.attempts
  {
    forall u :: u in refused ==> Refused(cfg, db, a, u, month, from, to)
  }

  lemma OneMoreRefused(cfg: Settings, db: Db, a: AttemptId, refused: set<Uid>, u: Uid, month: Month,
                       from: Instant, upTo: Instant, stamp: Instant, to: Instant)
    requires a in db.attempts && AllRefused(cfg, db, a, refused, month, from, upTo)
    requires from <= stamp <= to && upTo <= to
    ensures AllRefused(cfg, db, a, refused, month, from, to)
    ensures u in db.vault && !MayCommit(cfg, db, a, ClaimOn(db, u, month), stamp) ==>
      AllRefused(cfg, db, a, refused + {u}, month, from, to)
  {
  }

  /** The search ended without a profile: five refusals, or nobody left after
      the refused ones. */
  ghost predicate SearchFailed(cfg: Settings, db: Db, a: AttemptId, signature: Signature, month: Month,
                               locked: set<Uid>, refused: set<Uid>, from: Instant, to: Instant)
    requires a in db.attempts
  {
    AllRefused(cfg, db, a, refused, month, from, to) &&
    (|refused| == 5 ||
     exists now :: from <= now <= to &&
       NobodyLeft(cfg, db, db.attempts[a].survey, QueryFor(cfg, db, a, signature, refused, now), locked))
  }

  /** The search ended with `u`: the fairest after the refused ones. */
  ghost predicate SearchFound(cfg: Settings, db: Db, a: AttemptId, signature: Signature, month: Month, locked: set<Uid>,
                              refused: set<Uid>, from: Instant, to: Instant, u: Uid)
    requires a in db.attempts
  {
    AllRefused(cfg, db, a, refused, month, from, to) && |refused| < 5 &&
    exists now :: from <= now <= to &&
      Fairest(cfg, db, db.attempts[a].survey, QueryFor(cfg, db, a, signature, refused, now), locked, u)
  }

  /** The profile of a search suited when it was found, and its delays are over
      at any later time too. */
  ghost predicate FoundFor(cfg: Settings, db: Db, a: AttemptId, signature: Signature, from: Instant, to: Instant,
                           u: Uid)
    requires a in db.attempts
  {
    u in db.vault && u != db.attempts[a].prescreener &&
    var policy, row := cfg.policy(cfg.integrationOf(db.attempts[a].survey)), db.vault[u];
    row.clientCode == policy.clientCode && row.country == signature.country &&
    SameGender(row.gender, signature.gender) && to - row.submitted >= policy.firstDelay &&
    (row.lastReused.Some? ==> to - row.lastReused.value >= policy.minInterval) &&
    exists now :: from <= now <= to && Answers(cfg.text, row, signature.required, now)
  }

  lemma FoundSuits(cfg: Settings, db: Db, a: AttemptId, signature: Signature, month: Month, locked: set<Uid>,
                   refused: set<Uid>, from: Instant, to: Instant, u: Uid)
    requires a in db.attempts && SearchFound(cfg, db, a, signature, month, locked, refused, from, to, u)
    ensures FoundFor(cfg, db, a, signature, from, to, u)
  {
    var survey := db.attempts[a].survey;
    var now :| from <= now <= to &&
      Fairest(cfg, db, survey, QueryFor(cfg, db, a, signature, refused, now), locked, u);
    FairestMeans(cfg, db, survey, QueryFor(cfg, db, a, signature, refused, now), locked, u);
  }

  lemma ClaimKeepsFound(cfg: Settings, db: Db, k: Slot, percentage: nat, reading: Reading, a: AttemptId,
                        signature: Signature, month: Month, locked: set<Uid>, refused: set<Uid>, from: Instant,
                        to: Instant, u: Uid)
    requires a in db.attempts
    requires var claimed := ClaimSlot(db, k, percentage, reading).0;
             SearchFound(cfg, claimed, a, signature, month, locked, refused, from, to, u)
    ensures FoundFor(cfg, db, a, signature, from, to, u)
  {
    FoundSuits(cfg, ClaimSlot(db, k, percentage, reading).0, a, signature, month, locked, refused, from, to, u);
  }

  // ---- Reservations and their traces ----

  /** The age columns after a reservation. */
  function AgedRow(row: VaultRow, age: Option<nat>): VaultRow {
    row.(age := age, ageGroup := AgeGroupOf(age))
  }

  /** The tables after these rows have been reserved and given back. */
  function Aged(db: Db, us: set<Uid>, age: Option<nat>): Db {
    db.(vault := map u | u in db.vault :: if u in us then AgedRow(db.vault[u], age) else db.vault[u])
  }

  lemma AgedNobody(db: Db, age: Option<nat>)
    ensures Aged(db, {}, age) == db
  {
    assert Aged(db, {}, age).vault == db.vault;
  }

  lemma AgedMore(db: Db, us: set<Uid>, u: Uid, age: Option<nat>)
    requires u in db.vault
    ensures Aged(Aged(db, us, age), {u}, age) == Aged(db, us + {u}, age)
  {
    assert Aged(Aged(db, us, age), {u}, age).vault == Aged(db, us + {u}, age).vault;
  }

  /** Rows that a search excludes may have been aged: nothing it looks at is. */
  lemma AgedQueue(db: Db, us: set<Uid>, age: Option<nat>, q: Query)
    requires us <= q.excluded
    ensures forall v :: Passes(Aged(db, us, age).vault, q, v) <==> Passes(db.vault, q, v)
    ensures forall v :: Passes(db.vault, q, v) ==> Aged(db, us, age).vault[v] == db.vault[v]
  {
  }

  lemma AgedAcceptable(cfg: Settings, db: Db, us: set<Uid>, age: Option<nat>, survey: SurveyId, q: Query, v: Uid)
    requires us <= q.excluded && Passes(db.vault, q, v)
    ensures Acceptable(cfg, Aged(db, us, age), survey, q, v) <==> Acceptable(cfg, db, survey, q, v)
  {
    AgedQueue(db, us, age, q);
  }

  lemma AgedNobodyLeft(cfg: Settings, db: Db, us: set<Uid>, age: Option<nat>, survey: SurveyId, q: Query,
                       locked: set<Uid>)
    requires us <= q.excluded && NobodyLeft(cfg, Aged(db, us, age), survey, q, locked)
    ensures NobodyLeft(cfg, db, survey, q, locked)
  {
    var aged := Aged(db, us, age);
    AgedQueue(db, us, age, q);
    assert (set v | v in aged.vault && Passes(aged.vault, q, v) && v !in locked)
        == (set v | v in db.vault && Passes(db.vault, q, v) && v !in locked);
    forall v | Passes(db.vault, q, v) && v !in locked && !Acceptable(cfg, aged, survey, q, v)
      ensures !Acceptable(cfg, db, survey, q, v)
    {
      AgedAcceptable(cfg, db, us, age, survey, q, v);
    }
  }

  lemma AgedFairest(cfg: Settings, db: Db, us: set<Uid>, age: Option<nat>, survey: SurveyId, q: Query, locked: set<Uid>,
                    u: Uid)
    requires us <= q.excluded && Fairest(cfg, Aged(db, us, age), survey, q, locked, u)
    ensures Fairest(cfg, db, survey, q, locked, u) && u !in us
  {
    AgedQueue(db, us, age, q);
    AgedAcceptable(cfg, db, us, age, survey, q, u);
    forall v | v != u && Passes(db.vault, q, v) && v !in locked && Acceptable(cfg, db, survey, q, v)
      ensures Before(db.vault, u, v)
    {
      AgedAcceptable(cfg, db, us, age, survey, q, v);
      assert Before(Aged(db, us, age).vault, u, v);
    }
  }

  lemma AgedClaim(cfg: Settings, db: Db, us: set<Uid>, age: Option<nat>, a: AttemptId, u: Uid, month: Month,
                  stamp: Instant)
    requires a in db.attempts && u in db.vault
    ensures ClaimOn(Aged(db, us, age), u, month) == ClaimOn(db, u, month)
    ensures MayCommit(cfg, Aged(db, us, age), a, ClaimOn(db, u, month), stamp) <==>
      MayCommit(cfg, db, a, ClaimOn(db, u, month), stamp)
  {
  }

  /** One profile's state row is stamped and counts one more event. */
  ghost predicate OnlyState(db: Db, db': Db, p: Profile, stamp: Instant) {
    p in db'.states && db'.states == db.states[p := db'.states[p]] && db'.states[p].last == Some(stamp) &&
    db'.states[p].total == 1 + if p in db.states then db.states[p].total else CountIf(db.events, Reuses(p))
  }

  /** A committed reuse, seen in the operational and the vault tables. */
  ghost predicate Reused(db: Db, db': Db, a: AttemptId, e: Event, age: Option<nat>) {
    a in db.attempts && e.uid in db.vault && e.uid in db'.vault && e.attempt == a &&
    db'.events == db.events + [e] &&
    db'.attempts == db.attempts[a := db.attempts[a].(provider := Some(e.uid))] &&
    e.survey == db.attempts[a].survey && db'.usages == db.usages + {Usage(e.integration, e.survey, e.uid)} &&
    OnlyState(db, db', Profile(e.integration, e.uid), e.stamp) &&
    var row := AgedRow(db.vault[e.uid], age).(usage := e.usageNumber, lastReused := db'.vault[e.uid].lastReused);
    db'.vault == db.vault[e.uid := row] &&
    e.usageNumber == db.vault[e.uid].usage + 1 && (e.pool == FirstReuse <==> e.usageNumber == 2)
  }

  /** Reserving and committing adds one visit and one event for the UID. */
  lemma ReserveThenCommit(cfg: Settings, db: Db, a: AttemptId, u: Uid, month: Month, now: Instant, stamp: Instant,
                          clock: Instant, age: Option<nat>)
    requires a in db.attempts && u in db.vault
    ensures var c := ClaimOn(db, u, month);
            var db' := CommitReuse(cfg, ReserveRow(db, u, now, age), a, c, stamp, clock);
            Reused(db, db', a, NewEvent(cfg, ReserveRow(db, u, now, age), a, c, stamp, clock), age) &&
            db'.counters == db.counters
  {
  }

  /** The last reuse, by the state row or else by the events, was no later. */
  ghost predicate LastReuseOver(db: Db, p: Profile, limit: Instant) {
    (p in db.states && db.states[p].last.Some? ==> db.states[p].last.value <= limit) &&
    (p !in db.states ==>
       forall e :: e in db.events && e.integration == p.integration && e.uid == p.uid ==> e.created <= limit)
  }

  lemma {:induction false} LatestCreatedOver(events: seq<Event>, p: Profile, limit: Instant)
    ensures (LatestCreated(events, p).Some? ==> LatestCreated(events, p).value <= limit) <==>
      forall e :: e in events && e.integration == p.integration && e.uid == p.uid ==> e.created <= limit
  {
    if events != [] {
      LatestCreatedOver(events[..|events| - 1], p, limit);
      SplitLast(events);
    }
  }

  /** The checks of a commit, one by one. */
  lemma ChecksMean(cfg: Settings, db: Db, a: AttemptId, c: Claimed, stamp: Instant)
    requires a in db.attempts
    ensures MayCommit(cfg, db, a, c, stamp) <==>
      var survey := db.attempts[a].survey;
      var p := Profile(cfg.integrationOf(survey), c.uid);
      var policy := cfg.policy(p.integration);
      db.attempts[a].provider.None? && !(exists e :: e in db.events && e.attempt == a) &&
      LastReuseOver(db, p, stamp - policy.minInterval) &&
      (forall b :: b in db.attempts && b != a && db.attempts[b].survey == survey ==>
         db.attempts[b].prescreener != c.uid && db.attempts[b].provider != Some(c.uid)) &&
      Usage(p.integration, survey, c.uid) !in db.usages &&
      CountIf(db.events, Since(p, stamp - policy.window)) < policy.maxUses
  {
    var p := Profile(cfg.integrationOf(db.attempts[a].survey), c.uid);
    LatestCreatedOver(db.events, p, stamp - cfg.policy(p.integration).minInterval);
    assert HasEvent(db, a) <==> exists e :: e in db.events && e.attempt == a;
  }

  /** Marking the pool touches nothing else. */
  lemma MarkKeepsReused(db: Db, db': Db, a: AttemptId, e: Event, age: Option<nat>, k: Slot, pool: Pool)
    requires Reused(db, db', a, e, age) && db'.counters == db.counters
    ensures Reused(db, MarkPool(db', k, pool), a, e, age)
    ensures MarkPool(db', k, pool).counters == MarkPool(db, k, pool).counters
  {
  }

  lemma AgedMark(db: Db, us: set<Uid>, age: Option<nat>, k: Slot, pool: Pool)
    ensures MarkPool(Aged(db, us, age), k, pool).counters == MarkPool(db, k, pool).counters
  {
  }

  /** Reserving and undoing with nobody in between puts back count and stamp;
      the age columns keep what the reservation wrote. */
  lemma ReserveThenUndo(db: Db, u: Uid, now: Instant, age: Option<nat>)
    requires u in db.vault && db.vault[u].usage >= 1
    ensures UndoRow(ReserveRow(db, u, now, age), u, db.vault[u].lastReused) == Aged(db, {u}, age)
  {
    var undone := UndoRow(ReserveRow(db, u, now, age), u, db.vault[u].lastReused);
    assert undone.vault == Aged(db, {u}, age).vault;
  }

  /** The commit's checks read nothing of the vault. */
  lemma CommitIgnoresVault(cfg: Settings, db: Db, a: AttemptId, c: Claimed, stamp: Instant, u: Uid, now: Instant,
                           age: Option<nat>)
    requires a in db.attempts && u in db.vault
    ensures MayCommit(cfg, ReserveRow(db, u, now, age), a, c, stamp) <==> MayCommit(cfg, db, a, c, stamp)
  {
  }

  /** Same budget use, whatever happened to baseline and target. */
  predicate SameUse(c: Counter, d: Counter) {
    c.claimed == d.claimed && c.first == d.first && c.repeated == d.repeated
  }

  /** What one pass found, as the outcome of a pass. */
  ghost predicate Tried(cfg: Settings, db: Db, a: AttemptId, signature: Signature, month: Month, excluded: set<Uid>,
                        locked: set<Uid>, now: Instant, stamp: Instant, tried: Option<Uid>, committed: bool)
    requires a in db.attempts
  {
    var q := QueryFor(cfg, db, a, signature, excluded, now);
    match tried
    case None => !committed && NobodyLeft(cfg, db, db.attempts[a].survey, q, locked)
    case Some(u) =>
      Fairest(cfg, db, db.attempts[a].survey, q, locked, u) &&
      (committed <==> MayCommit(cfg, db, a, ClaimOn(db, u, month), stamp))
  }

  /** A pass over rows that earlier ones have aged finds what it would have
      found on the rows as they were. */
  lemma TriedOnAged(cfg: Settings, db: Db, refused: set<Uid>, a: AttemptId, signature: Signature, month: Month,
                    locked: set<Uid>, now: Instant, stamp: Instant, tried: Option<Uid>, committed: bool)
    requires a in db.attempts
    requires var aged := Aged(db, refused, signature.age);
             Tried(cfg, aged, a, signature, month, refused, locked, now, stamp, tried, committed)
    ensures Tried(cfg, db, a, signature, month, refused, locked, now, stamp, tried, committed)
    ensures tried.Some? ==> tried.value !in refused
  {
    var survey, q := db.attempts[a].survey, QueryFor(cfg, db, a, signature, refused, now);
    match tried
    case None => AgedNobodyLeft(cfg, db, refused, signature.age, survey, q, locked);
    case Some(u) =>
      AgedFairest(cfg, db, refused, signature.age, survey, q, locked, u);
      AgedClaim(cfg, db, refused, signature.age, a, u, month, stamp);
  }

  /** Between two passes: the refused rows are aged, and nothing else moved. */
  ghost predicate Searching(cfg: Settings, db: Db, tables: Db, a: AttemptId, month: Month, age: Option<nat>,
                            refused: set<Uid>, from: Instant, to: Instant)
    requires a in db.attempts
  {
    tables == Aged(db, refused, age) && AllRefused(cfg, db, a, refused, month, from, to)
  }

  lemma SearchEnds(cfg: Settings, db: Db, tables: Db, a: AttemptId, signature: Signature, month: Month,
                   locked: set<Uid>, refused: set<Uid>, from: Instant, upTo: Instant, now: Instant, stamp: Instant,
                   to: Instant)
    requires a in db.attempts && from <= upTo <= now <= stamp <= to
    requires Searching(cfg, db, tables, a, month, signature.age, refused, from, upTo)
    requires Tried(cfg, tables, a, signature, month, refused, locked, now, stamp, None, false)
    ensures SearchFailed(cfg, db, a, signature, month, locked, refused, from, to)
  {
    TriedOnAged(cfg, db, refused, a, signature, month, locked, now, stamp, None, false);
  }

  lemma SearchFinds(cfg: Settings, db: Db, tables: Db, a: AttemptId, signature: Signature, month: Month,
                    locked: set<Uid>, refused: set<Uid>, from: Instant, upTo: Instant, now: Instant, stamp: Instant,
                    to: Instant, u: Uid)
    requires a in db.attempts && from <= upTo <= now <= stamp <= to && |refused| < MAX_TRIES
    requires Searching(cfg, db, tables, a, month, signature.age, refused, from, upTo)
    requires Tried(cfg, tables, a, signature, month, refused, locked, now, stamp, Some(u), true)
    ensures SearchFound(cfg, db, a, signature, month, locked, refused, from, to, u)
  {
    TriedOnAged(cfg, db, refused, a, signature, month, locked, now, stamp, Some(u), true);
  }

  lemma SearchGoesOn(cfg: Settings, db: Db, tables: Db, a: AttemptId, signature: Signature, month: Month,
                     locked: set<Uid>, refused: set<Uid>, from: Instant, upTo: Instant, now: Instant, stamp: Instant,
                     to: Instant, u: Uid)
    requires a in db.attempts && from <= upTo <= now <= stamp <= to
    requires Searching(cfg, db, tables, a, month, signature.age, refused, from, upTo)
    requires Tried(cfg, tables, a, signature, month, refused, locked, now, stamp, Some(u), false)
    ensures Searching(cfg, db, Aged(tables, {u}, signature.age), a, month, signature.age, refused + {u}, from, to)
    ensures |refused + {u}| == |refused| + 1
  {
    TriedOnAged(cfg, db, refused, a, signature, month, locked, now, stamp, Some(u), false);
    AgedMore(db, refused, u, signature.age);
    OneMoreRefused(cfg, db, a, refused, u, month, from, upTo, stamp, to);
  }

  // ---- The budget around a search ----

  /** Same budget use in every slot, whatever happened to baseline and target. */
  ghost predicate SameBudgetUse(db: Db, db': Db) {
    forall k :: SameUse(CounterAt(db, k), CounterAt(db', k))
  }

  lemma RefusedClaimUsesNothing(db: Db, k: Slot, percentage: nat, reading: Reading)
    ensures var (claimed, granted) := ClaimSlot(db, k, percentage, reading);
            !granted ==> SameBudgetUse(db, claimed)
  {
  }

  /** A slot claimed and given back is not used. */
  lemma ClaimThenRelease(db: Db, k: Slot, percentage: nat, reading: Reading, refused: set<Uid>, age: Option<nat>)
    ensures var (claimed, granted) := ClaimSlot(db, k, percentage, reading);
            granted ==> SameBudgetUse(db, ReleaseSlot(Aged(claimed, refused, age), k))
  {
  }

  /** One more claim within the target, one more mark in the event's pool, and
      no other slot touched. */
  ghost predicate OneSlotUsed(db: Db, db': Db, e: Event) {
    var k := Slot(e.integration, e.month);
    var c, c' := CounterAt(db, k), CounterAt(db', k);
    c'.claimed == c.claimed + 1 <= c'.target && c'.first + c'.repeated == c.first + c.repeated + 1 &&
    (e.pool == FirstReuse <==> c'.first == c.first + 1) &&
    forall j :: j != k ==> CounterAt(db', j) == CounterAt(db, j)
  }

  lemma ClaimThenMark(db: Db, k: Slot, percentage: nat, reading: Reading, db': Db, e: Event)
    requires ClaimSlot(db, k, percentage, reading).1 && k == Slot(e.integration, e.month)
    requires db'.counters == MarkPool(ClaimSlot(db, k, percentage, reading).0, k, e.pool).counters
    ensures OneSlotUsed(db, db', e)
  {
  }

  /** Claiming a slot changes no other table. */
  lemma ClaimKeepsReused(db: Db, k: Slot, percentage: nat, reading: Reading, refused: set<Uid>, db': Db, a: AttemptId,
                         e: Event, age: Option<nat>)
    requires Reused(Aged(ClaimSlot(db, k, percentage, reading).0, refused, age), db', a, e, age)
    ensures Reused(Aged(db, refused, age), db', a, e, age)
  {
    assert Aged(ClaimSlot(db, k, percentage, reading).0, refused, age).vault == Aged(db, refused, age).vault;
  }

  class Store {
    const cfg: Settings
    var attempts: map<AttemptId, Attempt>
    var counters: map<Slot, Counter>
    var states: map<Profile, StateRow>
    var usages: set<Usage>
    var events: seq<Event>
    var vault: map<Uid, VaultRow>
    var clock: Instant
    var month: Month

    constructor (cfg: Settings, clock: Instant, month: Month)
      ensures this.cfg == cfg && Tables() == Init(clock, month).db && this.clock == clock && this.month == month
    {
      this.cfg, this.clock, this.month := cfg, clock, month;
      attempts, counters, states, usages, events, vault := map[], map[], map[], {}, [], map[];
    }

    function Tables(): Db
      reads this
    {
      Db(attempts, counters, states, usages, events, vault)
    }

    /** `timezone.now()`: some instant no earlier than the last one read. */
    method Now() returns (t: Instant)
      modifies this`clock
      ensures old(clock) <= clock == t
    {
      t :| clock <= t;
      clock := t;
    }

    method ClaimMonthSlot(i: IntegrationId) returns (slot: Option<Slot>)
      modifies this`counters
      ensures var k := Slot(i, month);
              var reading := Baseline(cfg, old(Tables()), k);
              var (db, granted) := ClaimSlot(old(Tables()), k, cfg.policy(i).percentage, reading);
              Tables() == db && slot == if granted then Some(k) else None
      ensures Slot(i, month) in counters && counters == old(counters)[Slot(i, month) := counters[Slot(i, month)]]
      ensures var k := Slot(i, month);
              var c, c' := CounterAt(old(Tables()), k), counters[k];
              var previous, live := PreviousAttempts(cfg, old(Tables()), k), AttemptsFrom(cfg, old(Tables()), i, month);
              c'.baseline == (if previous > 0 then previous
                              else if k in old(counters) && live <= c.baseline then c.baseline else live) &&
              c'.target * 10000 <= c'.baseline * cfg.policy(i).percentage < (c'.target + 1) * 10000 &&
              (slot.Some? <==> c.claimed < c'.target) && (slot.Some? ==> slot.value == k) &&
              c'.claimed == c.claimed + (if slot.Some? then 1 else 0) &&
              c'.first == c.first && c'.repeated == c.repeated
    {
      var k := Slot(i, month);
      var reading := Baseline(cfg, Tables(), k);
      var created := k !in counters;
      var counter := if created then EMPTY_COUNTER else counters[k];
      if created || reading.source == PreviousMonth {
        counter := counter.(baseline := reading.live);
      } else if reading.live > counter.baseline {
        counter := counter.(baseline := reading.live);
      }
      TargetIsFloor(cfg.policy(i).percentage, counter.baseline);
      counter := counter.(target := Target(cfg.policy(i).percentage, counter.baseline));
      if counter.target <= 0 || counter.claimed >= counter.target {
        counters := counters[k := counter];
        return None;
      }
      counters := counters[k := counter.(claimed := counter.claimed + 1)];
      return Some(k);
    }

    method ReleaseMonthSlot(k: Slot)
      modifies this`counters
      ensures Tables() == ReleaseSlot(old(Tables()), k)
    {
      if k in counters && counters[k].claimed > 0 {
        counters := counters[k := counters[k].(claimed := counters[k].claimed - 1)];
      }
    }

    method MarkPoolUse(k: Slot, pool: Pool)
      modifies this`counters
      ensures Tables() == MarkPool(old(Tables()), k, pool)
    {
      if k in counters {
        var counter := counters[k];
        counter := if pool == FirstReuse then counter.(first := counter.first + 1)
                   else counter.(repeated := counter.repeated + 1);
        counters := counters[k := counter];
      }
    }

    method MatchesAllRequirements(row: VaultRow, required: Dimensions, at: Instant) returns (ok: bool)
      ensures ok == MatchesAll(CandidateDimensions(cfg.text, row, at), required)
    {
      var candidate := CandidateDimensions(cfg.text, row, at);
      var rest := required.Keys;
      while rest != {}
        invariant rest <= required.Keys
        invariant forall key :: key in required && key !in rest ==> MatchesKey(candidate, required, key)
      {
        var key :| key in rest;
        rest := rest - {key};
        if key == BirthDate && Age in required && required[Age] != {} {
          continue;
        }
        if key !in candidate || candidate[key] == {} || candidate[key] != required[key] {
          return false;
        }
      }
      return true;
    }

    /** Inserts one more row where the queue order puts it. */
    method Enqueue(rows: seq<Uid>, u: Uid) returns (queue: seq<Uid>)
      requires Queued(vault, rows) && u in vault && u !in rows
      ensures Queued(vault, queue) && forall v :: v in queue <==> v == u || v in rows
    {
      var at := 0;
      while at < |rows| && Before(vault, rows[at], u)
        invariant at <= |rows| && forall i :: 0 <= i < at ==> Before(vault, rows[i], u)
      {
        at := at + 1;
      }
      forall j | at <= j < |rows| ensures Before(vault, u, rows[j]) {
        BeforeIsTotal(vault, u, rows[at], rows[j]);
      }
      queue := rows[..at] + [u] + rows[at..];
      assert rows == rows[..at] + rows[at..];
    }

    /** Stands for the SELECT ... SKIP LOCKED: the passing rows no other
        transaction holds, queued, and cut off at the scan limit. */
    method CandidateQuery(q: Query, locked: set<Uid>) returns (rows: seq<Uid>)
      ensures Scan(vault, q, locked, rows)
      ensures forall u :: u in rows ==> u in Fitting(vault, q, locked)
      ensures forall i, j :: 0 <= i < j < |rows| ==> Ahead(vault[rows[i]], rows[i], vault[rows[j]], rows[j])
      ensures forall u :: u in Fitting(vault, q, locked) && u !in rows ==>
        |rows| == 500 && forall v :: v in rows ==> Ahead(vault[v], v, vault[u], u)
    {
      var queue: seq<Uid>, rest := [], vault.Keys;
      while rest != {}
        invariant rest <= vault.Keys && Queued(vault, queue)
        invariant forall u :: u in queue <==> u !in rest && Passes(vault, q, u) && u !in locked
      {
        var u :| u in rest;
        if Passes(vault, q, u) && u !in locked {
          queue := Enqueue(queue, u);
        }
        rest := rest - {u};
      }
      rows := if |queue| > MAX_CANDIDATE_SCAN then queue[..MAX_CANDIDATE_SCAN] else queue;
      forall u | u in queue && u !in rows ensures forall v :: v in rows ==> Before(vault, v, u) {
        var j :| 0 <= j < |queue| && queue[j] == u;
      }
      ScanMeans(vault, q, locked, rows);
    }

    method IsAcceptable(survey: SurveyId, q: Query, u: Uid) returns (ok: bool)
      requires u in vault
      ensures ok == Acceptable(cfg, Tables(), survey, q, u)
    {
      var i := cfg.integrationOf(survey);
      if Usage(i, survey, u) in usages ||
          exists b :: b in attempts && attempts[b].survey == survey &&
            (attempts[b].prescreener == u || attempts[b].provider == Some(u)) {
        return false;
      }
      if CountIf(events, Since(Profile(i, u), q.now - q.policy.window)) >= q.policy.maxUses {
        return false;
      }
      ok := MatchesAllRequirements(vault[u], q.signature.required, q.now);
    }

    /** The first scanned row that passes the exact checks, if any. */
    method FirstAcceptable(survey: SurveyId, q: Query, rows: seq<Uid>) returns (n: nat)
      requires Queued(vault, rows)
      ensures n <= |rows| && Skipped(cfg, Tables(), survey, q, rows, n)
      ensures n < |rows| ==> Acceptable(cfg, Tables(), survey, q, rows[n])
    {
      n := 0;
      while n < |rows|
        invariant n <= |rows| && Skipped(cfg, Tables(), survey, q, rows, n)
      {
        var ok := IsAcceptable(survey, q, rows[n]);
        if ok {
          return;
        }
        n := n + 1;
      }
    }

    method HoldRow(u: Uid, now: Instant, age: Option<nat>) returns (hold: Hold)
      requires u in vault
      modifies this`vault
      ensures hold == HoldOn(u, old(vault)[u]) && Tables() == ReserveRow(old(Tables()), u, now, age)
      ensures vault == old(vault)[u := old(vault)[u].(usage := old(vault)[u].usage + 1, lastReused := Some(now),
                                                      age := age, ageGroup := AgeGroupOf(age))]
    {
      hold := HoldOn(u, vault[u]);
      var row := vault[u].(age := age, ageGroup := AgeGroupOf(age));
      vault := vault[u := row.(usage := row.usage + 1, lastReused := Some(now))];
    }

    /** `_reserve_vault_profile`: the fairest acceptable row that is not locked
        by someone else.  The scan limit never changes who is chosen, only
        whether a long queue yields anybody. */
    method ReserveVaultProfile(a: AttemptId, signature: Signature, excluded: set<Uid>, locked: set<Uid>)
      returns (hold: Option<Hold>)
      requires a in attempts
      modifies this`vault, this`clock
      ensures old(clock) <= clock
      ensures var db := old(Tables());
              var q := QueryFor(cfg, db, a, signature, excluded, clock);
              match hold
              case Some(h) =>
                Fairest(cfg, db, db.attempts[a].survey, q, locked, h.uid) &&
                h == HoldOn(h.uid, db.vault[h.uid]) && Tables() == ReserveRow(db, h.uid, clock, signature.age)
              case None =>
                Tables() == db && NobodyLeft(cfg, db, db.attempts[a].survey, q, locked)
      ensures hold.Some? ==> hold.value.uid in old(vault)
      ensures hold.Some? ==>
        var policy := cfg.policy(cfg.integrationOf(old(attempts)[a].survey));
        var u := hold.value.uid;
        var row := old(vault)[u];
        u != old(attempts)[a].prescreener && u !in excluded && u !in locked &&
        row.clientCode == policy.clientCode && row.country == signature.country &&
        SameGender(row.gender, signature.gender) && clock - row.submitted >= policy.firstDelay &&
        (row.lastReused.Some? ==> clock - row.lastReused.value >= policy.minInterval) &&
        forall key :: key in signature.required ==>
          (key == BirthDate && Age in signature.required && signature.required[Age] != {}) ||
          (signature.required[key] != {} && AnswerAt(cfg.text, row, key, clock) == signature.required[key])
      ensures var db, survey := old(Tables()), old(attempts)[a].survey;
              var q := QueryFor(cfg, db, a, signature, excluded, clock);
              match hold
              case Some(h) =>
                Suits(cfg, db, survey, q, h.uid) &&
                forall v :: v != h.uid && v !in locked && Suits(cfg, db, survey, q, v) ==>
                  Ahead(db.vault[h.uid], h.uid, db.vault[v], v)
              case None =>
                |Fitting(db.vault, q, locked)| <= 500 ==> forall v :: v !in locked ==> !Suits(cfg, db, survey, q, v)
      ensures hold.Some? ==>
        vault == old(vault)[hold.value.uid := vault[hold.value.uid]] &&
        vault[hold.value.uid].usage == old(vault)[hold.value.uid].usage + 1 &&
        vault[hold.value.uid].lastReused == Some(clock) && vault[hold.value.uid].age == signature.age
    {
      var now := Now();
      var survey := attempts[a].survey;
      var q := Query(cfg.policy(cfg.integrationOf(survey)), attempts[a].prescreener, signature, excluded, now);
      var rows := CandidateQuery(q, locked);
      var n := FirstAcceptable(survey, q, rows);
      if n == |rows| {
        EmptyScanLeavesNobody(cfg, Tables(), survey, q, locked, rows);
        if |Fitting(vault, q, locked)| <= MAX_CANDIDATE_SCAN {
          NobodyLeftMeans(cfg, Tables(), survey, q, locked);
        }
        return None;
      }
      FirstOfScanIsFairest(cfg, Tables(), survey, q, locked, rows, n);
      FairestMeans(cfg, Tables(), survey, q, locked, rows[n]);
      var held := HoldRow(rows[n], now, signature.age);
      hold := Some(held);
    }

    method UndoVaultReservation(u: Uid, previous: Option<Instant>)
      modifies this`vault
      ensures Tables() == UndoRow(old(Tables()), u, previous)
    {
      if u in vault && vault[u].usage > 1 {
        vault := vault[u := vault[u].(usage := vault[u].usage - 1, lastReused := previous)];
      }
    }

    /** The checks under the locks, in the order they are made. */
    method PassesChecks(a: AttemptId, c: Claimed, stamp: Instant) returns (passes: bool)
      requires a in attempts
      ensures passes == MayCommit(cfg, Tables(), a, c, stamp)
    {
      var survey := attempts[a].survey;
      var p := Profile(cfg.integrationOf(survey), c.uid);
      var policy := cfg.policy(p.integration);
      if attempts[a].provider.Some? {
        return false;
      }
      var state := LockedState(Tables(), p);
      if state.last.Some? && state.last.value > stamp - policy.minInterval {
        return false;
      }
      if UsedOnSurvey(Tables(), survey, a, c.uid) || Usage(p.integration, survey, c.uid) in usages {
        return false;
      }
      return CountIf(events, Since(p, stamp - policy.window)) < policy.maxUses && !HasEvent(Tables(), a);
    }

    /** `_commit_reuse`: commits when every check passes and otherwise leaves
        the operational tables as they were (the rolled-back transaction). */
    method CommitClaim(a: AttemptId, c: Claimed) returns (event: Option<Event>, stamp: Instant)
      requires a in attempts
      modifies this
      ensures old(clock) <= stamp <= clock && month == old(month)
      ensures event.Some? <==> MayCommit(cfg, old(Tables()), a, c, stamp)
      ensures event.None? ==> Tables() == old(Tables())
      ensures event.Some? ==>
        event.value == NewEvent(cfg, old(Tables()), a, c, stamp, clock) &&
        Tables() == CommitReuse(cfg, old(Tables()), a, c, stamp, clock)
      ensures event.Some? ==>
        var e := event.value;
        e.created == clock && e.stamp == stamp && e.month == c.month && e.pool == c.pool &&
        e.usageNumber == c.usageNumber
    {
      stamp := Now();
      var passes := PassesChecks(a, c, stamp);
      if !passes {
        return None, stamp;
      }
      var survey := attempts[a].survey;
      var p := Profile(cfg.integrationOf(survey), c.uid);
      var state := LockedState(Tables(), p);
      var created := Now();
      var e := Event(a, survey, p.integration, c.uid, created, c.pool, c.usageNumber, stamp, c.month);
      usages := usages + {Usage(p.integration, survey, c.uid)};
      attempts := attempts[a := attempts[a].(provider := Some(c.uid))];
      events := events + [e];
      states := states[p := StateRow(Some(stamp), state.total + 1)];
      return Some(e), stamp;
    }

    /** One pass of the loop: reserve the fairest candidate and commit it, or
        leave only its age columns changed.  `tried` is the candidate, if any. */
    method TryCandidate(a: AttemptId, signature: Signature, k: Slot, excluded: set<Uid>, locked: set<Uid>)
      returns (tried: Option<Uid>, event: Option<Event>, ghost now: Instant, ghost stamp: Instant)
      requires a in attempts
      requires forall u :: u in vault ==> vault[u].usage >= 1
      modifies this
      ensures month == old(month) && old(clock) <= now <= stamp <= clock
      ensures Tried(cfg, old(Tables()), a, signature, k.month, excluded, locked, now, stamp, tried, event.Some?)
      ensures event.None? ==>
        Tables() == Aged(old(Tables()), if tried.Some? then {tried.value} else {}, signature.age)
      ensures event.Some? ==>
        tried == Some(event.value.uid) &&
        Reused(old(Tables()), Tables(), a, event.value, signature.age) && event.value.month == k.month &&
        counters == old(counters) &&
        event.value.integration == cfg.integrationOf(old(attempts)[a].survey)
    {
      var hold := ReserveVaultProfile(a, signature, excluded, locked);
      now, stamp := clock, clock;
      if hold.None? {
        tried, event := None, None;
        AgedNobody(old(Tables()), signature.age);
        return;
      }
      var h := hold.value;
      event, stamp := CommitClaim(a, Claimed(h.uid, h.pool, h.usageNumber, k.month));
      CommitIgnoresVault(cfg, old(Tables()), a, ClaimOn(old(Tables()), h.uid, k.month), stamp, h.uid, now,
                         signature.age);
      if event.None? {
        ReserveThenUndo(old(Tables()), h.uid, now, signature.age);
        UndoVaultReservation(h.uid, h.previous);
      } else {
        ReserveThenCommit(cfg, old(Tables()), a, h.uid, k.month, now, stamp, clock, signature.age);
      }
      tried := Some(h.uid);
    }

    /** The five-candidate loop, on a slot already claimed. */
    method AssignFromQueue(a: AttemptId, signature: Signature, k: Slot, locked: set<Uid>)
      returns (event: Option<Event>, ghost refused: set<Uid>)
      requires a in attempts && k in counters
      requires forall u :: u in vault ==> vault[u].usage >= 1
      modifies this
      ensures month == old(month) && old(clock) <= clock
      ensures var db := old(Tables());
              match event
              case None => SearchFailed(cfg, db, a, signature, k.month, locked, refused, old(clock), clock)
              case Some(e) => SearchFound(cfg, db, a, signature, k.month, locked, refused, old(clock), clock, e.uid)
      ensures event.None? ==> Tables() == ReleaseSlot(Aged(old(Tables()), refused, signature.age), k)
      ensures event.Some? ==>
        Reused(Aged(old(Tables()), refused, signature.age), Tables(), a, event.value, signature.age) &&
        event.value.month == k.month &&
        event.value.integration == cfg.integrationOf(old(attempts)[a].survey) &&
        counters == MarkPool(old(Tables()), k, event.value.pool).counters
    {
      var excluded: set<Uid> := {};
      refused := {};
      AgedNobody(old(Tables()), signature.age);
      for tries := 0 to MAX_TRIES
        invariant refused == excluded && |refused| == tries && month == old(month) && old(clock) <= clock
        invariant Searching(cfg, old(Tables()), Tables(), a, k.month, signature.age, refused, old(clock), clock)
      {
        ghost var before, upTo := Tables(), clock;
        var tried, found, now, stamp := TryCandidate(a, signature, k, excluded, locked);
        if tried.None? {
          SearchEnds(cfg, old(Tables()), before, a, signature, k.month, locked, refused, old(clock), upTo, now, stamp,
                     clock);
          AgedNobody(before, signature.age);
          ReleaseMonthSlot(k);
          return None, refused;
        }
        if found.Some? {
          SearchFinds(cfg, old(Tables()), before, a, signature, k.month, locked, refused, old(clock), upTo, now, stamp,
                      clock, tried.value);
          AgedMark(old(Tables()), refused, signature.age, k, found.value.pool);
          MarkKeepsReused(before, Tables(), a, found.value, signature.age, k, found.value.pool);
          MarkPoolUse(k, found.value.pool);
          return found, refused;
        }
        SearchGoesOn(cfg, old(Tables()), before, a, signature, k.month, locked, refused, old(clock), upTo, now, stamp,
                     clock, tried.value);
        excluded := excluded + {tried.value};
        refused := excluded;
      }
      ReleaseMonthSlot(k);
      event := None;
    }

    /** `maybe_assign_reusable_profile` with nobody in between.  Without a new
        event every table is as it was, except that the claimed counter row
        may carry a fresher baseline and target and the refused rows newer age
        columns; with one, exactly one event, one visit, one slot and one pool
        mark are added. */
    method MaybeAssignReusableProfile(a: AttemptId, signature: Signature, vaultEnabled: bool, locked: set<Uid>)
      returns (event: Option<Event>, ghost refused: set<Uid>)
      requires a in attempts
      requires forall u :: u in vault ==> vault[u].usage >= 1
      modifies this
      ensures month == old(month)
      ensures var policy := cfg.policy(cfg.integrationOf(old(attempts)[a].survey));
              !vaultEnabled || !policy.enabled ==> event.None?
      ensures vaultEnabled && !HasEvent(old(Tables()), a) ==>
        var k := Slot(cfg.integrationOf(old(attempts)[a].survey), month);
        var reading := Baseline(cfg, old(Tables()), k);
        var (db, granted) := ClaimSlot(old(Tables()), k, cfg.policy(k.integration).percentage, reading);
        match event
        case None =>
          !InScope(cfg.policy(k.integration), signature) || !granted ||
          SearchFailed(cfg, db, a, signature, month, locked, refused, old(clock), clock)
        case Some(e) =>
          InScope(cfg.policy(k.integration), signature) && granted &&
          SearchFound(cfg, db, a, signature, month, locked, refused, old(clock), clock, e.uid)
      ensures var policy := cfg.policy(cfg.integrationOf(old(attempts)[a].survey));
              vaultEnabled && policy.enabled && HasEvent(old(Tables()), a) ==>
        event.Some? && event.value in old(events) && event.value.attempt == a &&
        attempts == old(attempts)[a := old(attempts)[a].(provider := Some(event.value.uid))]
      ensures event.None? ==> attempts == old(attempts)
      ensures event.None? || HasEvent(old(Tables()), a) ==>
        events == old(events) && states == old(states) && usages == old(usages) &&
        vault == Aged(old(Tables()), refused, signature.age).vault && SameBudgetUse(old(Tables()), Tables())
      ensures event.Some? && !HasEvent(old(Tables()), a) ==>
        Reused(Aged(old(Tables()), refused, signature.age), Tables(), a, event.value, signature.age) &&
        event.value.month == month && OneSlotUsed(old(Tables()), Tables(), event.value)
      ensures event.Some? && !HasEvent(old(Tables()), a) ==> event.value.uid in old(vault)
      ensures event.Some? && !HasEvent(old(Tables()), a) ==>
        var policy, row := cfg.policy(cfg.integrationOf(old(attempts)[a].survey)), old(vault)[event.value.uid];
        event.value.uid != old(attempts)[a].prescreener &&
        row.clientCode == policy.clientCode && row.country == signature.country &&
        SameGender(row.gender, signature.gender) && clock - row.submitted >= policy.firstDelay &&
        (row.lastReused.Some? ==> clock - row.lastReused.value >= policy.minInterval) &&
        exists now :: old(clock) <= now <= clock && Answers(cfg.text, row, signature.required, now)
    {
      refused := {};
      AgedNobody(old(Tables()), signature.age);
      var policy := cfg.policy(cfg.integrationOf(attempts[a].survey));
      if !vaultEnabled || !policy.enabled {
        return None, refused;
      }
      if HasEvent(Tables(), a) {
        var existing := events[FirstEvent(events, a)];
        if attempts[a].provider != Some(existing.uid) {
          attempts := attempts[a := attempts[a].(provider := Some(existing.uid))];
        }
        return Some(existing), refused;
      }
      if !InScope(policy, signature) {
        return None, refused;
      }
      ghost var k := Slot(cfg.integrationOf(attempts[a].survey), month);
      ghost var percentage, reading := policy.percentage, Baseline(cfg, Tables(), k);
      RefusedClaimUsesNothing(Tables(), k, percentage, reading);
      var slot := ClaimMonthSlot(cfg.integrationOf(attempts[a].survey));
      if slot.None? {
        return None, refused;
      }
      event, refused := AssignFromQueue(a, signature, slot.value, locked);
      if event.None? {
        ClaimThenRelease(old(Tables()), k, percentage, reading, refused, signature.age);
      } else {
        ClaimThenMark(old(Tables()), k, percentage, reading, Tables(), event.value);
        ClaimKeepsReused(old(Tables()), k, percentage, reading, refused, Tables(), a, event.value, signature.age);
        ClaimKeepsFound(cfg, old(Tables()), k, percentage, reading, a, signature, month, locked, refused, old(clock),
                        clock, event.value.uid);
      }
    }
  }
}
