/** The two promises of the allocator that need an assumption, with the exact
    assumption: targets never fall, and reuses of a UID are kept apart.  The
    failing halves are runs from the empty state. */
module ReuseLimits {
  import opened Counting
  import opened ReuseModel
  import opened ReuseMachine
  import opened ReuseInvariants
  import opened ReuseTheorems
  import opened ReuseStore

  // ---- Building runs ----

  datatype Trace = Trace(states: seq<State>, steps: seq<Step>)

  ghost predicate IsRun(cfg: Settings, t: Trace) {
    Run(cfg, t.states, t.steps)
  }

  function End(t: Trace): State
    requires t.states != []
  {
    t.states[|t.states| - 1]
  }

  /** A run that goes on from `t` and ends in `s`. */
  ghost predicate Continues(cfg: Settings, t: Trace, t': Trace, s: State) {
    IsRun(cfg, t') && t.states <= t'.states && End(t') == s
  }

  predicate MovesVault(step: Step) {
    step.Work? && (step.move.Reserve? || step.move.Undo?)
  }

  /** From step `n` on nobody reserves a vault row or gives one back. */
  predicate QuietFrom(t: Trace, n: nat) {
    forall k :: n <= k < |t.steps| ==> !MovesVault(t.steps[k])
  }

  /** `t'` goes on from `t` without touching the vault. */
  predicate Quietly(t: Trace, t': Trace) {
    t.states <= t'.states && t.steps <= t'.steps && QuietFrom(t', |t.steps|)
  }

  lemma Start(cfg: Settings, clock: Instant, month: Month) returns (t: Trace)
    ensures IsRun(cfg, t) && End(t) == Init(clock, month) && t.steps == []
  {
    t := Trace([Init(clock, month)], []);
  }

  lemma Extend(cfg: Settings, t: Trace, step: Step) returns (t': Trace)
    requires IsRun(cfg, t) && Enabled(cfg, End(t), step)
    ensures Continues(cfg, t, t', Next(cfg, End(t), step)) && t'.steps == t.steps + [step]
  {
    t' := Trace(t.states + [Next(cfg, End(t), step)], t.steps + [step]);
    forall k | 0 <= k < |t'.steps| ensures StepAt(cfg, t'.states, t'.steps, k) {
      if k < |t.steps| {
        assert StepAt(cfg, t.states, t.steps, k);
      }
    }
  }

  function LastWorker(s: State): Worker
    requires s.workers != []
  {
    s.workers[|s.workers| - 1]
  }

  function WithLast(s: State, db: Db, pc: Pc): State
    requires s.workers != []
  {
    s.(db := db, workers := s.workers[|s.workers| - 1 := LastWorker(s).(pc := pc)])
  }

  lemma WithLastTwice(s: State, db: Db, pc: Pc, db': Db, pc': Pc)
    requires s.workers != []
    ensures WithLast(WithLast(s, db, pc), db', pc') == WithLast(s, db', pc')
    ensures LastWorker(WithLast(s, db, pc)) == LastWorker(s).(pc := pc)
  {
  }

  /** The last worker makes a move. */
  lemma MoveLast(cfg: Settings, t: Trace, move: Move) returns (t': Trace)
    requires IsRun(cfg, t) && End(t).workers != [] && CanMove(cfg, End(t), LastWorker(End(t)), move)
    ensures var s := End(t);
            Continues(cfg, t, t', WithLast(s, MoveDb(cfg, s, LastWorker(s), move), MovePc(cfg, s, LastWorker(s), move)))
    ensures t'.steps == t.steps + [Work(|End(t).workers| - 1, move)]
  {
    t' := Extend(cfg, t, Work(|End(t).workers| - 1, move));
  }

  lemma ReadByNewWorker(cfg: Settings, t: Trace, a: AttemptId, signature: Signature) returns (t': Trace)
    requires IsRun(cfg, t) && a in End(t).db.attempts
    requires InScope(cfg.policy(cfg.integrationOf(End(t).db.attempts[a].survey)), signature)
    ensures var s := End(t);
            var k := Slot(cfg.integrationOf(s.db.attempts[a].survey), s.month);
            Continues(cfg, t, t', s.(workers := s.workers + [Worker(a, signature, Read(k, Baseline(cfg, s.db, k)))]))
    ensures Quietly(t, t')
  {
    var s := End(t);
    var k := Slot(cfg.integrationOf(s.db.attempts[a].survey), s.month);
    t' := Extend(cfg, t, Arrive(a, signature));
    t' := MoveLast(cfg, t', ReadMonth);
    t' := MoveLast(cfg, t', CountPrevious);
    if PreviousAttempts(cfg, s.db, k) == 0 {
      t' := MoveLast(cfg, t', CountCurrent);
    }
  }

  /** A worker arrives and claims a slot, with nobody in between. */
  lemma ClaimByNewWorker(cfg: Settings, t: Trace, a: AttemptId, signature: Signature) returns (t': Trace)
    requires IsRun(cfg, t) && a in End(t).db.attempts
    requires InScope(cfg.policy(cfg.integrationOf(End(t).db.attempts[a].survey)), signature)
    ensures var s := End(t);
            var k := Slot(cfg.integrationOf(s.db.attempts[a].survey), s.month);
            var (db, granted) := ClaimSlot(s.db, k, cfg.policy(k.integration).percentage, Baseline(cfg, s.db, k));
            var pc := if granted then Scanning(k, {}, 0) else Finished(false);
            Continues(cfg, t, t', s.(db := db, workers := s.workers + [Worker(a, signature, pc)]))
    ensures Quietly(t, t')
  {
    t' := ReadByNewWorker(cfg, t, a, signature);
    t' := MoveLast(cfg, t', Claim);
  }

  /** Where the last worker stands once it holds `u` and knows the time. */
  function HeldPc(s: State, u: Uid): Pc
    requires s.workers != [] && LastWorker(s).pc.Scanning? && u in s.db.vault
  {
    var pc := LastWorker(s).pc;
    Timed(pc.slot, pc.excluded, pc.tries, HoldOn(u, s.db.vault[u]), s.clock)
  }

  /** The last worker reserves `u` and reads its clock. */
  lemma ReserveByLastWorker(cfg: Settings, t: Trace, u: Uid) returns (t': Trace)
    requires IsRun(cfg, t) && End(t).workers != []
    requires CanMove(cfg, End(t), LastWorker(End(t)), Reserve(u, End(t).clock))
    ensures var s := End(t);
            var worker := LastWorker(s);
            var reserved := ReserveRow(s.db, u, s.clock, worker.signature.age);
            Continues(cfg, t, t', WithLast(s, reserved, HeldPc(s, u)))
    ensures var w := |End(t).workers| - 1; t'.steps == t.steps + [Work(w, Reserve(u, End(t).clock)), Work(w, ReadClock)]
  {
    var s, worker := End(t), LastWorker(End(t));
    var hold := HoldOn(u, s.db.vault[u]);
    var reserved := ReserveRow(s.db, u, s.clock, worker.signature.age);
    WithLastTwice(s, reserved, Reserved(worker.pc.slot, worker.pc.excluded, worker.pc.tries, hold), reserved,
                  Timed(worker.pc.slot, worker.pc.excluded, worker.pc.tries, hold, s.clock));
    t' := MoveLast(cfg, t, Reserve(u, s.clock));
    t' := MoveLast(cfg, t', ReadClock);
  }

  /** After a while, the last worker commits. */
  lemma CommitByLastWorker(cfg: Settings, t: Trace, wait: nat) returns (t': Trace)
    requires IsRun(cfg, t) && End(t).workers != []
    requires CanMove(cfg, End(t), LastWorker(End(t)), Commit)
    ensures var s := End(t);
            var worker := LastWorker(s);
            var c := ClaimOf(worker.pc);
            var db := CommitReuse(cfg, s.db, worker.attempt, c, worker.pc.stamp, s.clock + wait);
            Continues(cfg, t, t', WithLast(s, db, Marking(worker.pc.slot, c.pool)).(clock := s.clock + wait))
    ensures Quietly(t, t')
  {
    t' := Extend(cfg, t, Pass(End(t).clock + wait, End(t).month));
    t' := MoveLast(cfg, t', Commit);
  }

  /** A worker that has reserved `u` and read its clock commits after a while;
      `s` is the state before. */
  lemma CommitHeld(cfg: Settings, t: Trace, s: State, u: Uid, wait: nat) returns (t': Trace)
    requires IsRun(cfg, t) && s.workers != [] && LastWorker(s).pc.Scanning? && u in s.db.vault
    requires LastWorker(s).attempt in s.db.attempts
    requires End(t) == WithLast(s, ReserveRow(s.db, u, s.clock, LastWorker(s).signature.age), HeldPc(s, u))
    requires MayCommit(cfg, s.db, LastWorker(s).attempt, ClaimOn(s.db, u, LastWorker(s).pc.slot.month), s.clock)
    ensures var worker := LastWorker(s);
            var c := ClaimOn(s.db, u, worker.pc.slot.month);
            var reserved := ReserveRow(s.db, u, s.clock, worker.signature.age);
            var db := CommitReuse(cfg, reserved, worker.attempt, c, s.clock, s.clock + wait);
            Continues(cfg, t, t', WithLast(s, db, Marking(worker.pc.slot, c.pool)).(clock := s.clock + wait))
  {
    var worker := LastWorker(s);
    var c, reserved := ClaimOn(s.db, u, worker.pc.slot.month), ReserveRow(s.db, u, s.clock, worker.signature.age);
    CommitIgnoresVault(cfg, s.db, worker.attempt, c, s.clock, u, s.clock, worker.signature.age);
    WithLastTwice(s, reserved, HeldPc(s, u), CommitReuse(cfg, reserved, worker.attempt, c, s.clock, s.clock + wait),
                  Marking(worker.pc.slot, c.pool));
    t' := CommitByLastWorker(cfg, t, wait);
  }

  /** The last worker reserves `u`, reads its clock, is held up for a while,
      and commits. */
  lemma ReuseByLastWorker(cfg: Settings, t: Trace, u: Uid, wait: nat) returns (t': Trace)
    requires IsRun(cfg, t) && End(t).workers != []
    requires var s := End(t);
             var worker := LastWorker(s);
             CanMove(cfg, s, worker, Reserve(u, s.clock)) &&
             MayCommit(cfg, s.db, worker.attempt, ClaimOn(s.db, u, worker.pc.slot.month), s.clock)
    ensures var s := End(t);
            var worker := LastWorker(s);
            var c := ClaimOn(s.db, u, worker.pc.slot.month);
            var reserved := ReserveRow(s.db, u, s.clock, worker.signature.age);
            var db := CommitReuse(cfg, reserved, worker.attempt, c, s.clock, s.clock + wait);
            Continues(cfg, t, t', WithLast(s, db, Marking(worker.pc.slot, c.pool)).(clock := s.clock + wait))
  {
    var held := ReserveByLastWorker(cfg, t, u);
    t' := CommitHeld(cfg, held, End(t), u, wait);
  }

  // ---- Targets and late attempts ----

  ghost predicate TargetsNeverFall(states: seq<State>) {
    forall m, n, k :: 0 <= m <= n < |states| ==> CounterAt(states[m].db, k).target <= CounterAt(states[n].db, k).target
  }

  ghost predicate WithinBudget(states: seq<State>) {
    forall n, k :: 0 <= n < |states| ==> CounterAt(states[n].db, k).claimed <= CounterAt(states[n].db, k).target
  }

  /** Some respondent passes the scope checks. */
  predicate Admits(policy: Policy) {
    policy.enabled && policy.ageGroups - {NoGroup} != {} && policy.genders * GENDERS != {}
  }

  function AgeIn(group: AgeGroup): nat
    requires group != NoGroup
    ensures AgeGroupOf(Some(AgeIn(group))) == group
  {
    match group
    case Ages13To17 => 13
    case Ages18To24 => 18
    case Ages25To29 => 25
    case Ages30To34 => 30
    case Ages35To39 => 35
    case Ages40To44 => 40
    case Ages45To49 => 45
    case Ages50To54 => 50
  }

  lemma AdmitsSomebody(policy: Policy) returns (signature: Signature)
    requires Admits(policy)
    ensures InScope(policy, signature)
  {
    var group :| group in policy.ageGroups - {NoGroup};
    var gender :| gender in policy.genders * GENDERS;
    signature := Signature("in", gender, Some(AgeIn(group)), map[]);
  }

  lemma InScopeIsAdmitted(policy: Policy, signature: Signature)
    requires InScope(policy, signature)
    ensures Admits(policy)
  {
    assert AgeGroupOf(signature.age) in policy.ageGroups - {NoGroup};
    assert signature.gender in policy.genders * GENDERS;
  }

  /** Counter rows belong to integrations that have surveys and admit somebody. */
  ghost predicate CountersHaveSurveys(cfg: Settings, db: Db) {
    forall k :: k in db.counters ==>
      Admits(cfg.policy(k.integration)) && exists survey :: cfg.integrationOf(survey) == k.integration
  }

  lemma MoveCountersHome(cfg: Settings, s: State, worker: Worker, move: Move)
    requires CanMove(cfg, s, worker, move) && WorkerOk(cfg, s, worker)
    ensures forall k :: k in MoveDb(cfg, s, worker, move).counters ==>
      k in s.db.counters || (k.integration == HomeOf(cfg, s.db, worker) && Admits(cfg.policy(k.integration)))
  {
    if move.Claim? {
      InScopeIsAdmitted(cfg.policy(HomeOf(cfg, s.db, worker)), worker.signature);
    }
  }

  lemma StepCountersHaveSurveys(cfg: Settings, s: State, step: Step)
    requires Enabled(cfg, s, step) && WorkersInv(cfg, s) && CountersHaveSurveys(cfg, s.db)
    ensures CountersHaveSurveys(cfg, Next(cfg, s, step).db)
  {
    if step.Work? {
      var worker := s.workers[step.w];
      assert WorkerOk(cfg, s, worker);
      assert cfg.integrationOf(s.db.attempts[worker.attempt].survey) == HomeOf(cfg, s.db, worker);
      MoveCountersHome(cfg, s, worker, step.move);
    }
  }

  lemma {:induction false} RunCountersHaveSurveys(cfg: Settings, states: seq<State>, steps: seq<Step>, n: nat)
    requires Run(cfg, states, steps) && n < |states|
    ensures CountersHaveSurveys(cfg, states[n].db)
  {
    if n > 0 {
      RunCountersHaveSurveys(cfg, states, steps, n - 1);
      RunKeepsInv(cfg, states, steps, n - 1);
      assert StepAt(cfg, states, steps, n - 1);
      StepCountersHaveSurveys(cfg, states[n - 1], steps[n - 1]);
    }
  }

  predicate Reusing(policy: Policy) {
    policy.percentage > 0 && Admits(policy)
  }

  /** No integration with surveys reuses anything. */
  ghost predicate NothingReused(cfg: Settings) {
    forall survey :: !Reusing(cfg.policy(cfg.integrationOf(survey)))
  }

  lemma NoTargets(cfg: Settings, states: seq<State>, steps: seq<Step>, n: nat, k: Slot)
    requires Run(cfg, states, steps) && n < |states| && NothingReused(cfg)
    ensures CounterAt(states[n].db, k).target == 0
  {
    RunKeepsInv(cfg, states, steps, n);
    RunCountersHaveSurveys(cfg, states, steps, n);
    assert TargetOk(cfg, states[n], k);
    if k in states[n].db.counters {
      var survey :| cfg.integrationOf(survey) == k.integration;
      assert !Reusing(cfg.policy(cfg.integrationOf(survey)));
    }
  }

  /** A claim lowers the stored target exactly when it reads less traffic of
      the previous month than the stored target is worth. */
  lemma ClaimLowersTargetIff(db: Db, k: Slot, percentage: nat, reading: Reading)
    requires k in db.counters && db.counters[k].target == Target(percentage, db.counters[k].baseline)
    ensures ClaimSlot(db, k, percentage, reading).0.counters[k].target < db.counters[k].target
        <==> reading.source == PreviousMonth && Target(percentage, reading.live) < db.counters[k].target
  {
    if reading.live > db.counters[k].baseline {
      TargetMonotone(percentage, db.counters[k].baseline, reading.live);
    }
  }

  function Crowd(survey: SurveyId, n: nat): map<AttemptId, Attempt> {
    map a: nat | a < n :: Attempt(survey, 1, a, None)
  }

  function Crowded(survey: SurveyId, n: nat): State {
    Init(0, 1).(db := Init(0, 1).db.(attempts := Crowd(survey, n)))
  }

  /** `n` attempts on a survey of a new integration, all in one month. */
  lemma {:induction false} CrowdRun(cfg: Settings, survey: SurveyId, n: nat) returns (t: Trace)
    ensures IsRun(cfg, t) && End(t) == Crowded(survey, n)
  {
    if n == 0 {
      t := Start(cfg, 0, 1);
      assert Crowd(survey, 0) == map[];
    } else {
      t := CrowdRun(cfg, survey, n - 1);
      assert Crowd(survey, n) == Crowd(survey, n - 1)[n - 1 := Attempt(survey, 1, n - 1, None)];
      t := Extend(cfg, t, NewAttempt(n - 1, survey, n - 1, 1));
    }
  }

  lemma {:induction false} CrowdSize(survey: SurveyId, n: nat)
    ensures |Crowd(survey, n).Keys| == n
  {
    if n > 0 {
      CrowdSize(survey, n - 1);
      assert Crowd(survey, n).Keys == Crowd(survey, n - 1).Keys + {n - 1};
    } else {
      assert Crowd(survey, 0).Keys == {};
    }
  }

  /** The crowd alone is read as this month's traffic. */
  lemma CrowdBaseline(cfg: Settings, survey: SurveyId, n: nat, db: Db)
    requires db.attempts == Crowd(survey, n)
    ensures Baseline(cfg, db, Slot(cfg.integrationOf(survey), 1)) == Reading(n, CurrentMonthBootstrap)
  {
    var i := cfg.integrationOf(survey);
    CrowdSize(survey, n);
    assert (set a | a in db.attempts && cfg.integrationOf(db.attempts[a].survey) == i && db.attempts[a].initiated == 0)
        == {};
    assert (set a | a in db.attempts && cfg.integrationOf(db.attempts[a].survey) == i && db.attempts[a].initiated >= 1)
        == Crowd(survey, n).Keys;
  }

  /** One late attempt of the previous month is read instead. */
  lemma LateBaseline(cfg: Settings, survey: SurveyId, n: nat, db: Db)
    requires db.attempts == Crowd(survey, n)[n := Attempt(survey, 0, n, None)]
    ensures Baseline(cfg, db, Slot(cfg.integrationOf(survey), 1)) == Reading(1, PreviousMonth)
  {
    var i := cfg.integrationOf(survey);
    assert (set a | a in db.attempts && cfg.integrationOf(db.attempts[a].survey) == i && db.attempts[a].initiated == 0)
        == {n};
  }

  /** Claims of the crowd, up to the target its traffic is worth. */
  lemma {:induction false} CrowdClaims(cfg: Settings, survey: SurveyId, signature: Signature, n: nat, claims: nat)
    returns (t: Trace)
    requires InScope(cfg.policy(cfg.integrationOf(survey)), signature)
    requires claims <= Target(cfg.policy(cfg.integrationOf(survey)).percentage, n)
    ensures var k := Slot(cfg.integrationOf(survey), 1);
            var target := Target(cfg.policy(k.integration).percentage, n);
            IsRun(cfg, t) && End(t).db.attempts == Crowd(survey, n) && End(t).month == 1 &&
            End(t).db.counters == if claims == 0 then map[] else map[k := Counter(n, target, claims, 0, 0)]
  {
    if claims == 0 {
      t := CrowdRun(cfg, survey, n);
    } else {
      t := CrowdClaims(cfg, survey, signature, n, claims - 1);
      CrowdBaseline(cfg, survey, n, End(t).db);
      t := ClaimByNewWorker(cfg, t, 0, signature);
    }
  }

  /** A bootstrap target, more claims than one attempt is worth, then one late
      attempt of the previous month. */
  lemma LateAttemptLowersTarget(cfg: Settings, survey: SurveyId) returns (t: Trace)
    requires cfg.lateAttempts && Reusing(cfg.policy(cfg.integrationOf(survey)))
    ensures IsRun(cfg, t) && !TargetsNeverFall(t.states) && !WithinBudget(t.states)
  {
    var n, i := 20_000, cfg.integrationOf(survey);
    var k, percentage := Slot(i, 1), cfg.policy(i).percentage;
    var signature := AdmitsSomebody(cfg.policy(i));
    t := CrowdClaims(cfg, survey, signature, n, Target(percentage, 1) + 1);
    var before := |t.states| - 1;
    t := Extend(cfg, t, NewAttempt(n, survey, n, 0));
    LateBaseline(cfg, survey, n, End(t).db);
    ClaimLowersTargetIff(End(t).db, k, percentage, Baseline(cfg, End(t).db, k));
    t := ClaimByNewWorker(cfg, t, 0, signature);
    var after := |t.states| - 1;
    assert CounterAt(t.states[after].db, k).target < CounterAt(t.states[before].db, k).target;
    assert CounterAt(t.states[after].db, k).claimed > CounterAt(t.states[after].db, k).target;
  }

  /** Exactly when stored targets never fall, in all runs of an installation:
      when no attempt is late, or nothing is reused at all. */
  lemma TargetsNeverFallIff(cfg: Settings)
    ensures (forall states: seq<State>, steps: seq<Step> :: Run(cfg, states, steps) ==> TargetsNeverFall(states))
        <==> !cfg.lateAttempts || NothingReused(cfg)
  {
    if !cfg.lateAttempts || NothingReused(cfg) {
      forall states: seq<State>, steps: seq<Step> | Run(cfg, states, steps) ensures TargetsNeverFall(states) {
        forall m, n, k | 0 <= m <= n < |states|
          ensures CounterAt(states[m].db, k).target <= CounterAt(states[n].db, k).target
        {
          if cfg.lateAttempts {
            NoTargets(cfg, states, steps, m, k);
          } else {
            TargetNeverFalls(cfg, states, steps, m, n, k);
          }
        }
      }
    } else {
      var survey :| Reusing(cfg.policy(cfg.integrationOf(survey)));
      var t := LateAttemptLowersTarget(cfg, survey);
      assert Run(cfg, t.states, t.steps) && !TargetsNeverFall(t.states);
    }
  }

  lemma MoveClaimsNothing(cfg: Settings, s: State, worker: Worker, move: Move, k: Slot)
    requires CanMove(cfg, s, worker, move) && WorkerOk(cfg, s, worker) && NothingReused(cfg)
    ensures CounterAt(MoveDb(cfg, s, worker, move), k).claimed <= CounterAt(s.db, k).claimed
  {
    assert !Reusing(cfg.policy(cfg.integrationOf(s.db.attempts[worker.attempt].survey)));
    if move.Claim? {
      InScopeIsAdmitted(cfg.policy(HomeOf(cfg, s.db, worker)), worker.signature);
    } else {
      MoveKeepsBudget(cfg, s, worker, move, k);
    }
  }

  lemma {:induction false} NoClaims(cfg: Settings, states: seq<State>, steps: seq<Step>, n: nat, k: Slot)
    requires Run(cfg, states, steps) && n < |states| && NothingReused(cfg)
    ensures CounterAt(states[n].db, k).claimed == 0
  {
    if n > 0 {
      NoClaims(cfg, states, steps, n - 1, k);
      RunKeepsInv(cfg, states, steps, n - 1);
      assert StepAt(cfg, states, steps, n - 1);
      if steps[n - 1].Work? {
        var worker := states[n - 1].workers[steps[n - 1].w];
        assert WorkerOk(cfg, states[n - 1], worker);
        MoveClaimsNothing(cfg, states[n - 1], worker, steps[n - 1].move, k);
      }
    }
  }

  /** The same condition is exact for the budget itself. */
  lemma WithinBudgetIff(cfg: Settings)
    ensures (forall states: seq<State>, steps: seq<Step> :: Run(cfg, states, steps) ==> WithinBudget(states))
        <==> !cfg.lateAttempts || NothingReused(cfg)
  {
    if !cfg.lateAttempts || NothingReused(cfg) {
      forall states: seq<State>, steps: seq<Step> | Run(cfg, states, steps) ensures WithinBudget(states) {
        forall n, k | 0 <= n < |states|
          ensures CounterAt(states[n].db, k).claimed <= CounterAt(states[n].db, k).target
        {
          if cfg.lateAttempts {
            NoClaims(cfg, states, steps, n, k);
          } else {
            RunKeepsInv(cfg, states, steps, n);
            assert TargetOk(cfg, states[n], k);
          }
        }
      }
    } else {
      var survey :| Reusing(cfg.policy(cfg.integrationOf(survey)));
      var t := LateAttemptLowersTarget(cfg, survey);
      assert Run(cfg, t.states, t.steps) && !WithinBudget(t.states);
    }
  }

  // ---- Reuses of one UID and delayed commits ----

  ghost predicate SameInterval(cfg: Settings, interval: nat) {
    forall i :: cfg.policy(i).minInterval == interval
  }

  /** How long the commits so far were held up between clock and insert. */
  ghost predicate DelayedBy(events: seq<Event>, lag: nat) {
    forall j :: 0 <= j < |events| ==> events[j].created - events[j].stamp <= lag
  }

  ghost predicate ReusesApart(events: seq<Event>, distance: nat) {
    forall i, j :: 0 <= i < j < |events| && SameProfile(events[i], events[j]) ==>
      events[j].created - events[i].created >= distance
  }

  lemma ApartWithin(cfg: Settings, states: seq<State>, steps: seq<Step>, k: nat, interval: nat, lag: nat)
    requires Run(cfg, states, steps) && k < |states| && SameInterval(cfg, interval)
    requires DelayedBy(states[k].db.events, lag)
    ensures ReusesApart(states[k].db.events, Positive(interval - lag))
  {
    RunKeepsInv(cfg, states, steps, k);
    var events := states[k].db.events;
    forall i, j | 0 <= i < j < |events| && SameProfile(events[i], events[j])
      ensures events[j].created - events[i].created >= Positive(interval - lag)
    {
      MinimumInterval(cfg, states, steps, k, i, j);
      assert SpacedOk(cfg, events[i], events[j]);
    }
  }

  /** An integration that may reuse everything twice. */
  function Generous(interval: nat): Settings {
    Settings(i => Policy(true, 10000, None, 0, interval, 2, 0, "", {Ages18To24}, GENDERS), survey => 0, false,
             Text(s => s, n => "", group => "", (attribute, value) => value, (dates, at) => None))
  }

  /** Three attempts on three surveys; the profile of the first is in the vault. */
  const VISITORS: map<AttemptId, Attempt> :=
    map[0 := Attempt(0, 0, 0, None), 1 := Attempt(1, 0, 1, None), 2 := Attempt(2, 0, 2, None)]

  const ANYBODY := Signature("in", "male", Some(20), map[])

  const PROFILE := VaultRow("", "in", "", "", "", "male", Some(20), Ages18To24, "", "", 0, map[], 1, None)

  lemma VisitorsRun(interval: nat) returns (t: Trace)
    ensures IsRun(Generous(interval), t)
    ensures End(t) == State(Db(VISITORS, map[], map[], {}, [], map[0 := PROFILE]), 0, 0, []) && QuietFrom(t, 0)
  {
    var cfg := Generous(interval);
    t := Start(cfg, 0, 0);
    t := Extend(cfg, t, NewAttempt(0, 0, 0, 0));
    t := Extend(cfg, t, NewAttempt(1, 1, 1, 0));
    t := Extend(cfg, t, NewAttempt(2, 2, 2, 0));
    t := Extend(cfg, t, Register(0, PROFILE));
  }

  lemma VisitorsBaseline(interval: nat, db: Db)
    requires db.attempts.Keys == {0, 1, 2} && forall a :: a in db.attempts ==> db.attempts[a].initiated == 0
    ensures Baseline(Generous(interval), db, Slot(0, 0)) == Reading(3, CurrentMonthBootstrap)
  {
    var cfg := Generous(interval);
    assert (set a | a in db.attempts && cfg.integrationOf(db.attempts[a].survey) == 0 && db.attempts[a].initiated >= 0)
        == {0, 1, 2};
  }

  /** A run in which the second of the three attempts claims a slot. */
  lemma FirstClaimRun(interval: nat) returns (t: Trace)
    ensures IsRun(Generous(interval), t)
    ensures End(t) == State(Db(VISITORS, map[Slot(0, 0) := Counter(3, 3, 1, 0, 0)], map[], {}, [], map[0 := PROFILE]),
                            0, 0, [Worker(1, ANYBODY, Scanning(Slot(0, 0), {}, 0))])
    ensures QuietFrom(t, 0)
  {
    t := VisitorsRun(interval);
    VisitorsBaseline(interval, End(t).db);
    t := ClaimByNewWorker(Generous(interval), t, 1, ANYBODY);
  }

  lemma VisitorReserves(interval: nat, s: State, worker: Worker)
    requires worker.attempt in s.db.attempts && s.db.attempts[worker.attempt].prescreener != 0
    requires worker.signature == ANYBODY && worker.pc.Scanning? && worker.pc.excluded == {}
    requires 0 in s.db.vault && s.db.vault[0].(usage := 1, lastReused := None) == PROFILE && s.clock >= 0
    requires var last := s.db.vault[0].lastReused; last.Some? ==> last.value <= s.clock - interval
    ensures CanMove(Generous(interval), s, worker, Reserve(0, s.clock))
  {
  }

  lemma FirstMayCommit(interval: nat, db: Db, c: Claimed, stamp: Instant)
    requires db == Db(VISITORS, db.counters, map[], {}, [], db.vault) && c.uid == 0
    ensures MayCommit(Generous(interval), db, 1, c, stamp)
  {
    assert db.attempts[1] == Attempt(1, 0, 1, None) && !UsedOnSurvey(db, 1, 1, 0);
  }

  lemma FirstReuseLeaves(interval: nat, db: Db, lag: nat)
    requires db == Db(VISITORS, db.counters, map[], {}, [], map[0 := PROFILE])
    ensures var reserved := ReserveRow(db, 0, 0, Some(20));
            CommitReuse(Generous(interval), reserved, 1, ClaimOn(db, 0, 0), 0, lag)
              == Db(VISITORS[1 := Attempt(1, 0, 1, Some(0))], db.counters, map[Profile(0, 0) := StateRow(Some(0), 1)],
                    {Usage(0, 1, 0)}, [Event(1, 1, 0, 0, lag, FirstReuse, 2, 0, 0)],
                    map[0 := PROFILE.(usage := 2, lastReused := Some(0))])
  {
  }

  /** A run in which that attempt then reserves the profile at once and commits
      it late. */
  lemma LateCommitRun(interval: nat, lag: nat) returns (t: Trace)
    ensures IsRun(Generous(interval), t) && End(t).clock == lag && End(t).month == 0
    ensures End(t).db.events == [Event(1, 1, 0, 0, lag, FirstReuse, 2, 0, 0)]
    ensures End(t).db.attempts == VISITORS[1 := Attempt(1, 0, 1, Some(0))]
    ensures End(t).db.counters == map[Slot(0, 0) := Counter(3, 3, 1, 0, 0)]
    ensures End(t).db.states == map[Profile(0, 0) := StateRow(Some(0), 1)] && End(t).db.usages == {Usage(0, 1, 0)}
    ensures End(t).db.vault == map[0 := PROFILE.(usage := 2, lastReused := Some(0))]
  {
    t := FirstClaimRun(interval);
    VisitorReserves(interval, End(t), LastWorker(End(t)));
    FirstMayCommit(interval, End(t).db, ClaimOn(End(t).db, 0, 0), 0);
    FirstReuseLeaves(interval, End(t).db, lag);
    t := ReuseByLastWorker(Generous(interval), t, 0, lag);
  }

  /** A run in which, later, the third attempt claims a slot as well. */
  lemma SecondClaimRun(interval: nat, lag: nat) returns (t: Trace)
    requires lag <= interval
    ensures IsRun(Generous(interval), t) && End(t).clock == interval && End(t).workers != []
    ensures LastWorker(End(t)) == Worker(2, ANYBODY, Scanning(Slot(0, 0), {}, 0))
    ensures End(t).db.events == [Event(1, 1, 0, 0, lag, FirstReuse, 2, 0, 0)]
    ensures End(t).db.attempts == VISITORS[1 := Attempt(1, 0, 1, Some(0))]
    ensures End(t).db.states == map[Profile(0, 0) := StateRow(Some(0), 1)] && End(t).db.usages == {Usage(0, 1, 0)}
    ensures End(t).db.vault == map[0 := PROFILE.(usage := 2, lastReused := Some(0))]
  {
    t := LateCommitRun(interval, lag);
    t := Extend(Generous(interval), t, Pass(interval, 0));
    VisitorsBaseline(interval, End(t).db);
    t := ClaimByNewWorker(Generous(interval), t, 2, ANYBODY);
  }

  lemma OneEventCounts(e: Event, p: Event -> bool)
    ensures CountIf([e], p) <= 1
  {
    CountAppend([], e, p);
  }

  lemma SecondIsNewThere(db: Db)
    requires db.attempts == VISITORS[1 := Attempt(1, 0, 1, Some(0))]
    ensures db.attempts[2] == Attempt(2, 0, 2, None) && !UsedOnSurvey(db, 2, 2, 0)
  {
  }

  lemma SecondMayCommit(interval: nat, lag: nat, db: Db, c: Claimed)
    requires db.attempts == VISITORS[1 := Attempt(1, 0, 1, Some(0))] && db.usages == {Usage(0, 1, 0)}
    requires db.events == [Event(1, 1, 0, 0, lag, FirstReuse, 2, 0, 0)]
    requires db.states == map[Profile(0, 0) := StateRow(Some(0), 1)] && c.uid == 0
    ensures MayCommit(Generous(interval), db, 2, c, interval)
  {
    SecondIsNewThere(db);
    OneEventCounts(db.events[0], Since(Profile(0, 0), interval));
    assert LockedState(db, Profile(0, 0)) == StateRow(Some(0), 1);
  }

  /** A run in which it reuses the same UID, one interval after the first
      clock reading. */
  lemma SecondReuseRun(interval: nat, lag: nat) returns (t: Trace)
    requires lag <= interval
    ensures IsRun(Generous(interval), t)
    ensures End(t).db.events ==
      [Event(1, 1, 0, 0, lag, FirstReuse, 2, 0, 0), Event(2, 2, 0, 0, interval, ReturningReuse, 3, interval, 0)]
  {
    t := SecondClaimRun(interval, lag);
    VisitorReserves(interval, End(t), LastWorker(End(t)));
    SecondMayCommit(interval, lag, End(t).db, ClaimOn(End(t).db, 0, 0));
    t := ReuseByLastWorker(Generous(interval), t, 0, 0);
  }

  /** In all runs with this minimum interval whose commits are delayed by no
      more than `lag`, reuses of a UID in an integration are at least
      `distance` apart exactly when the distance is no more than what the lag
      leaves of the interval. */
  lemma SpacingIff(interval: nat, lag: nat, distance: nat)
    ensures (forall cfg: Settings, states: seq<State>, steps: seq<Step>, k: nat ::
               Run(cfg, states, steps) && k < |states| && SameInterval(cfg, interval) &&
               DelayedBy(states[k].db.events, lag) ==>
                 ReusesApart(states[k].db.events, distance))
        <==> distance <= Positive(interval - lag)
  {
    if distance <= Positive(interval - lag) {
      forall cfg: Settings, states: seq<State>, steps: seq<Step>, k: nat |
          Run(cfg, states, steps) && k < |states| && SameInterval(cfg, interval) && DelayedBy(states[k].db.events, lag)
        ensures ReusesApart(states[k].db.events, distance)
      {
        ApartWithin(cfg, states, steps, k, interval, lag);
      }
    } else {
      var t := SecondReuseRun(interval, if lag <= interval then lag else interval);
      var k := |t.states| - 1;
      assert Run(Generous(interval), t.states, t.steps) && SameInterval(Generous(interval), interval);
      var events := t.states[k].db.events;
      assert SameProfile(events[0], events[1]) && events[1].created - events[0].created < distance;
      assert DelayedBy(events, lag) && !ReusesApart(events, distance);
    }
  }
}
