/** What every step of the allocator keeps.  Each invariant is proved for one
    worker's move on the tables, then for a step, then for every run. */
module ReuseInvariants {
  import opened Counting
  import opened ReuseModel
  import opened ReuseMachine

  // ---- 1. Rows only grow, finished months are fixed ----

  ghost predicate SameJourney(a: Attempt, b: Attempt) {
    a.survey == b.survey && a.prescreener == b.prescreener && a.initiated == b.initiated
  }

  /** Rows are never removed and what identifies them never changes. */
  ghost predicate Grows(db: Db, db': Db) {
    (forall a :: a in db.attempts ==> a in db'.attempts && SameJourney(db.attempts[a], db'.attempts[a])) &&
    (forall k :: k in db.counters ==> k in db'.counters) &&
    (forall u :: u in db.vault ==> u in db'.vault)
  }

  lemma MoveGrows(cfg: Settings, s: State, worker: Worker, move: Move)
    requires CanMove(cfg, s, worker, move)
    ensures Grows(s.db, MoveDb(cfg, s, worker, move))
    ensures MoveDb(cfg, s, worker, move).attempts.Keys == s.db.attempts.Keys
    ensures MoveDb(cfg, s, worker, move).vault.Keys == s.db.vault.Keys
  {
  }

  lemma StepGrows(cfg: Settings, s: State, step: Step)
    requires Enabled(cfg, s, step)
    ensures Grows(s.db, Next(cfg, s, step).db)
    ensures s.clock <= Next(cfg, s, step).clock && s.month <= Next(cfg, s, step).month
  {
    if step.Work? {
      MoveGrows(cfg, s, s.workers[step.w], step.move);
    }
  }

  /** Traffic of a finished month is fixed unless attempts may be late: others
      join the current month. */
  lemma PreviousAttemptsFixed(cfg: Settings, s: State, step: Step, k: Slot)
    requires Enabled(cfg, s, step) && k.month <= s.month && !cfg.lateAttempts
    ensures PreviousAttempts(cfg, Next(cfg, s, step).db, k) == PreviousAttempts(cfg, s.db, k)
  {
    if k.month > 0 {
      StepGrows(cfg, s, step);
      if step.Work? {
        MoveGrows(cfg, s, s.workers[step.w], step.move);
      }
      var db, db' := s.db, Next(cfg, s, step).db;
      var i, m := k.integration, k.month - 1;
      assert (set a | a in db'.attempts && cfg.integrationOf(db'.attempts[a].survey) == i &&
                      db'.attempts[a].initiated == m)
          == (set a | a in db.attempts && cfg.integrationOf(db.attempts[a].survey) == i &&
                      db.attempts[a].initiated == m);
    }
  }

  // ---- 2. Workers only hold what exists ----

  predicate InFlight(pc: Pc) {
    pc.Scanning? || pc.Reserved? || pc.Timed? || pc.Undoing? || pc.Marking? || pc.Failing?
  }

  predicate HasReservation(pc: Pc) {
    pc.Reserved? || pc.Timed? || pc.Undoing?
  }

  predicate Reads(pc: Pc) {
    pc.Dated? || pc.NoneBefore? || pc.Read?
  }

  ghost predicate ReadingOk(cfg: Settings, s: State, k: Slot, reading: Reading) {
    match reading.source
    case PreviousMonth => reading.live == PreviousAttempts(cfg, s.db, k) > 0
    case CurrentMonthBootstrap => PreviousAttempts(cfg, s.db, k) == 0
  }

  /** What has been counted of last month still holds. */
  ghost predicate BaselineOk(cfg: Settings, s: State, pc: Pc) {
    (pc.NoneBefore? ==> PreviousAttempts(cfg, s.db, pc.slot) == 0) &&
    (pc.Read? ==> ReadingOk(cfg, s, pc.slot, pc.reading))
  }

  /** Every failed try has excluded one more candidate. */
  ghost predicate TriesOk(pc: Pc) {
    (HasReservation(pc) ==> pc.hold.uid !in pc.excluded) &&
    (pc.Scanning? || HasReservation(pc) ==> pc.tries == |pc.excluded| < MAX_TRIES)
  }

  ghost predicate PcOk(cfg: Settings, s: State, home: IntegrationId, pc: Pc) {
    (Reads(pc) ==> pc.slot.integration == home && pc.slot.month <= s.month) &&
    (!cfg.lateAttempts ==> BaselineOk(cfg, s, pc)) &&
    (InFlight(pc) ==> pc.slot in s.db.counters && pc.slot.integration == home) &&
    (HasReservation(pc) ==> pc.hold.uid in s.db.vault) &&
    (pc.Timed? ==> pc.stamp <= s.clock) &&
    TriesOk(pc)
  }

  ghost predicate WorkerOk(cfg: Settings, s: State, worker: Worker) {
    worker.attempt in s.db.attempts && PcOk(cfg, s, HomeOf(cfg, s.db, worker), worker.pc) &&
    (Reads(worker.pc) || InFlight(worker.pc) ==> InScope(cfg.policy(HomeOf(cfg, s.db, worker)), worker.signature))
  }

  ghost predicate WorkersInv(cfg: Settings, s: State) {
    forall w :: 0 <= w < |s.workers| ==> WorkerOk(cfg, s, s.workers[w])
  }

  lemma BystanderOk(cfg: Settings, s: State, step: Step, worker: Worker)
    requires Enabled(cfg, s, step) && WorkerOk(cfg, s, worker)
    ensures WorkerOk(cfg, Next(cfg, s, step), worker)
  {
    StepGrows(cfg, s, step);
    if !cfg.lateAttempts && Reads(worker.pc) {
      PreviousAttemptsFixed(cfg, s, step, worker.pc.slot);
    }
  }

  lemma UndoTriesOk(pc: Pc)
    requires pc.Undoing? && TriesOk(pc)
    ensures TriesOk(AfterUndo(pc))
  {
    assert |pc.excluded + {pc.hold.uid}| == |pc.excluded| + 1;
  }

  lemma MoverTriesOk(cfg: Settings, s: State, worker: Worker, move: Move)
    requires CanMove(cfg, s, worker, move) && TriesOk(worker.pc)
    ensures TriesOk(MovePc(cfg, s, worker, move))
  {
    if move.Undo? {
      UndoTriesOk(worker.pc);
    }
  }

  lemma MoverReadsOk(cfg: Settings, s: State, worker: Worker, move: Move)
    requires CanMove(cfg, s, worker, move) && WorkerOk(cfg, s, worker)
    ensures var pc := MovePc(cfg, s, worker, move);
            Reads(pc) ==> pc.slot.integration == HomeOf(cfg, s.db, worker) && pc.slot.month <= s.month
    ensures !cfg.lateAttempts ==> BaselineOk(cfg, s, MovePc(cfg, s, worker, move))
  {
  }

  lemma MoverHoldsOk(cfg: Settings, s: State, worker: Worker, move: Move)
    requires CanMove(cfg, s, worker, move) && WorkerOk(cfg, s, worker)
    ensures var pc, db' := MovePc(cfg, s, worker, move), MoveDb(cfg, s, worker, move);
            (InFlight(pc) ==> pc.slot in db'.counters && pc.slot.integration == HomeOf(cfg, s.db, worker)) &&
            (HasReservation(pc) ==> pc.hold.uid in db'.vault) &&
            (pc.Timed? ==> pc.stamp <= s.clock)
  {
  }

  lemma MoverOk(cfg: Settings, s: State, w: nat, move: Move)
    requires Enabled(cfg, s, Work(w, move)) && WorkerOk(cfg, s, s.workers[w])
    ensures WorkerOk(cfg, Next(cfg, s, Work(w, move)), Next(cfg, s, Work(w, move)).workers[w])
  {
    var worker := s.workers[w];
    var pc := MovePc(cfg, s, worker, move);
    MoveGrows(cfg, s, worker, move);
    MoverTriesOk(cfg, s, worker, move);
    MoverReadsOk(cfg, s, worker, move);
    MoverHoldsOk(cfg, s, worker, move);
    if !cfg.lateAttempts && Reads(pc) {
      PreviousAttemptsFixed(cfg, s, Work(w, move), pc.slot);
    }
  }

  lemma StepKeepsWorkers(cfg: Settings, s: State, step: Step)
    requires Enabled(cfg, s, step) && WorkersInv(cfg, s)
    ensures WorkersInv(cfg, Next(cfg, s, step))
  {
    var s' := Next(cfg, s, step);
    forall w | 0 <= w < |s'.workers| ensures WorkerOk(cfg, s', s'.workers[w]) {
      if step.Work? && w == step.w {
        MoverOk(cfg, s, w, step.move);
      } else if w < |s.workers| {
        BystanderOk(cfg, s, step, s.workers[w]);
      }
    }
  }

  // ---- 3. Events belong to distinct attempts that carry their UID ----

  ghost predicate EventOk(cfg: Settings, db: Db, e: Event) {
    e.attempt in db.attempts && db.attempts[e.attempt].survey == e.survey &&
    cfg.integrationOf(e.survey) == e.integration &&
    db.attempts[e.attempt].provider == Some(e.uid) &&
    Usage(e.integration, e.survey, e.uid) in db.usages
  }

  ghost predicate EventsInv(cfg: Settings, db: Db) {
    (forall j :: 0 <= j < |db.events| ==> EventOk(cfg, db, db.events[j])) &&
    (forall j, k :: 0 <= j < k < |db.events| ==> db.events[j].attempt != db.events[k].attempt)
  }

  predicate Commits(step: Step) {
    step.Work? && step.move.Commit?
  }

  /** The event a commit appends. */
  function Appended(cfg: Settings, s: State, w: nat): Event
    requires Enabled(cfg, s, Work(w, Commit))
  {
    var worker := s.workers[w];
    NewEvent(cfg, s.db, worker.attempt, ClaimOf(worker.pc), worker.pc.stamp, s.clock)
  }

  lemma MoveLeavesEvents(cfg: Settings, s: State, worker: Worker, move: Move)
    requires CanMove(cfg, s, worker, move) && !move.Commit?
    ensures var db' := MoveDb(cfg, s, worker, move);
            db'.events == s.db.events && db'.states == s.db.states && db'.usages == s.db.usages
  {
  }

  lemma EventsGrow(cfg: Settings, s: State, step: Step)
    requires Enabled(cfg, s, step)
    ensures Next(cfg, s, step).db.events == s.db.events + if Commits(step) then [Appended(cfg, s, step.w)] else []
    ensures !Commits(step) ==>
      Next(cfg, s, step).db.states == s.db.states && Next(cfg, s, step).db.usages == s.db.usages
  {
    if step.Work? && !step.move.Commit? {
      MoveLeavesEvents(cfg, s, s.workers[step.w], step.move);
    }
  }

  /** A provider UID only ever comes from a commit. */
  lemma ProvidersKept(cfg: Settings, s: State, step: Step, a: AttemptId)
    requires Enabled(cfg, s, step) && EventsInv(cfg, s.db) && a in s.db.attempts
    requires !(Commits(step) && s.workers[step.w].attempt == a)
    ensures a in Next(cfg, s, step).db.attempts && Next(cfg, s, step).db.attempts[a] == s.db.attempts[a]
  {
    if step.Work? && step.move.Existing? {
      assert EventOk(cfg, s.db, s.db.events[FirstEvent(s.db.events, s.workers[step.w].attempt)]);
    }
  }

  lemma StepKeepsEvents(cfg: Settings, s: State, step: Step)
    requires Enabled(cfg, s, step) && EventsInv(cfg, s.db)
    ensures EventsInv(cfg, Next(cfg, s, step).db)
  {
    var s' := Next(cfg, s, step);
    EventsGrow(cfg, s, step);
    forall j | 0 <= j < |s.db.events| ensures EventOk(cfg, s'.db, s.db.events[j]) {
      assert EventOk(cfg, s.db, s.db.events[j]);
      assert HasEvent(s.db, s.db.events[j].attempt);
      ProvidersKept(cfg, s, step, s.db.events[j].attempt);
    }
  }

  // ---- 4. Identities on a survey ----

  ghost predicate Separate(a: Attempt, b: Attempt) {
    a.survey == b.survey ==> forall u :: !(a.Uses(u) && b.Uses(u))
  }

  ghost predicate IdentityInv(db: Db) {
    (forall a, b :: a in db.attempts && b in db.attempts && a != b ==>
       db.attempts[a].prescreener != db.attempts[b].prescreener && Separate(db.attempts[a], db.attempts[b])) &&
    (forall u :: u in db.vault ==> u in Uids(db)) &&
    (forall a :: a in db.attempts && db.attempts[a].provider.Some? ==>
       db.attempts[a].provider.value in db.vault && HasEvent(db, a))
  }

  lemma CommitSetsProvider(cfg: Settings, s: State, w: nat)
    requires Enabled(cfg, s, Work(w, Commit)) && WorkersInv(cfg, s)
    ensures var db' := Next(cfg, s, Work(w, Commit)).db;
            var a := s.workers[w].attempt;
            a in db'.attempts && db'.attempts[a].provider.Some? &&
            db'.attempts[a].provider.value in db'.vault && HasEvent(db', a)
  {
    var db' := Next(cfg, s, Work(w, Commit)).db;
    assert WorkerOk(cfg, s, s.workers[w]);
    assert db'.events[|s.db.events|].attempt == s.workers[w].attempt;
  }

  /** A new attempt has no provider UID. */
  lemma ProviderWasThere(cfg: Settings, s: State, step: Step, a: AttemptId)
    requires Enabled(cfg, s, step)
    requires a in Next(cfg, s, step).db.attempts && Next(cfg, s, step).db.attempts[a].provider.Some?
    ensures a in s.db.attempts
  {
    if step.Work? {
      MoveGrows(cfg, s, s.workers[step.w], step.move);
    }
  }

  lemma OldProviderKept(cfg: Settings, s: State, step: Step, a: AttemptId)
    requires Enabled(cfg, s, step) && IdentityInv(s.db) && EventsInv(cfg, s.db)
    requires a in Next(cfg, s, step).db.attempts && Next(cfg, s, step).db.attempts[a].provider.Some?
    requires !(Commits(step) && s.workers[step.w].attempt == a)
    ensures Next(cfg, s, step).db.attempts[a].provider.value in Next(cfg, s, step).db.vault
    ensures HasEvent(Next(cfg, s, step).db, a)
  {
    var s' := Next(cfg, s, step);
    StepGrows(cfg, s, step);
    EventsGrow(cfg, s, step);
    ProviderWasThere(cfg, s, step, a);
    ProvidersKept(cfg, s, step, a);
    assert s'.db.events[FirstEvent(s.db.events, a)].attempt == a;
  }

  lemma StepKeepsProvider(cfg: Settings, s: State, step: Step, a: AttemptId)
    requires Enabled(cfg, s, step) && IdentityInv(s.db) && EventsInv(cfg, s.db) && WorkersInv(cfg, s)
    requires a in Next(cfg, s, step).db.attempts && Next(cfg, s, step).db.attempts[a].provider.Some?
    ensures Next(cfg, s, step).db.attempts[a].provider.value in Next(cfg, s, step).db.vault
    ensures HasEvent(Next(cfg, s, step).db, a)
  {
    if Commits(step) && a == s.workers[step.w].attempt {
      CommitSetsProvider(cfg, s, step.w);
    } else {
      OldProviderKept(cfg, s, step, a);
    }
  }

  lemma StepKeepsRegistered(cfg: Settings, s: State, step: Step, u: Uid)
    requires Enabled(cfg, s, step) && IdentityInv(s.db) && u in Next(cfg, s, step).db.vault
    ensures u in Uids(Next(cfg, s, step).db)
  {
    var s' := Next(cfg, s, step);
    StepGrows(cfg, s, step);
    if u in s.db.vault {
      var a :| a in s.db.attempts && s.db.attempts[a].prescreener == u;
      assert a in s'.db.attempts && s'.db.attempts[a].prescreener == u;
    } else if step.Work? {
      MoveGrows(cfg, s, s.workers[step.w], step.move);
    } else {
      assert step.Register? && step.attempt in s'.db.attempts;
    }
  }

  lemma FreshUid(db: Db, u: Uid)
    requires IdentityInv(db) && u !in Uids(db)
    ensures forall a :: a in db.attempts ==> !db.attempts[a].Uses(u)
  {
  }

  lemma CommitSeparates(cfg: Settings, s: State, w: nat, a: AttemptId, b: AttemptId)
    requires Enabled(cfg, s, Work(w, Commit)) && IdentityInv(s.db)
    requires a in s.db.attempts && b in s.db.attempts && a != b
    ensures var t := Next(cfg, s, Work(w, Commit)).db.attempts;
            t[a].prescreener != t[b].prescreener && Separate(t[a], t[b])
  {
  }

  /** Only two steps bring a UID to a survey: creation with a fresh one, and a
      commit that has checked every other attempt there. */
  lemma StepSeparates(cfg: Settings, s: State, step: Step, a: AttemptId, b: AttemptId)
    requires Enabled(cfg, s, step) && IdentityInv(s.db) && EventsInv(cfg, s.db)
    requires a in Next(cfg, s, step).db.attempts && b in Next(cfg, s, step).db.attempts && a != b
    ensures var t := Next(cfg, s, step).db.attempts;
            t[a].prescreener != t[b].prescreener && Separate(t[a], t[b])
  {
    match step
    case NewAttempt(_, _, u, _) => FreshUid(s.db, u);
    case Work(w, move) =>
      MoveGrows(cfg, s, s.workers[w], move);
      var c := s.workers[w].attempt;
      if move.Commit? {
        CommitSeparates(cfg, s, w, a, b);
      } else {
        ProvidersKept(cfg, s, step, a);
        ProvidersKept(cfg, s, step, b);
      }
    case _ =>
  }

  lemma StepKeepsIdentities(cfg: Settings, s: State, step: Step)
    requires Enabled(cfg, s, step) && IdentityInv(s.db) && EventsInv(cfg, s.db) && WorkersInv(cfg, s)
    ensures IdentityInv(Next(cfg, s, step).db)
  {
    var db' := Next(cfg, s, step).db;
    forall a | a in db'.attempts && db'.attempts[a].provider.Some?
      ensures db'.attempts[a].provider.value in db'.vault && HasEvent(db', a)
    {
      StepKeepsProvider(cfg, s, step, a);
    }
    forall u | u in db'.vault ensures u in Uids(db') {
      StepKeepsRegistered(cfg, s, step, u);
    }
    forall a, b | a in db'.attempts && b in db'.attempts && a != b
      ensures db'.attempts[a].prescreener != db'.attempts[b].prescreener
      ensures Separate(db'.attempts[a], db'.attempts[b])
    {
      StepSeparates(cfg, s, step, a, b);
    }
  }

  // ---- 5. Time: stamps, state rows and the rolling window ----

  ghost predicate StateRowOk(db: Db, j: nat)
    requires j < |db.events|
  {
    var e := db.events[j];
    var p := Profile(e.integration, e.uid);
    p in db.states && db.states[p].last.Some? && e.stamp <= db.states[p].last.value
  }

  /** The check a commit made, seen from the events before it. */
  ghost predicate WindowOk(cfg: Settings, events: seq<Event>, k: nat)
    requires k < |events|
  {
    var e := events[k];
    var p := Profile(e.integration, e.uid);
    CountIf(events[..k], Since(p, e.stamp - cfg.policy(p.integration).window)) < cfg.policy(p.integration).maxUses
  }

  predicate SameProfile(e: Event, f: Event) {
    e.integration == f.integration && e.uid == f.uid
  }

  ghost predicate SpacedOk(cfg: Settings, e: Event, f: Event) {
    e.created <= f.created &&
    (SameProfile(e, f) ==> e.stamp + cfg.policy(e.integration).minInterval <= f.stamp)
  }

  /** A state row counts the events of its profile. */
  ghost predicate TotalsOk(db: Db) {
    forall p :: p in db.states ==> db.states[p].total == CountIf(db.events, Reuses(p))
  }

  ghost predicate TimeInv(cfg: Settings, s: State) {
    var events := s.db.events;
    (forall j :: 0 <= j < |events| ==> events[j].stamp <= events[j].created <= s.clock) &&
    (forall j, k :: 0 <= j < k < |events| ==> SpacedOk(cfg, events[j], events[k])) &&
    (forall j :: 0 <= j < |events| ==> StateRowOk(s.db, j)) &&
    (forall j :: 0 <= j < |events| ==> WindowOk(cfg, events, j)) &&
    TotalsOk(s.db)
  }

  /** One more event, checked against those before it. */
  lemma AppendKeepsWindows(cfg: Settings, events: seq<Event>, e: Event)
    requires forall j :: 0 <= j < |events| ==> WindowOk(cfg, events, j)
    requires WindowOk(cfg, events + [e], |events|)
    ensures forall j :: 0 <= j <= |events| ==> WindowOk(cfg, events + [e], j)
  {
    forall j | 0 <= j < |events| ensures WindowOk(cfg, events + [e], j) {
      assert WindowOk(cfg, events, j);
      assert (events + [e])[..j] == events[..j];
    }
  }

  /** The total of the committed profile moves with its events; every other
      total stays, and so do the events it counts. */
  lemma CommitCountsEvents(cfg: Settings, db: Db, a: AttemptId, c: Claimed, stamp: Instant, clock: Instant, p: Profile)
    requires a in db.attempts && TotalsOk(db) && p in CommitReuse(cfg, db, a, c, stamp, clock).states
    ensures var db' := CommitReuse(cfg, db, a, c, stamp, clock);
            db'.states[p].total == CountIf(db'.events, Reuses(p))
  {
    CountAppend(db.events, NewEvent(cfg, db, a, c, stamp, clock), Reuses(p));
  }

  lemma CommitKeepsTotals(cfg: Settings, db: Db, a: AttemptId, c: Claimed, stamp: Instant, clock: Instant)
    requires a in db.attempts && TotalsOk(db)
    ensures TotalsOk(CommitReuse(cfg, db, a, c, stamp, clock))
  {
    forall p | p in CommitReuse(cfg, db, a, c, stamp, clock).states
      ensures var db' := CommitReuse(cfg, db, a, c, stamp, clock);
              db'.states[p].total == CountIf(db'.events, Reuses(p))
    {
      CommitCountsEvents(cfg, db, a, c, stamp, clock, p);
    }
  }

  /** Stamps, spacing and state rows with one more event. */
  lemma CommitKeepsSpacing(cfg: Settings, s: State, w: nat, j: nat)
    requires Enabled(cfg, s, Work(w, Commit)) && TimeInv(cfg, s) && j < |s.db.events|
    ensures SpacedOk(cfg, s.db.events[j], Appended(cfg, s, w))
    ensures Next(cfg, s, Work(w, Commit)).db.events == s.db.events + [Appended(cfg, s, w)]
    ensures StateRowOk(Next(cfg, s, Work(w, Commit)).db, j)
  {
    assert StateRowOk(s.db, j);
  }

  lemma CommitWindowOk(cfg: Settings, s: State, w: nat)
    requires Enabled(cfg, s, Work(w, Commit))
    ensures WindowOk(cfg, s.db.events + [Appended(cfg, s, w)], |s.db.events|)
  {
    var events, e := s.db.events, Appended(cfg, s, w);
    assert (events + [e])[..|events|] == events;
  }

  lemma CommitKeepsTime(cfg: Settings, s: State, w: nat)
    requires Enabled(cfg, s, Work(w, Commit)) && WorkersInv(cfg, s) && TimeInv(cfg, s)
    ensures TimeInv(cfg, Next(cfg, s, Work(w, Commit)))
  {
    var s' := Next(cfg, s, Work(w, Commit));
    var events, e := s.db.events, Appended(cfg, s, w);
    assert s'.db.events == events + [e];
    assert WorkerOk(cfg, s, s.workers[w]);
    forall j | 0 <= j < |events| ensures SpacedOk(cfg, events[j], e) && StateRowOk(s'.db, j) {
      CommitKeepsSpacing(cfg, s, w, j);
    }
    CommitWindowOk(cfg, s, w);
    AppendKeepsWindows(cfg, events, e);
    var worker := s.workers[w];
    CommitKeepsTotals(cfg, s.db, worker.attempt, ClaimOf(worker.pc), worker.pc.stamp, s.clock);
  }

  lemma StepKeepsTime(cfg: Settings, s: State, step: Step)
    requires Enabled(cfg, s, step) && WorkersInv(cfg, s) && TimeInv(cfg, s)
    ensures TimeInv(cfg, Next(cfg, s, step))
  {
    EventsGrow(cfg, s, step);
    StepGrows(cfg, s, step);
    if Commits(step) {
      CommitKeepsTime(cfg, s, step.w);
    } else {
      var s' := Next(cfg, s, step);
      assert s'.db.events == s.db.events;
      forall j | 0 <= j < |s.db.events| ensures StateRowOk(s'.db, j) {
        assert StateRowOk(s.db, j);
      }
    }
  }

  // ---- 6. Vault accounting ----

  function HoldsUid(u: Uid): Worker -> bool {
    (worker: Worker) => HasReservation(worker.pc) && worker.pc.hold.uid == u
  }

  function One(b: bool): nat { if b then 1 else 0 }

  ghost predicate UidOk(s: State, u: Uid) {
    if u in s.db.vault then
      s.db.vault[u].usage == 1 + CountIf(s.db.events, EventOf(u)) + CountIf(s.workers, HoldsUid(u))
    else
      CountIf(s.db.events, EventOf(u)) == 0
  }

  ghost predicate VaultInv(s: State) {
    forall u :: UidOk(s, u)
  }

  /** A move shifts a worker's property; an arrival adds none. */
  lemma WorkersCount(cfg: Settings, s: State, step: Step, p: Worker -> bool)
    requires Enabled(cfg, s, step)
    requires step.Arrive? ==> !p(Worker(step.attempt, step.signature, Begin))
    ensures var s' := Next(cfg, s, step);
            if step.Work? then
              CountIf(s'.workers, p) + One(p(s.workers[step.w])) == CountIf(s.workers, p) + One(p(s'.workers[step.w]))
            else CountIf(s'.workers, p) == CountIf(s.workers, p)
    ensures step.Work? && p(s.workers[step.w]) ==> CountIf(s.workers, p) >= 1
  {
    match step
    case Arrive(a, signature) => CountAppend(s.workers, Worker(a, signature, Begin), p);
    case Work(w, move) =>
      CountUpdate(s.workers, w, s.workers[w].(pc := MovePc(cfg, s, s.workers[w], move)), p);
      if p(s.workers[w]) {
        CountAtLeastOne(s.workers, w, p);
      }
    case _ =>
  }

  /** A move changes a row's visits by what the worker takes up or puts down,
      and by the event it commits. */
  lemma MoveShiftsUsage(cfg: Settings, s: State, worker: Worker, move: Move, u: Uid)
    requires CanMove(cfg, s, worker, move) && u in s.db.vault
    requires HoldsUid(u)(worker) ==> s.db.vault[u].usage > 1
    ensures u in MoveDb(cfg, s, worker, move).vault
    ensures MoveDb(cfg, s, worker, move).vault[u].usage + One(HoldsUid(u)(worker))
         == s.db.vault[u].usage + One(HoldsUid(u)(worker.(pc := MovePc(cfg, s, worker, move))))
            + One(move.Commit? && worker.pc.hold.uid == u)
  {
    match move
    case Commit =>
    case Undo =>
    case Reserve(_, _) =>
    case _ =>
  }

  lemma UnknownUidUnheld(cfg: Settings, s: State, u: Uid)
    requires WorkersInv(cfg, s) && u !in s.db.vault
    ensures CountIf(s.workers, HoldsUid(u)) == 0
  {
    forall w | 0 <= w < |s.workers| ensures !HoldsUid(u)(s.workers[w]) {
      assert WorkerOk(cfg, s, s.workers[w]);
    }
    CountNone(s.workers, HoldsUid(u));
  }

  lemma StepKeepsUid(cfg: Settings, s: State, step: Step, u: Uid)
    requires Enabled(cfg, s, step) && WorkersInv(cfg, s) && UidOk(s, u)
    ensures UidOk(Next(cfg, s, step), u)
  {
    EventsGrow(cfg, s, step);
    WorkersCount(cfg, s, step, HoldsUid(u));
    if Commits(step) {
      CountAppend(s.db.events, Appended(cfg, s, step.w), EventOf(u));
    }
    if u !in s.db.vault {
      UnknownUidUnheld(cfg, s, u);
      if step.Work? {
        MoveGrows(cfg, s, s.workers[step.w], step.move);
        assert WorkerOk(cfg, s, s.workers[step.w]);
      }
    } else if step.Work? {
      MoveShiftsUsage(cfg, s, s.workers[step.w], step.move, u);
    }
  }

  lemma StepKeepsVault(cfg: Settings, s: State, step: Step)
    requires Enabled(cfg, s, step) && WorkersInv(cfg, s) && VaultInv(s)
    ensures VaultInv(Next(cfg, s, step))
  {
    forall u ensures UidOk(Next(cfg, s, step), u) {
      assert UidOk(s, u);
      StepKeepsUid(cfg, s, step, u);
    }
  }

  // ---- 7. Budget accounting ----

  function HoldsSlot(k: Slot): Worker -> bool {
    (worker: Worker) => InFlight(worker.pc) && worker.pc.slot == k
  }

  function Marks(k: Slot, pool: Pool): Worker -> bool {
    (worker: Worker) => worker.pc.Marking? && worker.pc.slot == k && worker.pc.pool == pool
  }

  function Pooled(c: Counter, pool: Pool): nat {
    if pool == FirstReuse then c.first else c.repeated
  }

  /** The stored target is the one the policy gives the stored baseline.  If
      no attempt is late, the baseline is last month's traffic whenever there
      was any, and the target covers the claims. */
  ghost predicate TargetOk(cfg: Settings, s: State, k: Slot) {
    var c := CounterAt(s.db, k);
    c.target == Target(cfg.policy(k.integration).percentage, c.baseline) &&
    (k in s.db.counters ==> k.month <= s.month) &&
    (!cfg.lateAttempts ==> c.claimed <= c.target) &&
    (!cfg.lateAttempts && k in s.db.counters && PreviousAttempts(cfg, s.db, k) > 0 ==>
       c.baseline == PreviousAttempts(cfg, s.db, k))
  }

  /** A missing counter row reads as zeros, so these hold for every key. */
  ghost predicate ClaimsOk(s: State, k: Slot) {
    var c := CounterAt(s.db, k);
    c.claimed == c.first + c.repeated + CountIf(s.workers, HoldsSlot(k))
  }

  ghost predicate PoolOk(s: State, k: Slot, pool: Pool) {
    Pooled(CounterAt(s.db, k), pool) + CountIf(s.workers, Marks(k, pool)) == CountIf(s.db.events, Charged(k, pool))
  }

  ghost predicate BudgetInv(cfg: Settings, s: State) {
    (forall k :: TargetOk(cfg, s, k)) && (forall k :: ClaimsOk(s, k)) && (forall k, pool :: PoolOk(s, k, pool))
  }

  /** A claim never lowers a stored target, however old its reading is. */
  lemma ClaimRaisesTarget(cfg: Settings, s: State, k: Slot, reading: Reading)
    requires ReadingOk(cfg, s, k, reading) && TargetOk(cfg, s, k) && !cfg.lateAttempts
    ensures CounterAt(s.db, k).baseline <= ClaimedBaseline(s.db, k, reading)
    ensures CounterAt(s.db, k).target <= Target(cfg.policy(k.integration).percentage, ClaimedBaseline(s.db, k, reading))
  {
    var percentage := cfg.policy(k.integration).percentage;
    TargetMonotone(percentage, CounterAt(s.db, k).baseline, ClaimedBaseline(s.db, k, reading));
  }

  lemma ClaimKeepsTarget(cfg: Settings, s: State, w: nat, k: Slot)
    requires Enabled(cfg, s, Work(w, Claim)) && WorkerOk(cfg, s, s.workers[w]) && TargetOk(cfg, s, k)
    ensures TargetOk(cfg, Next(cfg, s, Work(w, Claim)), k)
    ensures !cfg.lateAttempts ==> CounterAt(s.db, k).target <= CounterAt(Next(cfg, s, Work(w, Claim)).db, k).target
  {
    var pc := s.workers[w].pc;
    if !cfg.lateAttempts && k.month <= s.month {
      PreviousAttemptsFixed(cfg, s, Work(w, Claim), k);
    }
    if !cfg.lateAttempts && pc.slot == k {
      ClaimRaisesTarget(cfg, s, k, pc.reading);
    }
  }

  lemma MoveKeepsBudget(cfg: Settings, s: State, worker: Worker, move: Move, k: Slot)
    requires CanMove(cfg, s, worker, move) && !move.Claim?
    ensures var c, c' := CounterAt(s.db, k), CounterAt(MoveDb(cfg, s, worker, move), k);
            c'.baseline == c.baseline && c'.target == c.target && c'.claimed <= c.claimed
    ensures k in MoveDb(cfg, s, worker, move).counters <==> k in s.db.counters
  {
  }

  lemma MoveKeepsTarget(cfg: Settings, s: State, w: nat, move: Move, k: Slot)
    requires Enabled(cfg, s, Work(w, move)) && WorkerOk(cfg, s, s.workers[w]) && TargetOk(cfg, s, k)
    ensures TargetOk(cfg, Next(cfg, s, Work(w, move)), k)
    ensures !cfg.lateAttempts ==> CounterAt(s.db, k).target <= CounterAt(Next(cfg, s, Work(w, move)).db, k).target
  {
    if move.Claim? {
      ClaimKeepsTarget(cfg, s, w, k);
    } else {
      MoveKeepsBudget(cfg, s, s.workers[w], move, k);
      if !cfg.lateAttempts && k.month <= s.month {
        PreviousAttemptsFixed(cfg, s, Work(w, move), k);
      }
    }
  }

  lemma StepKeepsTarget(cfg: Settings, s: State, step: Step, k: Slot)
    requires Enabled(cfg, s, step) && WorkersInv(cfg, s) && TargetOk(cfg, s, k)
    ensures TargetOk(cfg, Next(cfg, s, step), k)
    ensures !cfg.lateAttempts ==> CounterAt(s.db, k).target <= CounterAt(Next(cfg, s, step).db, k).target
  {
    match step
    case Work(w, move) =>
      assert WorkerOk(cfg, s, s.workers[w]);
      MoveKeepsTarget(cfg, s, w, move, k);
    case _ =>
      if !cfg.lateAttempts && k in s.db.counters {
        PreviousAttemptsFixed(cfg, s, step, k);
      }
  }

  lemma ClaimShiftsClaims(db: Db, slot: Slot, percentage: nat, reading: Reading, k: Slot)
    ensures var (db', granted) := ClaimSlot(db, slot, percentage, reading);
            var c, c' := CounterAt(db, k), CounterAt(db', k);
            c'.first == c.first && c'.repeated == c.repeated &&
            c'.claimed == c.claimed + One(granted && k == slot)
  {
  }

  lemma MoveLeavesClaims(cfg: Settings, s: State, worker: Worker, move: Move, k: Slot)
    requires CanMove(cfg, s, worker, move) && !move.Claim? && !move.Mark? && !move.Release?
    ensures MoveDb(cfg, s, worker, move).counters == s.db.counters
    ensures HoldsSlot(k)(worker.(pc := MovePc(cfg, s, worker, move))) == HoldsSlot(k)(worker)
  {
  }

  /** What a move does to one counter row, beside what the worker then holds. */
  lemma MoveShiftsClaims(cfg: Settings, s: State, worker: Worker, move: Move, k: Slot)
    requires CanMove(cfg, s, worker, move) && WorkerOk(cfg, s, worker)
    requires HoldsSlot(k)(worker) ==> CounterAt(s.db, k).claimed > 0
    ensures var c, c' := CounterAt(s.db, k), CounterAt(MoveDb(cfg, s, worker, move), k);
            var worker' := worker.(pc := MovePc(cfg, s, worker, move));
            c'.claimed + c.first + c.repeated + One(HoldsSlot(k)(worker))
              == c.claimed + c'.first + c'.repeated + One(HoldsSlot(k)(worker'))
  {
    if move.Claim? {
      ClaimShiftsClaims(s.db, worker.pc.slot, cfg.policy(worker.pc.slot.integration).percentage, worker.pc.reading, k);
    } else if !move.Mark? && !move.Release? {
      MoveLeavesClaims(cfg, s, worker, move, k);
    }
  }

  lemma MoveShiftsPool(cfg: Settings, s: State, worker: Worker, move: Move, k: Slot, pool: Pool)
    requires CanMove(cfg, s, worker, move) && WorkerOk(cfg, s, worker)
    ensures var c, c' := CounterAt(s.db, k), CounterAt(MoveDb(cfg, s, worker, move), k);
            var worker' := worker.(pc := MovePc(cfg, s, worker, move));
            Pooled(c', pool) + One(Marks(k, pool)(worker')) == Pooled(c, pool) + One(Marks(k, pool)(worker))
              + One(move.Commit? && worker.pc.slot == k && worker.pc.hold.pool == pool)
  {
  }

  lemma StepKeepsClaims(cfg: Settings, s: State, step: Step, k: Slot)
    requires Enabled(cfg, s, step) && WorkersInv(cfg, s) && ClaimsOk(s, k)
    ensures ClaimsOk(Next(cfg, s, step), k)
  {
    WorkersCount(cfg, s, step, HoldsSlot(k));
    if step.Work? {
      assert WorkerOk(cfg, s, s.workers[step.w]);
      MoveShiftsClaims(cfg, s, s.workers[step.w], step.move, k);
    }
  }

  lemma StepKeepsPool(cfg: Settings, s: State, step: Step, k: Slot, pool: Pool)
    requires Enabled(cfg, s, step) && WorkersInv(cfg, s) && PoolOk(s, k, pool)
    ensures PoolOk(Next(cfg, s, step), k, pool)
  {
    WorkersCount(cfg, s, step, Marks(k, pool));
    EventsGrow(cfg, s, step);
    if step.Work? {
      assert WorkerOk(cfg, s, s.workers[step.w]);
      MoveShiftsPool(cfg, s, s.workers[step.w], step.move, k, pool);
    }
    if Commits(step) {
      CountAppend(s.db.events, Appended(cfg, s, step.w), Charged(k, pool));
    }
  }

  lemma StepKeepsBudget(cfg: Settings, s: State, step: Step)
    requires Enabled(cfg, s, step) && WorkersInv(cfg, s) && BudgetInv(cfg, s)
    ensures BudgetInv(cfg, Next(cfg, s, step))
  {
    var s' := Next(cfg, s, step);
    forall k ensures TargetOk(cfg, s', k) {
      assert TargetOk(cfg, s, k);
      StepKeepsTarget(cfg, s, step, k);
    }
    forall k ensures ClaimsOk(s', k) {
      assert ClaimsOk(s, k);
      StepKeepsClaims(cfg, s, step, k);
    }
    forall k, pool ensures PoolOk(s', k, pool) {
      assert PoolOk(s, k, pool);
      StepKeepsPool(cfg, s, step, k, pool);
    }
  }

  // ---- Every reachable state ----

  ghost predicate Inv(cfg: Settings, s: State) {
    WorkersInv(cfg, s) && IdentityInv(s.db) && EventsInv(cfg, s.db) &&
    TimeInv(cfg, s) && BudgetInv(cfg, s) && VaultInv(s)
  }

  lemma InitInv(cfg: Settings, clock: Instant, month: Month)
    ensures Inv(cfg, Init(clock, month))
  {
  }

  lemma StepKeepsInv(cfg: Settings, s: State, step: Step)
    requires Inv(cfg, s) && Enabled(cfg, s, step)
    ensures Inv(cfg, Next(cfg, s, step))
  {
    StepKeepsWorkers(cfg, s, step);
    StepKeepsIdentities(cfg, s, step);
    StepKeepsEvents(cfg, s, step);
    StepKeepsTime(cfg, s, step);
    StepKeepsBudget(cfg, s, step);
    StepKeepsVault(cfg, s, step);
  }

  lemma {:induction false} RunKeepsInv(cfg: Settings, states: seq<State>, steps: seq<Step>, k: nat)
    requires Run(cfg, states, steps) && k < |states|
    ensures Inv(cfg, states[k])
  {
    if k == 0 {
      InitInv(cfg, states[0].clock, states[0].month);
    } else {
      RunKeepsInv(cfg, states, steps, k - 1);
      assert StepAt(cfg, states, steps, k - 1);
      StepKeepsInv(cfg, states[k - 1], steps[k - 1]);
    }
  }
}
