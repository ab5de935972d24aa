/** The allocator as an interleaving of its transactions.  Each worker runs
    `maybe_assign_reusable_profile` for one attempt; between any two of its
    steps the scheduler may run any other worker, let time pass, create
    attempts or register profiles.  A worker that dies is one that is never
    scheduled again, so every claim about reachable states covers crashes. */
module ReuseMachine {
  import opened Counting
  import opened ReuseModel

  const MAX_TRIES := 5

  /** A reservation taken from the vault and not yet committed or undone. */
  datatype Hold = Hold(uid: Uid, previous: Option<Instant>, pool: Pool, usageNumber: nat)

  datatype Pc =
    | Begin
    | Dated(slot: Slot)
    | NoneBefore(slot: Slot)
    | Read(slot: Slot, reading: Reading)
    | Scanning(slot: Slot, excluded: set<Uid>, tries: nat)
    | Reserved(slot: Slot, excluded: set<Uid>, tries: nat, hold: Hold)
    | Timed(slot: Slot, excluded: set<Uid>, tries: nat, hold: Hold, stamp: Instant)
    | Undoing(slot: Slot, excluded: set<Uid>, tries: nat, hold: Hold)
    | Marking(slot: Slot, pool: Pool)
    | Failing(slot: Slot)
    | Finished(reused: bool)

  datatype Worker = Worker(attempt: AttemptId, signature: Signature, pc: Pc)

  datatype State = State(db: Db, clock: Instant, month: Month, workers: seq<Worker>)

  /** One transaction, or one clock or table read, of a worker. */
  datatype Move =
    | Existing
    | Decline
    | ReadMonth
    | CountPrevious
    | CountCurrent
    | Claim
    | Reserve(choice: Uid, at: Instant)
    | GiveUp
    | ReadClock
    | Commit
    | Conflict
    | Undo
    | Mark
    | Release

  datatype Step =
    | Pass(clock: Instant, month: Month)
    | NewAttempt(attempt: AttemptId, survey: SurveyId, uid: Uid, initiated: Month)
    | Register(attempt: AttemptId, row: VaultRow)
    | Arrive(attempt: AttemptId, signature: Signature)
    | Work(w: nat, move: Move)

  function Init(clock: Instant, month: Month): State {
    State(Db(map[], map[], map[], {}, [], map[]), clock, month, [])
  }

  function Uids(db: Db): set<Uid> {
    set a | a in db.attempts :: db.attempts[a].prescreener
  }

  function HomeOf(cfg: Settings, db: Db, worker: Worker): IntegrationId
    requires worker.attempt in db.attempts
  {
    cfg.integrationOf(db.attempts[worker.attempt].survey)
  }

  function ClaimOf(pc: Pc): Claimed
    requires pc.Reserved? || pc.Timed? || pc.Undoing?
  {
    Claimed(pc.hold.uid, pc.hold.pool, pc.hold.usageNumber, pc.slot.month)
  }

  /** A vault row that the candidate query and the exact match let through.
      The query's two extra reads of the operational database may be stale by
      the time the row is updated, so no claim about the machine uses them. */
  predicate Reservable(cfg: Settings, s: State, worker: Worker, u: Uid, at: Instant)
    requires worker.attempt in s.db.attempts && worker.pc.Scanning?
  {
    u in s.db.vault && at <= s.clock &&
    PassesFilter(cfg.policy(HomeOf(cfg, s.db, worker)), s.db.vault[u], u, s.db.attempts[worker.attempt].prescreener,
                 worker.signature, worker.pc.excluded, at) &&
    MatchesAll(CandidateDimensions(cfg.text, s.db.vault[u], at), worker.signature.required)
  }

  /** When a worker may make a move.  A conflict may also come from the
      database itself, so Conflict is not limited to failed checks. */
  predicate CanMove(cfg: Settings, s: State, worker: Worker, move: Move) {
    worker.attempt in s.db.attempts &&
    match move
    case Existing =>
      worker.pc.Begin? && cfg.policy(HomeOf(cfg, s.db, worker)).enabled && HasEvent(s.db, worker.attempt)
    case Decline => worker.pc.Begin? && !InScope(cfg.policy(HomeOf(cfg, s.db, worker)), worker.signature)
    case ReadMonth => worker.pc.Begin? && InScope(cfg.policy(HomeOf(cfg, s.db, worker)), worker.signature)
    case CountPrevious => worker.pc.Dated?
    case CountCurrent => worker.pc.NoneBefore?
    case Claim => worker.pc.Read?
    case Reserve(u, at) => worker.pc.Scanning? && Reservable(cfg, s, worker, u, at)
    case GiveUp => worker.pc.Scanning?
    case ReadClock => worker.pc.Reserved?
    case Commit => worker.pc.Timed? && MayCommit(cfg, s.db, worker.attempt, ClaimOf(worker.pc), worker.pc.stamp)
    case Conflict => worker.pc.Timed?
    case Undo => worker.pc.Undoing?
    case Mark => worker.pc.Marking?
    case Release => worker.pc.Failing?
  }

  function FirstEvent(events: seq<Event>, a: AttemptId): (j: nat)
    requires exists j :: 0 <= j < |events| && events[j].attempt == a
    ensures j < |events| && events[j].attempt == a
  {
    if events[0].attempt == a then 0
    else
      assert exists j :: 0 <= j < |events[1..]| && events[1..][j].attempt == a by {
        var j :| 0 <= j < |events| && events[j].attempt == a;
        assert events[1..][j - 1].attempt == a;
      }
      1 + FirstEvent(events[1..], a)
  }

  function Granted(cfg: Settings, db: Db, pc: Pc): (Db, bool)
    requires pc.Read?
  {
    ClaimSlot(db, pc.slot, cfg.policy(pc.slot.integration).percentage, pc.reading)
  }

  /** The tables after a move. */
  function MoveDb(cfg: Settings, s: State, worker: Worker, move: Move): Db
    requires CanMove(cfg, s, worker, move)
  {
    var db, a, pc := s.db, worker.attempt, worker.pc;
    match move
    case Existing =>
      db.(attempts := db.attempts[a := db.attempts[a].(provider := Some(db.events[FirstEvent(db.events, a)].uid))])
    case Claim => Granted(cfg, db, pc).0
    case Reserve(u, at) => ReserveRow(db, u, at, worker.signature.age)
    case Commit => CommitReuse(cfg, db, a, ClaimOf(pc), pc.stamp, s.clock)
    case Undo => UndoRow(db, pc.hold.uid, pc.hold.previous)
    case Mark => MarkPool(db, pc.slot, pc.pool)
    case Release => ReleaseSlot(db, pc.slot)
    case _ => db
  }

  /** The failed candidate is excluded; the fifth failure ends the search. */
  function AfterUndo(pc: Pc): Pc
    requires pc.Undoing?
  {
    if pc.tries + 1 < MAX_TRIES then Scanning(pc.slot, pc.excluded + {pc.hold.uid}, pc.tries + 1) else Failing(pc.slot)
  }

  /** What a worker remembers of the row it reserves. */
  function HoldOn(u: Uid, row: VaultRow): Hold {
    Hold(u, row.lastReused, if row.usage + 1 == 2 then FirstReuse else ReturningReuse, row.usage + 1)
  }

  /** Where the worker stands after a move. */
  function MovePc(cfg: Settings, s: State, worker: Worker, move: Move): Pc
    requires CanMove(cfg, s, worker, move)
  {
    var pc := worker.pc;
    match move
    case Existing => Finished(true)
    case Decline => Finished(false)
    case ReadMonth => Dated(Slot(HomeOf(cfg, s.db, worker), s.month))
    case CountPrevious =>
      var previous := PreviousAttempts(cfg, s.db, pc.slot);
      if previous > 0 then Read(pc.slot, Reading(previous, PreviousMonth)) else NoneBefore(pc.slot)
    case CountCurrent =>
      Read(pc.slot, Reading(AttemptsFrom(cfg, s.db, pc.slot.integration, pc.slot.month), CurrentMonthBootstrap))
    case Claim => if Granted(cfg, s.db, pc).1 then Scanning(pc.slot, {}, 0) else Finished(false)
    case Reserve(u, _) => Reserved(pc.slot, pc.excluded, pc.tries, HoldOn(u, s.db.vault[u]))
    case GiveUp => Failing(pc.slot)
    case ReadClock => Timed(pc.slot, pc.excluded, pc.tries, pc.hold, s.clock)
    case Commit => Marking(pc.slot, pc.hold.pool)
    case Conflict => Undoing(pc.slot, pc.excluded, pc.tries, pc.hold)
    case Undo => AfterUndo(pc)
    case Mark => Finished(true)
    case Release => Finished(false)
  }

  predicate Enabled(cfg: Settings, s: State, step: Step) {
    match step
    case Pass(clock, month) => s.clock <= clock && s.month <= month
    case NewAttempt(a, _, u, m) =>
      a !in s.db.attempts && u !in Uids(s.db) && m <= s.month && (m == s.month || cfg.lateAttempts)
    case Register(a, row) => a in s.db.attempts && s.db.attempts[a].prescreener !in s.db.vault && row.usage == 1
    case Arrive(a, _) => a in s.db.attempts
    case Work(w, move) => w < |s.workers| && CanMove(cfg, s, s.workers[w], move)
  }

  function Next(cfg: Settings, s: State, step: Step): State
    requires Enabled(cfg, s, step)
  {
    match step
    case Pass(clock, month) => s.(clock := clock, month := month)
    case NewAttempt(a, survey, u, m) =>
      s.(db := s.db.(attempts := s.db.attempts[a := Attempt(survey, m, u, None)]))
    case Register(a, row) => s.(db := s.db.(vault := s.db.vault[s.db.attempts[a].prescreener := row]))
    case Arrive(a, signature) => s.(workers := s.workers + [Worker(a, signature, Begin)])
    case Work(w, move) =>
      s.(db := MoveDb(cfg, s, s.workers[w], move),
         workers := s.workers[w := s.workers[w].(pc := MovePc(cfg, s, s.workers[w], move))])
  }

  ghost predicate StepAt(cfg: Settings, states: seq<State>, steps: seq<Step>, k: nat)
    requires |states| == |steps| + 1 && k < |steps|
  {
    Enabled(cfg, states[k], steps[k]) && states[k + 1] == Next(cfg, states[k], steps[k])
  }

  /** `states` is an execution: it starts empty and each state follows from
      the one before by some enabled step. */
  ghost predicate Run(cfg: Settings, states: seq<State>, steps: seq<Step>) {
    |states| == |steps| + 1 && states[0] == Init(states[0].clock, states[0].month) &&
    forall k :: 0 <= k < |steps| ==> StepAt(cfg, states, steps, k)
  }
}
