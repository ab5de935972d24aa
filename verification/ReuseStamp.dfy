/** The stamp of one vault row while several workers reserve it and take their
    reservations back (prescreener_vault/reuse.py): an undo writes the stamp
    its own reservation found, whoever has reserved the row since. */
module ReuseStamp {
  import opened Counting
  import opened ReuseModel
  import opened ReuseMachine
  import opened ReuseInvariants
  import opened ReuseTheorems
  import opened ReuseStore
  import opened ReuseLimits

  /** A reservation at some time, or the undo of an earlier one, named by its
      position.  A committed reservation is one that is never undone. */
  datatype Visit = Taken(at: Instant, age: Option<nat>) | Returned(of: nat)

  /** Reservation `j` has not been taken back. */
  ghost predicate Standing(log: seq<Visit>, j: nat): (stands: bool)
    ensures stands ==> j < |log| && log[j].Taken?
    decreases |log|
  {
    log != [] &&
    var n := |log| - 1;
    if j == n then log[n].Taken? else Standing(log[..n], j) && log[n] != Returned(j)
  }

  /** An undo takes back a reservation that stands. */
  ghost predicate Possible(log: seq<Visit>)
    decreases |log|
  {
    log != [] ==>
      var n := |log| - 1;
      Possible(log[..n]) && (log[n].Returned? ==> Standing(log[..n], log[n].of))
  }

  lemma {:induction false} PossiblePrefix(log: seq<Visit>, n: nat)
    requires Possible(log) && n <= |log|
    ensures Possible(log[..n])
    decreases |log|
  {
    if n == |log| {
      TakeAll(log);
    } else {
      PossiblePrefix(log[..|log| - 1], n);
      assert log[..|log| - 1][..n] == log[..n];
    }
  }

  // ---- What the transactions leave ----

  ghost function TableAfter(db: Db, u: Uid, log: seq<Visit>): Db
    requires u in db.vault && Possible(log)
    ensures u in TableAfter(db, u, log).vault
    decreases |log|
  {
    if log == [] then db
    else
      var n := |log| - 1;
      match log[n]
      case Taken(at, age) => ReserveRow(TableAfter(db, u, log[..n]), u, at, age)
      case Returned(j) =>
        PossiblePrefix(log, j);
        UndoRow(TableAfter(db, u, log[..n]), u, TableAfter(db, u, log[..j]).vault[u].lastReused)
  }

  ghost function Stamp(start: Option<Instant>, log: seq<Visit>): Option<Instant>
    requires Possible(log)
    decreases |log|
  {
    if log == [] then start
    else
      match log[|log| - 1]
      case Taken(at, _) => Some(at)
      case Returned(j) => PossiblePrefix(log, j); Stamp(start, log[..j])
  }

  ghost function StandingSet(log: seq<Visit>): set<nat> {
    set j: nat | j < |log| && Standing(log, j)
  }

  lemma StandingNext(log: seq<Visit>, visit: Visit, j: nat)
    ensures Standing(log + [visit], j) <==>
      if visit.Taken? then Standing(log, j) || j == |log| else Standing(log, j) && j != visit.of
  {
    assert (log + [visit])[..|log|] == log;
  }

  lemma StandingCount(log: seq<Visit>, visit: Visit)
    requires visit.Returned? ==> Standing(log, visit.of)
    ensures |StandingSet(log + [visit])| == |StandingSet(log)| + if visit.Taken? then 1 else -1
    ensures visit.Returned? ==> |StandingSet(log)| >= 1
  {
    forall j: nat ensures Standing(log + [visit], j) <==>
      if visit.Taken? then Standing(log, j) || j == |log| else Standing(log, j) && j != visit.of
    {
      StandingNext(log, visit, j);
    }
    if visit.Taken? {
      assert StandingSet(log + [visit]) == StandingSet(log) + {|log|};
    } else {
      assert visit.of in StandingSet(log);
      assert StandingSet(log + [visit]) == StandingSet(log) - {visit.of};
    }
  }

  /** In any order of undos the count is right: one visit for each reservation
      that stands.  The stamp is the one of `Stamp`. */
  lemma {:induction false} RowAfterLog(db: Db, u: Uid, log: seq<Visit>)
    requires u in db.vault && db.vault[u].usage >= 1 && Possible(log)
    ensures TableAfter(db, u, log).vault[u].usage == db.vault[u].usage + |StandingSet(log)|
    ensures TableAfter(db, u, log).vault[u].lastReused == Stamp(db.vault[u].lastReused, log)
    decreases |log|
  {
    if log == [] {
      assert StandingSet(log) == {};
    } else {
      var n := |log| - 1;
      SplitLast(log);
      RowAfterLog(db, u, log[..n]);
      StandingCount(log[..n], log[n]);
      if log[n].Returned? {
        PossiblePrefix(log, log[n].of);
        RowAfterLog(db, u, log[..log[n].of]);
      }
    }
  }

  // ---- Whose stamp it is ----

  /** The latest reservation that stands. */
  ghost predicate Latest(log: seq<Visit>, j: nat) {
    Standing(log, j) && forall l: nat :: Standing(log, l) ==> l <= j
  }

  /** The stamp is the latest standing reservation's, or the first one. */
  ghost predicate StampOk(start: Option<Instant>, log: seq<Visit>)
    requires Possible(log)
  {
    (forall j: nat :: Latest(log, j) ==> Stamp(start, log) == Some(log[j].at)) &&
    ((forall j: nat :: !Standing(log, j)) ==> Stamp(start, log) == start)
  }

  /** The same after each visit. */
  ghost predicate AlwaysOk(start: Option<Instant>, log: seq<Visit>)
    requires Possible(log)
    decreases |log|
  {
    StampOk(start, log) && (log != [] ==> AlwaysOk(start, log[..|log| - 1]))
  }

  /** Every undo takes back the latest reservation that stands. */
  ghost predicate LastInFirstOut(log: seq<Visit>)
    decreases |log|
  {
    log != [] ==>
      var n := |log| - 1;
      LastInFirstOut(log[..n]) && (log[n].Returned? ==> Latest(log[..n], log[n].of))
  }

  /** Clock readings of the reservations differ, and rise. */
  ghost predicate Rising(start: Option<Instant>, log: seq<Visit>) {
    (forall i, k :: 0 <= i < k < |log| && log[i].Taken? && log[k].Taken? ==> log[i].at < log[k].at) &&
    (start.Some? ==> forall k :: 0 <= k < |log| && log[k].Taken? ==> start.value < log[k].at)
  }

  lemma {:induction false} StandingEarlier(log: seq<Visit>, j: nat, k: nat)
    requires Standing(log, j) && j < k <= |log|
    ensures Standing(log[..k], j)
    decreases |log|
  {
    if k == |log| {
      TakeAll(log);
    } else {
      StandingEarlier(log[..|log| - 1], j, k);
      assert log[..|log| - 1][..k] == log[..k];
    }
  }

  lemma {:induction false} LastInFirstOutPrefix(log: seq<Visit>, n: nat)
    requires LastInFirstOut(log) && n <= |log|
    ensures LastInFirstOut(log[..n])
    decreases |log|
  {
    if n == |log| {
      TakeAll(log);
    } else {
      LastInFirstOutPrefix(log[..|log| - 1], n);
      assert log[..|log| - 1][..n] == log[..n];
    }
  }

  /** While a later reservation stands, the earlier ones keep standing. */
  lemma {:induction false} EarlierKeepStanding(log: seq<Visit>, j: nat, l: nat)
    requires LastInFirstOut(log) && Standing(log, j) && l < j && Standing(log[..j], l)
    ensures Standing(log, l)
    decreases |log|
  {
    var n := |log| - 1;
    if j < n {
      assert log[..n][..j] == log[..j];
      EarlierKeepStanding(log[..n], j, l);
    }
  }

  /** Taking the latest one back leaves standing what stood when it came. */
  lemma UndoneToWhereItCame(log: seq<Visit>, l: nat)
    requires LastInFirstOut(log) && log != [] && log[|log| - 1].Returned?
    ensures log[|log| - 1].of < |log| - 1
    ensures Standing(log, l) <==> Standing(log[..log[|log| - 1].of], l)
  {
    var n := |log| - 1;
    var j := log[n].of;
    if Standing(log, l) {
      assert Standing(log[..n], l) && l != j;
      StandingEarlier(log, l, j);
    } else if Standing(log[..j], l) {
      assert log[..n][..j] == log[..j];
      EarlierKeepStanding(log[..n], j, l);
    }
  }

  lemma {:induction false} InOrderIsOk(start: Option<Instant>, log: seq<Visit>)
    requires Possible(log) && LastInFirstOut(log)
    ensures StampOk(start, log)
    decreases |log|
  {
    if log != [] {
      var n := |log| - 1;
      if log[n].Taken? {
        assert Standing(log, n);
      } else {
        var j := log[n].of;
        PossiblePrefix(log, j);
        LastInFirstOutPrefix(log, j);
        InOrderIsOk(start, log[..j]);
        forall l: nat ensures Standing(log, l) <==> Standing(log[..j], l) {
          UndoneToWhereItCame(log, l);
        }
        assert forall l: nat :: Latest(log, l) <==> Latest(log[..j], l);
      }
    }
  }

  lemma {:induction false} StampFrom(start: Option<Instant>, log: seq<Visit>)
    requires Possible(log)
    ensures Stamp(start, log) == start ||
      exists t :: 0 <= t < |log| && log[t].Taken? && Stamp(start, log) == Some(log[t].at)
    decreases |log|
  {
    if log != [] && log[|log| - 1].Returned? {
      var j := log[|log| - 1].of;
      PossiblePrefix(log, j);
      StampFrom(start, log[..j]);
      if t :| 0 <= t < j && log[..j][t].Taken? && Stamp(start, log[..j]) == Some(log[..j][t].at) {
        assert log[t].Taken?;
      }
    }
  }

  lemma {:induction false} LatestFrom(log: seq<Visit>, l: nat) returns (j: nat)
    requires Standing(log, l)
    ensures l <= j && Latest(log, j)
    decreases |log| - l
  {
    if m: nat :| Standing(log, m) && l < m {
      j := LatestFrom(log, m);
    } else {
      j := l;
    }
  }

  /** An undo out of order puts an older stamp over a standing reservation. */
  lemma OutOfOrderIsNotOk(start: Option<Instant>, log: seq<Visit>, l: nat)
    requires Possible(log) && Rising(start, log) && log != [] && log[|log| - 1].Returned?
    requires log[|log| - 1].of < l && Standing(log[..|log| - 1], l)
    ensures !StampOk(start, log)
  {
    var latest := LatestFrom(log, l);
    PossiblePrefix(log, log[|log| - 1].of);
    StampFrom(start, log[..log[|log| - 1].of]);
  }

  /** After undos in order, one more visit leaves the right stamp exactly if
      it is in order too. */
  lemma NextInOrderIff(start: Option<Instant>, log: seq<Visit>)
    requires Possible(log) && Rising(start, log) && log != [] && LastInFirstOut(log[..|log| - 1])
    ensures StampOk(start, log) <==> LastInFirstOut(log)
  {
    var n := |log| - 1;
    if LastInFirstOut(log) {
      InOrderIsOk(start, log);
    } else {
      var l: nat :| Standing(log[..n], l) && l > log[n].of;
      OutOfOrderIsNotOk(start, log, l);
    }
  }

  /** The stamp is the latest standing reservation's at all times exactly when
      undos come in the reverse order of the reservations they take back. */
  lemma {:induction false} StampAlwaysLatestIff(start: Option<Instant>, log: seq<Visit>)
    requires Possible(log) && Rising(start, log)
    ensures AlwaysOk(start, log) <==> LastInFirstOut(log)
    decreases |log|
  {
    if log == [] {
      InOrderIsOk(start, log);
    } else {
      StampAlwaysLatestIff(start, log[..|log| - 1]);
      if LastInFirstOut(log[..|log| - 1]) {
        NextInOrderIff(start, log);
      }
    }
  }

  // ---- The same row in a run of the allocator ----

  /** `w` remembers the stamp that its reservation, the one at `j`, found. */
  ghost predicate Remembers(worker: Worker, start: Option<Instant>, log: seq<Visit>, j: nat)
    requires Possible(log) && HasReservation(worker.pc)
  {
    Standing(log, j) && Possible(log[..j]) && worker.pc.hold.previous == Stamp(start, log[..j])
  }

  /** The log accounts for the row: its stamp, and for each worker that holds
      the row a reservation of its own, which stands. */
  ghost predicate Explains(s: State, u: Uid, start: Option<Instant>, log: seq<Visit>, at: map<nat, nat>) {
    u in s.db.vault && Possible(log) && s.db.vault[u].lastReused == Stamp(start, log) &&
    (forall w :: 0 <= w < |s.workers| && HoldsUid(u)(s.workers[w]) ==>
       w in at && Remembers(s.workers[w], start, log, at[w])) &&
    forall v, w :: 0 <= v < w < |s.workers| && HoldsUid(u)(s.workers[v]) && HoldsUid(u)(s.workers[w]) ==>
      at[v] != at[w]
  }

  predicate Takes(s: State, step: Step, u: Uid) {
    step.Work? && step.w < |s.workers| && step.move.Reserve? && step.move.choice == u
  }

  predicate PutsBack(s: State, step: Step, u: Uid) {
    step.Work? && step.w < |s.workers| && step.move.Undo? && HoldsUid(u)(s.workers[step.w])
  }

  lemma PossibleNext(log: seq<Visit>, visit: Visit)
    requires Possible(log) && (visit.Returned? ==> Standing(log, visit.of))
    ensures Possible(log + [visit])
  {
    assert (log + [visit])[..|log|] == log;
  }

  lemma RememberedNext(worker: Worker, start: Option<Instant>, log: seq<Visit>, visit: Visit, j: nat)
    requires Possible(log) && HasReservation(worker.pc) && Remembers(worker, start, log, j)
    requires visit.Returned? ==> Standing(log, visit.of) && visit.of != j
    ensures Possible(log + [visit]) && Remembers(worker, start, log + [visit], j)
  {
    PossibleNext(log, visit);
    StandingNext(log, visit, j);
    assert (log + [visit])[..j] == log[..j];
  }

  /** Other steps leave the stamp. */
  lemma QuietStamp(cfg: Settings, s: State, step: Step, u: Uid)
    requires Enabled(cfg, s, step) && u in s.db.vault && !Takes(s, step, u) && !PutsBack(s, step, u)
    ensures u in Next(cfg, s, step).db.vault
    ensures Next(cfg, s, step).db.vault[u].lastReused == s.db.vault[u].lastReused
  {
  }

  /** Only a reservation of the row makes a worker hold it. */
  lemma HeldBefore(cfg: Settings, s: State, step: Step, u: Uid, w: nat)
    requires Enabled(cfg, s, step) && !Takes(s, step, u)
    requires w < |Next(cfg, s, step).workers| && HoldsUid(u)(Next(cfg, s, step).workers[w])
    ensures w < |s.workers| && HoldsUid(u)(s.workers[w])
    ensures Next(cfg, s, step).workers[w].pc.hold == s.workers[w].pc.hold
  {
  }

  lemma QuietExplained(cfg: Settings, s: State, step: Step, u: Uid, start: Option<Instant>, log: seq<Visit>,
                       at: map<nat, nat>)
    requires Enabled(cfg, s, step) && !Takes(s, step, u) && !PutsBack(s, step, u) && Explains(s, u, start, log, at)
    ensures Explains(Next(cfg, s, step), u, start, log, at)
  {
    var s' := Next(cfg, s, step);
    QuietStamp(cfg, s, step, u);
    forall w | 0 <= w < |s'.workers| && HoldsUid(u)(s'.workers[w])
      ensures w < |s.workers| && HoldsUid(u)(s.workers[w]) && s'.workers[w].pc.hold == s.workers[w].pc.hold
    {
      HeldBefore(cfg, s, step, u, w);
    }
  }

  /** What a reservation by `w` writes, and what `w` remembers of it. */
  ghost predicate TakenBy(s: State, s': State, w: nat, u: Uid, time: Instant) {
    w < |s.workers| && w < |s'.workers| && u in s.db.vault && u in s'.db.vault &&
    s'.db.vault[u].lastReused == Some(time) && HasReservation(s'.workers[w].pc) &&
    s'.workers[w].pc.hold.previous == s.db.vault[u].lastReused && s'.workers == s.workers[w := s'.workers[w]]
  }

  lemma ReserveTakes(cfg: Settings, s: State, w: nat, u: Uid, time: Instant)
    requires Enabled(cfg, s, Work(w, Reserve(u, time)))
    ensures TakenBy(s, Next(cfg, s, Work(w, Reserve(u, time))), w, u, time)
  {
  }

  lemma TakerRemembers(worker: Worker, start: Option<Instant>, log: seq<Visit>, time: Instant, age: Option<nat>)
    requires Possible(log) && HasReservation(worker.pc) && worker.pc.hold.previous == Stamp(start, log)
    ensures Possible(log + [Taken(time, age)]) && Stamp(start, log + [Taken(time, age)]) == Some(time)
    ensures Remembers(worker, start, log + [Taken(time, age)], |log|)
  {
    PossibleNext(log, Taken(time, age));
    StandingNext(log, Taken(time, age), |log|);
    assert (log + [Taken(time, age)])[..|log|] == log;
  }

  lemma TakenExplained(s: State, s': State, w: nat, u: Uid, time: Instant, age: Option<nat>, start: Option<Instant>,
                       log: seq<Visit>, at: map<nat, nat>)
    requires TakenBy(s, s', w, u, time) && Explains(s, u, start, log, at)
    ensures Explains(s', u, start, log + [Taken(time, age)], at[w := |log|])
  {
    TakerRemembers(s'.workers[w], start, log, time, age);
    forall v | 0 <= v < |s'.workers| && v != w && HoldsUid(u)(s'.workers[v])
      ensures v in at && at[v] < |log| && Remembers(s'.workers[v], start, log + [Taken(time, age)], at[v])
    {
      assert s'.workers[v] == s.workers[v];
      RememberedNext(s.workers[v], start, log, Taken(time, age), at[v]);
    }
  }

  /** An undo is never blocked: it writes the stamp that its worker remembers. */
  lemma UndoWrites(cfg: Settings, s: State, w: nat, u: Uid)
    requires Enabled(cfg, s, Work(w, Undo)) && HoldsUid(u)(s.workers[w]) && UidOk(s, u) && u in s.db.vault
    ensures var s' := Next(cfg, s, Work(w, Undo));
            u in s'.db.vault && s'.db.vault[u].lastReused == s.workers[w].pc.hold.previous &&
            !HoldsUid(u)(s'.workers[w]) && s'.workers == s.workers[w := s'.workers[w]]
  {
    CountAtLeastOne(s.workers, w, HoldsUid(u));
  }

  lemma StampAfterUndo(start: Option<Instant>, log: seq<Visit>, j: nat)
    requires Possible(log) && Standing(log, j)
    ensures Possible(log + [Returned(j)]) && Possible(log[..j])
    ensures Stamp(start, log + [Returned(j)]) == Stamp(start, log[..j])
  {
    PossiblePrefix(log, j);
    PossibleNext(log, Returned(j));
    assert (log + [Returned(j)])[..j] == log[..j];
  }

  lemma UndoExplained(cfg: Settings, s: State, w: nat, u: Uid, start: Option<Instant>, log: seq<Visit>,
                      at: map<nat, nat>)
    requires Enabled(cfg, s, Work(w, Undo)) && HoldsUid(u)(s.workers[w]) && UidOk(s, u)
    requires Explains(s, u, start, log, at)
    ensures Explains(Next(cfg, s, Work(w, Undo)), u, start, log + [Returned(at[w])], at)
  {
    var visit, s' := Returned(at[w]), Next(cfg, s, Work(w, Undo));
    UndoWrites(cfg, s, w, u);
    StampAfterUndo(start, log, at[w]);
    forall v | 0 <= v < |s'.workers| && HoldsUid(u)(s'.workers[v])
      ensures v in at && Remembers(s'.workers[v], start, log + [visit], at[v])
    {
      assert v != w && s'.workers[v] == s.workers[v];
      assert at[v] != at[w];
      RememberedNext(s.workers[v], start, log, visit, at[v]);
    }
  }

  /** What the steps of a run did to one row: its reservations and undos, and
      for each worker the position of its last reservation. */
  datatype History = History(log: seq<Visit>, at: map<nat, nat>)

  /** A reservation adds itself; an undo adds the position of the reservation
      its own worker made. */
  function NextHistory(s: State, step: Step, u: Uid, h: History): History {
    if Takes(s, step, u) then
      History(h.log + [Taken(step.move.at, s.workers[step.w].signature.age)], h.at[step.w := |h.log|])
    else if PutsBack(s, step, u) && step.w in h.at then h.(log := h.log + [Returned(h.at[step.w])])
    else h
  }

  /** The history of a row after the first `k` steps. */
  function Visits(states: seq<State>, steps: seq<Step>, u: Uid, k: nat): History
    requires |states| == |steps| + 1 && k < |states|
  {
    if k == 0 then History([], map[])
    else NextHistory(states[k - 1], steps[k - 1], u, Visits(states, steps, u, k - 1))
  }

  /** The stamp with which the row was registered. */
  function Registered(states: seq<State>, u: Uid, k: nat): Option<Instant>
    requires k < |states| && u in states[k].db.vault
  {
    if k > 0 && u in states[k - 1].db.vault then Registered(states, u, k - 1) else states[k].db.vault[u].lastReused
  }

  lemma StepExplained(cfg: Settings, s: State, step: Step, u: Uid, start: Option<Instant>, h: History)
    requires Enabled(cfg, s, step) && UidOk(s, u) && Explains(s, u, start, h.log, h.at)
    ensures var h' := NextHistory(s, step, u, h); Explains(Next(cfg, s, step), u, start, h'.log, h'.at)
  {
    if Takes(s, step, u) {
      ReserveTakes(cfg, s, step.w, u, step.move.at);
      var age := s.workers[step.w].signature.age;
      TakenExplained(s, Next(cfg, s, step), step.w, u, step.move.at, age, start, h.log, h.at);
    } else if PutsBack(s, step, u) {
      UndoExplained(cfg, s, step.w, u, start, h.log, h.at);
    } else {
      QuietExplained(cfg, s, step, u, start, h.log, h.at);
    }
  }

  lemma NobodyHolds(cfg: Settings, s: State, u: Uid)
    requires WorkersInv(cfg, s) && u !in s.db.vault
    ensures forall w :: 0 <= w < |s.workers| ==> !HoldsUid(u)(s.workers[w])
  {
    forall w | 0 <= w < |s.workers| ensures !HoldsUid(u)(s.workers[w]) {
      assert WorkerOk(cfg, s, s.workers[w]);
    }
  }

  /** A row that has just been registered is held by nobody. */
  lemma NewRowExplained(cfg: Settings, s: State, step: Step, u: Uid)
    requires Enabled(cfg, s, step) && WorkersInv(cfg, s) && u !in s.db.vault && u in Next(cfg, s, step).db.vault
    ensures var s' := Next(cfg, s, step); Explains(s', u, s'.db.vault[u].lastReused, [], map[])
  {
    NobodyHolds(cfg, s, u);
  }

  /** No history before the row is registered. */
  lemma {:induction false} NoVisitsYet(cfg: Settings, states: seq<State>, steps: seq<Step>, k: nat, u: Uid)
    requires Run(cfg, states, steps) && k < |states| && (k > 0 ==> u !in states[k - 1].db.vault)
    ensures Visits(states, steps, u, k) == History([], map[])
  {
    if k > 0 {
      RunKeepsInv(cfg, states, steps, k - 1);
      assert StepAt(cfg, states, steps, k - 1);
      NobodyHolds(cfg, states[k - 1], u);
      if k > 1 {
        assert StepAt(cfg, states, steps, k - 2);
        StepGrows(cfg, states[k - 2], steps[k - 2]);
      }
      NoVisitsYet(cfg, states, steps, k - 1, u);
    }
  }

  ghost predicate ExplainedAt(states: seq<State>, steps: seq<Step>, u: Uid, k: nat)
    requires |states| == |steps| + 1 && k < |states| && u in states[k].db.vault
  {
    var h := Visits(states, steps, u, k);
    Explains(states[k], u, Registered(states, u, k), h.log, h.at)
  }

  lemma OldRowExplained(cfg: Settings, states: seq<State>, steps: seq<Step>, k: nat, u: Uid)
    requires Run(cfg, states, steps) && k < |steps| && u in states[k].db.vault && u in states[k + 1].db.vault
    requires UidOk(states[k], u) && ExplainedAt(states, steps, u, k)
    ensures ExplainedAt(states, steps, u, k + 1)
  {
    assert StepAt(cfg, states, steps, k);
    StepExplained(cfg, states[k], steps[k], u, Registered(states, u, k), Visits(states, steps, u, k));
  }

  lemma FirstExplained(cfg: Settings, states: seq<State>, steps: seq<Step>, k: nat, u: Uid)
    requires Run(cfg, states, steps) && k < |steps| && u !in states[k].db.vault && u in states[k + 1].db.vault
    requires WorkersInv(cfg, states[k])
    ensures ExplainedAt(states, steps, u, k + 1)
  {
    assert StepAt(cfg, states, steps, k);
    NewRowExplained(cfg, states[k], steps[k], u);
    NoVisitsYet(cfg, states, steps, k + 1, u);
  }

  /** In every state of every run the reservations and undos that its own steps
      made account for the row: the stamp is the one they leave of the
      registered one, and each holder has a reservation of its own, which
      stands and found the stamp that the holder remembers. */
  lemma {:induction false} RunExplained(cfg: Settings, states: seq<State>, steps: seq<Step>, k: nat, u: Uid)
    requires Run(cfg, states, steps) && k < |states| && u in states[k].db.vault
    ensures ExplainedAt(states, steps, u, k)
  {
    RunKeepsInv(cfg, states, steps, k - 1);
    if u in states[k - 1].db.vault {
      RunExplained(cfg, states, steps, k - 1, u);
      OldRowExplained(cfg, states, steps, k - 1, u);
    } else {
      FirstExplained(cfg, states, steps, k - 1, u);
    }
  }

  // ---- When the stamp is right in a run ----

  /** The row carries the stamp of the latest reservation that stands, or the
      registered one if none does. */
  ghost predicate StampRight(states: seq<State>, steps: seq<Step>, u: Uid, k: nat)
    requires |states| == |steps| + 1 && k < |states| && u in states[k].db.vault
  {
    var log, stamp := Visits(states, steps, u, k).log, states[k].db.vault[u].lastReused;
    (forall j: nat :: Latest(log, j) ==> stamp == Some(log[j].at)) &&
    ((forall j: nat :: !Standing(log, j)) ==> stamp == Registered(states, u, k))
  }

  ghost predicate AlwaysRight(states: seq<State>, steps: seq<Step>, u: Uid, k: nat)
    requires |states| == |steps| + 1 && k < |states|
  {
    forall m :: 0 <= m <= k && u in states[m].db.vault ==> StampRight(states, steps, u, m)
  }

  /** If step `k` puts the row back, it takes back the latest reservation that
      stands. */
  ghost predicate PutsBackLatest(states: seq<State>, steps: seq<Step>, u: Uid, k: nat)
    requires |states| == |steps| + 1 && k < |steps|
  {
    PutsBack(states[k], steps[k], u) ==>
      var h := Visits(states, steps, u, k);
      steps[k].w in h.at && Latest(h.log, h.at[steps[k].w])
  }

  ghost predicate AlwaysPutsBackLatest(states: seq<State>, steps: seq<Step>, u: Uid, k: nat)
    requires |states| == |steps| + 1 && k <= |steps|
  {
    forall m :: 0 <= m < k ==> PutsBackLatest(states, steps, u, m)
  }

  lemma AlwaysOkNext(start: Option<Instant>, log: seq<Visit>, visit: Visit)
    requires Possible(log) && Possible(log + [visit])
    ensures AlwaysOk(start, log + [visit]) <==> AlwaysOk(start, log) && StampOk(start, log + [visit])
  {
    assert (log + [visit])[..|log|] == log;
  }

  lemma LastInFirstOutNext(log: seq<Visit>, visit: Visit)
    ensures LastInFirstOut(log + [visit]) <==> LastInFirstOut(log) && (visit.Returned? ==> Latest(log, visit.of))
  {
    assert (log + [visit])[..|log|] == log;
  }

  lemma StampRightIsOk(cfg: Settings, states: seq<State>, steps: seq<Step>, k: nat, u: Uid)
    requires Run(cfg, states, steps) && k < |states| && u in states[k].db.vault
    ensures Possible(Visits(states, steps, u, k).log)
    ensures StampRight(states, steps, u, k) <==> StampOk(Registered(states, u, k), Visits(states, steps, u, k).log)
  {
    RunExplained(cfg, states, steps, k, u);
  }

  /** What one more step means for the two conditions on the log. */
  lemma LogNext(cfg: Settings, states: seq<State>, steps: seq<Step>, k: nat, u: Uid, start: Option<Instant>)
    requires Run(cfg, states, steps) && k < |steps| && u in states[k].db.vault
    requires Possible(Visits(states, steps, u, k).log) && Possible(Visits(states, steps, u, k + 1).log)
    ensures var log, log' := Visits(states, steps, u, k).log, Visits(states, steps, u, k + 1).log;
            (AlwaysOk(start, log') <==> AlwaysOk(start, log) && StampOk(start, log')) &&
            (LastInFirstOut(log') <==> LastInFirstOut(log) && PutsBackLatest(states, steps, u, k))
  {
    RunExplained(cfg, states, steps, k, u);
    var h, s, step := Visits(states, steps, u, k), states[k], steps[k];
    if Takes(s, step, u) {
      var visit := Taken(step.move.at, s.workers[step.w].signature.age);
      PossibleNext(h.log, visit);
      AlwaysOkNext(start, h.log, visit);
      LastInFirstOutNext(h.log, visit);
    } else if PutsBack(s, step, u) {
      PossibleNext(h.log, Returned(h.at[step.w]));
      AlwaysOkNext(start, h.log, Returned(h.at[step.w]));
      LastInFirstOutNext(h.log, Returned(h.at[step.w]));
    } else {
      assert Visits(states, steps, u, k + 1) == h;
    }
  }

  lemma {:induction false} NotRegisteredBefore(cfg: Settings, states: seq<State>, steps: seq<Step>, m: nat, k: nat,
                                               u: Uid)
    requires Run(cfg, states, steps) && m <= k < |states| && u !in states[k].db.vault
    ensures u !in states[m].db.vault
  {
    if m < k {
      assert StepAt(cfg, states, steps, k - 1);
      StepGrows(cfg, states[k - 1], steps[k - 1]);
      NotRegisteredBefore(cfg, states, steps, m, k - 1, u);
    }
  }

  /** Before the row is registered there is nothing to get wrong. */
  lemma NewRowIsItsLog(cfg: Settings, states: seq<State>, steps: seq<Step>, k: nat, u: Uid)
    requires Run(cfg, states, steps) && 0 < k < |states| && u !in states[k - 1].db.vault && u in states[k].db.vault
    ensures Visits(states, steps, u, k).log == [] && AlwaysPutsBackLatest(states, steps, u, k)
    ensures AlwaysRight(states, steps, u, k) && AlwaysOk(Registered(states, u, k), [])
  {
    NoVisitsYet(cfg, states, steps, k, u);
    forall m | 0 <= m < k ensures u !in states[m].db.vault && PutsBackLatest(states, steps, u, m) {
      NotRegisteredBefore(cfg, states, steps, m, k - 1, u);
      RunKeepsInv(cfg, states, steps, m);
      NobodyHolds(cfg, states[m], u);
    }
  }

  lemma AlwaysRightNext(states: seq<State>, steps: seq<Step>, u: Uid, k: nat)
    requires |states| == |steps| + 1 && 0 < k < |states| && u in states[k].db.vault
    ensures AlwaysRight(states, steps, u, k) <==>
      AlwaysRight(states, steps, u, k - 1) && StampRight(states, steps, u, k)
  {
  }

  lemma AlwaysPutsBackLatestNext(states: seq<State>, steps: seq<Step>, u: Uid, k: nat)
    requires |states| == |steps| + 1 && 0 < k < |states|
    ensures AlwaysPutsBackLatest(states, steps, u, k) <==>
      AlwaysPutsBackLatest(states, steps, u, k - 1) && PutsBackLatest(states, steps, u, k - 1)
  {
  }

  /** The conditions at the steps of a run are those on its log. */
  lemma {:induction false} RunIsItsLog(cfg: Settings, states: seq<State>, steps: seq<Step>, k: nat, u: Uid)
    requires Run(cfg, states, steps) && k < |states| && u in states[k].db.vault
    ensures var log := Visits(states, steps, u, k).log;
            Possible(log) && (AlwaysRight(states, steps, u, k) <==> AlwaysOk(Registered(states, u, k), log)) &&
            (AlwaysPutsBackLatest(states, steps, u, k) <==> LastInFirstOut(log))
  {
    if u in states[k - 1].db.vault {
      RunIsItsLog(cfg, states, steps, k - 1, u);
      StampRightIsOk(cfg, states, steps, k, u);
      LogNext(cfg, states, steps, k - 1, u, Registered(states, u, k));
      AlwaysRightNext(states, steps, u, k);
      AlwaysPutsBackLatestNext(states, steps, u, k);
    } else {
      NewRowIsItsLog(cfg, states, steps, k, u);
    }
  }

  /** In every run whose reservations of the row have rising times the stamp is
      right after every step exactly when every undo takes back the latest
      reservation that stands. */
  lemma RunStampIff(cfg: Settings, states: seq<State>, steps: seq<Step>, k: nat, u: Uid)
    requires Run(cfg, states, steps) && k < |states| && u in states[k].db.vault
    requires Rising(Registered(states, u, k), Visits(states, steps, u, k).log)
    ensures AlwaysRight(states, steps, u, k) <==> AlwaysPutsBackLatest(states, steps, u, k)
  {
    RunIsItsLog(cfg, states, steps, k, u);
    StampAlwaysLatestIff(Registered(states, u, k), Visits(states, steps, u, k).log);
  }

  // ---- A run in which it is wrong ----

  function HistoryOf(t: Trace, u: Uid): History
    requires |t.states| == |t.steps| + 1
  {
    Visits(t.states, t.steps, u, |t.steps|)
  }

  lemma {:induction false} SameSteps(t: Trace, t': Trace, u: Uid, k: nat)
    requires |t.states| == |t.steps| + 1 && |t'.states| == |t'.steps| + 1
    requires t.states <= t'.states && t.steps <= t'.steps && k <= |t.steps|
    ensures Visits(t'.states, t'.steps, u, k) == Visits(t.states, t.steps, u, k)
  {
    if k > 0 {
      SameSteps(t, t', u, k - 1);
    }
  }

  lemma {:induction false} QuietHistory(t: Trace, u: Uid, n: nat, k: nat)
    requires |t.states| == |t.steps| + 1 && n <= k <= |t.steps| && QuietFrom(t, n)
    ensures Visits(t.states, t.steps, u, k) == Visits(t.states, t.steps, u, n)
  {
    if k > n {
      QuietHistory(t, u, n, k - 1);
      assert !MovesVault(t.steps[k - 1]);
    }
  }

  lemma QuietlySame(t: Trace, t': Trace, u: Uid)
    requires |t.states| == |t.steps| + 1 && |t'.states| == |t'.steps| + 1 && Quietly(t, t')
    ensures HistoryOf(t', u) == HistoryOf(t, u)
  {
    SameSteps(t, t', u, |t.steps|);
    QuietHistory(t', u, |t.steps|, |t'.steps|);
  }

  /** One step, and quiet ones after it. */
  lemma HistoryAfter(t: Trace, t': Trace, u: Uid)
    requires |t.states| == |t.steps| + 1 && |t'.states| == |t'.steps| + 1
    requires t.states <= t'.states && t.steps < t'.steps && QuietFrom(t', |t.steps| + 1)
    ensures HistoryOf(t', u) == NextHistory(End(t), t'.steps[|t.steps|], u, HistoryOf(t, u))
  {
    SameSteps(t, t', u, |t.steps|);
    QuietHistory(t', u, |t.steps| + 1, |t'.steps|);
  }

  const FIRST_HOLD := Hold(0, None, FirstReuse, 2)
  const SECOND_HOLD := Hold(0, Some(0), ReturningReuse, 3)

  /** The first worker is held up with its reservation, the second has `pc`. */
  predicate HeldUp(s: State, later: nat, pc: Pc) {
    s.workers == [Worker(1, ANYBODY, Timed(Slot(0, 0), {}, 0, FIRST_HOLD, 0)), Worker(2, ANYBODY, pc)] &&
    s.clock == later && s.month == 0
  }

  /** The first worker reserves the row and reads its clock. */
  lemma FirstReserves(interval: nat) returns (t: Trace)
    ensures IsRun(Generous(interval), t)
    ensures var row := PROFILE.(usage := 2, lastReused := Some(0));
            var worker := Worker(1, ANYBODY, Timed(Slot(0, 0), {}, 0, FIRST_HOLD, 0));
            var db := Db(VISITORS, map[Slot(0, 0) := Counter(3, 3, 1, 0, 0)], map[], {}, [], map[0 := row]);
            End(t) == State(db, 0, 0, [worker])
    ensures HistoryOf(t, 0) == History([Taken(0, Some(20))], map[0 := 0])
  {
    var claimed := FirstClaimRun(interval);
    QuietHistory(claimed, 0, 0, |claimed.steps|);
    VisitorReserves(interval, End(claimed), LastWorker(End(claimed)));
    t := ReserveByLastWorker(Generous(interval), claimed, 0);
    HistoryAfter(claimed, t, 0);
  }

  /** Time passes, and a second worker claims a slot of its own. */
  lemma SecondClaims(interval: nat, later: nat) returns (t: Trace)
    ensures IsRun(Generous(interval), t) && HeldUp(End(t), later, Scanning(Slot(0, 0), {}, 0))
    ensures var row := PROFILE.(usage := 2, lastReused := Some(0));
            End(t).db == Db(VISITORS, map[Slot(0, 0) := Counter(3, 3, 2, 0, 0)], map[], {}, [], map[0 := row])
    ensures HistoryOf(t, 0) == History([Taken(0, Some(20))], map[0 := 0])
  {
    var reserved := FirstReserves(interval);
    var passed := Extend(Generous(interval), reserved, Pass(later, 0));
    VisitorsBaseline(interval, End(passed).db);
    t := ClaimByNewWorker(Generous(interval), passed, 2, ANYBODY);
    QuietlySame(reserved, t, 0);
  }

  /** It reserves the same row at the later time. */
  lemma SecondReserves(interval: nat, later: nat) returns (t: Trace)
    requires interval <= later
    ensures IsRun(Generous(interval), t) && HeldUp(End(t), later, Timed(Slot(0, 0), {}, 0, SECOND_HOLD, later))
    ensures End(t).db.attempts == VISITORS && End(t).db.states == map[] && End(t).db.usages == {}
    ensures End(t).db.events == [] && End(t).db.vault == map[0 := PROFILE.(usage := 3, lastReused := Some(later))]
    ensures HistoryOf(t, 0) == History([Taken(0, Some(20)), Taken(later, Some(20))], map[0 := 0, 1 := 1])
  {
    var claimed := SecondClaims(interval, later);
    VisitorReserves(interval, End(claimed), LastWorker(End(claimed)));
    t := ReserveByLastWorker(Generous(interval), claimed, 0);
    HistoryAfter(claimed, t, 0);
  }

  lemma NewVisitorMayCommit(interval: nat, db: Db, c: Claimed, stamp: Instant)
    requires db.attempts == VISITORS && db.states == map[] && db.usages == {} && db.events == [] && c.uid == 0
    ensures MayCommit(Generous(interval), db, 2, c, stamp)
  {
    assert db.attempts[2] == Attempt(2, 0, 2, None) && !UsedOnSurvey(db, 2, 2, 0);
  }

  /** And commits it. */
  lemma SecondCommits(interval: nat, later: nat) returns (t: Trace)
    requires interval <= later
    ensures IsRun(Generous(interval), t) && HeldUp(End(t), later, Marking(Slot(0, 0), ReturningReuse))
    ensures End(t).db.attempts == VISITORS[2 := Attempt(2, 0, 2, Some(0))]
    ensures End(t).db.states == map[Profile(0, 0) := StateRow(Some(later), 1)]
    ensures End(t).db.events == [Event(2, 2, 0, 0, later, ReturningReuse, 3, later, 0)]
    ensures End(t).db.vault == map[0 := PROFILE.(usage := 3, lastReused := Some(later))]
    ensures HistoryOf(t, 0) == History([Taken(0, Some(20)), Taken(later, Some(20))], map[0 := 0, 1 := 1])
  {
    var reserved := SecondReserves(interval, later);
    NewVisitorMayCommit(interval, End(reserved).db, ClaimOf(LastWorker(End(reserved)).pc), later);
    t := CommitByLastWorker(Generous(interval), reserved, 0);
    QuietlySame(reserved, t, 0);
  }

  /** Worker `w` is about to commit, and its checks fail. */
  predicate AboutToConflict(cfg: Settings, s: State, w: nat) {
    w < |s.workers| && s.workers[w].pc.Timed? && s.workers[w].attempt in s.db.attempts &&
    !MayCommit(cfg, s.db, s.workers[w].attempt, ClaimOf(s.workers[w].pc), s.workers[w].pc.stamp)
  }

  /** For any minimum interval the first worker's own check now fails. */
  lemma FirstMayNotCommit(interval: nat, later: nat, s: State)
    requires 0 < later && HeldUp(s, later, Marking(Slot(0, 0), ReturningReuse))
    requires s.db.attempts == VISITORS[2 := Attempt(2, 0, 2, Some(0))]
    requires s.db.states == map[Profile(0, 0) := StateRow(Some(later), 1)]
    ensures AboutToConflict(Generous(interval), s, 0)
  {
  }

  /** So it has to undo its reservation. */
  lemma FirstConflicts(interval: nat, later: nat) returns (t: Trace)
    requires interval <= later && 0 < later
    ensures IsRun(Generous(interval), t) && t.steps != [] && t.steps[|t.steps| - 1] == Work(0, Conflict)
    ensures AboutToConflict(Generous(interval), t.states[|t.steps| - 1], 0)
    ensures var s := End(t);
            s.workers != [] && s.workers[0] == Worker(1, ANYBODY, Undoing(Slot(0, 0), {}, 0, FIRST_HOLD)) &&
            1 in s.db.attempts && s.db.events == [Event(2, 2, 0, 0, later, ReturningReuse, 3, later, 0)] &&
            s.db.vault == map[0 := PROFILE.(usage := 3, lastReused := Some(later))]
    ensures HistoryOf(t, 0) == History([Taken(0, Some(20)), Taken(later, Some(20))], map[0 := 0, 1 := 1])
  {
    var committed := SecondCommits(interval, later);
    FirstMayNotCommit(interval, later, End(committed));
    t := Extend(Generous(interval), committed, Work(0, Conflict));
    QuietlySame(committed, t, 0);
  }

  lemma SecondStillStands(log: seq<Visit>, later: nat)
    requires log == [Taken(0, Some(20)), Taken(later, Some(20)), Returned(0)]
    ensures Latest(log, 1)
  {
    assert log[..2] == [Taken(0, Some(20)), Taken(later, Some(20))];
    assert Standing(log[..2], 1);
  }

  /** For every minimum interval, a run from the empty tables: two workers
      reserve one row, the later one commits, and the first one's commit is
      refused.  Its undo puts back the stamp from before both, although the
      other reservation stands. */
  lemma UndoneOutOfOrder(interval: nat, later: nat) returns (t: Trace)
    requires interval <= later && 0 < later
    ensures IsRun(Generous(interval), t) && |t.steps| >= 2 && t.steps[|t.steps| - 1] == Work(0, Undo)
    ensures t.steps[|t.steps| - 2] == Work(0, Conflict)
    ensures AboutToConflict(Generous(interval), t.states[|t.steps| - 2], 0)
    ensures HistoryOf(t, 0).log == [Taken(0, Some(20)), Taken(later, Some(20)), Returned(0)]
    ensures Latest(HistoryOf(t, 0).log, 1)
    ensures End(t).db.events == [Event(2, 2, 0, 0, later, ReturningReuse, 3, later, 0)]
    ensures End(t).db.vault == map[0 := PROFILE.(usage := 2)] && !StampRight(t.states, t.steps, 0, |t.steps|)
  {
    var conflict := FirstConflicts(interval, later);
    t := Extend(Generous(interval), conflict, Work(0, Undo));
    HistoryAfter(conflict, t, 0);
    SecondStillStands(HistoryOf(t, 0).log, later);
  }
}
