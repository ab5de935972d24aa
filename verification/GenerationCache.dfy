/** Permission snapshots cached under a shared generation that every change
    rotates, now and again after commit (accounts/signals.py,
    accounts/access.py).  A snapshot is the set of changes its rows showed. */
module GenerationCache {
  type Change = nat

  type Snapshot = set<Change>

  /** A writer inside a transaction rotates at the signal and once more after
      commit; outside one, the row is already committed when it rotates. */
  datatype Writer =
    | Open(change: Change, inTransaction: bool)
    | Signalled(change: Change)
    | Committed(change: Change)
    | Settled(change: Change)

  /** `due` is history: the changes settled when the generation was read. */
  datatype Reader =
    | Start
    | Keyed(generation: nat, due: Snapshot)
    | Loaded(generation: nat, due: Snapshot, snapshot: Snapshot)
    | Answered(due: Snapshot, snapshot: Snapshot)

  /** `floor[g]` is history: what was committed when generation g began. */
  datatype State = State(committed: Snapshot, generation: nat, cache: map<nat, Snapshot>,
                         writers: seq<Writer>, readers: seq<Reader>, floor: map<nat, Snapshot>)

  datatype Step =
    | Begin(change: Change, inTransaction: bool)
    | RotateNow(w: nat)
    | Commit(w: nat)
    | RotateAfter(w: nat)
    | RotateOther
    | Request
    | ReadGeneration(r: nat)
    | Hit(r: nat)
    | Load(r: nat)
    | Store(r: nat)
    | Expire(generation: nat)

  function Init(generation: nat): State {
    State({}, generation, map[], [], [], map[generation := {}])
  }

  function SettledChanges(s: State): Snapshot {
    set w | 0 <= w < |s.writers| && s.writers[w].Settled? :: s.writers[w].change
  }

  function Rotate(s: State): State {
    s.(generation := s.generation + 1, floor := s.floor[s.generation + 1 := s.committed])
  }

  function SetWriter(s: State, w: nat, writer: Writer): State
    requires w < |s.writers|
  {
    s.(writers := s.writers[w := writer])
  }

  function SetReader(s: State, r: nat, reader: Reader): State
    requires r < |s.readers|
  {
    s.(readers := s.readers[r := reader])
  }

  predicate Enabled(s: State, step: Step) {
    match step
    case Begin(_, _) => true
    case RotateNow(w) => w < |s.writers| && s.writers[w].Open? && s.writers[w].inTransaction
    case Commit(w) =>
      w < |s.writers| && (s.writers[w].Signalled? || (s.writers[w].Open? && !s.writers[w].inTransaction))
    case RotateAfter(w) => w < |s.writers| && s.writers[w].Committed?
    case RotateOther => true
    case Request => true
    case ReadGeneration(r) => r < |s.readers| && s.readers[r].Start?
    case Hit(r) => r < |s.readers| && s.readers[r].Keyed? && s.readers[r].generation in s.cache
    case Load(r) => r < |s.readers| && s.readers[r].Keyed?
    case Store(r) => r < |s.readers| && s.readers[r].Loaded?
    case Expire(_) => true
  }

  /** `again` says whether a transaction's change rotates after commit too. */
  function Next(s: State, again: bool, step: Step): State
    requires Enabled(s, step)
  {
    match step
    case Begin(change, inside) => s.(writers := s.writers + [Open(change, inside)])
    case RotateNow(w) => Rotate(SetWriter(s, w, Signalled(s.writers[w].change)))
    case Commit(w) =>
      var change := s.writers[w].change;
      var writer := if s.writers[w].Signalled? && !again then Settled(change) else Committed(change);
      SetWriter(s, w, writer).(committed := s.committed + {change})
    case RotateAfter(w) => Rotate(SetWriter(s, w, Settled(s.writers[w].change)))
    case RotateOther => Rotate(s)
    case Request => s.(readers := s.readers + [Start])
    case ReadGeneration(r) => SetReader(s, r, Keyed(s.generation, SettledChanges(s)))
    case Hit(r) => SetReader(s, r, Answered(s.readers[r].due, s.cache[s.readers[r].generation]))
    case Load(r) => SetReader(s, r, Loaded(s.readers[r].generation, s.readers[r].due, s.committed))
    case Store(r) =>
      var reader := s.readers[r];
      SetReader(s, r, Answered(reader.due, reader.snapshot)).(cache := s.cache[reader.generation := reader.snapshot])
    case Expire(generation) => s.(cache := s.cache - {generation})
  }

  ghost predicate StepAt(again: bool, states: seq<State>, steps: seq<Step>, k: nat)
    requires |states| == |steps| + 1 && k < |steps|
  {
    Enabled(states[k], steps[k]) && states[k + 1] == Next(states[k], again, steps[k])
  }

  ghost predicate Run(again: bool, states: seq<State>, steps: seq<Step>) {
    |states| == |steps| + 1 && states[0] == Init(states[0].generation) &&
    forall k :: 0 <= k < |steps| ==> StepAt(again, states, steps, k)
  }

  // ---- With the second rotation ----

  ghost predicate ReaderOk(s: State, reader: Reader) {
    match reader
    case Start => true
    case Keyed(g, due) => g in s.floor && due <= s.floor[g]
    case Loaded(g, due, snapshot) => g in s.floor && due <= s.floor[g] <= snapshot
    case Answered(due, snapshot) => due <= snapshot
  }

  /** Every cached snapshot contains what was committed when its generation
      began. */
  ghost predicate CacheOk(s: State) {
    s.generation in s.floor &&
    (forall g :: g in s.floor ==> g <= s.generation && s.floor[g] <= s.committed) &&
    forall g :: g in s.cache ==> g in s.floor && s.floor[g] <= s.cache[g]
  }

  /** Every settled change was committed before the current generation. */
  ghost predicate WriterOk(s: State, writer: Writer)
    requires CacheOk(s)
  {
    (writer.Settled? ==> writer.change in s.floor[s.generation]) && (writer.Committed? ==> writer.change in s.committed)
  }

  ghost predicate Inv(s: State) {
    CacheOk(s) &&
    (forall w :: 0 <= w < |s.writers| ==> WriterOk(s, s.writers[w])) &&
    forall r :: 0 <= r < |s.readers| ==> ReaderOk(s, s.readers[r])
  }

  lemma StepKeepsCache(s: State, step: Step)
    requires Enabled(s, step) && Inv(s)
    ensures CacheOk(Next(s, true, step))
  {
    if step.Store? {
      assert ReaderOk(s, s.readers[step.r]);
    }
  }

  lemma StepKeepsWriter(s: State, step: Step, w: nat)
    requires Enabled(s, step) && Inv(s) && CacheOk(Next(s, true, step)) && w < |Next(s, true, step).writers|
    ensures WriterOk(Next(s, true, step), Next(s, true, step).writers[w])
  {
    if w < |s.writers| {
      assert WriterOk(s, s.writers[w]);
    }
  }

  lemma SettledBefore(s: State)
    requires Inv(s)
    ensures SettledChanges(s) <= s.floor[s.generation]
  {
    forall c | c in SettledChanges(s) ensures c in s.floor[s.generation] {
      var w :| 0 <= w < |s.writers| && s.writers[w].Settled? && s.writers[w].change == c;
      assert WriterOk(s, s.writers[w]);
    }
  }

  lemma StepKeepsReader(s: State, step: Step, r: nat)
    requires Enabled(s, step) && Inv(s) && r < |Next(s, true, step).readers|
    ensures ReaderOk(Next(s, true, step), Next(s, true, step).readers[r])
  {
    if r < |s.readers| {
      assert ReaderOk(s, s.readers[r]);
      SettledBefore(s);
    }
  }

  lemma StepKeepsInv(s: State, step: Step)
    requires Enabled(s, step) && Inv(s)
    ensures Inv(Next(s, true, step))
  {
    var s' := Next(s, true, step);
    StepKeepsCache(s, step);
    forall w | 0 <= w < |s'.writers| ensures WriterOk(s', s'.writers[w]) {
      StepKeepsWriter(s, step, w);
    }
    forall r | 0 <= r < |s'.readers| ensures ReaderOk(s', s'.readers[r]) {
      StepKeepsReader(s, step, r);
    }
  }

  lemma {:induction false} RunKeepsInv(states: seq<State>, steps: seq<Step>, k: nat)
    requires Run(true, states, steps) && k < |states|
    ensures Inv(states[k])
  {
    if k > 0 {
      RunKeepsInv(states, steps, k - 1);
      assert StepAt(true, states, steps, k - 1);
      StepKeepsInv(states[k - 1], steps[k - 1]);
    }
  }

  /** No reader ever gets, cached or loaded, a snapshot that misses a change
      settled before the reader looked up the generation. */
  ghost predicate Fresh(states: seq<State>) {
    forall k, r :: 0 <= k < |states| && 0 <= r < |states[k].readers| && states[k].readers[r].Answered? ==>
      states[k].readers[r].due <= states[k].readers[r].snapshot
  }

  lemma SecondRotationKeepsFresh(states: seq<State>, steps: seq<Step>)
    requires Run(true, states, steps)
    ensures Fresh(states)
  {
    forall k, r | 0 <= k < |states| && 0 <= r < |states[k].readers| && states[k].readers[r].Answered?
      ensures states[k].readers[r].due <= states[k].readers[r].snapshot
    {
      RunKeepsInv(states, steps, k);
      assert ReaderOk(states[k], states[k].readers[r]);
    }
  }

  // ---- Without it ----

  /** A reader between the signal and the commit stores the old rows under the
      new generation; the next reader finds them after the commit. */
  lemma OneRotationServesStale() returns (states: seq<State>, steps: seq<Step>)
    ensures Run(false, states, steps) && !Fresh(states)
  {
    var floor := map[0 := {}, 1 := {}];
    steps := [Begin(7, true), RotateNow(0), Request, ReadGeneration(0), Load(0), Store(0), Commit(0),
              Request, ReadGeneration(1), Hit(1)];
    states := [
      Init(0),
      State({}, 0, map[], [Open(7, true)], [], map[0 := {}]),
      State({}, 1, map[], [Signalled(7)], [], floor),
      State({}, 1, map[], [Signalled(7)], [Start], floor),
      State({}, 1, map[], [Signalled(7)], [Keyed(1, {})], floor),
      State({}, 1, map[], [Signalled(7)], [Loaded(1, {}, {})], floor),
      State({}, 1, map[1 := {}], [Signalled(7)], [Answered({}, {})], floor),
      State({7}, 1, map[1 := {}], [Settled(7)], [Answered({}, {})], floor),
      State({7}, 1, map[1 := {}], [Settled(7)], [Answered({}, {}), Start], floor),
      State({7}, 1, map[1 := {}], [Settled(7)], [Answered({}, {}), Keyed(1, {7})], floor),
      State({7}, 1, map[1 := {}], [Settled(7)], [Answered({}, {}), Answered({7}, {})], floor)];
    assert SettledChanges(states[3]) == {} && SettledChanges(states[8]) == {7} by {
      assert states[8].writers[0] == Settled(7);
    }
    forall k | 0 <= k < |steps| ensures StepAt(false, states, steps, k) {
    }
    assert states[10].readers[1] == Answered({7}, {});
  }

  /** The second rotation is what keeps readers fresh, in every interleaving. */
  lemma FreshIff(again: bool)
    ensures (forall states: seq<State>, steps: seq<Step> :: Run(again, states, steps) ==> Fresh(states)) <==> again
  {
    if again {
      forall states: seq<State>, steps: seq<Step> | Run(again, states, steps) ensures Fresh(states) {
        SecondRotationKeepsFresh(states, steps);
      }
    } else {
      var states, steps := OneRotationServesStale();
      assert Run(again, states, steps) && !Fresh(states);
    }
  }
}
