/** Shared cache primitives (config/cache_utils.py) and the build lock of the
    Projects cache (surveys/project_cache.py). */
module SingleFlight {
  import opened Counting

  type Instant = int

  const LOCK_SECONDS := 30

  // ---- The store: every helper fails open when the cache is away ----

  class SharedCache {
    var values: map<string, int>
    var up: bool

    constructor (up: bool)
      ensures values == map[] && this.up == up
    {
      values, this.up := map[], up;
    }

    method Get(key: string) returns (value: Option<int>)
      ensures value == if up && key in values then Some(values[key]) else None
    {
      if !up || key !in values {
        return None;
      }
      return Some(values[key]);
    }

    /** False means somebody owns the key, None that nobody can tell. */
    method Add(key: string, value: int) returns (added: Option<bool>)
      modifies this`values
      ensures added == if up then Some(key !in old(values)) else None
      ensures values == if up && key !in old(values) then old(values)[key := value] else old(values)
    {
      if !up {
        return None;
      }
      if key in values {
        return Some(false);
      }
      values := values[key := value];
      return Some(true);
    }

    /** `safe_cache_generation`: the shared generation, seeded at random when
        missing; during an outage the caller's own seed. */
    method Generation(key: string, seed: int) returns (generation: int)
      modifies this`values
      ensures values == if up && key !in old(values) then old(values)[key := seed] else old(values)
      ensures generation == if up then values[key] else seed
    {
      var cached := Get(key);
      if cached.Some? {
        return cached.value;
      }
      var created := Add(key, seed);
      if created == Some(true) {
        return seed;
      }
      if created == Some(false) {
        var winner := Get(key);
        if winner.Some? {
          return winner.value;
        }
      }
      return seed;
    }

    /** `evicted` says that the key vanishes between the add and the increment,
        which then resets it. */
    method Increment(key: string, initial: int, evicted: bool) returns (value: int)
      modifies this`values
      ensures var start := if key in old(values) && !evicted then old(values)[key] else initial;
              if up then value == start + 1 && values == old(values)[key := value]
              else value == initial && values == old(values)
    {
      if !up {
        return initial;
      }
      var added := Add(key, initial);
      if evicted {
        values := values - {key};
      }
      value := (if key in values then values[key] else initial) + 1;
      values := values[key := value];
    }

    /** `invalidate_effective_permission_cache`: while the cache is up the
        generation moves strictly forward and no other key changes. */
    method RotateGeneration(key: string, seed: int, evicted: bool)
      modifies this`values
      ensures !up ==> values == old(values)
      ensures up && key in old(values) ==> values == old(values)[key := old(values)[key] + 1]
      ensures up && key !in old(values) ==> values == old(values)[key := seed + 1]
    {
      var generation := Generation(key, seed);
      var rotated := Increment(key, generation, evicted);
    }

    method CompareDelete(key: string, expected: int) returns (deleted: bool)
      modifies this`values
      ensures deleted <==> up && key in old(values) && old(values)[key] == expected
      ensures values == if deleted then old(values) - {key} else old(values)
    {
      if !up || key !in values || values[key] != expected {
        return false;
      }
      values := values - {key};
      return true;
    }
  }

  // ---- The build lock under any interleaving ----

  datatype Lock = Lock(token: nat, until: Instant)

  /** A builder's random token is its number; it may build for any time.  One
      without the lock builds because the cache is away or a peer took too long. */
  datatype Builder = Builder(locked: bool, until: Instant, left: bool)

  datatype State = State(lock: Option<Lock>, clock: Instant, builders: seq<Builder>)

  datatype Step = Pass(clock: Instant) | Enter | EnterUnlocked | Leave(b: nat)

  predicate Free(s: State) {
    s.lock.Some? ==> s.lock.value.until <= s.clock
  }

  predicate Enabled(s: State, step: Step) {
    match step
    case Pass(clock) => s.clock <= clock
    case Enter => Free(s)
    case EnterUnlocked => true
    case Leave(b) => b < |s.builders| && !s.builders[b].left
  }

  /** `compare` says whether leaving checks the token before deleting. */
  function Next(s: State, compare: bool, step: Step): State
    requires Enabled(s, step)
  {
    match step
    case Pass(clock) => s.(clock := clock)
    case Enter =>
      var until := s.clock + LOCK_SECONDS;
      s.(lock := Some(Lock(|s.builders|, until)), builders := s.builders + [Builder(true, until, false)])
    case EnterUnlocked => s.(builders := s.builders + [Builder(false, s.clock, false)])
    case Leave(b) =>
      var deletes := s.builders[b].locked && (!compare || (s.lock.Some? && s.lock.value.token == b));
      s.(lock := if deletes then None else s.lock,
         builders := s.builders[b := s.builders[b].(left := true)])
  }

  ghost predicate StepAt(compare: bool, states: seq<State>, steps: seq<Step>, k: nat)
    requires |states| == |steps| + 1 && k < |steps|
  {
    Enabled(states[k], steps[k]) && states[k + 1] == Next(states[k], compare, steps[k])
  }

  ghost predicate Run(compare: bool, states: seq<State>, steps: seq<Step>) {
    |states| == |steps| + 1 && states[0] == State(None, states[0].clock, []) &&
    forall k :: 0 <= k < |steps| ==> StepAt(compare, states, steps, k)
  }

  /** Still building under a lock that has not expired. */
  predicate Covered(s: State, b: nat) {
    b < |s.builders| && s.builders[b].locked && !s.builders[b].left && s.clock < s.builders[b].until
  }

  ghost predicate HoldsLock(s: State, b: nat)
    requires b < |s.builders|
  {
    s.lock == Some(Lock(b, s.builders[b].until))
  }

  ghost predicate Exclusive(s: State) {
    forall b: nat :: Covered(s, b) ==> HoldsLock(s, b)
  }

  lemma StepKeepsExclusive(s: State, step: Step)
    requires Enabled(s, step) && Exclusive(s)
    ensures Exclusive(Next(s, true, step))
  {
    var s' := Next(s, true, step);
    forall b: nat | Covered(s', b) ensures HoldsLock(s', b) {
      if Covered(s, b) {
        assert HoldsLock(s, b);
      }
    }
  }

  lemma {:induction false} RunIsExclusive(states: seq<State>, steps: seq<Step>, k: nat)
    requires Run(true, states, steps) && k < |states|
    ensures Exclusive(states[k])
  {
    if k > 0 {
      RunIsExclusive(states, steps, k - 1);
      assert StepAt(true, states, steps, k - 1);
      StepKeepsExclusive(states[k - 1], steps[k - 1]);
    }
  }

  /** At most one builder is covered by the lock at any time. */
  ghost predicate OneBuilder(states: seq<State>) {
    forall k, b: nat, c: nat :: 0 <= k < |states| && Covered(states[k], b) && Covered(states[k], c) ==> b == c
  }

  /** A slow builder that deletes without comparing lets a third one in beside
      its replacement. */
  lemma PlainDeleteLetsTwoIn() returns (states: seq<State>, steps: seq<Step>)
    ensures Run(false, states, steps) && !OneBuilder(states)
  {
    var slow, next := Builder(true, LOCK_SECONDS, false), Builder(true, 2 * LOCK_SECONDS, false);
    steps := [Enter, Pass(LOCK_SECONDS), Enter, Leave(0), Enter];
    states := [
      State(None, 0, []),
      State(Some(Lock(0, LOCK_SECONDS)), 0, [slow]),
      State(Some(Lock(0, LOCK_SECONDS)), LOCK_SECONDS, [slow]),
      State(Some(Lock(1, 2 * LOCK_SECONDS)), LOCK_SECONDS, [slow, next]),
      State(None, LOCK_SECONDS, [slow.(left := true), next]),
      State(Some(Lock(2, 2 * LOCK_SECONDS)), LOCK_SECONDS, [slow.(left := true), next, next])];
    forall k | 0 <= k < |steps| ensures StepAt(false, states, steps, k) {
    }
    assert Covered(states[5], 1) && Covered(states[5], 2);
  }

  /** Compare-and-delete is what keeps builders apart, however long they take. */
  lemma OneBuilderIff(compare: bool)
    ensures (forall states: seq<State>, steps: seq<Step> :: Run(compare, states, steps) ==> OneBuilder(states))
        <==> compare
  {
    if compare {
      forall states: seq<State>, steps: seq<Step> | Run(compare, states, steps) ensures OneBuilder(states) {
        forall k, b: nat, c: nat | 0 <= k < |states| && Covered(states[k], b) && Covered(states[k], c) ensures b == c {
          RunIsExclusive(states, steps, k);
          assert HoldsLock(states[k], b) && HoldsLock(states[k], c);
        }
      }
    } else {
      var states, steps := PlainDeleteLetsTwoIn();
      assert Run(compare, states, steps) && !OneBuilder(states);
    }
  }
}
