/** The database lease that keeps one integration's sync single-flight
    (surveys/models.py, surveys/tasks.py).  `release` names no owner, so what
    it clears depends on how long a task may run. */
module SyncLease {
  import opened Counting

  type Instant = int

  /** CELERY_TASK_TIME_LIMIT (config/settings.py). */
  const TASK_TIME_LIMIT := 300

  function Max(a: nat, b: nat): nat { if a >= b then a else b }

  /** `effective_sync_interval_seconds`: the slowest of the operator's value,
      the deployment default and the provider floor; unset values read as 60. */
  function EffectiveInterval(configured: nat, deployment: nat, floor: nat): nat {
    Max(Max(60, if configured == 0 then 60 else configured), Max(if deployment == 0 then 60 else deployment, floor))
  }

  /** The lease `sync_client_integration_task` asks for. */
  function SyncLeaseSeconds(configured: nat, deployment: nat, floor: nat): nat {
    Max(300, EffectiveInterval(configured, deployment, floor))
  }

  /** Whatever the settings, the sync lease outlasts the task. */
  lemma LeaseCoversTask(configured: nat, deployment: nat, floor: nat)
    ensures TASK_TIME_LIMIT <= SyncLeaseSeconds(configured, deployment, floor)
    ensures var interval := EffectiveInterval(configured, deployment, floor);
            60 <= interval && configured <= interval && deployment <= interval && floor <= interval &&
            interval in {60, configured, deployment, floor} &&
            interval <= SyncLeaseSeconds(configured, deployment, floor)
    ensures SyncLeaseSeconds(configured, deployment, floor) in {300, configured, deployment, floor}
  {
  }

  predicate Free(lockedUntil: Option<Instant>, now: Instant) {
    lockedUntil.Some? ==> lockedUntil.value <= now
  }

  class Lease {
    var lockedUntil: Option<Instant>

    constructor ()
      ensures lockedUntil == None
    {
      lockedUntil := None;
    }

    method Acquire(now: Instant, seconds: nat) returns (acquired: bool)
      modifies this
      ensures acquired == Free(old(lockedUntil), now)
      ensures lockedUntil == if acquired then Some(now + seconds) else old(lockedUntil)
    {
      if lockedUntil.Some? && lockedUntil.value > now {
        return false;
      }
      lockedUntil := Some(now + seconds);
      return true;
    }

    method Release()
      modifies this
      ensures lockedUntil == None
    {
      lockedUntil := None;
    }
  }

  // ---- Interleaved tasks ----

  datatype Task = Task(acquiredAt: Instant, released: bool)

  datatype State = State(lockedUntil: Option<Instant>, clock: Instant, tasks: seq<Task>)

  datatype Step = Pass(clock: Instant) | Acquire | Release(t: nat)

  /** A task runs its body from its acquisition until it releases the lease or
      the time limit kills it; it cannot release after that. */
  predicate Running(s: State, limit: nat, t: nat) {
    t < |s.tasks| && !s.tasks[t].released && s.clock < s.tasks[t].acquiredAt + limit
  }

  predicate Enabled(s: State, limit: nat, step: Step) {
    match step
    case Pass(clock) => s.clock <= clock
    case Acquire => Free(s.lockedUntil, s.clock)
    case Release(t) => Running(s, limit, t)
  }

  function Next(s: State, lease: nat, limit: nat, step: Step): State
    requires Enabled(s, limit, step)
  {
    match step
    case Pass(clock) => s.(clock := clock)
    case Acquire => s.(lockedUntil := Some(s.clock + lease), tasks := s.tasks + [Task(s.clock, false)])
    case Release(t) => s.(lockedUntil := None, tasks := s.tasks[t := s.tasks[t].(released := true)])
  }

  ghost predicate StepAt(lease: nat, limit: nat, states: seq<State>, steps: seq<Step>, k: nat)
    requires |states| == |steps| + 1 && k < |steps|
  {
    Enabled(states[k], limit, steps[k]) && states[k + 1] == Next(states[k], lease, limit, steps[k])
  }

  ghost predicate Run(lease: nat, limit: nat, states: seq<State>, steps: seq<Step>) {
    |states| == |steps| + 1 && states[0] == State(None, states[0].clock, []) &&
    forall k :: 0 <= k < |steps| ==> StepAt(lease, limit, states, steps, k)
  }

  /** A running task is the latest to have acquired, and the lease is its own. */
  ghost predicate Owns(s: State, lease: nat, t: nat)
    requires t < |s.tasks|
  {
    t == |s.tasks| - 1 && s.lockedUntil == Some(s.tasks[t].acquiredAt + lease)
  }

  ghost predicate Exclusive(s: State, lease: nat, limit: nat) {
    forall t: nat :: Running(s, limit, t) ==> Owns(s, lease, t)
  }

  lemma StepKeepsExclusive(s: State, lease: nat, limit: nat, step: Step)
    requires Enabled(s, limit, step) && Exclusive(s, lease, limit) && limit <= lease
    ensures Exclusive(Next(s, lease, limit, step), lease, limit)
  {
    var s' := Next(s, lease, limit, step);
    forall t: nat | Running(s', limit, t) ensures Owns(s', lease, t) {
      if step.Release? {
        assert Owns(s, lease, step.t);
      }
      if t < |s.tasks| && Running(s, limit, t) {
        assert Owns(s, lease, t);
      }
    }
  }

  lemma {:induction false} RunIsExclusive(lease: nat, limit: nat, states: seq<State>, steps: seq<Step>, k: nat)
    requires Run(lease, limit, states, steps) && k < |states| && limit <= lease
    ensures Exclusive(states[k], lease, limit)
  {
    if k > 0 {
      RunIsExclusive(lease, limit, states, steps, k - 1);
      assert StepAt(lease, limit, states, steps, k - 1);
      StepKeepsExclusive(states[k - 1], lease, limit, steps[k - 1]);
    }
  }

  /** Two things a run promises: one body at a time, and a release that only
      ever clears what the releasing task itself acquired. */
  ghost predicate Safe(lease: nat, limit: nat, states: seq<State>, steps: seq<Step>)
    requires |states| == |steps| + 1
  {
    (forall k, t: nat, u: nat ::
       0 <= k < |states| && Running(states[k], limit, t) && Running(states[k], limit, u) ==> t == u) &&
    (forall k :: 0 <= k < |steps| && steps[k].Release? && steps[k].t < |states[k].tasks| ==>
       Owns(states[k], lease, steps[k].t))
  }

  lemma SafeWithinLease(lease: nat, limit: nat, states: seq<State>, steps: seq<Step>)
    requires Run(lease, limit, states, steps) && limit <= lease
    ensures Safe(lease, limit, states, steps)
  {
    forall k, t: nat, u: nat | 0 <= k < |states| && Running(states[k], limit, t) && Running(states[k], limit, u)
      ensures t == u
    {
      RunIsExclusive(lease, limit, states, steps, k);
      assert Owns(states[k], lease, t) && Owns(states[k], lease, u);
    }
    forall k | 0 <= k < |steps| && steps[k].Release? && steps[k].t < |states[k].tasks|
      ensures Owns(states[k], lease, steps[k].t)
    {
      RunIsExclusive(lease, limit, states, steps, k);
      assert StepAt(lease, limit, states, steps, k);
    }
  }

  /** A longer task loses its lease to a second one and then clears it for a
      third, while the second is still running. */
  lemma LongTaskBreaksIn(lease: nat, limit: nat) returns (states: seq<State>, steps: seq<Step>)
    requires lease < limit
    ensures Run(lease, limit, states, steps) && !Safe(lease, limit, states, steps)
    ensures |states| == 6 && Running(states[5], limit, 1) && Running(states[5], limit, 2)
  {
    var first, second := Task(0, false), Task(lease, false);
    steps := [Acquire, Pass(lease), Acquire, Release(0), Acquire];
    states := [
      State(None, 0, []),
      State(Some(lease), 0, [first]),
      State(Some(lease), lease, [first]),
      State(Some(lease + lease), lease, [first, second]),
      State(None, lease, [first.(released := true), second]),
      State(Some(lease + lease), lease, [first.(released := true), second, second])];
    forall k | 0 <= k < |steps| ensures StepAt(lease, limit, states, steps, k) {
    }
    assert Running(states[5], limit, 1) && Running(states[5], limit, 2);
  }

  /** The lease protects exactly the tasks that cannot outlive it. */
  lemma SafeIff(lease: nat, limit: nat)
    ensures (forall states: seq<State>, steps: seq<Step> ::
               Run(lease, limit, states, steps) ==> Safe(lease, limit, states, steps))
        <==> limit <= lease
  {
    if limit <= lease {
      forall states: seq<State>, steps: seq<Step> | Run(lease, limit, states, steps)
        ensures Safe(lease, limit, states, steps)
      {
        SafeWithinLease(lease, limit, states, steps);
      }
    } else {
      var states, steps := LongTaskBreaksIn(lease, limit);
      assert Run(lease, limit, states, steps) && !Safe(lease, limit, states, steps);
    }
  }
}
