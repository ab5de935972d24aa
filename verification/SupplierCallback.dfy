/** Delivery of one attempt's result to its supplier
    (surveys/supplier_callbacks.py): the persisted marker, the short
    transactions that move it, and the workers that send in between. */
module SupplierCallback {
  import opened Counting

  type Instant = int

  /** Seconds during which a claim keeps other workers from sending. */
  const LEASE := 30

  datatype Stage = Queued | QueueFailed | Delivering | Failed | Delivered

  /** The event id is the attempt's fixed PID joined to the status code, so
      within one attempt it is the status code. */
  datatype Marker = Marker(event: string, stage: Stage, attemptCount: nat, lastAttempt: Option<Instant>)

  predicate Terminal(status: string) {
    status in {"1", "2", "3", "4"}
  }

  // ---- The transactions ----

  /** `queue_supplier_result_callback`; `locked` is the status under the lock
      and `ready` says that a key and a valid callback URL exist. */
  function QueueMarker(marker: Option<Marker>, status: string, locked: string, ready: bool): (Option<Marker>, bool) {
    if !Terminal(status) || !ready || locked != status then (marker, false)
    else match marker
    case None => (Some(Marker(status, Queued, 0, None)), true)
    case Some(m) =>
      if m.event == status && m.stage == QueueFailed then (Some(m.(stage := Queued)), true) else (marker, false)
  }

  /** `_mark_queue_failure` */
  function FailQueue(marker: Option<Marker>, event: string): Option<Marker> {
    if marker.Some? && marker.value.event == event && marker.value.stage == Queued
    then Some(marker.value.(stage := QueueFailed)) else marker
  }

  /** The guards at the start of `deliver_supplier_result_callback`. */
  predicate Claimable(marker: Option<Marker>, event: string, now: Instant) {
    marker.Some? && marker.value.event == event && marker.value.stage != Delivered &&
    (marker.value.stage == Delivering && marker.value.lastAttempt.Some? ==>
       marker.value.lastAttempt.value <= now - LEASE)
  }

  function ClaimMarker(marker: Marker, now: Instant): Marker {
    marker.(stage := Delivering, attemptCount := marker.attemptCount + 1, lastAttempt := Some(now))
  }

  /** `_finish_delivery` checks the event id and nothing else. */
  function FinishMarker(marker: Option<Marker>, event: string, ok: bool): Option<Marker> {
    if marker.Some? && marker.value.event == event
    then Some(marker.value.(stage := if ok then Delivered else Failed)) else marker
  }

  /** The stored record, updated in place under the attempt's row lock. */
  class Audit {
    var marker: Option<Marker>
    var status: string

    constructor (status: string)
      ensures marker == None && this.status == status
    {
      marker, this.status := None, status;
    }

    method QueueResult(requested: string, ready: bool) returns (dispatched: bool)
      modifies this`marker
      ensures (marker, dispatched) == QueueMarker(old(marker), requested, status, ready)
      ensures dispatched <==>
        requested in {"1", "2", "3", "4"} && ready && status == requested &&
        (old(marker).None? || (old(marker).value.event == requested && old(marker).value.stage == QueueFailed))
      ensures dispatched ==>
        marker.Some? && marker.value.event == requested && marker.value.stage == Queued &&
        (old(marker).None? ==> marker.value.attemptCount == 0 && marker.value.lastAttempt == None) &&
        (old(marker).Some? ==>
           marker.value.attemptCount == old(marker).value.attemptCount &&
           marker.value.lastAttempt == old(marker).value.lastAttempt)
      ensures !dispatched ==> marker == old(marker)
    {
      if !Terminal(requested) || !ready {
        return false;
      }
      if status != requested {
        return false;
      }
      if marker.Some? && marker.value.event == requested {
        if marker.value.stage != QueueFailed {
          return false;
        }
        marker := Some(marker.value.(stage := Queued));
      } else if marker.Some? {
        return false;
      } else {
        marker := Some(Marker(requested, Queued, 0, None));
      }
      return true;
    }

    method MarkQueueFailure(event: string)
      modifies this`marker
      ensures marker == FailQueue(old(marker), event)
      ensures marker != old(marker) <==>
        old(marker).Some? && old(marker).value.event == event && old(marker).value.stage == Queued
      ensures marker != old(marker) ==> marker == Some(old(marker).value.(stage := QueueFailed))
    {
      if marker.None? || marker.value.event != event || marker.value.stage != Queued {
        return;
      }
      marker := Some(marker.value.(stage := QueueFailed));
    }

    method ClaimDelivery(event: string, now: Instant) returns (claimed: bool)
      modifies this`marker
      ensures claimed == Claimable(old(marker), event, now)
      ensures claimed <==>
        old(marker).Some? && old(marker).value.event == event &&
        (old(marker).value.stage in {Queued, QueueFailed, Failed} ||
         (old(marker).value.stage == Delivering &&
          (old(marker).value.lastAttempt.None? || now - old(marker).value.lastAttempt.value >= 30)))
      ensures marker == if claimed then Some(ClaimMarker(old(marker).value, now)) else old(marker)
      ensures claimed ==>
        marker.value.event == event && marker.value.stage == Delivering && marker.value.lastAttempt == Some(now) &&
        marker.value.attemptCount == old(marker).value.attemptCount + 1
    {
      if marker.None? || marker.value.event != event {
        return false;
      }
      if marker.value.stage == Delivered {
        return false;
      }
      if marker.value.stage == Delivering {
        var last := marker.value.lastAttempt;
        if last.Some? && last.value > now - LEASE {
          return false;
        }
      }
      var count := marker.value.attemptCount + 1;
      marker := Some(marker.value.(stage := Delivering, attemptCount := count, lastAttempt := Some(now)));
      return true;
    }

    method FinishDelivery(event: string, ok: bool)
      modifies this`marker
      ensures marker == FinishMarker(old(marker), event, ok)
      ensures old(marker).Some? && old(marker).value.event == event ==>
        marker == Some(old(marker).value.(stage := if ok then Delivered else Failed))
      ensures old(marker).None? || old(marker).value.event != event ==> marker == old(marker)
    {
      if marker.None? || marker.value.event != event {
        return;
      }
      marker := Some(marker.value.(stage := if ok then Delivered else Failed));
    }
  }

  // ---- Interleaved workers ----

  /** A delivery attempt that holds a claim since `claimedAt`; `sent` once its
      request has left, `done` once its result is stored. */
  datatype Worker = Worker(event: string, claimedAt: Instant, sent: bool, done: bool)

  /** `delivered` is history: the marker has been Delivered at some time, and
      `late` counts the requests sent since. */
  datatype State = State(marker: Option<Marker>, status: string, clock: Instant, workers: seq<Worker>,
                         delivered: bool, late: nat)

  datatype Step =
    | Pass(clock: Instant)
    | ChangeStatus(status: string)
    | Queue(requested: string, ready: bool)
    | QueueFailure(event: string)
    | Claim(event: string)
    | Send(w: nat)
    | Finish(w: nat, ok: bool)

  /** A worker can act for less than `bound` seconds after its claim: by then
      it has stored a result or is dead. */
  predicate Alive(s: State, bound: nat, w: nat) {
    w < |s.workers| && !s.workers[w].done && s.clock < s.workers[w].claimedAt + bound
  }

  predicate Enabled(s: State, bound: nat, step: Step) {
    match step
    case Pass(clock) => s.clock <= clock
    case ChangeStatus(_) => true
    case Queue(_, _) => true
    case QueueFailure(_) => true
    case Claim(event) => Claimable(s.marker, event, s.clock)
    case Send(w) => Alive(s, bound, w) && !s.workers[w].sent
    case Finish(w, ok) => Alive(s, bound, w) && (ok ==> s.workers[w].sent)
  }

  function Next(s: State, bound: nat, step: Step): State
    requires Enabled(s, bound, step)
  {
    match step
    case Pass(clock) => s.(clock := clock)
    case ChangeStatus(status) => s.(status := status)
    case Queue(requested, ready) => s.(marker := QueueMarker(s.marker, requested, s.status, ready).0)
    case QueueFailure(event) => s.(marker := FailQueue(s.marker, event))
    case Claim(event) =>
      s.(marker := Some(ClaimMarker(s.marker.value, s.clock)),
         workers := s.workers + [Worker(event, s.clock, false, false)])
    case Send(w) =>
      s.(workers := s.workers[w := s.workers[w].(sent := true)], late := if s.delivered then s.late + 1 else s.late)
    case Finish(w, ok) =>
      var marker := FinishMarker(s.marker, s.workers[w].event, ok);
      s.(marker := marker, workers := s.workers[w := s.workers[w].(done := true)],
         delivered := s.delivered || (marker.Some? && marker.value.stage == Delivered))
  }

  function Init(status: string, clock: Instant): State {
    State(None, status, clock, [], false, 0)
  }

  ghost predicate StepAt(bound: nat, states: seq<State>, steps: seq<Step>, k: nat)
    requires |states| == |steps| + 1 && k < |steps|
  {
    Enabled(states[k], bound, steps[k]) && states[k + 1] == Next(states[k], bound, steps[k])
  }

  ghost predicate Run(bound: nat, states: seq<State>, steps: seq<Step>) {
    |states| == |steps| + 1 && states[0] == Init(states[0].status, states[0].clock) &&
    forall k :: 0 <= k < |steps| ==> StepAt(bound, states, steps, k)
  }

  // ---- Whatever the timing ----

  /** The event id never changes, and every claim is counted. */
  ghost predicate Counted(s: State) {
    (s.marker.None? ==> s.workers == []) &&
    (s.marker.Some? ==> s.marker.value.attemptCount == |s.workers|) &&
    forall w :: 0 <= w < |s.workers| ==> s.workers[w].event == s.marker.value.event
  }

  lemma StepCounts(s: State, bound: nat, step: Step)
    requires Enabled(s, bound, step) && Counted(s)
    ensures Counted(Next(s, bound, step))
    ensures var s' := Next(s, bound, step);
            s.marker.Some? ==> s'.marker.Some? && s'.marker.value.event == s.marker.value.event
  {
  }

  lemma {:induction false} ClaimsCounted(bound: nat, states: seq<State>, steps: seq<Step>, k: nat)
    requires Run(bound, states, steps) && k < |states|
    ensures Counted(states[k])
  {
    if k > 0 {
      ClaimsCounted(bound, states, steps, k - 1);
      assert StepAt(bound, states, steps, k - 1);
      StepCounts(states[k - 1], bound, steps[k - 1]);
    }
  }

  lemma {:induction false} EventNeverChanges(bound: nat, states: seq<State>, steps: seq<Step>, j: nat, k: nat)
    requires Run(bound, states, steps) && j <= k < |states| && states[j].marker.Some?
    ensures states[k].marker.Some? && states[k].marker.value.event == states[j].marker.value.event
  {
    if j < k {
      EventNeverChanges(bound, states, steps, j, k - 1);
      ClaimsCounted(bound, states, steps, k - 1);
      assert StepAt(bound, states, steps, k - 1);
      StepCounts(states[k - 1], bound, steps[k - 1]);
    }
  }

  // ---- With the timing assumption ----

  /** A worker that may still act owns the marker: it made the latest claim. */
  ghost predicate OwnsMarker(s: State, w: nat)
    requires w < |s.workers|
  {
    w == |s.workers| - 1 && s.marker.Some? && s.marker.value.stage == Delivering &&
    s.marker.value.lastAttempt == Some(s.workers[w].claimedAt)
  }

  ghost predicate Exclusive(s: State, bound: nat) {
    (forall w: nat :: Alive(s, bound, w) ==> OwnsMarker(s, w)) &&
    (s.marker.Some? && s.marker.value.stage == Delivering ==> s.marker.value.lastAttempt.Some?) &&
    (s.delivered <==> s.marker.Some? && s.marker.value.stage == Delivered) && s.late == 0
  }

  lemma StepKeepsExclusive(s: State, bound: nat, step: Step)
    requires Enabled(s, bound, step) && Counted(s) && Exclusive(s, bound) && bound <= LEASE
    ensures Exclusive(Next(s, bound, step), bound)
  {
    var s' := Next(s, bound, step);
    match step {
      case Send(w) => assert OwnsMarker(s, w);
      case Finish(w, _) => assert OwnsMarker(s, w);
      case _ =>
    }
    forall w: nat | Alive(s', bound, w) ensures OwnsMarker(s', w) {
      if w < |s.workers| && Alive(s, bound, w) {
        assert OwnsMarker(s, w);
      }
    }
  }

  lemma {:induction false} RunIsExclusive(bound: nat, states: seq<State>, steps: seq<Step>, k: nat)
    requires Run(bound, states, steps) && k < |states| && bound <= LEASE
    ensures Exclusive(states[k], bound)
  {
    if k > 0 {
      RunIsExclusive(bound, states, steps, k - 1);
      ClaimsCounted(bound, states, steps, k - 1);
      assert StepAt(bound, states, steps, k - 1);
      StepKeepsExclusive(states[k - 1], bound, steps[k - 1]);
    }
  }

  /** If claims end within the lease, only one worker at a time can send. */
  lemma OneSenderAtATime(bound: nat, states: seq<State>, steps: seq<Step>, k: nat, v: nat, w: nat)
    requires Run(bound, states, steps) && k < |states| && bound <= LEASE
    requires Alive(states[k], bound, v) && Alive(states[k], bound, w)
    ensures v == w
  {
    RunIsExclusive(bound, states, steps, k);
    assert OwnsMarker(states[k], v) && OwnsMarker(states[k], w);
  }

  /** What "delivered is final" means for a run: once delivered the marker
      stays so, and nothing is sent any more. */
  ghost predicate DeliveredFinal(states: seq<State>) {
    forall j, k :: 0 <= j <= k < |states| && states[j].marker.Some? && states[j].marker.value.stage == Delivered ==>
      states[k].marker.Some? && states[k].marker.value.stage == Delivered && states[k].late == 0
  }

  lemma {:induction false} DeliveredStays(bound: nat, states: seq<State>, steps: seq<Step>, j: nat, k: nat)
    requires Run(bound, states, steps) && j <= k < |states| && bound <= LEASE
    requires states[j].marker.Some? && states[j].marker.value.stage == Delivered
    ensures states[k].marker.Some? && states[k].marker.value.stage == Delivered && states[k].late == 0
  {
    RunIsExclusive(bound, states, steps, k);
    if j < k {
      DeliveredStays(bound, states, steps, j, k - 1);
      RunIsExclusive(bound, states, steps, k - 1);
      assert StepAt(bound, states, steps, k - 1);
      if steps[k - 1].Finish? {
        assert OwnsMarker(states[k - 1], steps[k - 1].w);
      }
    }
  }

  // ---- Without it ----

  /** A worker that outlives the lease by any margin overwrites a delivered
      marker with its own failure. */
  lemma LateWorkerOverwrites(bound: nat) returns (states: seq<State>, steps: seq<Step>)
    requires bound > LEASE
    ensures Run(bound, states, steps)
    ensures |states| == 9
    ensures states[7].marker.Some? && states[7].marker.value.stage == Delivered
    ensures states[8].marker.Some? && states[8].marker.value.stage == Failed
  {
    var first, second := Worker("1", 0, true, false), Worker("1", LEASE, true, false);
    var busy := Marker("1", Delivering, 2, Some(LEASE));
    steps := [Queue("1", true), Claim("1"), Send(0), Pass(LEASE), Claim("1"), Send(1), Finish(1, true),
              Finish(0, false)];
    states := [
      Init("1", 0),
      State(Some(Marker("1", Queued, 0, None)), "1", 0, [], false, 0),
      State(Some(Marker("1", Delivering, 1, Some(0))), "1", 0, [first.(sent := false)], false, 0),
      State(Some(Marker("1", Delivering, 1, Some(0))), "1", 0, [first], false, 0),
      State(Some(Marker("1", Delivering, 1, Some(0))), "1", LEASE, [first], false, 0),
      State(Some(busy), "1", LEASE, [first, second.(sent := false)], false, 0),
      State(Some(busy), "1", LEASE, [first, second], false, 0),
      State(Some(busy.(stage := Delivered)), "1", LEASE, [first, second.(done := true)], true, 0),
      State(Some(busy.(stage := Failed)), "1", LEASE, [first.(done := true), second.(done := true)], true, 0)];
    forall k | 0 <= k < |steps| ensures StepAt(bound, states, steps, k) {
    }
  }

  /** Exactly the claims that end within the lease make delivery final. */
  lemma DeliveredFinalIff(bound: nat)
    ensures (forall states: seq<State>, steps: seq<Step> :: Run(bound, states, steps) ==> DeliveredFinal(states))
        <==> bound <= LEASE
  {
    if bound <= LEASE {
      forall states: seq<State>, steps: seq<Step> | Run(bound, states, steps) ensures DeliveredFinal(states) {
        forall j, k | 0 <= j <= k < |states| && states[j].marker.Some? && states[j].marker.value.stage == Delivered
          ensures states[k].marker.Some? && states[k].marker.value.stage == Delivered && states[k].late == 0
        {
          DeliveredStays(bound, states, steps, j, k);
        }
      }
    } else {
      var states, steps := LateWorkerOverwrites(bound);
      assert Run(bound, states, steps) && !DeliveredFinal(states);
    }
  }

  // ---- No marker is stuck ----

  ghost predicate Extends(states: seq<State>, steps: seq<Step>, states': seq<State>, steps': seq<Step>) {
    states <= states' && steps <= steps'
  }

  lemma Extend(bound: nat, states: seq<State>, steps: seq<Step>, step: Step)
    returns (states': seq<State>, steps': seq<Step>)
    requires Run(bound, states, steps) && Enabled(states[|steps|], bound, step)
    ensures Run(bound, states', steps') && Extends(states, steps, states', steps') && |steps'| == |steps| + 1
    ensures states'[|steps'|] == Next(states[|steps|], bound, step) && steps'[|steps|] == step
  {
    states', steps' := states + [Next(states[|steps|], bound, step)], steps + [step];
    forall k | 0 <= k < |steps'| ensures StepAt(bound, states', steps', k) {
      if k < |steps| {
        assert StepAt(bound, states, steps, k);
      }
    }
  }

  ghost predicate Undelivered(s: State) {
    s.marker.Some? && s.marker.value.stage != Delivered
  }

  /** The run goes on by waiting, one claim, one request and one result, and
      ends with the marker delivered. */
  ghost predicate DeliveredBy(bound: nat, states: seq<State>, steps: seq<Step>, states': seq<State>,
                              steps': seq<Step>)
  {
    Run(bound, states', steps') && Extends(states, steps, states', steps') && |steps'| == |steps| + 4 &&
    steps'[|steps|].Pass? && steps'[|steps| + 1].Claim? && steps'[|steps| + 2].Send? && steps'[|steps| + 3].Finish? &&
    states'[|steps'|].marker.Some? && states'[|steps'|].marker.value.stage == Delivered
  }

  /** Whatever has happened to an undelivered marker, one more claim can
      deliver it. */
  lemma CanBeDelivered(bound: nat, states: seq<State>, steps: seq<Step>)
    returns (states': seq<State>, steps': seq<Step>)
    requires bound > 0 && Run(bound, states, steps) && Undelivered(states[|steps|])
    ensures DeliveredBy(bound, states, steps, states', steps')
  {
    var s := states[|steps|];
    var event, last := s.marker.value.event, s.marker.value.lastAttempt;
    var clock := if last.Some? && s.clock < last.value + LEASE then last.value + LEASE else s.clock;
    var w := |s.workers|;
    states', steps' := Extend(bound, states, steps, Pass(clock));
    states', steps' := Extend(bound, states', steps', Claim(event));
    states', steps' := Extend(bound, states', steps', Send(w));
    states', steps' := Extend(bound, states', steps', Finish(w, true));
  }

  lemma {:induction false} NeverSent(states: seq<State>, steps: seq<Step>, k: nat)
    requires Run(0, states, steps) && k < |states|
    ensures states[k].marker.None? || states[k].marker.value.stage != Delivered
    ensures forall w :: 0 <= w < |states[k].workers| ==> states[k].clock >= states[k].workers[w].claimedAt
  {
    if k > 0 {
      NeverSent(states, steps, k - 1);
      assert StepAt(0, states, steps, k - 1);
    }
  }

  /** From every state of every run with an undelivered marker delivery is
      possible, exactly if a claim leaves any time at all to act. */
  lemma DeliverableIff(bound: nat)
    ensures (forall states: seq<State>, steps: seq<Step> ::
               Run(bound, states, steps) && Undelivered(states[|steps|]) ==>
                 exists states': seq<State>, steps': seq<Step> :: DeliveredBy(bound, states, steps, states', steps'))
        <==> bound > 0
  {
    if bound > 0 {
      forall states: seq<State>, steps: seq<Step> | Run(bound, states, steps) && Undelivered(states[|steps|])
        ensures exists states': seq<State>, steps': seq<Step> :: DeliveredBy(bound, states, steps, states', steps')
      {
        var states', steps' := CanBeDelivered(bound, states, steps);
      }
    } else {
      var states, steps := [Init("1", 0), State(Some(Marker("1", Queued, 0, None)), "1", 0, [], false, 0)],
                           [Queue("1", true)];
      assert StepAt(0, states, steps, 0);
      assert Run(0, states, steps) && Undelivered(states[|steps|]);
      forall states': seq<State>, steps': seq<Step>
        ensures !DeliveredBy(0, states, steps, states', steps')
      {
        if Run(0, states', steps') {
          NeverSent(states', steps', |steps'|);
        }
      }
    }
  }
}
