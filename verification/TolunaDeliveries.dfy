/** Deliveries of one payload that overlap (surveys/toluna_notifications.py):
    each looks for a stored row in up to two queries and inserts one later, so
    others may insert in between.  A row is named by the integration in its
    hash, `None` for the hash without one. */
module TolunaDeliveries {
  import opened Counting

  type Link = Option<nat>

  /** What a delivery has found out: nothing yet, no row under its own hash,
      no row at all, or it has its row. */
  datatype Phase = Arrived | NotUnderOwn | NotStored | Done

  /** `link` is the integration that was resolved when the delivery arrived. */
  datatype Delivery = Delivery(link: Link, phase: Phase)

  datatype State = State(stored: set<Link>, deliveries: seq<Delivery>)

  datatype Step =
    | Arrive(link: Link)
    | LookUnderOwn(d: nat)
    | LookUnlinked(d: nat)
    | Put(d: nat)

  predicate InPhase(s: State, d: nat, phase: Phase) {
    d < |s.deliveries| && s.deliveries[d].phase == phase
  }

  predicate Enabled(s: State, step: Step) {
    match step
    case Arrive(_) => true
    case LookUnderOwn(d) => InPhase(s, d, Arrived)
    case LookUnlinked(d) => InPhase(s, d, NotUnderOwn)
    case Put(d) => InPhase(s, d, NotStored)
  }

  function SetPhase(s: State, d: nat, phase: Phase): State
    requires d < |s.deliveries|
  {
    s.(deliveries := s.deliveries[d := s.deliveries[d].(phase := phase)])
  }

  /** Only a linked delivery has a second hash to look under. */
  function Next(s: State, step: Step): State
    requires Enabled(s, step)
  {
    match step
    case Arrive(link) => s.(deliveries := s.deliveries + [Delivery(link, Arrived)])
    case LookUnderOwn(d) =>
      var link := s.deliveries[d].link;
      SetPhase(s, d, if link in s.stored then Done else if link == None then NotStored else NotUnderOwn)
    case LookUnlinked(d) => SetPhase(s, d, if None in s.stored then Done else NotStored)
    case Put(d) => SetPhase(s, d, Done).(stored := s.stored + {s.deliveries[d].link})
  }

  ghost predicate StepAt(states: seq<State>, steps: seq<Step>, k: nat)
    requires |states| == |steps| + 1 && k < |steps|
  {
    Enabled(states[k], steps[k]) && states[k + 1] == Next(states[k], steps[k])
  }

  const NOTHING := State({}, [])

  ghost predicate Run(states: seq<State>, steps: seq<Step>) {
    |states| == |steps| + 1 && states[0] == NOTHING && forall k :: 0 <= k < |steps| ==> StepAt(states, steps, k)
  }

  /** Every delivery has its row. */
  predicate Complete(s: State) {
    s.deliveries != [] && forall d :: 0 <= d < |s.deliveries| ==> s.deliveries[d].phase == Done
  }

  predicate SameLinks(s: State) {
    forall d, e :: 0 <= d < |s.deliveries| && 0 <= e < |s.deliveries| ==> s.deliveries[d].link == s.deliveries[e].link
  }

  ghost predicate OneRow(s: State) {
    exists link :: s.stored == {link}
  }

  /** No linked delivery has looked for the unlinked row in the first `k` steps. */
  predicate NoneLooked(steps: seq<Step>, k: nat)
    requires k <= |steps|
  {
    forall j :: 0 <= j < k ==> !steps[j].LookUnlinked?
  }

  /** An unlinked row is stored before any linked delivery looks for one. */
  ghost predicate StoredFirst(states: seq<State>, steps: seq<Step>, k: nat)
    requires |states| == |steps| + 1 && k < |states|
  {
    exists i :: 0 <= i <= k && None in states[i].stored && NoneLooked(steps, i)
  }

  // ---- What each step keeps ----

  /** A delivery that is done left or found a row; rows come from deliveries. */
  ghost predicate RowsOk(s: State) {
    (forall d :: 0 <= d < |s.deliveries| && s.deliveries[d].phase == Done ==>
       s.deliveries[d].link in s.stored || None in s.stored) &&
    (forall d :: 0 <= d < |s.deliveries| && s.deliveries[d].phase == NotUnderOwn ==> s.deliveries[d].link.Some?) &&
    forall link :: link in s.stored ==> exists d :: 0 <= d < |s.deliveries| && s.deliveries[d].link == link
  }

  lemma StepKeepsRows(s: State, step: Step)
    requires Enabled(s, step) && RowsOk(s)
    ensures RowsOk(Next(s, step))
  {
    var s' := Next(s, step);
    forall link | link in s'.stored ensures exists d :: 0 <= d < |s'.deliveries| && s'.deliveries[d].link == link {
      if link in s.stored {
        var d :| 0 <= d < |s.deliveries| && s.deliveries[d].link == link;
        assert s'.deliveries[d].link == link;
      } else {
        assert s'.deliveries[step.d].link == link;
      }
    }
  }

  /** Nothing but the unlinked row, and no linked delivery about to add one. */
  ghost predicate OnlyUnlinked(s: State) {
    s.stored <= {None} &&
    forall d :: 0 <= d < |s.deliveries| && s.deliveries[d].link.Some? ==> s.deliveries[d].phase != NotStored
  }

  /** A linked delivery has added a row or is about to. */
  ghost predicate LinkedOut(s: State, d: nat) {
    d < |s.deliveries| && s.deliveries[d].link.Some? &&
    (s.deliveries[d].phase == NotStored || s.deliveries[d].link in s.stored)
  }

  lemma StepKeepsOnlyUnlinked(s: State, step: Step)
    requires Enabled(s, step) && OnlyUnlinked(s) && (step.LookUnlinked? ==> None in s.stored)
    ensures OnlyUnlinked(Next(s, step))
  {
  }

  lemma FirstMiss(s: State, step: Step)
    requires Enabled(s, step) && RowsOk(s) && step.LookUnlinked? && None !in s.stored
    ensures LinkedOut(Next(s, step), step.d)
  {
  }

  lemma StepKeepsLinkedOut(s: State, step: Step, d: nat)
    requires Enabled(s, step) && LinkedOut(s, d)
    ensures LinkedOut(Next(s, step), d)
  {
  }

  lemma {:induction false} RunKeepsRows(states: seq<State>, steps: seq<Step>, k: nat)
    requires Run(states, steps) && k < |states|
    ensures RowsOk(states[k])
  {
    if k > 0 {
      RunKeepsRows(states, steps, k - 1);
      assert StepAt(states, steps, k - 1);
      StepKeepsRows(states[k - 1], steps[k - 1]);
    }
  }

  /** Up to the first linked lookup only the unlinked row can be stored; after
      it that stays so exactly if the row was there first. */
  lemma {:induction false} RunSplits(states: seq<State>, steps: seq<Step>, k: nat)
    requires Run(states, steps) && k < |states|
    ensures NoneLooked(steps, k) || StoredFirst(states, steps, k) ==> OnlyUnlinked(states[k])
    ensures StoredFirst(states, steps, k) ==> None in states[k].stored
    ensures !NoneLooked(steps, k) && !StoredFirst(states, steps, k) ==> exists d: nat :: LinkedOut(states[k], d)
  {
    if k > 0 {
      RunSplits(states, steps, k - 1);
      RunKeepsRows(states, steps, k - 1);
      assert StepAt(states, steps, k - 1);
      var s, step := states[k - 1], steps[k - 1];
      if StoredFirst(states, steps, k - 1) {
        StepKeepsOnlyUnlinked(s, step);
      } else if NoneLooked(steps, k - 1) {
        assert None !in s.stored;
        if step.LookUnlinked? {
          FirstMiss(s, step);
        } else {
          StepKeepsOnlyUnlinked(s, step);
        }
      } else {
        var d: nat :| LinkedOut(s, d);
        StepKeepsLinkedOut(s, step, d);
      }
    }
  }

  // ---- How many rows a payload gets ----

  function Last(states: seq<State>): State
    requires states != []
  {
    states[|states| - 1]
  }

  /** With a linked row stored, every other link has brought another one. */
  lemma LinkedRows(s: State, d: nat)
    requires Complete(s) && RowsOk(s) && LinkedOut(s, d)
    ensures OneRow(s) <==> SameLinks(s)
  {
    var own := s.deliveries[d].link;
    if SameLinks(s) {
      assert s.stored == {own};
    } else {
      var e :| 0 <= e < |s.deliveries| && s.deliveries[e].link != own;
      assert s.deliveries[e].link in s.stored || None in s.stored;
    }
  }

  /** Once every delivery has its row there is a single one exactly when all
      deliveries resolved alike, or an unlinked row was stored before any
      linked delivery looked for it. */
  lemma OneRowIff(states: seq<State>, steps: seq<Step>)
    requires Run(states, steps) && Complete(Last(states))
    ensures OneRow(Last(states)) <==> SameLinks(Last(states)) || StoredFirst(states, steps, |steps|)
  {
    var n, s := |steps|, Last(states);
    RunKeepsRows(states, steps, n);
    RunSplits(states, steps, n);
    assert s.deliveries[0].link in s.stored || None in s.stored;
    if StoredFirst(states, steps, n) {
      assert s.stored == {None};
    } else {
      assert !NoneLooked(steps, n);
      var d: nat :| LinkedOut(s, d);
      LinkedRows(s, d);
    }
  }

  // ---- Whatever the interleaving ----

  function LinksOf(s: State): seq<Link> {
    seq(|s.deliveries|, (d: nat) requires d < |s.deliveries| => s.deliveries[d].link)
  }

  ghost predicate Ends(states: seq<State>, steps: seq<Step>, s: State) {
    Run(states, steps) && Last(states) == s
  }

  lemma Extend(states: seq<State>, steps: seq<Step>, step: Step) returns (states': seq<State>, steps': seq<Step>)
    requires Run(states, steps) && Enabled(Last(states), step)
    ensures Ends(states', steps', Next(Last(states), step))
  {
    states', steps' := states + [Next(Last(states), step)], steps + [step];
    forall k | 0 <= k < |steps'| ensures StepAt(states', steps', k) {
      if k < |steps| {
        assert StepAt(states, steps, k);
      }
    }
  }

  function PhaseAt(d: nat, turn: nat, before: Phase, after: Phase): Phase {
    if d < turn then after else before
  }

  /** Deliveries of these links, the first `turn` of them a phase further. */
  function Moving(links: seq<Link>, turn: nat, before: Phase, after: Phase, stored: set<Link>): State {
    State(stored, seq(|links|, (d: nat) requires d < |links| => Delivery(links[d], PhaseAt(d, turn, before, after))))
  }

  lemma {:induction false} AllArrive(links: seq<Link>) returns (states: seq<State>, steps: seq<Step>)
    ensures Ends(states, steps, Moving(links, 0, Arrived, NotStored, {}))
  {
    if links == [] {
      states, steps := [NOTHING], [];
    } else {
      var n := |links| - 1;
      states, steps := AllArrive(links[..n]);
      states, steps := Extend(states, steps, Arrive(links[n]));
      assert Last(states) == Moving(links, 0, Arrived, NotStored, {});
    }
  }

  /** Everybody looks before anybody inserts. */
  lemma {:induction false} AllMiss(links: seq<Link>, turn: nat) returns (states: seq<State>, steps: seq<Step>)
    requires turn <= |links|
    ensures Ends(states, steps, Moving(links, turn, Arrived, NotStored, {}))
  {
    if turn == 0 {
      states, steps := AllArrive(links);
    } else {
      states, steps := AllMiss(links, turn - 1);
      states, steps := Extend(states, steps, LookUnderOwn(turn - 1));
      if links[turn - 1].Some? {
        states, steps := Extend(states, steps, LookUnlinked(turn - 1));
      }
      assert Last(states) == Moving(links, turn, Arrived, NotStored, {});
    }
  }

  /** Then every link gets its own row. */
  lemma {:induction false} AllPut(links: seq<Link>, turn: nat) returns (states: seq<State>, steps: seq<Step>)
    requires turn <= |links|
    ensures Ends(states, steps, Moving(links, turn, NotStored, Done, SetOf(links[..turn])))
  {
    if turn == 0 {
      states, steps := AllMiss(links, |links|);
      assert Last(states) == Moving(links, 0, NotStored, Done, SetOf(links[..0]));
    } else {
      states, steps := AllPut(links, turn - 1);
      states, steps := Extend(states, steps, Put(turn - 1));
      assert links[..turn] == links[..turn - 1] + [links[turn - 1]];
      assert SetOf(links[..turn]) == SetOf(links[..turn - 1]) + {links[turn - 1]};
      assert Last(states) == Moving(links, turn, NotStored, Done, SetOf(links[..turn]));
    }
  }

  /** Deliveries that all look first leave a row for each of their links. */
  lemma RowForEachLink(links: seq<Link>) returns (states: seq<State>, steps: seq<Step>)
    requires links != []
    ensures Run(states, steps) && Complete(Last(states)) && LinksOf(Last(states)) == links
    ensures Last(states).stored == SetOf(links)
  {
    states, steps := AllPut(links, |links|);
    TakeAll(links);
  }

  /** Two deliveries with the inventory committed in between, and two rows. */
  lemma TwoRows() returns (states: seq<State>, steps: seq<Step>)
    ensures Run(states, steps) && Complete(Last(states))
    ensures LinksOf(Last(states)) == [None, Some(1)] && Last(states).stored == {None, Some(1)}
  {
    states, steps := RowForEachLink([None, Some(1)]);
    assert SetOf([None, Some(1)]) == {None, Some(1)};
  }

  ghost predicate AllSame(links: seq<Link>) {
    forall i, j :: 0 <= i < |links| && 0 <= j < |links| ==> links[i] == links[j]
  }

  /** Deliveries are safe in every interleaving exactly when they all resolve
      alike: only then does nothing depend on who looks first. */
  lemma OneRowAlwaysIff(links: seq<Link>)
    requires links != []
    ensures (forall states: seq<State>, steps: seq<Step> ::
               Run(states, steps) && Complete(Last(states)) && LinksOf(Last(states)) == links ==> OneRow(Last(states)))
        <==> AllSame(links)
  {
    if AllSame(links) {
      forall states: seq<State>, steps: seq<Step> |
          Run(states, steps) && Complete(Last(states)) && LinksOf(Last(states)) == links
        ensures OneRow(Last(states))
      {
        assert forall d :: 0 <= d < |links| ==> LinksOf(Last(states))[d] == Last(states).deliveries[d].link;
        OneRowIff(states, steps);
      }
    } else {
      var states, steps := RowForEachLink(links);
      var i, j :| 0 <= i < |links| && 0 <= j < |links| && links[i] != links[j];
      assert links[i] in SetOf(links) && links[j] in SetOf(links);
      assert !OneRow(Last(states));
    }
  }
}
