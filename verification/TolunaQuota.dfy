/** Quota-status notifications for one quota of one exact Toluna survey
    (surveys/toluna_notifications.py): which of several deliveries decides,
    whatever the order in which they are processed or replayed. */
module TolunaQuota {
  import opened Counting

  type Instant = int

  datatype Notification = Notification(pk: nat, occurred: Option<Instant>, received: Instant, isLive: bool)

  datatype Status = Open | Full | Unknown

  datatype Quota = Quota(status: Status, remaining: nat)

  // ---- The two definitions of "newest" ----

  /** `_newer_applied_quota_notification_exists`: what outranks a delivery. */
  predicate Newer(m: Notification, n: Notification) {
    if n.occurred.None? then
      m.occurred.Some? ||
      (m.occurred.None? && m.received > n.received) ||
      (m.occurred.None? && m.received == n.received && m.pk > n.pk)
    else
      m.occurred.Some? &&
      (m.occurred.value > n.occurred.value ||
      (m.occurred.value == n.occurred.value && m.received > n.received) ||
      (m.occurred.value == n.occurred.value && m.received == n.received && m.pk > n.pk))
  }

  /** A column comparison under ORDER BY ... DESC NULLS LAST. */
  predicate Precedes(a: Option<Instant>, b: Option<Instant>) {
    a.Some? && (b.None? || a.value > b.value)
  }

  /** The sort that picks the row to replay: occurred_at, received_at, pk. */
  predicate ReplaysFirst(m: Notification, n: Notification) {
    Precedes(m.occurred, n.occurred) ||
    (m.occurred == n.occurred && (m.received > n.received || (m.received == n.received && m.pk > n.pk)))
  }

  /** The predicate and the sort order are the same strict total order. */
  lemma OneOrder(l: Notification, m: Notification, n: Notification)
    ensures Newer(m, n) <==> ReplaysFirst(m, n)
    ensures m.pk != n.pk ==> (Newer(m, n) <==> !Newer(n, m))
    ensures !Newer(n, n)
    ensures Newer(l, m) && Newer(m, n) ==> Newer(l, n)
  {
  }

  // ---- Processing ----

  /** The write of `_apply_operational_event`; the notification has no number,
      so a positive count is kept and a spent one becomes one. */
  function Write(q: Quota, isLive: bool): Quota {
    if isLive then Quota(Open, if q.remaining == 0 then 1 else q.remaining) else Quota(Full, 0)
  }

  predicate Outranked(applied: set<Notification>, n: Notification) {
    exists m :: m in applied && m.pk != n.pk && Newer(m, n)
  }

  function Process(q: Quota, applied: set<Notification>, n: Notification): Quota {
    if Outranked(applied, n) then q else Write(q, n.isLive)
  }

  /** Deliveries, retries and replays in processing order, the last one last. */
  function ProcessAll(q: Quota, applied: set<Notification>, ns: seq<Notification>): Quota {
    if ns == [] then q
    else
      var earlier := ns[..|ns| - 1];
      Process(ProcessAll(q, applied, earlier), applied + SetOf(earlier), ns[|ns| - 1])
  }

  /** Rows of one table: a primary key names one notification. */
  ghost predicate Keyed(ns: set<Notification>) {
    forall m, n :: m in ns && n in ns && m.pk == n.pk ==> m == n
  }

  ghost predicate Latest(n: Notification, ns: set<Notification>) {
    n in ns && forall m :: m in ns && m != n ==> Newer(n, m)
  }

  lemma {:induction false} LatestExists(ns: set<Notification>) returns (n: Notification)
    requires ns != {} && Keyed(ns)
    ensures Latest(n, ns)
  {
    var x :| x in ns;
    if ns == {x} {
      n := x;
    } else {
      var y := LatestExists(ns - {x});
      OneOrder(x, y, x);
      n := if Newer(x, y) then x else y;
      forall m | m in ns && m != n ensures Newer(n, m) {
        OneOrder(x, y, m);
      }
    }
  }

  /** The newest applied delivery decides alone: if it was among those just
      processed the row shows it, otherwise none of them touched the row. */
  lemma {:induction false} NewestDecides(q: Quota, applied: set<Notification>, ns: seq<Notification>, n: Notification)
    requires Keyed(applied + SetOf(ns)) && Latest(n, applied + SetOf(ns))
    ensures n !in ns ==> ProcessAll(q, applied, ns) == q
    ensures n in ns ==>
      ProcessAll(q, applied, ns).status == (if n.isLive then Open else Full) &&
      (ProcessAll(q, applied, ns).remaining > 0 <==> n.isLive)
  {
    if ns != [] {
      var earlier, x := ns[..|ns| - 1], ns[|ns| - 1];
      assert ns == earlier + [x];
      assert applied + SetOf(ns) == applied + SetOf(earlier) + {x};
      if x == n {
        forall m | m in applied + SetOf(earlier) && m.pk != n.pk ensures !Newer(m, n) {
          OneOrder(n, n, m);
        }
      } else {
        assert n in applied + SetOf(earlier) && n.pk != x.pk && Newer(n, x);
        NewestDecides(q, applied, earlier, n);
      }
    }
  }

  /** Status, and whether capacity is left, depend only on which deliveries
      have been applied, not on the order or the number of replays. */
  lemma OrderIrrelevant(q: Quota, applied: set<Notification>, ns: seq<Notification>, ms: seq<Notification>)
    requires SetOf(ns) == SetOf(ms) && Keyed(applied + SetOf(ns))
    ensures ProcessAll(q, applied, ns).status == ProcessAll(q, applied, ms).status
    ensures ProcessAll(q, applied, ns).remaining > 0 <==> ProcessAll(q, applied, ms).remaining > 0
  {
    if ns != [] || ms != [] {
      var x := if ns != [] then ns[0] else ms[0];
      assert x in SetOf(ns) || x in SetOf(ms);
      var n := LatestExists(applied + SetOf(ns));
      assert n in ns <==> n in SetOf(ns);
      assert n in ms <==> n in SetOf(ms);
      NewestDecides(q, applied, ns, n);
      NewestDecides(q, applied, ms, n);
    }
  }

  lemma ProcessTwo(q: Quota, m: Notification, n: Notification)
    ensures ProcessAll(q, {}, [m, n]) == Process(Process(q, {}, m), {m}, n)
  {
    var none: seq<Notification> := [];
    assert [m, n][..1] == [m] && [m][..0] == none;
    assert SetOf([m]) == {m} && SetOf(none) == {};
    assert ProcessAll(q, {}, [m]) == Process(q, {}, m);
  }

  /** The exact count does depend on the order. */
  lemma RemainingDependsOnOrder() returns (q: Quota, m: Notification, n: Notification)
    ensures Keyed({m, n})
    ensures ProcessAll(q, {}, [m, n]).remaining != ProcessAll(q, {}, [n, m]).remaining
  {
    q, m, n := Quota(Open, 5), Notification(1, Some(1), 1, false), Notification(2, Some(2), 2, true);
    ProcessTwo(q, m, n);
    ProcessTwo(q, n, m);
  }

  // ---- When the exact count is independent of the order ----

  lemma AppliedFirst(applied: set<Notification>, n: Notification, ns: seq<Notification>)
    ensures applied + SetOf([n] + ns) == applied + {n} + SetOf(ns)
  {
    assert SetOf([n] + ns) == {n} + SetOf(ns);
  }

  lemma ProcessOne(q: Quota, applied: set<Notification>, n: Notification)
    ensures ProcessAll(q, applied, [n]) == Process(q, applied, n)
  {
    assert [n][..0] == [] && applied + SetOf([n][..0]) == applied;
  }

  lemma ProcessLast(q: Quota, applied: set<Notification>, ns: seq<Notification>, last: Notification)
    ensures ProcessAll(q, applied, ns + [last]) == Process(ProcessAll(q, applied, ns), applied + SetOf(ns), last)
  {
    assert (ns + [last])[..|ns|] == ns;
  }

  lemma {:induction false} ProcessFirst(q: Quota, applied: set<Notification>, n: Notification, ns: seq<Notification>)
    ensures ProcessAll(q, applied, [n] + ns) == ProcessAll(Process(q, applied, n), applied + {n}, ns)
    decreases |ns|
  {
    if ns == [] {
      assert [n] + ns == [n];
      ProcessOne(q, applied, n);
    } else {
      var earlier, last := ns[..|ns| - 1], ns[|ns| - 1];
      SplitLast(ns);
      calc {
        ProcessAll(q, applied, [n] + ns);
      ==  { assert [n] + ns == ([n] + earlier) + [last]; }
        ProcessAll(q, applied, ([n] + earlier) + [last]);
      ==  { ProcessLast(q, applied, [n] + earlier, last); }
        Process(ProcessAll(q, applied, [n] + earlier), applied + SetOf([n] + earlier), last);
      ==  { ProcessFirst(q, applied, n, earlier); AppliedFirst(applied, n, earlier); }
        Process(ProcessAll(Process(q, applied, n), applied + {n}, earlier), applied + {n} + SetOf(earlier), last);
      ==  { ProcessLast(Process(q, applied, n), applied + {n}, earlier, last); }
        ProcessAll(Process(q, applied, n), applied + {n}, ns);
      }
    }
  }

  /** A count of at most one never grows. */
  lemma {:induction false} SmallStaysSmall(q: Quota, applied: set<Notification>, ns: seq<Notification>)
    requires q.remaining <= 1
    ensures ProcessAll(q, applied, ns).remaining <= 1
  {
    if ns != [] {
      SmallStaysSmall(q, applied, ns[..|ns| - 1]);
    }
  }

  /** Deliveries that close the quota, and are outranked by an applied one. */
  ghost predicate NoneCloses(applied: set<Notification>, s: set<Notification>) {
    forall m :: m in s && !m.isLive ==> Outranked(applied, m)
  }

  lemma OutrankedStays(applied: set<Notification>, more: set<Notification>, m: Notification)
    requires Outranked(applied, m) && applied <= more
    ensures Outranked(more, m)
  {
    var x :| x in applied && x.pk != m.pk && Newer(x, m);
    assert x in more;
  }

  /** Without an effective closure a positive count is kept. */
  lemma {:induction false} CountKept(q: Quota, applied: set<Notification>, ns: seq<Notification>)
    requires q.remaining > 0 && NoneCloses(applied, SetOf(ns))
    ensures ProcessAll(q, applied, ns).remaining == q.remaining
  {
    if ns != [] {
      var earlier, x := ns[..|ns| - 1], ns[|ns| - 1];
      assert x in SetOf(ns) && SetOf(earlier) <= SetOf(ns);
      CountKept(q, applied, earlier);
      if !x.isLive {
        OutrankedStays(applied, applied + SetOf(earlier), x);
      }
    }
  }

  lemma {:induction false} SomeOrder(s: set<Notification>) returns (ns: seq<Notification>)
    ensures SetOf(ns) == s
  {
    if s == {} {
      ns := [];
    } else {
      var x :| x in s;
      var rest := SomeOrder(s - {x});
      ns := [x] + rest;
      assert s == {x} + SetOf(rest) && SetOf(ns) == {x} + SetOf(rest);
    }
  }

  /** Some order of `s`, with any repetition, beginning with `first`. */
  lemma OrderFrom(s: set<Notification>, first: Notification) returns (ns: seq<Notification>, rest: seq<Notification>)
    requires first in s
    ensures ns == [first] + rest && SetOf(rest) == s && SetOf(ns) == s
  {
    rest := SomeOrder(s);
    ns := [first] + rest;
    assert SetOf(ns) == {first} + SetOf(rest);
  }

  ghost predicate SameCountInAnyOrder(q: Quota, applied: set<Notification>, s: set<Notification>) {
    forall ns, ms :: SetOf(ns) == s && SetOf(ms) == s ==>
      ProcessAll(q, applied, ns).remaining == ProcessAll(q, applied, ms).remaining
  }

  /** What a caller can look up before processing: the newest delivery is not
      among these or closes, or there is nothing to lose, or every closing one
      is already outranked. */
  ghost predicate CountSettled(q: Quota, applied: set<Notification>, s: set<Notification>, n: Notification) {
    n !in s || !n.isLive || q.remaining <= 1 || NoneCloses(applied, s)
  }

  lemma SettledCount(q: Quota, applied: set<Notification>, ns: seq<Notification>, n: Notification)
    requires Keyed(applied + SetOf(ns)) && Latest(n, applied + SetOf(ns)) && CountSettled(q, applied, SetOf(ns), n)
    ensures ProcessAll(q, applied, ns).remaining ==
      if n in SetOf(ns) && !n.isLive then 0
      else if n in SetOf(ns) && q.remaining == 0 then 1
      else q.remaining
  {
    assert n in ns <==> n in SetOf(ns);
    NewestDecides(q, applied, ns, n);
    if n in ns && n.isLive {
      if q.remaining <= 1 {
        SmallStaysSmall(q, applied, ns);
      } else {
        CountKept(q, applied, ns);
      }
    }
  }

  /** First the newest: whatever follows is outranked, and the count is kept. */
  lemma NewestFirst(q: Quota, applied: set<Notification>, s: set<Notification>, n: Notification)
    returns (ns: seq<Notification>)
    requires Keyed(applied + s) && Latest(n, applied + s) && n in s && n.isLive && q.remaining > 0
    ensures SetOf(ns) == s && ProcessAll(q, applied, ns).remaining == q.remaining
  {
    var rest;
    ns, rest := OrderFrom(s, n);
    ProcessFirst(q, applied, n, rest);
    forall m | m in s && !m.isLive ensures Outranked(applied + {n}, m) {
      assert m in applied + s && m != n && m.pk != n.pk && Newer(n, m);
    }
    CountKept(Process(q, applied, n), applied + {n}, rest);
  }

  /** First an effective closure: the count never recovers. */
  lemma ClosureFirst(q: Quota, applied: set<Notification>, s: set<Notification>, m: Notification)
    returns (ns: seq<Notification>)
    requires m in s && !m.isLive && !Outranked(applied, m)
    ensures SetOf(ns) == s && ProcessAll(q, applied, ns).remaining <= 1
  {
    var rest;
    ns, rest := OrderFrom(s, m);
    ProcessFirst(q, applied, m, rest);
    SmallStaysSmall(Process(q, applied, m), applied + {m}, rest);
  }

  /** Exactly when the count itself depends on nothing but the set. */
  lemma RemainingOrderIff(q: Quota, applied: set<Notification>, s: set<Notification>, n: Notification)
    requires Keyed(applied + s) && Latest(n, applied + s)
    ensures SameCountInAnyOrder(q, applied, s) <==> CountSettled(q, applied, s, n)
  {
    if CountSettled(q, applied, s, n) {
      forall ns, ms | SetOf(ns) == s && SetOf(ms) == s
        ensures ProcessAll(q, applied, ns).remaining == ProcessAll(q, applied, ms).remaining
      {
        SettledCount(q, applied, ns, n);
        SettledCount(q, applied, ms, n);
      }
    } else {
      var m :| m in s && !m.isLive && !Outranked(applied, m);
      var ns := NewestFirst(q, applied, s, n);
      var ms := ClosureFirst(q, applied, s, m);
      assert ProcessAll(q, applied, ns).remaining != ProcessAll(q, applied, ms).remaining;
    }
  }

  // ---- Replays ----

  /** Replaying only the newest applied row gives exactly the row that
      replaying any list of applied rows containing it would give. */
  lemma {:induction false} ReplayLatestIsReplayAll(q: Quota, applied: set<Notification>, ns: seq<Notification>,
                                                   n: Notification)
    requires Keyed(applied) && SetOf(ns) <= applied && Latest(n, applied)
    ensures n in ns ==> ProcessAll(q, applied, ns) == Process(q, applied, n)
    ensures n !in ns ==> ProcessAll(q, applied, ns) == q
  {
    forall m | m in applied && m.pk != n.pk ensures !Newer(m, n) {
      OneOrder(n, n, m);
    }
    if ns != [] {
      var earlier, x := ns[..|ns| - 1], ns[|ns| - 1];
      assert ns == earlier + [x] && x in SetOf(ns);
      assert forall m :: m in SetOf(earlier) ==> m in SetOf(ns);
      assert applied + SetOf(earlier) == applied;
      ReplayLatestIsReplayAll(q, applied, earlier, n);
    }
  }

  /** Open exactly while capacity is left. */
  predicate Consistent(q: Quota) {
    q.status == Open <==> q.remaining > 0
  }

  lemma {:induction false} ProcessingKeepsConsistent(q: Quota, applied: set<Notification>, ns: seq<Notification>)
    requires Consistent(q)
    ensures Consistent(ProcessAll(q, applied, ns))
  {
    if ns != [] {
      ProcessingKeepsConsistent(q, applied, ns[..|ns| - 1]);
    }
  }

  // ---- The rows themselves ----

  class Ledger {
    var quota: Quota
    var applied: set<Notification>

    constructor (quota: Quota)
      ensures this.quota == quota && applied == {}
    {
      this.quota, applied := quota, {};
    }

    method NewerAppliedExists(n: Notification) returns (found: bool)
      ensures found == Outranked(applied, n)
    {
      var rest := applied - set m | m in applied && m.pk == n.pk;
      while rest != {}
        invariant rest <= applied && forall m :: m in rest ==> m.pk != n.pk
        invariant forall m :: m in applied && m !in rest && m.pk != n.pk ==> !Newer(m, n)
      {
        var m :| m in rest;
        if Newer(m, n) {
          return true;
        }
        rest := rest - {m};
      }
      return false;
    }

    /** The locked write of one quota-status notification. */
    method Apply(n: Notification)
      modifies this
      ensures quota == Process(old(quota), old(applied), n) && applied == old(applied) + {n}
    {
      var outranked := NewerAppliedExists(n);
      if !outranked {
        quota := quota.(status := if n.isLive then Open else Full);
        if !n.isLive {
          quota := quota.(remaining := 0);
        } else if quota.remaining <= 0 {
          quota := quota.(remaining := 1);
        }
      }
      applied := applied + {n};
    }

    /** The loop over notification ids after an inventory write. */
    method Reconcile(ns: seq<Notification>)
      modifies this
      ensures quota == ProcessAll(old(quota), old(applied), ns) && applied == old(applied) + SetOf(ns)
    {
      for i := 0 to |ns|
        invariant quota == ProcessAll(old(quota), old(applied), ns[..i])
        invariant applied == old(applied) + SetOf(ns[..i])
      {
        TakeNext(ns, i);
        ProcessLast(old(quota), old(applied), ns[..i], ns[i]);
        Apply(ns[i]);
      }
      TakeAll(ns);
    }
  }
}
