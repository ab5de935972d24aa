/** Snapshot merges of one provider integration (surveys/provider_services.py)
    when runs overlap: each merge is one transaction, but runs may commit in
    another order than they started. */
module ProviderSnapshot {
  type Instant = int

  type Key = string

  datatype Status = Live | Closed

  datatype Row = Row(status: Status, lastSeen: Instant)

  /** A committed run: when it started, and the keys its inventory listed
      with the status the provider adapter gives them. */
  datatype Merge = Merge(start: Instant, listed: map<Key, Status>)

  /** Touched rows sort one microsecond after the inclusive close boundary. */
  function Marker(start: Instant): Instant { start + 1 }

  function Commit(table: map<Key, Row>, m: Merge): map<Key, Row> {
    map k | k in table.Keys + m.listed.Keys ::
      if k in m.listed then Row(m.listed[k], Marker(m.start))
      else if table[k].status == Live && table[k].lastSeen <= m.start then table[k].(status := Closed)
      else table[k]
  }

  /** The table after the runs have committed in this order. */
  function CommitAll(runs: seq<Merge>): map<Key, Row> {
    if runs == [] then map[] else Commit(CommitAll(runs[..|runs| - 1]), runs[|runs| - 1])
  }

  /** `j` is the last run to have merged `k`. */
  ghost predicate LastMerge(runs: seq<Merge>, k: Key, j: nat) {
    j < |runs| && k in runs[j].listed && forall l :: j < l < |runs| ==> k !in runs[l].listed
  }

  /** No run that committed after `j` had started after it. */
  ghost predicate NotSuperseded(runs: seq<Merge>, j: nat)
    requires j < |runs|
  {
    forall l :: j < l < |runs| ==> runs[l].start <= runs[j].start
  }

  /** A row listed as live stays so exactly while no later commit comes from a
      run that started after the run that last merged it: a run closes neither
      its own rows nor those of a run that started with it or later. */
  lemma {:induction false} LiveIffNotSuperseded(runs: seq<Merge>, k: Key, j: nat)
    requires LastMerge(runs, k, j)
    ensures k in CommitAll(runs) && CommitAll(runs)[k].lastSeen == Marker(runs[j].start)
    ensures CommitAll(runs)[k].status == Live <==> runs[j].listed[k] == Live && NotSuperseded(runs, j)
  {
    var n := |runs| - 1;
    var earlier := runs[..n];
    if j < n {
      assert LastMerge(earlier, k, j);
      LiveIffNotSuperseded(earlier, k, j);
      assert k !in runs[n].listed;
      assert NotSuperseded(runs, j) <==> NotSuperseded(earlier, j) && runs[n].start <= runs[j].start;
    }
  }

  lemma LastMergeStays(runs: seq<Merge>, k: Key, j: nat)
    requires runs != [] && k !in runs[|runs| - 1].listed && LastMerge(runs[..|runs| - 1], k, j)
    ensures LastMerge(runs, k, j)
  {
    forall l | j < l < |runs| ensures k !in runs[l].listed {
      assert l < |runs| - 1 ==> runs[..|runs| - 1][l] == runs[l];
    }
  }

  lemma {:induction false} LastMergeExists(runs: seq<Merge>, k: Key) returns (j: nat)
    requires k in CommitAll(runs)
    ensures LastMerge(runs, k, j)
  {
    var n := |runs| - 1;
    if k in runs[n].listed {
      j := n;
    } else {
      j := LastMergeExists(runs[..n], k);
      LastMergeStays(runs, k, j);
    }
  }

  /** In particular, when runs do not overlap, the live keys are exactly those
      the last inventory lists as live. */
  lemma {:induction false} SerialRunsShowLastInventory(runs: seq<Merge>, k: Key)
    requires runs != [] && forall a, b :: 0 <= a < b < |runs| ==> runs[a].start < runs[b].start
    ensures k in CommitAll(runs) && CommitAll(runs)[k].status == Live <==>
      k in runs[|runs| - 1].listed && runs[|runs| - 1].listed[k] == Live
  {
    var n := |runs| - 1;
    if k in runs[n].listed {
      assert LastMerge(runs, k, n);
      LiveIffNotSuperseded(runs, k, n);
    } else if k in CommitAll(runs) {
      var j := LastMergeExists(runs, k);
      LiveIffNotSuperseded(runs, k, j);
    }
  }

  /** Live rows seen no later than the boundary and not just listed. */
  function Stale(table: map<Key, Row>, now: Instant, listed: map<Key, Status>): set<Key> {
    set k | k in table && k !in listed && table[k].status == Live && table[k].lastSeen <= now
  }

  /** The merge loop of `sync_client_integration` over the normalized rows. */
  class Integration {
    var table: map<Key, Row>

    constructor ()
      ensures table == map[]
    {
      table := map[];
    }

    method MergeSnapshot(now: Instant, listed: map<Key, Status>) returns (closed: nat)
      modifies this
      ensures table == Commit(old(table), Merge(now, listed))
      ensures closed == |Stale(old(table), now, listed)|
    {
      ghost var before := table;
      var rest := listed.Keys;
      while rest != {}
        invariant rest <= listed.Keys
        invariant forall k :: k in table <==> k in before || (k in listed && k !in rest)
        invariant forall k :: k in table ==>
          table[k] == if k in listed && k !in rest then Row(listed[k], Marker(now)) else before[k]
      {
        var k :| k in rest;
        table := table[k := Row(listed[k], Marker(now))];
        rest := rest - {k};
      }
      var closing := Stale(table, now, map[]);
      assert closing == Stale(before, now, listed);
      table := map k | k in table :: if k in closing then table[k].(status := Closed) else table[k];
      return |closing|;
    }
  }
}
