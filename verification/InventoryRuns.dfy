/** Inventory syncs of one integration that overlap (surveys/services.py).  A
    run preloads a batch, writes it in a transaction of its own and closes at
    the end in another; between any two of these other runs may commit. */
module InventoryRuns {
  import opened Counting
  import opened InventorySync

  /** The rows of the integration. */
  type Table = map<SurveyId, InventorySync.Row>

  /** A committed transaction: a batch, classified by the rows its preload saw
      and stamped with its run's marker, or the close step of a run. */
  datatype Tx =
    | Write(batch: map<SurveyId, Payload>, seen: Table, marker: Instant)
    | Close(marker: Instant)

  predicate Touches(tx: Tx, id: SurveyId) {
    tx.Write? && id in tx.batch
  }

  /** A created or changed row is written in full, an unchanged one only gets
      the marker. */
  predicate Restores(tx: Tx, id: SurveyId) {
    Touches(tx, id) && (id !in tx.seen || DetailChanged(tx.seen[id], tx.batch[id]))
  }

  function Created(tx: Tx): set<SurveyId>
    requires tx.Write?
  {
    tx.batch.Keys - tx.seen.Keys
  }

  function WrittenRow(table: Table, tx: Tx, id: SurveyId): Row
    requires tx.Write? && id in table.Keys + Created(tx)
  {
    if Restores(tx, id) then Row(tx.batch[id], tx.batch[id].endAt, Live, tx.marker)
    else if id in tx.batch then table[id].(lastSeen := tx.marker)
    else table[id]
  }

  function ClosedRow(row: Row, marker: Instant): Row {
    if row.status == Live && row.lastSeen != marker then row.(status := Closed) else row
  }

  function Apply(table: Table, tx: Tx): Table {
    match tx
    case Write(_, _, _) => map id | id in table.Keys + Created(tx) :: WrittenRow(table, tx, id)
    case Close(marker) => map id | id in table :: ClosedRow(table[id], marker)
  }

  function TableAfter(log: seq<Tx>): Table {
    if log == [] then map[] else Apply(TableAfter(log[..|log| - 1]), log[|log| - 1])
  }

  predicate LiveIn(table: Table, id: SurveyId) {
    id in table && table[id].status == Live
  }

  // ---- What can have committed ----

  /** `tx` preloaded its batch from `table`. */
  ghost predicate SeenIn(tx: Tx, table: Table) {
    tx.Write? ==> tx.seen == map id | id in tx.batch && id in table :: table[id]
  }

  /** Two inserts of one survey break the unique constraint, so a committed
      batch creates only what is still missing. */
  ghost predicate CommittedAt(log: seq<Tx>, k: nat)
    requires k < |log|
  {
    log[k].Write? ==>
      Created(log[k]) !! TableAfter(log[..k]).Keys && exists p: nat :: p <= k && SeenIn(log[k], TableAfter(log[..p]))
  }

  ghost predicate Committed(log: seq<Tx>) {
    forall k :: 0 <= k < |log| ==> CommittedAt(log, k)
  }

  /** No transaction came between a preload and its write. */
  ghost predicate Fresh(log: seq<Tx>) {
    forall k :: 0 <= k < |log| ==> SeenIn(log[k], TableAfter(log[..k]))
  }

  lemma FreshIsCommitted(log: seq<Tx>)
    requires Fresh(log)
    ensures Committed(log)
  {
    forall k | 0 <= k < |log| ensures CommittedAt(log, k) {
      assert SeenIn(log[k], TableAfter(log[..k]));
    }
  }

  // ---- The last batch that lists a survey ----

  ghost predicate LastTouch(log: seq<Tx>, id: SurveyId, j: nat) {
    j < |log| && Touches(log[j], id) && forall l :: j < l < |log| ==> !Touches(log[l], id)
  }

  /** Every run that closed after `j` is the one that wrote `j`. */
  ghost predicate OnlyOwnCloses(log: seq<Tx>, j: nat)
    requires j < |log| && log[j].Write?
  {
    forall c :: j < c < |log| && log[c].Close? ==> log[c].marker == log[j].marker
  }

  /** Rows are never removed. */
  lemma {:induction false} RowsStay(log: seq<Tx>, p: nat, id: SurveyId)
    requires p <= |log| && id in TableAfter(log[..p])
    ensures id in TableAfter(log)
    decreases |log|
  {
    if p == |log| {
      TakeAll(log);
    } else {
      var n := |log| - 1;
      assert log[..n][..p] == log[..p];
      RowsStay(log[..n], p, id);
    }
  }

  /** What a batch preloaded is still there when it writes. */
  lemma SeenStays(log: seq<Tx>, k: nat, id: SurveyId)
    requires k < |log| && CommittedAt(log, k) && Touches(log[k], id)
    ensures id in TableAfter(log[..k]).Keys + Created(log[k])
  {
    if id in log[k].seen {
      var p: nat :| p <= k && SeenIn(log[k], TableAfter(log[..p]));
      assert log[..k][..p] == log[..p];
      RowsStay(log[..k], p, id);
    }
  }

  lemma CommittedPrefix(log: seq<Tx>, n: nat)
    requires Committed(log) && n <= |log|
    ensures Committed(log[..n])
  {
    forall k | 0 <= k < n ensures CommittedAt(log[..n], k) {
      assert CommittedAt(log, k);
      assert forall p :: 0 <= p <= k ==> log[..n][..p] == log[..p];
    }
  }

  lemma OneMoreClose(log: seq<Tx>, j: nat)
    requires j < |log| - 1 && log[j].Write?
    ensures OnlyOwnCloses(log, j) <==>
      OnlyOwnCloses(log[..|log| - 1], j) && (log[|log| - 1].Close? ==> log[|log| - 1].marker == log[j].marker)
  {
    var n := |log| - 1;
    assert forall c :: j < c < n ==> log[..n][c] == log[c];
  }

  /** A survey is live exactly if the last batch that lists it wrote the row in
      full or met it live, and no other run has closed since. */
  lemma {:induction false} LiveIffLastTouch(log: seq<Tx>, id: SurveyId, j: nat)
    requires Committed(log) && LastTouch(log, id, j)
    ensures id in TableAfter(log) && TableAfter(log)[id].lastSeen == log[j].marker
    ensures LiveIn(TableAfter(log), id) <==>
      (Restores(log[j], id) || LiveIn(TableAfter(log[..j]), id)) && OnlyOwnCloses(log, j)
    decreases |log|
  {
    var n := |log| - 1;
    if j == n {
      assert CommittedAt(log, n);
      SeenStays(log, n, id);
    } else {
      CommittedPrefix(log, n);
      assert LastTouch(log[..n], id, j) && log[..n][..j] == log[..j];
      LiveIffLastTouch(log[..n], id, j);
      OneMoreClose(log, j);
      assert !Touches(log[n], id);
    }
  }

  // ---- Batches with nothing between preload and write ----

  /** Such a batch merges each row as the sync that runs alone does. */
  lemma FreshWriteMerges(table: Table, tx: Tx, id: SurveyId)
    requires SeenIn(tx, table) && Touches(tx, id)
    ensures id in Apply(table, tx)
    ensures Apply(table, tx)[id]
         == MergeRow(if id in table then Some(table[id]) else None, tx.batch[id], tx.marker)
  {
  }

  /** Then a listed survey is live exactly while no other run has closed since
      the last batch that lists it. */
  lemma LiveIffOnlyOwnCloses(log: seq<Tx>, id: SurveyId, j: nat)
    requires Fresh(log) && LastTouch(log, id, j)
    ensures id in TableAfter(log) && (LiveIn(TableAfter(log), id) <==> OnlyOwnCloses(log, j))
  {
    FreshIsCommitted(log);
    LiveIffLastTouch(log, id, j);
    assert SeenIn(log[j], TableAfter(log[..j]));
  }

  lemma {:induction false} LastTouchExists(log: seq<Tx>, id: SurveyId, k: nat) returns (j: nat)
    requires k < |log| && Touches(log[k], id)
    ensures k <= j && LastTouch(log, id, j)
  {
    var n := |log| - 1;
    if Touches(log[n], id) {
      j := n;
    } else {
      j := LastTouchExists(log[..n], id, k);
      assert forall l :: j < l < n ==> log[..n][l] == log[l];
    }
  }

  lemma {:induction false} NeverListed(log: seq<Tx>, id: SurveyId)
    requires forall k :: 0 <= k < |log| ==> !Touches(log[k], id)
    ensures id !in TableAfter(log)
  {
    if log != [] {
      NeverListed(log[..|log| - 1], id);
    }
  }

  /** A run from its first batch to its close step, with no other in between. */
  ghost predicate WholeRun(writes: seq<Tx>, marker: Instant) {
    forall k :: 0 <= k < |writes| ==> writes[k].Write? && writes[k].marker == marker
  }

  /** The last batch that lists a survey was so already when it came. */
  lemma LastSeenBefore(log: seq<Tx>, more: seq<Tx>, id: SurveyId, j: nat)
    requires Committed(log + more) && j < |log| && LastTouch(log + more, id, j)
    ensures id in TableAfter(log) && TableAfter(log)[id].lastSeen == log[j].marker
  {
    var all := log + more;
    assert all[..|log|] == log;
    CommittedPrefix(all, |log|);
    assert forall l :: j < l < |log| ==> log[l] == all[l];
    LiveIffLastTouch(log, id, j);
  }

  /** No row was last seen under this marker. */
  ghost predicate Unused(table: Table, marker: Instant) {
    forall id :: id in table ==> table[id].lastSeen != marker
  }

  lemma NotListedNotLive(log: seq<Tx>, writes: seq<Tx>, marker: Instant, id: SurveyId)
    requires WholeRun(writes, marker) && Unused(TableAfter(log), marker) && Committed(log + writes + [Close(marker)])
    requires forall k :: 0 <= k < |writes| ==> !Touches(writes[k], id)
    ensures !LiveIn(TableAfter(log + writes + [Close(marker)]), id)
  {
    var all := log + writes + [Close(marker)];
    assert all == log + (writes + [Close(marker)]);
    if k :| 0 <= k < |log| && Touches(log[k], id) {
      assert Touches(all[k], id);
      var j := LastTouchExists(all, id, k);
      LiveIffLastTouch(all, id, j);
      assert j < |log| && all[|all| - 1] == Close(marker) && all[j] == log[j];
      LastSeenBefore(log, writes + [Close(marker)], id, j);
    } else {
      NeverListed(all, id);
    }
  }

  lemma ListedLive(log: seq<Tx>, writes: seq<Tx>, marker: Instant, id: SurveyId, k: nat)
    requires WholeRun(writes, marker) && Committed(log + writes + [Close(marker)])
    requires forall j :: |log| <= j < |log + writes| ==> SeenIn((log + writes)[j], TableAfter((log + writes)[..j]))
    requires k < |writes| && Touches(writes[k], id)
    ensures LiveIn(TableAfter(log + writes + [Close(marker)]), id)
  {
    var all := log + writes + [Close(marker)];
    assert all[|log| + k] == writes[k];
    var j := LastTouchExists(all, id, |log| + k);
    LiveIffLastTouch(all, id, j);
    assert all[j] == (log + writes)[j] == writes[j - |log|] && all[..j] == (log + writes)[..j];
    assert OnlyOwnCloses(all, j);
  }

  /** After an uninterrupted run under a new marker the live surveys are those
      it lists, whatever overlapped before it. */
  lemma UninterruptedRunShows(log: seq<Tx>, writes: seq<Tx>, marker: Instant, id: SurveyId)
    requires WholeRun(writes, marker) && Unused(TableAfter(log), marker) && Committed(log + writes + [Close(marker)])
    requires forall k :: |log| <= k < |log + writes| ==> SeenIn((log + writes)[k], TableAfter((log + writes)[..k]))
    ensures LiveIn(TableAfter(log + writes + [Close(marker)]), id) <==>
      exists k :: 0 <= k < |writes| && Touches(writes[k], id)
  {
    if k :| 0 <= k < |writes| && Touches(writes[k], id) {
      ListedLive(log, writes, marker, id, k);
    } else {
      NotListedNotLive(log, writes, marker, id);
    }
  }

  // ---- What overlapping runs can do ----

  /** Two runs list the same survey and both succeed; the first to close takes
      the second one's stamp for a stranger's, and the survey ends closed. */
  lemma OverlappingRunsClose(p: Payload, first: Instant, second: Instant) returns (log: seq<Tx>)
    requires p.surveyId >= 0 && first != second
    ensures Fresh(log) && |log| == 4
    ensures Touches(log[0], p.surveyId) && log[0].marker == first && log[2] == Close(first)
    ensures Touches(log[1], p.surveyId) && log[1].marker == second && log[3] == Close(second)
    ensures !LiveIn(TableAfter(log), p.surveyId)
  {
    var id: SurveyId := p.surveyId;
    var row := Row(p, p.endAt, Live, first);
    log := [Write(map[id := p], map[], first), Write(map[id := p], map[id := row], second), Close(first),
            Close(second)];
    assert log[..0] == [] && log[..1] == [log[0]] && [log[0]][..0] == [];
    assert TableAfter(log[..1]) == map[id := row];
    assert SeenIn(log[0], TableAfter(log[..0])) && SeenIn(log[1], TableAfter(log[..1]));
    assert LastTouch(log, id, 1) && !OnlyOwnCloses(log, 1) by {
      assert log[2].Close? && log[2].marker != log[1].marker;
    }
    LiveIffOnlyOwnCloses(log, id, 1);
  }

  /** A batch that preloads a live row, and writes after another run has closed
      it, stamps the row but does not reopen it, and its own close step leaves
      it so. */
  lemma StalePreloadStaysClosed(p: Payload, earlier: Instant, other: Instant, own: Instant) returns (log: seq<Tx>)
    requires p.surveyId >= 0 && earlier != other
    ensures Committed(log) && LastTouch(log, p.surveyId, 2) && log[2].marker == own
    ensures |log| == 4 && log[1] == Close(other) && log[3] == Close(own) && OnlyOwnCloses(log, 2)
    ensures !LiveIn(TableAfter(log), p.surveyId)
  {
    var id: SurveyId := p.surveyId;
    var row := Row(p, p.endAt, Live, earlier);
    log := [Write(map[id := p], map[], earlier), Close(other), Write(map[id := p], map[id := row], own), Close(own)];
    assert log[..0] == [] && log[..1] == [log[0]] && [log[0]][..0] == [];
    assert TableAfter(log[..1]) == map[id := row];
    assert log[..2] == [log[0], log[1]] && log[..2][..1] == log[..1];
    assert TableAfter(log[..2]) == map[id := row.(status := Closed)];
    assert SeenIn(log[0], TableAfter(log[..0])) && SeenIn(log[2], TableAfter(log[..1]));
    assert CommittedAt(log, 0) && CommittedAt(log, 2);
    LiveIffLastTouch(log, id, 2);
  }
}
