/** The pass over stored Toluna notifications after an inventory sync
    (surveys/toluna_notifications.py): in chunks of surveys, in three queries
    each, and bounded as a whole.  Which rows it processes is settled by one
    order on all of them. */
module ReplayBatch {
  import opened Counting
  import QuotaBatch
  import TolunaQuota

  type Instant = int

  const BATCH_SIZE := 200
  const CHUNK_SIZE := 100

  datatype Kind = SurveyClosed | QuotaStatus(quota: int)

  /** An operational notification of a synced survey; `identity` is the place
      of its survey and wave among the sorted identities of the sync. */
  datatype Row = Row(identity: nat, kind: Kind, applied: bool, delivery: TolunaQuota.Notification)

  /** A primary key names one row. */
  ghost predicate Keyed(table: set<Row>) {
    forall a, b :: a in table && b in table && a.delivery.pk == b.delivery.pk ==> a == b
  }

  predicate SameSubject(a: Row, b: Row) {
    a.identity == b.identity && a.kind == b.kind
  }

  /** The row that the correlated subquery picks. */
  predicate Authoritative(table: set<Row>, r: Row) {
    forall m :: m in table && m.applied && SameSubject(m, r) ==> !TolunaQuota.ReplaysFirst(m.delivery, r.delivery)
  }

  /** Pending rows, and the latest applied ones received since the sync began. */
  predicate Eligible(table: set<Row>, since: Instant, r: Row) {
    r in table && (r.applied ==> since <= r.delivery.received && Authoritative(table, r))
  }

  function EligibleRows(table: set<Row>, since: Instant): set<Row> {
    set r | r in table && Eligible(table, since, r)
  }

  /** What is due, in the order of the provider's own updates: pending rows,
      and rows received since the sync began that no newer applied row of their
      subject outranks. */
  ghost predicate Due(table: set<Row>, since: Instant, r: Row) {
    r in table &&
    (!r.applied ||
     (since <= r.delivery.received &&
      forall m :: m in table && m.applied && m.identity == r.identity && m.kind == r.kind ==>
        !TolunaQuota.Newer(m.delivery, r.delivery)))
  }

  /** The subquery's sort and the provider's order pick the same rows. */
  lemma DueIff(table: set<Row>, since: Instant, r: Row)
    ensures r in EligibleRows(table, since) <==> Due(table, since, r)
  {
    forall m | m in table
      ensures TolunaQuota.Newer(m.delivery, r.delivery) <==> TolunaQuota.ReplaysFirst(m.delivery, r.delivery)
    {
      TolunaQuota.OneOrder(m.delivery, m.delivery, r.delivery);
    }
  }

  // ---- One order for the whole pass ----

  function ChunkOf(r: Row): nat { r.identity / CHUNK_SIZE }

  /** Closed surveys first, then quotas, then what is pending. */
  function StageOf(r: Row): nat {
    if !r.applied then 2 else if r.kind == SurveyClosed then 0 else 1
  }

  predicate ReceivedBefore(a: Row, b: Row) {
    a.delivery.received < b.delivery.received ||
    (a.delivery.received == b.delivery.received && a.delivery.pk < b.delivery.pk)
  }

  /** A column comparison under ORDER BY, nulls first. */
  predicate Ascends(a: Option<Instant>, b: Option<Instant>) {
    b.Some? && (a.None? || a.value < b.value)
  }

  /** The sort within a stage. */
  predicate SortsBefore(a: Row, b: Row) {
    if a.applied then ReceivedBefore(a, b)
    else
      Ascends(a.delivery.occurred, b.delivery.occurred) ||
      (a.delivery.occurred == b.delivery.occurred && ReceivedBefore(a, b))
  }

  predicate Before(a: Row, b: Row) {
    ChunkOf(a) < ChunkOf(b) ||
    (ChunkOf(a) == ChunkOf(b) && (StageOf(a) < StageOf(b) || (StageOf(a) == StageOf(b) && SortsBefore(a, b))))
  }

  lemma BeforeIsTotal(a: Row, b: Row, c: Row)
    ensures a.delivery.pk != b.delivery.pk ==> Before(a, b) || Before(b, a)
    ensures Before(a, b) && Before(b, c) ==> Before(a, c)
    ensures !(Before(a, b) && Before(b, a))
  {
  }

  /** What the order puts first: earlier chunks, then closed surveys, then
      other applied rows, then pending ones; applied rows as received, pending
      ones undated first and then as they occurred. */
  lemma OrderOfPass(a: Row, b: Row)
    ensures a.identity / 100 < b.identity / 100 ==> Before(a, b)
    ensures a.identity / 100 == b.identity / 100 && a.applied && !b.applied ==> Before(a, b)
    ensures a.identity / 100 == b.identity / 100 && a.applied && b.applied ==>
      (a.kind.SurveyClosed? && b.kind.QuotaStatus? ==> Before(a, b)) &&
      ((a.kind.SurveyClosed? <==> b.kind.SurveyClosed?) && a.delivery.received < b.delivery.received ==> Before(a, b))
    ensures a.identity / 100 == b.identity / 100 && !a.applied && !b.applied && b.delivery.occurred.Some? ==>
      (a.delivery.occurred.None? ==> Before(a, b)) &&
      (a.delivery.occurred.Some? && a.delivery.occurred.value < b.delivery.occurred.value ==> Before(a, b))
  {
  }

  // ---- The first rows of a set ----

  ghost predicate Sorted(rows: seq<Row>) {
    forall i, j :: 0 <= i < j < |rows| ==> Before(rows[i], rows[j])
  }

  /** What ORDER BY ... LIMIT returns. */
  ghost predicate Top(rows: set<Row>, limit: nat, top: seq<Row>) {
    |top| <= limit && Sorted(top) && (forall r :: r in top ==> r in rows) &&
    forall r :: r in rows && r !in top ==> |top| == limit && forall m :: m in top ==> Before(m, r)
  }

  lemma SortedIsDistinct(rows: seq<Row>)
    requires Sorted(rows)
    ensures Distinct(rows)
  {
    forall i, j | 0 <= i < j < |rows| ensures rows[i] != rows[j] {
      BeforeIsTotal(rows[i], rows[j], rows[i]);
    }
  }

  lemma PlaceOf(rows: seq<Row>, i: nat, j: nat)
    requires Sorted(rows) && i < |rows| && j < |rows| && Before(rows[j], rows[i])
    ensures j < i
  {
    BeforeIsTotal(rows[i], rows[j], rows[i]);
  }

  function Earlier(rows: set<Row>, r: Row): set<Row> {
    set m | m in rows && Before(m, r)
  }

  lemma EarlierThanListed(rows: set<Row>, limit: nat, top: seq<Row>, i: nat)
    requires Top(rows, limit, top) && i < |top|
    ensures Earlier(rows, top[i]) == SetOf(top[..i])
  {
    forall m | m in Earlier(rows, top[i]) ensures m in top[..i] {
      BeforeIsTotal(m, top[i], m);
      if m in top {
        var j :| 0 <= j < |top| && top[j] == m;
        PlaceOf(top, i, j);
        assert m == top[..i][j];
      }
    }
  }

  /** A row is taken exactly if fewer rows than the limit come before it. */
  lemma TakenIffRank(rows: set<Row>, limit: nat, top: seq<Row>, r: Row)
    requires Top(rows, limit, top) && r in rows
    ensures r in top <==> |Earlier(rows, r)| < limit
  {
    SortedIsDistinct(top);
    if r in top {
      var i :| 0 <= i < |top| && top[i] == r;
      EarlierThanListed(rows, limit, top, i);
      SortedIsDistinct(top[..i]);
      DistinctSize(top[..i]);
    } else {
      DistinctSize(top);
      assert SetOf(top) <= Earlier(rows, r);
      SubsetSize(SetOf(top), Earlier(rows, r));
    }
  }

  /** Queries one after the other, each with what the earlier ones left of the
      limit, make one query. */
  lemma TopAppend(a: set<Row>, b: set<Row>, limit: nat, s: seq<Row>, t: seq<Row>)
    requires Top(a, limit, s) && Top(b, limit - |s|, t)
    requires forall m, r :: m in a && r in b ==> Before(m, r)
    ensures Top(a + b, limit, s + t)
  {
    forall r | r in a + b && r !in s + t
      ensures |s + t| == limit && forall m :: m in s + t ==> Before(m, r)
    {
      if r in a {
        assert |s| == limit && t == [];
      }
    }
  }

  // ---- The pass ----

  /** The rows one query of one chunk selects from. */
  function Selected(table: set<Row>, since: Instant, chunk: nat, stage: nat): set<Row> {
    set r | r in EligibleRows(table, since) && ChunkOf(r) == chunk && StageOf(r) == stage
  }

  function ChunkRows(table: set<Row>, since: Instant, chunk: nat): set<Row> {
    set r | r in EligibleRows(table, since) && ChunkOf(r) == chunk
  }

  function RowsBefore(table: set<Row>, since: Instant, chunk: nat): set<Row> {
    set r | r in EligibleRows(table, since) && ChunkOf(r) < chunk
  }

  lemma StagesMakeChunk(table: set<Row>, since: Instant, chunk: nat)
    ensures Selected(table, since, chunk, 0) + Selected(table, since, chunk, 1) + Selected(table, since, chunk, 2)
         == ChunkRows(table, since, chunk)
  {
  }

  lemma ChunksMakeTable(table: set<Row>, since: Instant, chunk: nat)
    ensures RowsBefore(table, since, chunk) + ChunkRows(table, since, chunk) == RowsBefore(table, since, chunk + 1)
  {
  }

  method Insert(rows: seq<Row>, r: Row) returns (more: seq<Row>)
    requires Sorted(rows) && forall m :: m in rows ==> m.delivery.pk != r.delivery.pk
    ensures Sorted(more) && forall m :: m in more <==> m == r || m in rows
  {
    var at := 0;
    while at < |rows| && Before(rows[at], r)
      invariant at <= |rows| && forall i :: 0 <= i < at ==> Before(rows[i], r)
    {
      at := at + 1;
    }
    forall j | at <= j < |rows| ensures Before(r, rows[j]) {
      BeforeIsTotal(r, rows[at], rows[j]);
    }
    more := rows[..at] + [r] + rows[at..];
    assert rows == rows[..at] + rows[at..];
  }

  /** Stands for a SELECT ... ORDER BY ... LIMIT. */
  method FirstRows(rows: set<Row>, limit: nat) returns (top: seq<Row>)
    requires Keyed(rows)
    ensures Top(rows, limit, top)
  {
    var sorted: seq<Row>, rest := [], rows;
    while rest != {}
      invariant rest <= rows && Sorted(sorted)
      invariant forall r :: r in sorted <==> r in rows && r !in rest
    {
      var r :| r in rest;
      sorted := Insert(sorted, r);
      rest := rest - {r};
    }
    top := if |sorted| > limit then sorted[..limit] else sorted;
    forall r | r in sorted && r !in top ensures forall m :: m in top ==> Before(m, r) {
      var j :| 0 <= j < |sorted| && sorted[j] == r;
    }
  }

  /** `_latest_applied_operational_ids`: closed surveys, and quotas with what
      they leave of the limit. */
  method LatestApplied(table: set<Row>, since: Instant, chunk: nat, limit: nat) returns (rows: seq<Row>)
    requires Keyed(table)
    ensures Top(Selected(table, since, chunk, 0) + Selected(table, since, chunk, 1), limit, rows)
  {
    rows := [];
    var quotas: seq<Row>, remaining := [], limit;
    if remaining > 0 {
      rows := FirstRows(Selected(table, since, chunk, 0), remaining);
      remaining := remaining - |rows|;
    }
    if remaining > 0 {
      quotas := FirstRows(Selected(table, since, chunk, 1), remaining);
    }
    TopAppend(Selected(table, since, chunk, 0), Selected(table, since, chunk, 1), limit, rows, quotas);
    rows := rows + quotas;
  }

  /** `_operational_notification_ids`: then the pending ones. */
  method ChunkIds(table: set<Row>, since: Instant, chunk: nat, limit: nat) returns (rows: seq<Row>)
    requires Keyed(table)
    ensures Top(ChunkRows(table, since, chunk), limit, rows)
  {
    if limit == 0 {
      return [];
    }
    var replayed := LatestApplied(table, since, chunk, limit);
    var pending := FirstRows(Selected(table, since, chunk, 2), limit - |replayed|);
    StagesMakeChunk(table, since, chunk);
    TopAppend(Selected(table, since, chunk, 0) + Selected(table, since, chunk, 1), Selected(table, since, chunk, 2),
              limit, replayed, pending);
    rows := replayed + pending;
  }

  /** Once the limit is reached, the chunks that are left out come after. */
  lemma FullTop(some: set<Row>, all: set<Row>, limit: nat, top: seq<Row>)
    requires Top(some, limit, top) && |top| == limit && some <= all
    requires forall m, r :: m in some && r in all - some ==> Before(m, r)
    ensures Top(all, limit, top)
  {
    TopAppend(some, all - some, limit, top, []);
    assert some + (all - some) == all && top + [] == top;
  }

  /** What is due and comes before a row. */
  ghost function DueBefore(table: set<Row>, since: Instant, r: Row): set<Row> {
    set m | m in table && Due(table, since, m) && Before(m, r)
  }

  /** Which rows the pass takes: those due, while fewer than 200 due rows come
      before them; all of them if the table has no more rows. */
  ghost predicate TakesDue(table: set<Row>, since: Instant, processed: seq<Row>) {
    (forall r :: r in processed <==> Due(table, since, r) && |DueBefore(table, since, r)| < 200) &&
    (|table| <= 200 ==> forall r :: r in processed <==> Due(table, since, r))
  }

  lemma DueBeforeIs(table: set<Row>, since: Instant, r: Row)
    ensures DueBefore(table, since, r) == Earlier(EligibleRows(table, since), r)
    ensures Due(table, since, r) && |table| <= 200 ==> |DueBefore(table, since, r)| < 200
  {
    forall m ensures m in EligibleRows(table, since) <==> Due(table, since, m) {
      DueIff(table, since, m);
    }
    if Due(table, since, r) {
      BeforeIsTotal(r, r, r);
      SubsetSize(DueBefore(table, since, r) + {r}, table);
    }
  }

  lemma TopTakesDue(table: set<Row>, since: Instant, processed: seq<Row>)
    requires Top(EligibleRows(table, since), BATCH_SIZE, processed)
    ensures TakesDue(table, since, processed)
  {
    forall r
      ensures r in processed <==> Due(table, since, r) && |DueBefore(table, since, r)| < 200
      ensures |table| <= 200 && Due(table, since, r) ==> |DueBefore(table, since, r)| < 200
    {
      DueIff(table, since, r);
      DueBeforeIs(table, since, r);
      if r in EligibleRows(table, since) {
        TakenIffRank(EligibleRows(table, since), BATCH_SIZE, processed, r);
      }
    }
  }

  /** The loop over the chunks: it processes the first rows of all that are
      eligible, as one query without chunks or stages would. */
  method ReconcileForSurveys(table: set<Row>, identities: nat, since: Instant) returns (processed: seq<Row>)
    requires Keyed(table) && forall r :: r in table ==> r.identity < identities
    ensures Top(EligibleRows(table, since), BATCH_SIZE, processed)
    ensures TakesDue(table, since, processed)
    ensures |table| <= 200 ==> forall r ::
      r in processed <==>
        r in table &&
        (!r.applied ||
         (since <= r.delivery.received &&
          !exists m :: m in table && m.applied && m.identity == r.identity && m.kind == r.kind &&
            TolunaQuota.Newer(m.delivery, r.delivery)))
  {
    processed := [];
    var chunk := 0;
    while chunk * CHUNK_SIZE < identities
      invariant Top(RowsBefore(table, since, chunk), BATCH_SIZE, processed)
      decreases identities - chunk * CHUNK_SIZE
    {
      if |processed| == BATCH_SIZE {
        FullTop(RowsBefore(table, since, chunk), EligibleRows(table, since), BATCH_SIZE, processed);
        TopTakesDue(table, since, processed);
        return;
      }
      var rows := ChunkIds(table, since, chunk, BATCH_SIZE - |processed|);
      TopAppend(RowsBefore(table, since, chunk), ChunkRows(table, since, chunk), BATCH_SIZE, processed, rows);
      ChunksMakeTable(table, since, chunk);
      processed := processed + rows;
      chunk := chunk + 1;
    }
    assert RowsBefore(table, since, chunk) == EligibleRows(table, since);
    TopTakesDue(table, since, processed);
  }

  // ---- What the pass leaves of one quota ----

  predicate IsOf(r: Row, identity: nat, quota: int) {
    r.identity == identity && r.kind == QuotaStatus(quota)
  }

  /** What is processed for one quota, in its order. */
  function DeliveriesFor(rows: seq<Row>, identity: nat, quota: int): seq<TolunaQuota.Notification> {
    if rows == [] then []
    else
      var last := rows[|rows| - 1];
      DeliveriesFor(rows[..|rows| - 1], identity, quota) + if IsOf(last, identity, quota) then [last.delivery] else []
  }

  function AppliedFor(table: set<Row>, identity: nat, quota: int): set<TolunaQuota.Notification> {
    set r | r in table && r.applied && IsOf(r, identity, quota) :: r.delivery
  }

  lemma {:induction false} DeliveredIff(rows: seq<Row>, identity: nat, quota: int, d: TolunaQuota.Notification)
    ensures d in DeliveriesFor(rows, identity, quota) <==>
      exists r :: r in rows && IsOf(r, identity, quota) && r.delivery == d
  {
    if rows != [] {
      DeliveredIff(rows[..|rows| - 1], identity, quota, d);
      SplitLast(rows);
    }
  }

  /** The newest delivery of a quota, once applied, is the one to replay. */
  lemma NewestIsAuthoritative(table: set<Row>, r: Row, quota: int)
    requires r in table && r.applied && r.kind == QuotaStatus(quota)
    requires forall d :: d in AppliedFor(table, r.identity, quota) && d != r.delivery ==>
      TolunaQuota.Newer(r.delivery, d)
    ensures Authoritative(table, r)
  {
    forall m | m in table && m.applied && SameSubject(m, r)
      ensures !TolunaQuota.ReplaysFirst(m.delivery, r.delivery)
    {
      assert m.delivery in AppliedFor(table, r.identity, quota);
      TolunaQuota.OneOrder(m.delivery, r.delivery, m.delivery);
    }
  }

  /** The pass processes a quota's newest applied delivery exactly if it was
      received since the sync began and the limit is not spent before it. */
  lemma ReplayedIff(table: set<Row>, since: Instant, processed: seq<Row>, r: Row, quota: int)
    requires Keyed(table) && Top(EligibleRows(table, since), BATCH_SIZE, processed)
    requires r in table && r.applied && r.kind == QuotaStatus(quota) && Authoritative(table, r)
    ensures r.delivery in DeliveriesFor(processed, r.identity, quota) <==>
      since <= r.delivery.received && |Earlier(EligibleRows(table, since), r)| < BATCH_SIZE
  {
    DeliveredIff(processed, r.identity, quota, r.delivery);
    if r in EligibleRows(table, since) {
      TakenIffRank(EligibleRows(table, since), BATCH_SIZE, processed, r);
    }
  }

  lemma DeliveriesKeyed(table: set<Row>, processed: seq<Row>, identity: nat, quota: int)
    requires Keyed(table) && forall r :: r in processed ==> r in table
    ensures TolunaQuota.Keyed(AppliedFor(table, identity, quota) + SetOf(DeliveriesFor(processed, identity, quota)))
  {
    forall d | d in AppliedFor(table, identity, quota) + SetOf(DeliveriesFor(processed, identity, quota))
      ensures exists r :: r in table && r.delivery == d
    {
      DeliveredIff(processed, identity, quota, d);
    }
  }

  /** After a sync that wrote the quota, and its bounded pass, the row shows
      the newest delivery exactly if that is among the first rows of the pass
      and was received since the sync began, or the inventory agrees with it. */
  lemma BoundedSyncShowsNewestIff(table: set<Row>, since: Instant, processed: seq<Row>, r: Row, quota: int,
                                  row: QuotaBatch.Row, p: QuotaBatch.Payload)
    requires Keyed(table) && Top(EligibleRows(table, since), BATCH_SIZE, processed)
    requires r in table && r.applied && r.kind == QuotaStatus(quota)
    requires var applied, ns := AppliedFor(table, r.identity, quota), DeliveriesFor(processed, r.identity, quota);
             TolunaQuota.Latest(r.delivery, applied + SetOf(ns))
    ensures var written := QuotaBatch.Refreshed(row, p).quota;
            var applied, ns := AppliedFor(table, r.identity, quota), DeliveriesFor(processed, r.identity, quota);
            QuotaBatch.Shows(TolunaQuota.ProcessAll(written, applied, ns), r.delivery) <==>
              (since <= r.delivery.received && |Earlier(EligibleRows(table, since), r)| < BATCH_SIZE) ||
              QuotaBatch.Shows(written, r.delivery)
  {
    var applied, ns := AppliedFor(table, r.identity, quota), DeliveriesFor(processed, r.identity, quota);
    DeliveriesKeyed(table, processed, r.identity, quota);
    NewestIsAuthoritative(table, r, quota);
    ReplayedIff(table, since, processed, r, quota);
    TolunaQuota.NewestDecides(QuotaBatch.Refreshed(row, p).quota, applied, ns, r.delivery);
  }

  /** `r` is the newest delivery of its quota, applied or still pending. */
  ghost predicate NewestOf(table: set<Row>, r: Row, quota: int) {
    r in table && IsOf(r, r.identity, quota) &&
    forall m :: m in table && m != r && IsOf(m, r.identity, quota) ==> TolunaQuota.Newer(r.delivery, m.delivery)
  }

  lemma NewestIsDue(table: set<Row>, since: Instant, r: Row, quota: int)
    requires NewestOf(table, r, quota)
    ensures Due(table, since, r) <==> !r.applied || since <= r.delivery.received
  {
    forall m | m in table && m.applied && m.identity == r.identity && m.kind == r.kind
      ensures !TolunaQuota.Newer(m.delivery, r.delivery)
    {
      TolunaQuota.OneOrder(m.delivery, r.delivery, m.delivery);
    }
  }

  /** Processed, the newest delivery is the latest of all that count. */
  lemma NewestIsLatest(table: set<Row>, processed: seq<Row>, r: Row, quota: int)
    requires NewestOf(table, r, quota) && forall m :: m in processed ==> m in table
    ensures var known := AppliedFor(table, r.identity, quota) + SetOf(DeliveriesFor(processed, r.identity, quota));
            r.delivery in known ==> TolunaQuota.Latest(r.delivery, known)
  {
    var known := AppliedFor(table, r.identity, quota) + SetOf(DeliveriesFor(processed, r.identity, quota));
    forall d | d in known && d != r.delivery ensures TolunaQuota.Newer(r.delivery, d) {
      DeliveredIff(processed, r.identity, quota, d);
      var m :| m in table && IsOf(m, r.identity, quota) && m.delivery == d;
    }
  }

  /** The newest delivery of a quota, also one that was stored before its
      survey and is pending when the pass begins: it shows after the pass if it
      is taken.  Otherwise the row shows the newest of the others that counts,
      if the pass takes that, or else what the inventory wrote. */
  lemma BoundedSyncShowsPendingIff(table: set<Row>, since: Instant, processed: seq<Row>, r: Row, quota: int,
                                   row: QuotaBatch.Row, p: QuotaBatch.Payload, t: TolunaQuota.Notification)
    requires Keyed(table) && Top(EligibleRows(table, since), BATCH_SIZE, processed) && NewestOf(table, r, quota)
    requires var known := AppliedFor(table, r.identity, quota) + SetOf(DeliveriesFor(processed, r.identity, quota));
             known != {} ==> TolunaQuota.Latest(t, known)
    ensures var written := QuotaBatch.Refreshed(row, p).quota;
            var applied, ns := AppliedFor(table, r.identity, quota), DeliveriesFor(processed, r.identity, quota);
            var taken := (!r.applied || since <= r.delivery.received) && |DueBefore(table, since, r)| < 200;
            (taken <==> r.delivery in ns) &&
            (QuotaBatch.Shows(TolunaQuota.ProcessAll(written, applied, ns), r.delivery) <==>
               taken || if t in ns then t.isLive == r.delivery.isLive else QuotaBatch.Shows(written, r.delivery))
  {
    var applied, ns := AppliedFor(table, r.identity, quota), DeliveriesFor(processed, r.identity, quota);
    var written := QuotaBatch.Refreshed(row, p).quota;
    TopTakesDue(table, since, processed);
    NewestIsDue(table, since, r, quota);
    DeliveredIff(processed, r.identity, quota, r.delivery);
    DeliveriesKeyed(table, processed, r.identity, quota);
    NewestIsLatest(table, processed, r, quota);
    assert ns == [] || ns[0] in applied + SetOf(ns);
    if applied + SetOf(ns) != {} {
      TolunaQuota.NewestDecides(written, applied, ns, t);
      if r.delivery in ns {
        TolunaQuota.OneOrder(t, r.delivery, t);
      }
    }
  }
}
