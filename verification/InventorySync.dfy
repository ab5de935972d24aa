/** The InnovateMR inventory sync (surveys/services.py): two inventories are
    merged, written in bounded batches under one snapshot marker, and rows
    without the marker are closed. */
module InventorySync {
  import opened Counting

  type Instant = int

  type SurveyId = nat

  /** Microseconds in a second. */
  const SECOND := 1_000_000

  /** `modified` is the later-wins time, already defaulted to the creation
      time or the minimum; `raw` is the JSON with everything else. */
  datatype Payload = Payload(surveyId: int, modified: Instant, endAt: Option<Instant>, raw: string)

  // ---- merge_inventory ----

  function Flatten(inventories: seq<seq<Payload>>): seq<Payload> {
    if inventories == [] then [] else Flatten(inventories[..|inventories| - 1]) + inventories[|inventories| - 1]
  }

  /** `j` holds the latest payload of its id, the last of equally late ones. */
  ghost predicate Winner(all: seq<Payload>, j: nat) {
    j < |all| && all[j].surveyId >= 0 &&
    forall i :: 0 <= i < |all| && all[i].surveyId == all[j].surveyId ==>
      all[i].modified <= all[j].modified && (i > j ==> all[i].modified < all[j].modified)
  }

  predicate Present(all: seq<Payload>, id: int) {
    exists i :: 0 <= i < |all| && all[i].surveyId == id
  }

  ghost predicate WonBy(all: seq<Payload>, p: Payload) {
    exists j: nat :: Winner(all, j) && all[j] == p
  }

  /** Every listed id once, each with its winning payload. */
  ghost predicate MergedOk(all: seq<Payload>, merged: map<SurveyId, Payload>) {
    (forall id: SurveyId :: id in merged <==> Present(all, id)) &&
    forall id :: id in merged ==> merged[id].surveyId == id && WonBy(all, merged[id])
  }

  /** One payload against the dictionary so far. */
  function MergeOne(merged: map<SurveyId, Payload>, p: Payload): map<SurveyId, Payload> {
    if p.surveyId < 0 || (p.surveyId in merged && p.modified < merged[p.surveyId].modified) then merged
    else merged[p.surveyId := p]
  }

  function MergeAll(all: seq<Payload>): map<SurveyId, Payload> {
    if all == [] then map[] else MergeOne(MergeAll(all[..|all| - 1]), all[|all| - 1])
  }

  lemma PresentOneMore(all: seq<Payload>, p: Payload, id: int)
    ensures Present(all + [p], id) <==> Present(all, id) || p.surveyId == id
  {
    if Present(all, id) {
      var i :| 0 <= i < |all| && all[i].surveyId == id;
      assert (all + [p])[i].surveyId == id;
    }
    assert (all + [p])[|all|] == p;
  }

  /** `q` is the winner so far that `p` replaces. */
  ghost predicate Replaces(all: seq<Payload>, p: Payload, q: Payload) {
    WonBy(all, q) && q.surveyId == p.surveyId && q.modified <= p.modified
  }

  /** A winner stays one unless the new payload is for its id and as late. */
  lemma WinnerOneMore(all: seq<Payload>, p: Payload, q: Payload)
    ensures WonBy(all, q) && (p.surveyId != q.surveyId || p.modified < q.modified) ==> WonBy(all + [p], q)
    ensures p.surveyId >= 0 && (Present(all, p.surveyId) ==> Replaces(all, p, q)) ==> WonBy(all + [p], p)
  {
    if WonBy(all, q) {
      var j: nat :| Winner(all, j) && all[j] == q;
      if p.surveyId != q.surveyId || p.modified < q.modified {
        assert Winner(all + [p], j);
      }
    }
    if p.surveyId >= 0 && (Present(all, p.surveyId) ==> Replaces(all, p, q)) {
      assert Winner(all + [p], |all|);
    }
  }

  /** The fold over the dictionary keeps exactly the winners. */
  lemma {:induction false} MergeKeepsWinners(all: seq<Payload>)
    ensures MergedOk(all, MergeAll(all))
  {
    if all != [] {
      var earlier, p := all[..|all| - 1], all[|all| - 1];
      MergeKeepsWinners(earlier);
      assert all == earlier + [p];
      var merged, merged' := MergeAll(earlier), MergeAll(all);
      forall id: SurveyId ensures id in merged' <==> Present(all, id) {
        PresentOneMore(earlier, p, id);
      }
      forall id | id in merged' ensures merged'[id].surveyId == id && WonBy(all, merged'[id]) {
        WinnerOneMore(earlier, p, if id in merged then merged[id] else p);
      }
    }
  }

  ghost predicate Lists(order: seq<SurveyId>, merged: map<SurveyId, Payload>) {
    Distinct(order) && forall id :: id in order <==> id in merged
  }

  lemma FlattenNext(inventories: seq<seq<Payload>>, i: nat)
    requires i < |inventories|
    ensures Flatten(inventories[..i + 1]) == Flatten(inventories[..i]) + inventories[i]
  {
    assert inventories[..i + 1][..i] == inventories[..i];
  }

  lemma NothingAdded(before: seq<Payload>, inventory: seq<Payload>)
    ensures before + inventory[..0] == before
  {
  }

  lemma MergeAppend(all: seq<Payload>, p: Payload)
    ensures MergeAll(all + [p]) == MergeOne(MergeAll(all), p)
  {
    assert (all + [p])[..|all|] == all;
  }

  lemma MergeNext(before: seq<Payload>, inventory: seq<Payload>, j: nat)
    requires j < |inventory|
    ensures MergeAll(before + inventory[..j + 1]) == MergeOne(MergeAll(before + inventory[..j]), inventory[j])
  {
    assert before + inventory[..j + 1] == before + inventory[..j] + [inventory[j]];
    MergeAppend(before + inventory[..j], inventory[j]);
  }

  /** The inner loop over one inventory, after those in `before`. */
  method MergeList(ghost before: seq<Payload>, inventory: seq<Payload>, merged: map<SurveyId, Payload>,
                   order: seq<SurveyId>)
    returns (merged': map<SurveyId, Payload>, order': seq<SurveyId>)
    requires merged == MergeAll(before) && Lists(order, merged)
    ensures merged' == MergeAll(before + inventory) && Lists(order', merged')
  {
    merged', order' := merged, order;
    NothingAdded(before, inventory);
    for j := 0 to |inventory|
      invariant merged' == MergeAll(before + inventory[..j]) && Lists(order', merged')
    {
      var payload := inventory[j];
      MergeNext(before, inventory, j);
      if payload.surveyId < 0 {
        continue;
      }
      var id: SurveyId := payload.surveyId;
      if id !in merged' || payload.modified >= merged'[id].modified {
        order' := if id in merged' then order' else order' + [id];
        merged' := merged'[id := payload];
      }
    }
    TakeAll(inventory);
  }

  /** `merge_inventory`; `order` is the dictionary's insertion order. */
  method MergeInventory(inventories: seq<seq<Payload>>) returns (merged: map<SurveyId, Payload>, order: seq<SurveyId>)
    ensures merged == MergeAll(Flatten(inventories)) && MergedOk(Flatten(inventories), merged)
    ensures Lists(order, merged)
  {
    merged, order := map[], [];
    for i := 0 to |inventories|
      invariant merged == MergeAll(Flatten(inventories[..i])) && Lists(order, merged)
    {
      merged, order := MergeList(Flatten(inventories[..i]), inventories[i], merged, order);
      FlattenNext(inventories, i);
    }
    TakeAll(inventories);
    MergeKeepsWinners(Flatten(inventories));
  }

  /** Who wins does not depend on anything but the payloads: at most one. */
  lemma WinnerUnique(all: seq<Payload>, i: nat, j: nat)
    requires Winner(all, i) && Winner(all, j) && all[i].surveyId == all[j].surveyId
    ensures i == j
  {
  }

  // ---- The stored surveys ----

  datatype Status = Live | Closed

  datatype Key = Key(integration: Option<nat>, source: SurveyId)

  datatype Row = Row(payload: Payload, endAt: Option<Instant>, status: Status, lastSeen: Instant)

  /** `_detail_changed` */
  predicate DetailChanged(row: Row, p: Payload) {
    p.modified > row.payload.modified || row.payload != p || row.status != Live || row.endAt != p.endAt
  }

  /** What one merged payload makes of the row it meets. */
  function MergeRow(existing: Option<Row>, p: Payload, marker: Instant): Row {
    if existing.None? || DetailChanged(existing.value, p) then Row(p, p.endAt, Live, marker)
    else existing.value.(lastSeen := marker)
  }

  /** Whatever its history, a merged row shows the merged payload, live. */
  lemma MergedRowShowsPayload(existing: Option<Row>, p: Payload, marker: Instant)
    ensures MergeRow(existing, p, marker) == Row(p, p.endAt, Live, marker)
  {
  }

  /** A row counts as updated exactly if anything but its stamp changes. */
  lemma ChangedIff(row: Row, p: Payload)
    ensures DetailChanged(row, p) <==> row != Row(p, p.endAt, Live, row.lastSeen)
  {
  }

  function RowAt(table: map<Key, Row>, k: Key): Option<Row> {
    if k in table then Some(table[k]) else None
  }

  predicate IsNew(table: map<Key, Row>, i: Option<nat>, id: SurveyId) {
    Key(i, id) !in table
  }

  predicate IsChanged(table: map<Key, Row>, i: Option<nat>, merged: map<SurveyId, Payload>, id: SurveyId) {
    id in merged && Key(i, id) in table && DetailChanged(table[Key(i, id)], merged[id])
  }

  function NewIds(table: map<Key, Row>, i: Option<nat>): SurveyId -> bool {
    (id: SurveyId) => IsNew(table, i, id)
  }

  function ChangedIds(table: map<Key, Row>, i: Option<nat>, merged: map<SurveyId, Payload>): SurveyId -> bool {
    (id: SurveyId) => IsChanged(table, i, merged, id)
  }

  function FloorSecond(t: Instant): Instant { t - t % SECOND }

  /** The unique snapshot marker, a whole second after every earlier sighting. */
  function SnapshotMarker(now: Instant, latest: Option<Instant>): Instant {
    var marker := FloorSecond(now);
    if latest.Some? && marker <= FloorSecond(latest.value) then FloorSecond(latest.value) + SECOND else marker
  }

  lemma FloorBelow(t: Instant)
    ensures FloorSecond(t) % 1_000_000 == 0 && FloorSecond(t) <= t < FloorSecond(t) + 1_000_000
  {
  }

  lemma WholeSeconds(a: Instant, b: Instant)
    requires a % 1_000_000 == 0 && b % 1_000_000 == 0 && a - 1_000_000 < b
    ensures a <= b && (a + 1_000_000) % 1_000_000 == 0
  {
  }

  lemma FloorIsFirst(t: Instant, m: Instant)
    requires m % 1_000_000 == 0
    ensures t - 1_000_000 < m ==> FloorSecond(t) <= m
    ensures t < m ==> FloorSecond(t) + 1_000_000 <= m
  {
    FloorBelow(t);
    if t < m {
      WholeSeconds(FloorSecond(t), m);
    }
  }

  /** It is the first whole second that is not before the current one and is
      after every sighting. */
  lemma MarkerIsNextSecond(now: Instant, latest: Option<Instant>, m: Instant)
    ensures m % 1_000_000 == 0 && now - 1_000_000 < m && (latest.Some? ==> latest.value < m) ==>
      SnapshotMarker(now, latest) <= m
    ensures var marker := SnapshotMarker(now, latest);
            marker % 1_000_000 == 0 && now - 1_000_000 < marker && (latest.Some? ==> latest.value < marker) &&
            (marker <= now || (latest.Some? && marker - 1_000_000 <= latest.value))
  {
    FloorBelow(now);
    if latest.Some? {
      FloorBelow(latest.value);
      WholeSeconds(FloorSecond(latest.value), FloorSecond(latest.value));
    }
    if m % 1_000_000 == 0 {
      FloorIsFirst(now, m);
      if latest.Some? {
        FloorIsFirst(latest.value, m);
      }
    }
  }

  /** Stamped with it, a row can be told from every row seen before. */
  lemma MarkerUnused(table: map<Key, Row>, i: Option<nat>, now: Instant, latest: Option<Instant>)
    requires forall k :: k in table && k.integration == i ==> latest.Some? && table[k].lastSeen <= latest.value
    ensures forall k :: k in table && k.integration == i ==> table[k].lastSeen != SnapshotMarker(now, latest)
  {
  }

  // ---- What the batches do, without batches ----

  ghost predicate MergedAt(before: map<Key, Row>, after: map<Key, Row>, i: Option<nat>, merged: map<SurveyId, Payload>,
                           id: SurveyId, marker: Instant)
  {
    id in merged && Key(i, id) in after &&
    after[Key(i, id)] == MergeRow(RowAt(before, Key(i, id)), merged[id], marker)
  }

  /** `after` is `before` with exactly the ids in `done` merged. */
  ghost predicate Merged(before: map<Key, Row>, after: map<Key, Row>, i: Option<nat>, merged: map<SurveyId, Payload>,
                         done: seq<SurveyId>, marker: Instant)
  {
    (forall k :: k in after <==> k in before || (k.integration == i && k.source in done)) &&
    (forall id :: id in done ==> MergedAt(before, after, i, merged, id, marker)) &&
    (forall k :: k in before && !(k.integration == i && k.source in done) ==> k in after && after[k] == before[k])
  }

  /** Rows the close step meets. */
  predicate Closes(row: Row, k: Key, i: Option<nat>, marker: Instant) {
    row.status == Live && k.integration == i && row.lastSeen != marker
  }

  function CloseMissing(table: map<Key, Row>, i: Option<nat>, marker: Instant): map<Key, Row> {
    map k | k in table :: if Closes(table[k], k, i, marker) then table[k].(status := Closed) else table[k]
  }

  function ClosedBy(table: map<Key, Row>, i: Option<nat>, marker: Instant): set<Key> {
    set k | k in table && Closes(table[k], k, i, marker)
  }

  /** Live rows of the integration that the inventory no longer lists. */
  function Vanished(table: map<Key, Row>, i: Option<nat>, merged: map<SurveyId, Payload>): set<Key> {
    set k | k in table && k.integration == i && table[k].status == Live && k.source !in merged
  }

  /** The set-based result of a sync: merged ids live with their payloads,
      the integration's other rows closed, other integrations untouched. */
  ghost predicate Snapshot(before: map<Key, Row>, final: map<Key, Row>, i: Option<nat>,
                           merged: map<SurveyId, Payload>, marker: Instant)
  {
    (forall k :: k in final <==> k in before || (k.integration == i && k.source in merged)) &&
    (forall k :: k in final && k.integration == i && k.source in merged ==>
       final[k] == Row(merged[k.source], merged[k.source].endAt, Live, marker)) &&
    (forall k :: k in before && k.integration == i && k.source !in merged ==>
       final[k] == before[k].(status := Closed)) &&
    (forall k :: k in before && k.integration != i ==> final[k] == before[k])
  }

  /** The specification leaves no choice, so neither batch size nor order of
      the dictionary can show in the result. */
  lemma SnapshotUnique(before: map<Key, Row>, x: map<Key, Row>, y: map<Key, Row>, i: Option<nat>,
                       merged: map<SurveyId, Payload>, marker: Instant)
    requires Snapshot(before, x, i, merged, marker) && Snapshot(before, y, i, merged, marker)
    ensures x == y
  {
  }

  /** The live surveys of the integration are exactly the merged ones. */
  lemma LiveIffMerged(before: map<Key, Row>, final: map<Key, Row>, i: Option<nat>, merged: map<SurveyId, Payload>,
                      marker: Instant, k: Key)
    requires Snapshot(before, final, i, merged, marker) && k.integration == i
    ensures k in final && final[k].status == Live <==> k.source in merged
  {
  }

  /** Once every batch is in, closing the rows without the marker gives the
      snapshot, and closes exactly what vanished from the inventory. */
  lemma ClosingGivesSnapshot(before: map<Key, Row>, after: map<Key, Row>, i: Option<nat>,
                             merged: map<SurveyId, Payload>, order: seq<SurveyId>, marker: Instant)
    requires Lists(order, merged) && Merged(before, after, i, merged, order, marker)
    requires forall k :: k in before && k.integration == i ==> before[k].lastSeen != marker
    ensures Snapshot(before, CloseMissing(after, i, marker), i, merged, marker)
    ensures ClosedBy(after, i, marker) == Vanished(before, i, merged)
  {
    forall k | k in after && k.integration == i && k.source in merged
      ensures after[k] == Row(merged[k.source], merged[k.source].endAt, Live, marker)
    {
      assert MergedAt(before, after, i, merged, k.source, marker);
      MergedRowShowsPayload(RowAt(before, k), merged[k.source], marker);
    }
  }

  datatype Outcome = Success | Failure

  datatype Tally = Tally(created: nat, updated: nat, same: nat)

  datatype Summary = Summary(outcome: Outcome, tally: Tally, closed: nat)

  /** The first `done` ids are merged and counted, and nothing else changed. */
  ghost predicate Progress(before: map<Key, Row>, after: map<Key, Row>, i: Option<nat>, merged: map<SurveyId, Payload>,
                           order: seq<SurveyId>, done: nat, marker: Instant, tally: Tally)
  {
    done <= |order| && Merged(before, after, i, merged, order[..done], marker) &&
    tally.created == CountIf(order[..done], NewIds(before, i)) &&
    tally.updated == CountIf(order[..done], ChangedIds(before, i, merged)) &&
    tally.created + tally.updated + tally.same == done
  }

  /** `latest` is the last sighting among the rows of `keys`. */
  ghost predicate SeenBy(table: map<Key, Row>, keys: set<Key>, i: Option<nat>, latest: Option<Instant>)
    requires keys <= table.Keys
  {
    (forall k :: k in keys && k.integration == i ==> latest.Some? && table[k].lastSeen <= latest.value) &&
    (latest.Some? ==> exists k :: k in keys && k.integration == i && table[k].lastSeen == latest.value)
  }

  function Those(merged: map<SurveyId, Payload>, p: SurveyId -> bool): set<SurveyId> {
    set id | id in merged && p(id)
  }

  lemma FlattenTwo(a: seq<Payload>, b: seq<Payload>)
    ensures Flatten([a, b]) == a + b
  {
    assert [a, b][..1] == [a] && [a][..0] == [];
    assert Flatten([a]) == [] + a;
  }

  lemma ChosenOneMore(order: seq<SurveyId>, last: SurveyId, p: SurveyId -> bool)
    requires last !in order
    ensures |set id | id in order + [last] && p(id)| == |set id | id in order && p(id)| + (if p(last) then 1 else 0)
  {
    var chosen := set id | id in order && p(id);
    assert (set id | id in order + [last] && p(id)) == chosen + if p(last) then {last} else {};
  }

  lemma {:induction false} CountDistinct(order: seq<SurveyId>, p: SurveyId -> bool)
    requires Distinct(order)
    ensures CountIf(order, p) == |set id | id in order && p(id)|
  {
    if order == [] {
      assert (set id | id in order && p(id)) == {};
    } else {
      var earlier, last := order[..|order| - 1], order[|order| - 1];
      CountDistinct(earlier, p);
      assert order == earlier + [last] && last !in earlier;
      ChosenOneMore(earlier, last, p);
    }
  }

  lemma CountThose(merged: map<SurveyId, Payload>, order: seq<SurveyId>, p: SurveyId -> bool)
    requires Lists(order, merged)
    ensures CountIf(order, p) == |Those(merged, p)|
  {
    CountDistinct(order, p);
    assert (set id | id in order && p(id)) == Those(merged, p);
  }

  ghost predicate NothingClosed(before: map<Key, Row>, after: map<Key, Row>) {
    forall k :: k in before ==> k in after && (before[k].status == Live ==> after[k].status == Live)
  }

  lemma {:induction false} CountConcat<T>(a: seq<T>, b: seq<T>, p: T -> bool)
    ensures CountIf(a + b, p) == CountIf(a, p) + CountIf(b, p)
  {
    if b == [] {
      assert a + b == a;
    } else {
      assert (a + b)[..|a + b| - 1] == a + b[..|b| - 1];
      CountConcat(a, b[..|b| - 1], p);
    }
  }

  lemma {:induction false} CountSame<T>(a: seq<T>, p: T -> bool, q: T -> bool)
    requires forall x :: x in a ==> p(x) == q(x)
    ensures CountIf(a, p) == CountIf(a, q)
  {
    if a != [] {
      assert a[|a| - 1] in a && forall x :: x in a[..|a| - 1] ==> x in a;
      CountSame(a[..|a| - 1], p, q);
    }
  }

  lemma CountsCompose(before: map<Key, Row>, middle: map<Key, Row>, i: Option<nat>, merged: map<SurveyId, Payload>,
                      done: seq<SurveyId>, batch: seq<SurveyId>)
    requires forall id :: id in batch ==> RowAt(middle, Key(i, id)) == RowAt(before, Key(i, id))
    ensures CountIf(done + batch, NewIds(before, i))
         == CountIf(done, NewIds(before, i)) + CountIf(batch, NewIds(middle, i))
    ensures CountIf(done + batch, ChangedIds(before, i, merged))
         == CountIf(done, ChangedIds(before, i, merged)) + CountIf(batch, ChangedIds(middle, i, merged))
  {
    CountConcat(done, batch, NewIds(before, i));
    CountConcat(done, batch, ChangedIds(before, i, merged));
    forall id | id in batch
      ensures IsNew(before, i, id) == IsNew(middle, i, id)
      ensures IsChanged(before, i, merged, id) == IsChanged(middle, i, merged, id)
    {
      assert RowAt(middle, Key(i, id)) == RowAt(before, Key(i, id));
    }
    CountSame(batch, NewIds(before, i), NewIds(middle, i));
    CountSame(batch, ChangedIds(before, i, merged), ChangedIds(middle, i, merged));
  }

  lemma ComposeRows(before: map<Key, Row>, middle: map<Key, Row>, after: map<Key, Row>, i: Option<nat>,
                    merged: map<SurveyId, Payload>, done: seq<SurveyId>, batch: seq<SurveyId>, marker: Instant)
    requires Merged(before, middle, i, merged, done, marker) && Merged(middle, after, i, merged, batch, marker)
    requires forall id :: id in batch ==> id !in done
    ensures Merged(before, after, i, merged, done + batch, marker)
  {
    forall id | id in done + batch
      ensures MergedAt(before, after, i, merged, id, marker)
    {
      if id in done {
        assert id !in batch && MergedAt(before, middle, i, merged, id, marker);
      } else {
        assert MergedAt(middle, after, i, merged, id, marker);
      }
    }
  }

  /** A batch after the earlier ones is the same as one bigger batch. */
  lemma BatchesCompose(before: map<Key, Row>, middle: map<Key, Row>, after: map<Key, Row>, i: Option<nat>,
                       merged: map<SurveyId, Payload>, order: seq<SurveyId>, offset: nat, end: nat, marker: Instant)
    requires offset <= end <= |order| && Distinct(order)
    requires Merged(before, middle, i, merged, order[..offset], marker)
    requires Merged(middle, after, i, merged, order[offset..end], marker)
    ensures Merged(before, after, i, merged, order[..end], marker)
    ensures CountIf(order[..end], NewIds(before, i))
         == CountIf(order[..offset], NewIds(before, i)) + CountIf(order[offset..end], NewIds(middle, i))
    ensures CountIf(order[..end], ChangedIds(before, i, merged))
         == CountIf(order[..offset], ChangedIds(before, i, merged))
            + CountIf(order[offset..end], ChangedIds(middle, i, merged))
  {
    var done, batch := order[..offset], order[offset..end];
    assert order[..end] == done + batch;
    forall id | id in batch ensures id !in done && RowAt(middle, Key(i, id)) == RowAt(before, Key(i, id)) {
    }
    CountsCompose(before, middle, i, merged, done, batch);
    ComposeRows(before, middle, after, i, merged, done, batch, marker);
  }

  lemma NextBatch(before: map<Key, Row>, middle: map<Key, Row>, after: map<Key, Row>, i: Option<nat>,
                  merged: map<SurveyId, Payload>, order: seq<SurveyId>, offset: nat, end: nat, marker: Instant,
                  t: Tally, b: Tally)
    requires offset <= end <= |order| && Lists(order, merged)
    requires Progress(before, middle, i, merged, order, offset, marker, t)
    requires Merged(middle, after, i, merged, order[offset..end], marker)
    requires b.created == CountIf(order[offset..end], NewIds(middle, i))
    requires b.updated == CountIf(order[offset..end], ChangedIds(middle, i, merged))
    requires b.created + b.updated + b.same == end - offset
    ensures Progress(before, after, i, merged, order, end, marker,
                     Tally(t.created + b.created, t.updated + b.updated, t.same + b.same))
  {
    BatchesCompose(before, middle, after, i, merged, order, offset, end, marker);
  }

  lemma ListedSize(order: seq<SurveyId>, merged: map<SurveyId, Payload>)
    requires Lists(order, merged)
    ensures |order| == |merged|
  {
    DistinctSize(order);
    assert SetOf(order) == merged.Keys;
  }

  lemma OneMoreWrite(existing: map<Key, Row>, writes: map<Key, Row>, i: Option<nat>, merged: map<SurveyId, Payload>,
                     done: seq<SurveyId>, id: SurveyId, marker: Instant)
    requires Merged(existing, existing + writes, i, merged, done, marker) && id in merged
    ensures var row := MergeRow(RowAt(existing, Key(i, id)), merged[id], marker);
            Merged(existing, existing + writes[Key(i, id) := row], i, merged, done + [id], marker)
  {
    var after := existing + writes[Key(i, id) := MergeRow(RowAt(existing, Key(i, id)), merged[id], marker)];
    forall d | d in done + [id] ensures MergedAt(existing, after, i, merged, d, marker) {
      if d != id {
        assert MergedAt(existing, existing + writes, i, merged, d, marker);
      }
    }
  }

  lemma MergedStaysLive(before: map<Key, Row>, after: map<Key, Row>, i: Option<nat>, merged: map<SurveyId, Payload>,
                        done: seq<SurveyId>, marker: Instant)
    requires Merged(before, after, i, merged, done, marker)
    ensures NothingClosed(before, after)
  {
  }

  /** The tally with one more id. */
  function Classified(table: map<Key, Row>, i: Option<nat>, merged: map<SurveyId, Payload>, id: SurveyId,
                      t: Tally): Tally
  {
    if IsNew(table, i, id) then t.(created := t.created + 1)
    else if IsChanged(table, i, merged, id) then t.(updated := t.updated + 1)
    else t.(same := t.same + 1)
  }

  lemma NothingWritten(existing: map<Key, Row>, i: Option<nat>, merged: map<SurveyId, Payload>,
                       batch: seq<SurveyId>, marker: Instant)
    ensures Progress(existing, existing + map[], i, merged, batch, 0, marker, Tally(0, 0, 0))
  {
    assert existing + map[] == existing;
  }

  /** One more id of a batch, with the row it gets. */
  lemma WriteNext(existing: map<Key, Row>, writes: map<Key, Row>, i: Option<nat>, merged: map<SurveyId, Payload>,
                  batch: seq<SurveyId>, n: nat, marker: Instant, t: Tally)
    requires n < |batch| && batch[n] in merged
    requires Progress(existing, existing + writes, i, merged, batch, n, marker, t)
    ensures var k := Key(i, batch[n]);
            var after := existing + writes[k := MergeRow(RowAt(existing, k), merged[batch[n]], marker)];
            Progress(existing, after, i, merged, batch, n + 1, marker, Classified(existing, i, merged, batch[n], t))
  {
    TakeNext(batch, n);
    CountNext(batch, n, NewIds(existing, i));
    CountNext(batch, n, ChangedIds(existing, i, merged));
    OneMoreWrite(existing, writes, i, merged, batch[..n], batch[n], marker);
  }

  class Surveys {
    var table: map<Key, Row>

    constructor (table: map<Key, Row>)
      ensures this.table == table
    {
      this.table := table;
    }

    /** One bounded transaction of `sync_surveys`: preload, classify, write. */
    method WriteBatch(i: Option<nat>, merged: map<SurveyId, Payload>, batch: seq<SurveyId>, marker: Instant)
      returns (created: nat, updated: nat, same: nat)
      requires forall id :: id in batch ==> id in merged
      modifies this
      ensures Merged(old(table), table, i, merged, batch, marker)
      ensures created == CountIf(batch, NewIds(old(table), i))
      ensures updated == CountIf(batch, ChangedIds(old(table), i, merged))
      ensures created + updated + same == |batch|
    {
      var existing := table;
      created, updated, same := 0, 0, 0;
      var writes: map<Key, Row> := map[];
      NothingWritten(existing, i, merged, batch, marker);
      for n := 0 to |batch|
        invariant table == existing == old(table)
        invariant Progress(existing, existing + writes, i, merged, batch, n, marker, Tally(created, updated, same))
      {
        var id := batch[n];
        var k, payload := Key(i, id), merged[id];
        WriteNext(existing, writes, i, merged, batch, n, marker, Tally(created, updated, same));
        if k !in existing {
          writes := writes[k := Row(payload, payload.endAt, Live, marker)];
          created := created + 1;
        } else if DetailChanged(existing[k], payload) {
          writes := writes[k := Row(payload, payload.endAt, Live, marker)];
          updated := updated + 1;
        } else {
          writes := writes[k := existing[k].(lastSeen := marker)];
          same := same + 1;
        }
      }
      TakeAll(batch);
      table := table + writes;
    }

    /** The batch loop; the transaction of the batch that holds position
        `failing`, if there is one, raises. */
    method WriteBatches(i: Option<nat>, merged: map<SurveyId, Payload>, order: seq<SurveyId>, batchSize: nat,
                        marker: Instant, failing: Option<nat>)
      returns (tally: Tally, failed: bool, ghost done: nat)
      requires batchSize > 0 && Lists(order, merged)
      modifies this
      ensures failed <==> failing.Some? && failing.value < |order|
      ensures failed ==> done <= failing.value < done + batchSize
      ensures Progress(old(table), table, i, merged, order, done, marker, tally) && (!failed ==> done == |order|)
    {
      ghost var before := table;
      var offset := 0;
      tally, failed := Tally(0, 0, 0), false;
      NothingWritten(table, i, merged, order, marker);
      while offset < |order|
        invariant Progress(before, table, i, merged, order, offset, marker, tally)
        invariant failing.Some? ==> offset <= failing.value || offset == |order| <= failing.value
        decreases |order| - offset
      {
        var end := if offset + batchSize <= |order| then offset + batchSize else |order|;
        if failing.Some? && failing.value < end {
          return tally, true, offset;
        }
        ghost var middle := table;
        var batch := order[offset..end];
        assert forall id :: id in batch ==> id in order;
        var created, updated, same := WriteBatch(i, merged, batch, marker);
        NextBatch(before, middle, table, i, merged, order, offset, end, marker, tally, Tally(created, updated, same));
        tally := Tally(tally.created + created, tally.updated + updated, tally.same + same);
        offset := end;
      }
      done := offset;
    }

    /** `sync_surveys` after the inventories are fetched.  Nothing in the
        contract mentions the batch size. */
    method SyncSurveys(i: Option<nat>, merged: map<SurveyId, Payload>, order: seq<SurveyId>, batchSize: nat,
                       marker: Instant, failing: Option<nat>)
      returns (run: Summary, ghost done: nat)
      requires batchSize > 0 && Lists(order, merged)
      requires forall k :: k in table && k.integration == i ==> table[k].lastSeen != marker
      modifies this
      ensures run.outcome == Failure <==> failing.Some? && failing.value < |order|
      ensures run.outcome == Success ==> Snapshot(old(table), table, i, merged, marker)
      ensures run.outcome == Success ==>
        run.tally.created == CountIf(order, NewIds(old(table), i)) &&
        run.tally.updated == CountIf(order, ChangedIds(old(table), i, merged)) &&
        run.tally.created + run.tally.updated + run.tally.same == |merged| &&
        run.closed == |Vanished(old(table), i, merged)|
      ensures run.outcome == Failure ==>
        run.closed == 0 && NothingClosed(old(table), table) && done <= failing.value < done + batchSize &&
        done <= |order| && Merged(old(table), table, i, merged, order[..done], marker) &&
        run.tally.created + run.tally.updated + run.tally.same == done
    {
      var tally, failed;
      tally, failed, done := WriteBatches(i, merged, order, batchSize, marker, failing);
      if failed {
        MergedStaysLive(old(table), table, i, merged, order[..done], marker);
        return Summary(Failure, tally, 0), done;
      }
      TakeAll(order);
      ClosingGivesSnapshot(old(table), table, i, merged, order, marker);
      ListedSize(order, merged);
      var closed := |ClosedBy(table, i, marker)|;
      table := CloseMissing(table, i, marker);
      return Summary(Success, tally, closed), done;
    }

    /** The last time any row of the integration was seen. */
    method LatestSeen(i: Option<nat>) returns (latest: Option<Instant>)
      ensures SeenBy(table, table.Keys, i, latest)
    {
      latest := None;
      var rest := table.Keys;
      while rest != {}
        invariant rest <= table.Keys && SeenBy(table, table.Keys - rest, i, latest)
      {
        var k :| k in rest;
        if k.integration == i && (latest.None? || latest.value < table[k].lastSeen) {
          latest := Some(table[k].lastSeen);
        }
        rest := rest - {k};
      }
    }

    /** The whole sync from the two fetched inventories and the clock. */
    method SyncInventories(i: Option<nat>, full: seq<Payload>, paged: seq<Payload>, now: Instant, batchSize: nat,
                           failing: Option<nat>)
      returns (run: Summary, ghost merged: map<SurveyId, Payload>, ghost latest: Option<Instant>,
               ghost written: seq<SurveyId>)
      requires batchSize > 0
      modifies this
      ensures MergedOk(full + paged, merged) && SeenBy(old(table), old(table).Keys, i, latest)
      ensures run.outcome == Failure <==> failing.Some? && failing.value < |merged|
      ensures run.outcome == Success ==>
        Snapshot(old(table), table, i, merged, SnapshotMarker(now, latest)) &&
        run.tally.created == |Those(merged, NewIds(old(table), i))| &&
        run.tally.updated == |Those(merged, ChangedIds(old(table), i, merged))| &&
        run.tally.created + run.tally.updated + run.tally.same == |merged| &&
        run.closed == |Vanished(old(table), i, merged)|
      ensures run.outcome == Failure ==>
        run.closed == 0 && NothingClosed(old(table), table) && |written| <= failing.value < |written| + batchSize &&
        Merged(old(table), table, i, merged, written, SnapshotMarker(now, latest))
    {
      var seen := LatestSeen(i);
      var marker := SnapshotMarker(now, seen);
      MarkerUnused(table, i, now, seen);
      var inventory, order := MergeInventory([full, paged]);
      FlattenTwo(full, paged);
      ListedSize(order, inventory);
      CountThose(inventory, order, NewIds(table, i));
      CountThose(inventory, order, ChangedIds(table, i, inventory));
      ghost var done;
      run, done := SyncSurveys(i, inventory, order, batchSize, marker, failing);
      merged, latest := inventory, seen;
      written := if run.outcome == Failure then order[..done] else order;
    }
  }
}
