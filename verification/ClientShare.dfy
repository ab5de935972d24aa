/** The client chart of the dashboard (surveys/dashboard.py): grouped rows are
    merged by client, ranked, and folded into seven plus "Other clients". */
module ClientShare {
  import opened Counting

  const SHOWN := 7

  /** One row of the grouped query; `client` is the id rendered as text. */
  datatype Group = Group(client: Option<string>, clientName: string, company: string, hits: nat, completes: nat)

  datatype Item = Item(name: string, hits: nat, completes: nat)

  function NameOf(g: Group): string {
    if g.clientName != "" then g.clientName else if g.company != "" then g.company else "Unassigned client"
  }

  function KeyOf(g: Group): string {
    match g.client
    case Some(id) => id
    case None => NameOf(g)
  }

  /** Two rows are merged exactly if their client is the same, or both have
      none and the same name, or the name of the one without is the other's id. */
  lemma MergedIff(g: Group, h: Group)
    ensures KeyOf(g) == KeyOf(h) <==>
      (g.client.Some? && g.client == h.client) ||
      (g.client.None? && h.client.None? && NameOf(g) == NameOf(h)) ||
      (g.client.None? && h.client == Some(NameOf(g))) || (h.client.None? && g.client == Some(NameOf(h)))
    ensures var names := [g.clientName, g.company, "Unassigned client"];
            exists i :: 0 <= i < 3 && NameOf(g) == names[i] != "" && forall j :: 0 <= j < i ==> names[j] == ""
  {
    var names := [g.clientName, g.company, "Unassigned client"];
    var i := if g.clientName != "" then 0 else if g.company != "" then 1 else 2;
    assert NameOf(g) == names[i] != "";
  }

  function GroupHits(groups: seq<Group>): nat {
    if groups == [] then 0 else GroupHits(groups[..|groups| - 1]) + groups[|groups| - 1].hits
  }

  function GroupCompletes(groups: seq<Group>): nat {
    if groups == [] then 0 else GroupCompletes(groups[..|groups| - 1]) + groups[|groups| - 1].completes
  }

  function Hits(rows: seq<Item>): nat {
    if rows == [] then 0 else Hits(rows[..|rows| - 1]) + rows[|rows| - 1].hits
  }

  function Completes(rows: seq<Item>): nat {
    if rows == [] then 0 else Completes(rows[..|rows| - 1]) + rows[|rows| - 1].completes
  }

  lemma {:induction false} SplitTotals(a: seq<Item>, b: seq<Item>)
    ensures Hits(a + b) == Hits(a) + Hits(b) && Completes(a + b) == Completes(a) + Completes(b)
  {
    if b == [] {
      assert a + b == a;
    } else {
      assert (a + b)[..|a + b| - 1] == a + b[..|b| - 1];
      SplitTotals(a, b[..|b| - 1]);
    }
  }

  lemma OneTotal(item: Item)
    ensures Hits([item]) == item.hits && Completes([item]) == item.completes
  {
  }

  lemma ReplaceTotals(rows: seq<Item>, i: nat, item: Item)
    requires i < |rows|
    ensures Hits(rows[i := item]) + rows[i].hits == Hits(rows) + item.hits
    ensures Completes(rows[i := item]) + rows[i].completes == Completes(rows) + item.completes
  {
    assert rows == rows[..i] + [rows[i]] + rows[i + 1..];
    assert rows[i := item] == rows[..i] + [item] + rows[i + 1..];
    SplitTotals(rows[..i], [rows[i]]);
    SplitTotals(rows[..i], [item]);
    SplitTotals(rows[..i] + [rows[i]], rows[i + 1..]);
    SplitTotals(rows[..i] + [item], rows[i + 1..]);
    OneTotal(rows[i]);
    OneTotal(item);
  }

  ghost predicate Ranked(rows: seq<Item>) {
    forall i, j :: 0 <= i < j < |rows| ==> rows[i].completes >= rows[j].completes
  }

  /** What the groups say about one client. */
  function HitsOf(groups: seq<Group>, key: string): nat {
    if groups == [] then 0
    else
      var g := groups[|groups| - 1];
      HitsOf(groups[..|groups| - 1], key) + (if KeyOf(g) == key then g.hits else 0)
  }

  function CompletesOf(groups: seq<Group>, key: string): nat {
    if groups == [] then 0
    else
      var g := groups[|groups| - 1];
      CompletesOf(groups[..|groups| - 1], key) + (if KeyOf(g) == key then g.completes else 0)
  }

  /** The name under which a client is first met. */
  function FirstName(groups: seq<Group>, key: string): Option<string> {
    if groups == [] then None
    else
      var earlier, g := FirstName(groups[..|groups| - 1], key), groups[|groups| - 1];
      if earlier.Some? then earlier else if KeyOf(g) == key then Some(NameOf(g)) else None
  }

  ghost predicate RowOk(groups: seq<Group>, key: string, row: Item) {
    row.hits == HitsOf(groups, key) && row.completes == CompletesOf(groups, key) &&
    (FirstName(groups, key).Some? ==> row.name == FirstName(groups, key).value)
  }

  ghost predicate RowsOk(groups: seq<Group>, keys: seq<string>, rows: seq<Item>) {
    |rows| == |keys| && forall i :: 0 <= i < |keys| ==> RowOk(groups, keys[i], rows[i])
  }

  lemma {:induction false} KnownKey(groups: seq<Group>, g: Group)
    requires g in groups
    ensures FirstName(groups, KeyOf(g)).Some?
  {
    if groups[|groups| - 1] != g {
      KnownKey(groups[..|groups| - 1], g);
    }
  }

  lemma {:induction false} UnseenKey(groups: seq<Group>, key: string)
    requires forall g :: g in groups ==> KeyOf(g) != key
    ensures HitsOf(groups, key) == 0 && CompletesOf(groups, key) == 0 && FirstName(groups, key).None?
  {
    if groups != [] {
      assert groups[|groups| - 1] in groups && forall g :: g in groups[..|groups| - 1] ==> g in groups;
      UnseenKey(groups[..|groups| - 1], key);
    }
  }

  /** The dictionary index of the merged rows, by key. */
  ghost predicate Indexes(index: map<string, nat>, keys: seq<string>) {
    Distinct(keys) && (forall key :: key in index <==> key in keys) &&
    forall key :: key in index ==> index[key] < |keys| && keys[index[key]] == key
  }

  ghost predicate KeysOf(groups: seq<Group>, keys: seq<string>) {
    (forall g :: g in groups ==> KeyOf(g) in keys) &&
    forall key :: key in keys ==> exists g :: g in groups && KeyOf(g) == key
  }

  lemma ListedKey(groups: seq<Group>, keys: seq<string>, key: string)
    requires KeysOf(groups, keys) && key in keys
    ensures FirstName(groups, key).Some?
  {
    var g :| g in groups && KeyOf(g) == key;
    KnownKey(groups, g);
  }

  lemma KeysOneMore(groups: seq<Group>, keys: seq<string>, g: Group)
    requires KeysOf(groups, keys)
    ensures KeyOf(g) in keys ==> KeysOf(groups + [g], keys)
    ensures KeysOf(groups + [g], keys + [KeyOf(g)])
  {
  }

  /** `item` is a client's row with one more group added. */
  ghost predicate Adds(groups: seq<Group>, row: Item, g: Group, item: Item) {
    item.hits == row.hits + g.hits && item.completes == row.completes + g.completes && item.name == row.name &&
    (FirstName(groups, KeyOf(g)).None? ==> item.name == NameOf(g))
  }

  lemma RowsOneMore(groups: seq<Group>, keys: seq<string>, rows: seq<Item>, g: Group, i: nat, item: Item)
    requires RowsOk(groups, keys, rows) && Distinct(keys) && i < |keys| && keys[i] == KeyOf(g)
    requires Adds(groups, rows[i], g, item)
    ensures RowsOk(groups + [g], keys, rows[i := item])
  {
  }

  ghost predicate TotalsOk(groups: seq<Group>, rows: seq<Item>) {
    Hits(rows) == GroupHits(groups) && Completes(rows) == GroupCompletes(groups)
  }

  /** The dictionary after these groups. */
  ghost predicate MergedSoFar(groups: seq<Group>, keys: seq<string>, rows: seq<Item>, index: map<string, nat>) {
    Indexes(index, keys) && KeysOf(groups, keys) && RowsOk(groups, keys, rows) && TotalsOk(groups, rows)
  }

  lemma NothingMerged(groups: seq<Group>)
    ensures MergedSoFar(groups[..0], [], [], map[])
  {
  }

  /** `setdefault` for a client not seen before adds an empty row. */
  lemma AddEmptyRow(groups: seq<Group>, keys: seq<string>, rows: seq<Item>, index: map<string, nat>, key: string,
                    name: string)
    requires MergedSoFar(groups, keys, rows, index) && key !in index
    ensures Indexes(index[key := |rows|], keys + [key])
    ensures RowsOk(groups, keys + [key], rows + [Item(name, 0, 0)]) && TotalsOk(groups, rows + [Item(name, 0, 0)])
  {
    UnseenKey(groups, key);
    var more := rows + [Item(name, 0, 0)];
    forall i | 0 <= i <= |rows| ensures RowOk(groups, (keys + [key])[i], more[i]) {
      if i < |rows| {
        assert RowOk(groups, keys[i], rows[i]);
      }
    }
    SplitTotals(rows, [Item(name, 0, 0)]);
    OneTotal(Item(name, 0, 0));
  }

  /** The two additions to a client's row. */
  lemma AddToRow(groups: seq<Group>, keys: seq<string>, rows: seq<Item>, g: Group, i: nat, item: Item)
    requires RowsOk(groups, keys, rows) && TotalsOk(groups, rows) && Distinct(keys) && i < |keys| && keys[i] == KeyOf(g)
    requires Adds(groups, rows[i], g, item)
    ensures RowsOk(groups + [g], keys, rows[i := item]) && TotalsOk(groups + [g], rows[i := item])
  {
    assert (groups + [g])[..|groups|] == groups;
    RowsOneMore(groups, keys, rows, g, i, item);
    ReplaceTotals(rows, i, item);
  }

  /** One grouped row added to the dictionary. */
  method MergeOne(ghost groups: seq<Group>, keys: seq<string>, rows: seq<Item>, index: map<string, nat>, g: Group)
    returns (keys': seq<string>, rows': seq<Item>, index': map<string, nat>)
    requires MergedSoFar(groups, keys, rows, index)
    ensures MergedSoFar(groups + [g], keys', rows', index')
  {
    var key := KeyOf(g);
    KeysOneMore(groups, keys, g);
    keys', rows', index' := keys, rows, index;
    if key !in index {
      AddEmptyRow(groups, keys, rows, index, key, NameOf(g));
      keys', rows', index' := keys + [key], rows + [Item(NameOf(g), 0, 0)], index[key := |rows|];
    }
    var i := index'[key];
    if key in index {
      ListedKey(groups, keys, key);
    }
    var item := rows'[i].(hits := rows'[i].hits + g.hits, completes := rows'[i].completes + g.completes);
    AddToRow(groups, keys', rows', g, i, item);
    rows' := rows'[i := item];
  }

  /** The accumulation loop over a dictionary; `keys` and `rows` are its items
      in insertion order.  Each client has one row with its own totals. */
  method MergeClients(groups: seq<Group>) returns (keys: seq<string>, rows: seq<Item>)
    ensures Distinct(keys) && KeysOf(groups, keys) && RowsOk(groups, keys, rows) && TotalsOk(groups, rows)
  {
    var index: map<string, nat> := map[];
    keys, rows := [], [];
    NothingMerged(groups);
    for n := 0 to |groups|
      invariant MergedSoFar(groups[..n], keys, rows, index)
    {
      keys, rows, index := MergeOne(groups[..n], keys, rows, index, groups[n]);
      TakeNext(groups, n);
    }
    TakeAll(groups);
  }

  lemma InsertTotals(front: seq<Item>, item: Item, back: seq<Item>)
    ensures Hits(front + [item] + back) == Hits(front + back) + item.hits
    ensures Completes(front + [item] + back) == Completes(front + back) + item.completes
  {
    SplitTotals(front, back);
    SplitTotals(front, [item]);
    SplitTotals(front + [item], back);
    OneTotal(item);
  }

  lemma RankedParts(front: seq<Item>, back: seq<Item>)
    requires Ranked(front + back)
    ensures Ranked(front) && Ranked(back)
    ensures forall i, j :: 0 <= i < |front| && 0 <= j < |back| ==> front[i].completes >= back[j].completes
  {
    var all := front + back;
    assert forall i :: 0 <= i < |front| ==> all[i] == front[i];
    assert forall j :: 0 <= j < |back| ==> all[|front| + j] == back[j];
  }

  lemma RankedJoin(front: seq<Item>, back: seq<Item>)
    requires Ranked(front) && Ranked(back)
    requires forall i, j :: 0 <= i < |front| && 0 <= j < |back| ==> front[i].completes >= back[j].completes
    ensures Ranked(front + back)
  {
  }

  lemma InsertRanked(front: seq<Item>, item: Item, back: seq<Item>)
    requires Ranked(front + back)
    requires forall i :: 0 <= i < |front| ==> front[i].completes >= item.completes
    requires back != [] ==> item.completes > back[0].completes
    ensures Ranked(front + [item] + back)
  {
    RankedParts(front, back);
    RankedJoin(front, [item]);
    RankedJoin(front + [item], back);
  }

  /** `more` is `rows` with one more item, at some place. */
  ghost predicate Inserts(rows: seq<Item>, item: Item, more: seq<Item>) {
    |more| == |rows| + 1 && multiset(more) == multiset(rows) + multiset{item}
  }

  lemma InsertCounts(front: seq<Item>, item: Item, back: seq<Item>)
    ensures Inserts(front + back, item, front + [item] + back)
  {
  }

  method Place(ranked: seq<Item>, item: Item) returns (more: seq<Item>)
    requires Ranked(ranked)
    ensures Ranked(more) && Inserts(ranked, item, more)
    ensures Hits(more) == Hits(ranked) + item.hits && Completes(more) == Completes(ranked) + item.completes
  {
    var at := 0;
    while at < |ranked| && ranked[at].completes >= item.completes
      invariant at <= |ranked| && forall i :: 0 <= i < at ==> ranked[i].completes >= item.completes
    {
      at := at + 1;
    }
    assert ranked == ranked[..at] + ranked[at..];
    InsertTotals(ranked[..at], item, ranked[at..]);
    InsertRanked(ranked[..at], item, ranked[at..]);
    InsertCounts(ranked[..at], item, ranked[at..]);
    more := ranked[..at] + [item] + ranked[at..];
  }

  lemma OneMoreRow(rows: seq<Item>, n: nat)
    requires n < |rows|
    ensures Inserts(rows[..n], rows[n], rows[..n + 1])
    ensures Hits(rows[..n + 1]) == Hits(rows[..n]) + rows[n].hits
    ensures Completes(rows[..n + 1]) == Completes(rows[..n]) + rows[n].completes
  {
    assert rows[..n + 1] == rows[..n] + [rows[n]];
    assert rows[..n + 1][..n] == rows[..n];
  }

  /** Stands for the built-in sort by falling completes. */
  method Rank(rows: seq<Item>) returns (ranked: seq<Item>)
    ensures Ranked(ranked) && multiset(ranked) == multiset(rows) && |ranked| == |rows|
    ensures Hits(ranked) == Hits(rows) && Completes(ranked) == Completes(rows)
  {
    ranked := [];
    for n := 0 to |rows|
      invariant Ranked(ranked) && |ranked| == n
      invariant multiset(ranked) == multiset(rows[..n])
      invariant Hits(ranked) == Hits(rows[..n]) && Completes(ranked) == Completes(rows[..n])
    {
      OneMoreRow(rows, n);
      ranked := Place(ranked, rows[n]);
    }
    TakeAll(rows);
  }

  lemma SplitMultiset(rows: seq<Item>, n: nat)
    requires n <= |rows|
    ensures multiset(rows[..n]) + multiset(rows[n..]) == multiset(rows)
  {
    assert rows == rows[..n] + rows[n..];
  }

  /** Rows of the distinct clients of `groups`, one each. */
  ghost predicate ClientRows(groups: seq<Group>, keys: seq<string>, rows: seq<Item>) {
    Distinct(keys) && KeysOf(groups, keys) && RowsOk(groups, keys, rows)
  }

  /** `_client_distribution`: every client is shown with its own totals or
      folded into "Other clients", no hit and no complete is lost on the way,
      there are never more than eight slices, and nobody folded has more
      completes than anybody shown. */
  method ClientDistribution(groups: seq<Group>)
    returns (shown: seq<Item>, ghost folded: seq<Item>, ghost keys: seq<string>, ghost rows: seq<Item>)
    ensures ClientRows(groups, keys, rows)
    ensures folded == [] <==> |rows| <= 8
    ensures Hits(shown) == GroupHits(groups) && Completes(shown) == GroupCompletes(groups)
    ensures |shown| <= 8
    ensures folded != [] ==>
      |shown| == 8 && |folded| >= 2 && Ranked(shown[..7] + folded) &&
      multiset(shown[..7]) + multiset(folded) == multiset(rows) &&
      shown[7] == Item("Other clients", Hits(folded), Completes(folded))
    ensures folded == [] ==> Ranked(shown) && multiset(shown) == multiset(rows)
  {
    var clients, merged := MergeClients(groups);
    keys, rows := clients, merged;
    shown := Rank(merged);
    folded := [];
    if |shown| > SHOWN + 1 {
      folded := shown[SHOWN..];
      SplitMultiset(shown, SHOWN);
      assert shown == shown[..SHOWN] + shown[SHOWN..];
      var other := Item("Other clients", Hits(shown[SHOWN..]), Completes(shown[SHOWN..]));
      SplitTotals(shown[..SHOWN], shown[SHOWN..]);
      SplitTotals(shown[..SHOWN], [other]);
      OneTotal(other);
      assert (shown[..SHOWN] + [other])[..SHOWN] == shown[..SHOWN];
      shown := shown[..SHOWN] + [other];
    }
  }
}
