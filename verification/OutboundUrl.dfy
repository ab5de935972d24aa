/** `build_outbound_url` (surveys/survey_flow.py) on parsed query pairs:
    identifiers are replaced, profile answers are put last, and rewriting a
    rewritten link changes nothing. */
module OutboundUrl {
  import opened Counting

  datatype Pair = Pair(key: string, value: string)

  /** An answer with its question key and upstream values, already stripped. */
  datatype Answer = Answer(key: string, values: seq<string>)

  /** Case folding; only what it does to the two keys the code itself writes
      matters. */
  type Fold = string -> string

  ghost predicate FoldOk(fold: Fold) {
    fold("PID") == "pid" && fold("trackId") == "trackid"
  }

  predicate Reserved(fold: Fold, key: string) {
    fold(key) in {"pid", "trackid", "survnum", "supcode"}
  }

  // ---- Profile pairs ----

  predicate Usable(fold: Fold, key: string, value: string) {
    key != "" && !Reserved(fold, key) && value != ""
  }

  function AddValues(fold: Fold, pairs: seq<Pair>, key: string, values: seq<string>): seq<Pair> {
    if values == [] then pairs
    else
      var earlier := AddValues(fold, pairs, key, values[..|values| - 1]);
      var pair := Pair(key, values[|values| - 1]);
      if !Usable(fold, key, pair.value) || pair in earlier then earlier else earlier + [pair]
  }

  function ProfilePairs(fold: Fold, answers: seq<Answer>): seq<Pair> {
    if answers == [] then []
    else
      var last := answers[|answers| - 1];
      AddValues(fold, ProfilePairs(fold, answers[..|answers| - 1]), last.key, last.values)
  }

  ghost predicate GivenBy(answers: seq<Answer>, p: Pair) {
    exists i :: 0 <= i < |answers| && answers[i].key == p.key && p.value in answers[i].values
  }

  lemma {:induction false} AddValuesOk(fold: Fold, pairs: seq<Pair>, key: string, values: seq<string>)
    requires Distinct(pairs)
    ensures Distinct(AddValues(fold, pairs, key, values))
    ensures forall p :: p in AddValues(fold, pairs, key, values) <==>
      p in pairs || (p.key == key && p.value in values && Usable(fold, p.key, p.value))
  {
    if values != [] {
      AddValuesOk(fold, pairs, key, values[..|values| - 1]);
      assert forall v :: v in values <==> v in values[..|values| - 1] || v == values[|values| - 1];
    }
  }

  lemma GivenByNext(answers: seq<Answer>, p: Pair)
    requires answers != []
    ensures var earlier, last := answers[..|answers| - 1], answers[|answers| - 1];
            GivenBy(answers, p) <==> GivenBy(earlier, p) || (last.key == p.key && p.value in last.values)
  {
    var earlier := answers[..|answers| - 1];
    if GivenBy(earlier, p) {
      var i :| 0 <= i < |earlier| && earlier[i].key == p.key && p.value in earlier[i].values;
      assert answers[i] == earlier[i];
    }
  }

  lemma AddValuesGrows(fold: Fold, pairs: seq<Pair>, key: string, values: seq<string>)
    ensures pairs <= AddValues(fold, pairs, key, values)
  {
  }

  lemma {:induction false} ProfilePairsGrow(fold: Fold, answers: seq<Answer>, n: nat)
    requires n <= |answers|
    ensures ProfilePairs(fold, answers[..n]) <= ProfilePairs(fold, answers)
  {
    var m := |answers| - 1;
    if n <= m {
      ProfilePairsGrow(fold, answers[..m], n);
      assert answers[..m][..n] == answers[..n];
      AddValuesGrows(fold, ProfilePairs(fold, answers[..m]), answers[m].key, answers[m].values);
    } else {
      TakeAll(answers);
    }
  }

  /** Each pair of a question and one of its values once, and nothing else: no
      empty key or value and no routing identifier.  Later answers add behind
      the earlier ones. */
  lemma {:induction false} ProfilePairsOk(fold: Fold, answers: seq<Answer>)
    ensures Distinct(ProfilePairs(fold, answers))
    ensures forall p :: p in ProfilePairs(fold, answers) <==>
      p.key != "" && p.value != "" && fold(p.key) != "pid" && fold(p.key) != "trackid" &&
      fold(p.key) != "survnum" && fold(p.key) != "supcode" && GivenBy(answers, p)
    ensures forall n :: 0 <= n <= |answers| ==> ProfilePairs(fold, answers[..n]) <= ProfilePairs(fold, answers)
  {
    if answers != [] {
      var earlier, last := answers[..|answers| - 1], answers[|answers| - 1];
      ProfilePairsOk(fold, earlier);
      AddValuesOk(fold, ProfilePairs(fold, earlier), last.key, last.values);
      forall p {
        GivenByNext(answers, p);
      }
    }
    forall n | 0 <= n <= |answers| {
      ProfilePairsGrow(fold, answers, n);
    }
  }

  function ProfileKeys(fold: Fold, pairs: seq<Pair>): set<string> {
    set p | p in pairs :: fold(p.key)
  }

  // ---- The rewritten query ----

  function Kept(fold: Fold, query: seq<Pair>, rid: string, profile: set<string>): seq<Pair> {
    if query == [] then []
    else
      var earlier, p := Kept(fold, query[..|query| - 1], rid, profile), query[|query| - 1];
      if fold(p.key) == "pid" then earlier + [Pair(p.key, rid)]
      else if fold(p.key) != "trackid" && fold(p.key) !in profile then earlier + [p]
      else earlier
  }

  predicate HasPid(fold: Fold, query: seq<Pair>) {
    exists i :: 0 <= i < |query| && fold(query[i].key) == "pid"
  }

  function Rewrite(fold: Fold, query: seq<Pair>, rid: string, pairs: seq<Pair>): seq<Pair> {
    Kept(fold, query, rid, ProfileKeys(fold, pairs)) + (if HasPid(fold, query) then [] else [Pair("PID", rid)])
      + [Pair("trackId", rid)] + pairs
  }

  lemma {:induction false} NothingUsable(fold: Fold, pairs: seq<Pair>, key: string, values: seq<string>)
    requires key == "" || Reserved(fold, key)
    ensures AddValues(fold, pairs, key, values) == pairs
  {
    if values != [] {
      NothingUsable(fold, pairs, key, values[..|values| - 1]);
    }
  }

  /** The loop over one answer's upstream values. */
  method CollectValues(fold: Fold, pairs: seq<Pair>, keys: set<string>, answer: Answer)
    returns (pairs': seq<Pair>, keys': set<string>)
    requires keys == ProfileKeys(fold, pairs)
    ensures pairs' == AddValues(fold, pairs, answer.key, answer.values) && keys' == ProfileKeys(fold, pairs')
  {
    pairs', keys' := pairs, keys;
    if answer.key == "" || Reserved(fold, answer.key) {
      NothingUsable(fold, pairs, answer.key, answer.values);
      return;
    }
    for v := 0 to |answer.values|
      invariant pairs' == AddValues(fold, pairs, answer.key, answer.values[..v]) && keys' == ProfileKeys(fold, pairs')
    {
      var pair := Pair(answer.key, answer.values[v]);
      assert answer.values[..v + 1][..v] == answer.values[..v];
      if pair.value == "" || pair in pairs' {
        continue;
      }
      pairs' := pairs' + [pair];
      keys' := keys' + {fold(answer.key)};
    }
    assert answer.values[..|answer.values|] == answer.values;
  }

  lemma PidLast(fold: Fold, query: seq<Pair>, p: Pair)
    ensures HasPid(fold, query + [p]) <==> HasPid(fold, query) || fold(p.key) == "pid"
  {
    if HasPid(fold, query) {
      var i :| 0 <= i < |query| && fold(query[i].key) == "pid";
      assert (query + [p])[i] == query[i];
    }
    assert (query + [p])[|query|] == p;
  }

  /** The loop over the link's own pairs. */
  method KeepPairs(fold: Fold, query: seq<Pair>, rid: string, keys: set<string>)
    returns (outbound: seq<Pair>, hasPid: bool)
    ensures outbound == Kept(fold, query, rid, keys) && hasPid == HasPid(fold, query)
  {
    outbound, hasPid := [], false;
    for q := 0 to |query|
      invariant outbound == Kept(fold, query[..q], rid, keys) && hasPid == HasPid(fold, query[..q])
    {
      assert query[..q + 1] == query[..q] + [query[q]] && query[..q + 1][..q] == query[..q];
      PidLast(fold, query[..q], query[q]);
      var lowered := fold(query[q].key);
      if lowered == "pid" {
        outbound := outbound + [Pair(query[q].key, rid)];
        hasPid := true;
      } else if lowered != "trackid" && lowered !in keys {
        outbound := outbound + [query[q]];
      }
    }
    assert query[..|query|] == query;
  }

  /** The loops as written. */
  method BuildOutboundQuery(fold: Fold, query: seq<Pair>, rid: string, answers: seq<Answer>)
    returns (outbound: seq<Pair>)
    ensures outbound == Rewrite(fold, query, rid, ProfilePairs(fold, answers))
  {
    var pairs: seq<Pair>, keys: set<string> := [], {};
    for a := 0 to |answers|
      invariant pairs == ProfilePairs(fold, answers[..a]) && keys == ProfileKeys(fold, pairs)
    {
      assert answers[..a + 1][..a] == answers[..a];
      pairs, keys := CollectValues(fold, pairs, keys, answers[a]);
    }
    assert answers[..|answers|] == answers;
    var hasPid;
    outbound, hasPid := KeepPairs(fold, query, rid, keys);
    if !hasPid {
      outbound := outbound + [Pair("PID", rid)];
    }
    outbound := outbound + [Pair("trackId", rid)];
    outbound := outbound + pairs;
  }

  // ---- What the link then says ----

  lemma {:induction false} KeptConcat(fold: Fold, a: seq<Pair>, b: seq<Pair>, rid: string, profile: set<string>)
    ensures Kept(fold, a + b, rid, profile) == Kept(fold, a, rid, profile) + Kept(fold, b, rid, profile)
  {
    if b == [] {
      assert a + b == a;
    } else {
      assert (a + b)[..|a + b| - 1] == a + b[..|b| - 1];
      KeptConcat(fold, a, b[..|b| - 1], rid, profile);
    }
  }

  lemma {:induction false} KeptTwice(fold: Fold, query: seq<Pair>, rid: string, profile: set<string>)
    ensures Kept(fold, Kept(fold, query, rid, profile), rid, profile) == Kept(fold, query, rid, profile)
  {
    if query != [] {
      var earlier, p := query[..|query| - 1], query[|query| - 1];
      KeptTwice(fold, earlier, rid, profile);
      var kept, all := Kept(fold, earlier, rid, profile), Kept(fold, query, rid, profile);
      if all != kept {
        assert all[..|all| - 1] == kept;
      }
    }
  }

  lemma {:induction false} ProfileDropped(fold: Fold, pairs: seq<Pair>, rid: string, profile: set<string>)
    requires forall p :: p in pairs ==> fold(p.key) in profile && fold(p.key) != "pid"
    ensures Kept(fold, pairs, rid, profile) == []
  {
    if pairs != [] {
      assert pairs[|pairs| - 1] in pairs && forall p :: p in pairs[..|pairs| - 1] ==> p in pairs;
      ProfileDropped(fold, pairs[..|pairs| - 1], rid, profile);
    }
  }

  lemma {:induction false} KeptHasPid(fold: Fold, query: seq<Pair>, rid: string, profile: set<string>)
    ensures HasPid(fold, Kept(fold, query, rid, profile)) <==> HasPid(fold, query)
  {
    if query != [] {
      var earlier, p := query[..|query| - 1], query[|query| - 1];
      KeptHasPid(fold, earlier, rid, profile);
      PidLast(fold, earlier, p);
      assert query == earlier + [p];
      PidLast(fold, Kept(fold, earlier, rid, profile), if fold(p.key) == "pid" then Pair(p.key, rid) else p);
    }
  }

  ghost predicate ProfileOk(fold: Fold, pairs: seq<Pair>) {
    Distinct(pairs) && forall p :: p in pairs ==> !Reserved(fold, p.key)
  }

  lemma RewriteHasPid(fold: Fold, query: seq<Pair>, rid: string, pairs: seq<Pair>)
    requires FoldOk(fold)
    ensures HasPid(fold, Rewrite(fold, query, rid, pairs))
  {
    var kept := Kept(fold, query, rid, ProfileKeys(fold, pairs));
    KeptHasPid(fold, query, rid, ProfileKeys(fold, pairs));
    if HasPid(fold, query) {
      var i :| 0 <= i < |kept| && fold(kept[i].key) == "pid";
      assert Rewrite(fold, query, rid, pairs)[i] == kept[i];
    } else {
      assert Rewrite(fold, query, rid, pairs)[|kept|] == Pair("PID", rid);
    }
  }

  /** Rewriting an already rewritten link leaves it as it is. */
  lemma RewriteIdempotent(fold: Fold, query: seq<Pair>, rid: string, pairs: seq<Pair>)
    requires FoldOk(fold) && ProfileOk(fold, pairs)
    ensures Rewrite(fold, Rewrite(fold, query, rid, pairs), rid, pairs) == Rewrite(fold, query, rid, pairs)
  {
    var profile := ProfileKeys(fold, pairs);
    var kept := Kept(fold, query, rid, profile);
    var pid := if HasPid(fold, query) then [] else [Pair("PID", rid)];
    var track := [Pair("trackId", rid)];
    var once := Rewrite(fold, query, rid, pairs);
    assert once == kept + pid + track + pairs;
    KeptConcat(fold, kept + pid + track, pairs, rid, profile);
    KeptConcat(fold, kept + pid, track, rid, profile);
    KeptConcat(fold, kept, pid, rid, profile);
    KeptTwice(fold, query, rid, profile);
    ProfileDropped(fold, pairs, rid, profile);
    KeptHasPid(fold, query, rid, profile);
    assert Kept(fold, pid, rid, profile) == pid by {
      if pid != [] { assert pid[..0] == []; }
    }
    assert Kept(fold, track, rid, profile) == [] by { assert track[..0] == []; }
    RewriteHasPid(fold, query, rid, pairs);
  }

  function Tracks(fold: Fold): Pair -> bool { (p: Pair) => fold(p.key) == "trackid" }

  lemma {:induction false} KeptOk(fold: Fold, query: seq<Pair>, rid: string, profile: set<string>)
    ensures CountIf(Kept(fold, query, rid, profile), Tracks(fold)) == 0
    ensures forall p :: p in Kept(fold, query, rid, profile) && fold(p.key) == "pid" ==> p.value == rid
    ensures forall p :: p in Kept(fold, query, rid, profile) && fold(p.key) != "pid" ==>
      p in query && fold(p.key) !in profile
  {
    if query != [] {
      var earlier, p := query[..|query| - 1], query[|query| - 1];
      KeptOk(fold, earlier, rid, profile);
      assert forall x :: x in query <==> x in earlier || x == p;
      var kept := Kept(fold, earlier, rid, profile);
      CountAppend(kept, if fold(p.key) == "pid" then Pair(p.key, rid) else p, Tracks(fold));
    }
  }

  lemma {:induction false} NoneCounts(front: seq<Pair>, pairs: seq<Pair>, q: Pair -> bool)
    requires forall p :: p in pairs ==> !q(p)
    ensures CountIf(front + pairs, q) == CountIf(front, q)
  {
    if pairs == [] {
      assert front + pairs == front;
    } else {
      var n := |pairs| - 1;
      assert pairs[n] in pairs && forall p :: p in pairs[..n] ==> p in pairs;
      NoneCounts(front, pairs[..n], q);
      CountAppend(front + pairs[..n], pairs[n], q);
      assert front + pairs == front + pairs[..n] + [pairs[n]];
    }
  }

  /** Exactly one trackId, the RID, right before the profile pairs at the end. */
  lemma OneTrackId(fold: Fold, query: seq<Pair>, rid: string, pairs: seq<Pair>)
    requires FoldOk(fold) && ProfileOk(fold, pairs)
    ensures CountIf(Rewrite(fold, query, rid, pairs), Tracks(fold)) == 1
    ensures var link := Rewrite(fold, query, rid, pairs);
            |link| > |pairs| && link[|link| - |pairs|..] == pairs && link[|link| - |pairs| - 1] == Pair("trackId", rid)
  {
    var kept := Kept(fold, query, rid, ProfileKeys(fold, pairs));
    KeptOk(fold, query, rid, ProfileKeys(fold, pairs));
    var pid := if HasPid(fold, query) then [] else [Pair("PID", rid)];
    NoneCounts(kept, pid, Tracks(fold));
    CountAppend(kept + pid, Pair("trackId", rid), Tracks(fold));
    NoneCounts(kept + pid + [Pair("trackId", rid)], pairs, Tracks(fold));
    assert (kept + pid + [Pair("trackId", rid)] + pairs)[|kept + pid|] == Pair("trackId", rid);
  }

  /** Every pid parameter is the RID, whatever its spelling, and there is one. */
  lemma PidsAreRid(fold: Fold, query: seq<Pair>, rid: string, pairs: seq<Pair>, p: Pair)
    requires FoldOk(fold) && ProfileOk(fold, pairs)
    ensures HasPid(fold, Rewrite(fold, query, rid, pairs))
    ensures p in Rewrite(fold, query, rid, pairs) && fold(p.key) == "pid" ==> p.value == rid
  {
    RewriteHasPid(fold, query, rid, pairs);
    KeptOk(fold, query, rid, ProfileKeys(fold, pairs));
  }

  function Is(p: Pair): Pair -> bool { (q: Pair) => q == p }

  lemma {:induction false} DistinctCount(pairs: seq<Pair>, p: Pair)
    requires Distinct(pairs) && p in pairs
    ensures CountIf(pairs, Is(p)) == 1
  {
    var n := |pairs| - 1;
    if pairs[n] == p {
      CountNone(pairs[..n], Is(p));
    } else {
      DistinctCount(pairs[..n], p);
    }
  }

  lemma {:induction false} CountAfter(front: seq<Pair>, pairs: seq<Pair>, q: Pair -> bool)
    requires forall i :: 0 <= i < |front| ==> !q(front[i])
    ensures CountIf(front + pairs, q) == CountIf(pairs, q)
  {
    if pairs == [] {
      assert front + pairs == front;
      CountNone(front, q);
    } else {
      var n := |pairs| - 1;
      assert (front + pairs)[..|front + pairs| - 1] == front + pairs[..n];
      CountAfter(front, pairs[..n], q);
    }
  }

  /** Each answered pair appears once, and stale ones with its key are gone. */
  lemma ProfileOnce(fold: Fold, query: seq<Pair>, rid: string, pairs: seq<Pair>, p: Pair)
    requires FoldOk(fold) && ProfileOk(fold, pairs) && p in pairs
    ensures CountIf(Rewrite(fold, query, rid, pairs), Is(p)) == 1
    ensures forall q :: q in Rewrite(fold, query, rid, pairs) && fold(q.key) == fold(p.key) ==> q in pairs
  {
    var profile := ProfileKeys(fold, pairs);
    var kept := Kept(fold, query, rid, profile);
    KeptOk(fold, query, rid, profile);
    var front := kept + (if HasPid(fold, query) then [] else [Pair("PID", rid)]) + [Pair("trackId", rid)];
    forall i | 0 <= i < |front| ensures !Is(p)(front[i]) && fold(front[i].key) != fold(p.key) {
      assert i < |kept| ==> front[i] in kept;
    }
    CountAfter(front, pairs, Is(p));
    DistinctCount(pairs, p);
    assert Rewrite(fold, query, rid, pairs) == front + pairs;
  }

  /** Pairs that are neither identifiers nor answered profile questions. */
  function Untouched(fold: Fold, query: seq<Pair>, profile: set<string>): seq<Pair> {
    if query == [] then []
    else
      var earlier, p := Untouched(fold, query[..|query| - 1], profile), query[|query| - 1];
      if fold(p.key) in {"pid", "trackid"} || fold(p.key) in profile then earlier else earlier + [p]
  }

  /** The spellings of all keys that the link keeps, those of the pid included. */
  function KeptKeys(fold: Fold, query: seq<Pair>, profile: set<string>): seq<string> {
    if query == [] then []
    else
      var earlier, key := KeptKeys(fold, query[..|query| - 1], profile), query[|query| - 1].key;
      if fold(key) == "trackid" || fold(key) in profile then earlier else earlier + [key]
  }

  lemma {:induction false} KeysKept(fold: Fold, query: seq<Pair>, rid: string, profile: set<string>)
    requires "pid" !in profile
    ensures KeptKeys(fold, Kept(fold, query, rid, profile), profile) == KeptKeys(fold, query, profile)
  {
    if query != [] {
      var earlier, p := query[..|query| - 1], query[|query| - 1];
      KeysKept(fold, earlier, rid, profile);
      var kept, all := Kept(fold, earlier, rid, profile), Kept(fold, query, rid, profile);
      if all != kept {
        assert all[..|all| - 1] == kept;
      }
    }
  }

  lemma {:induction false} KeysConcat(fold: Fold, a: seq<Pair>, b: seq<Pair>, profile: set<string>)
    ensures KeptKeys(fold, a + b, profile) == KeptKeys(fold, a, profile) + KeptKeys(fold, b, profile)
  {
    if b == [] {
      assert a + b == a;
    } else {
      var n := |b| - 1;
      assert (a + b)[..|a + b| - 1] == a + b[..n];
      KeysConcat(fold, a, b[..n], profile);
    }
  }

  lemma {:induction false} NoKeys(fold: Fold, pairs: seq<Pair>, profile: set<string>)
    requires forall p :: p in pairs ==> fold(p.key) in profile
    ensures KeptKeys(fold, pairs, profile) == []
  {
    if pairs != [] {
      var n := |pairs| - 1;
      assert pairs[n] in pairs && forall p :: p in pairs[..n] ==> p in pairs;
      NoKeys(fold, pairs[..n], profile);
    }
  }

  /** The link keeps the spelling and order of every key but those of trackId
      and of the answered questions; only a missing pid is added. */
  lemma KeysKeepOrder(fold: Fold, query: seq<Pair>, rid: string, pairs: seq<Pair>)
    requires FoldOk(fold) && ProfileOk(fold, pairs)
    ensures var profile := ProfileKeys(fold, pairs);
            KeptKeys(fold, Rewrite(fold, query, rid, pairs), profile) == KeptKeys(fold, query, profile) +
              if exists p :: p in query && fold(p.key) == "pid" then [] else ["PID"]
  {
    var profile := ProfileKeys(fold, pairs);
    var kept := Kept(fold, query, rid, profile);
    var pid := if HasPid(fold, query) then [] else [Pair("PID", rid)];
    var track := [Pair("trackId", rid)];
    KeysKept(fold, query, rid, profile);
    KeysConcat(fold, kept + pid + track, pairs, profile);
    KeysConcat(fold, kept + pid, track, profile);
    KeysConcat(fold, kept, pid, profile);
    NoKeys(fold, pairs, profile);
    assert pid[..0] == [] && track[..0] == [];
    assert HasPid(fold, query) <==> exists p :: p in query && fold(p.key) == "pid";
  }

  lemma {:induction false} UntouchedKept(fold: Fold, query: seq<Pair>, rid: string, profile: set<string>)
    requires "pid" !in profile
    ensures Untouched(fold, Kept(fold, query, rid, profile), profile) == Untouched(fold, query, profile)
  {
    if query != [] {
      var earlier, p := query[..|query| - 1], query[|query| - 1];
      UntouchedKept(fold, earlier, rid, profile);
      var kept, all := Kept(fold, earlier, rid, profile), Kept(fold, query, rid, profile);
      if all != kept {
        assert all[..|all| - 1] == kept;
      }
    }
  }

  lemma {:induction false} UntouchedConcat(fold: Fold, a: seq<Pair>, b: seq<Pair>, profile: set<string>)
    requires forall p :: p in b ==> fold(p.key) in {"pid", "trackid"} || fold(p.key) in profile
    ensures Untouched(fold, a + b, profile) == Untouched(fold, a, profile)
  {
    if b == [] {
      assert a + b == a;
    } else {
      var n := |b| - 1;
      assert b[n] in b && forall p :: p in b[..n] ==> p in b;
      assert (a + b)[..|a + b| - 1] == a + b[..n];
      UntouchedConcat(fold, a, b[..n], profile);
    }
  }

  /** Everything else, survNum and supCode included, keeps value and order. */
  lemma OtherPairsKeepOrder(fold: Fold, query: seq<Pair>, rid: string, pairs: seq<Pair>)
    requires FoldOk(fold) && ProfileOk(fold, pairs)
    ensures var profile := ProfileKeys(fold, pairs);
            Untouched(fold, Rewrite(fold, query, rid, pairs), profile) == Untouched(fold, query, profile)
    ensures "survnum" !in ProfileKeys(fold, pairs) && "supcode" !in ProfileKeys(fold, pairs)
  {
    var profile := ProfileKeys(fold, pairs);
    var kept := Kept(fold, query, rid, profile);
    var rest := (if HasPid(fold, query) then [] else [Pair("PID", rid)]) + [Pair("trackId", rid)] + pairs;
    assert Rewrite(fold, query, rid, pairs) == kept + rest;
    UntouchedConcat(fold, kept, rest, profile);
    UntouchedKept(fold, query, rid, profile);
  }

  /** The answers' pairs meet what the link lemmas ask of them. */
  lemma AnswersGiveProfile(fold: Fold, answers: seq<Answer>)
    ensures ProfileOk(fold, ProfilePairs(fold, answers))
  {
    ProfilePairsOk(fold, answers);
  }
}
