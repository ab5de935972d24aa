/** Final-ID reconciliation (surveys/final_ids.py): reading a client's file,
    applying it to the status table, and the audit that must replay to it. */
module FinalIds {
  import opened Counting

  type Rid = string

  type ClientId = nat

  type Month = nat

  const MAX_UNIQUE_RIDS := 50_000

  // ---- read_uploaded_rids ----

  /** Python's character classes: what `isalnum` accepts and `strip` removes. */
  datatype Script = Script(alnum: char -> bool, blank: char -> bool)

  predicate ValidRid(script: Script, rid: string) {
    |rid| == 10 && forall i :: 0 <= i < |rid| ==> script.alnum(rid[i])
  }

  function StripLeft(script: Script, value: string): string {
    if value != "" && script.blank(value[0]) then StripLeft(script, value[1..]) else value
  }

  function StripRight(script: Script, value: string): string {
    if value != "" && script.blank(value[|value| - 1]) then StripRight(script, value[..|value| - 1]) else value
  }

  /** `_normalise_rid` */
  function Normalised(script: Script, value: string): string {
    var rid := StripRight(script, StripLeft(script, value));
    if |rid| == 11 && rid[0] == '\'' then rid[1..] else rid
  }

  predicate Blank(script: Script, value: string) {
    forall c :: c in value ==> script.blank(c)
  }

  lemma {:induction false} LeftStripped(script: Script, value: string) returns (left: string)
    ensures value == left + StripLeft(script, value) && Blank(script, left)
    ensures StripLeft(script, value) != "" ==> !script.blank(StripLeft(script, value)[0])
  {
    left := "";
    if value != "" && script.blank(value[0]) {
      var rest := LeftStripped(script, value[1..]);
      left := [value[0]] + rest;
    }
  }

  lemma {:induction false} RightStripped(script: Script, value: string) returns (right: string)
    ensures value == StripRight(script, value) + right && Blank(script, right)
    ensures StripRight(script, value) != "" ==>
      !script.blank(StripRight(script, value)[|StripRight(script, value)| - 1])
  {
    right := "";
    if value != "" && script.blank(value[|value| - 1]) {
      var rest := RightStripped(script, value[..|value| - 1]);
      right := rest + [value[|value| - 1]];
    }
  }

  /** What is read of a value: its middle between blank ends, which itself
      neither begins nor ends with a blank, less the apostrophe with which a
      spreadsheet escapes ten characters. */
  lemma NormalisedMiddle(script: Script, value: string) returns (left: string, middle: string, right: string)
    ensures value == left + middle + right && Blank(script, left) && Blank(script, right)
    ensures middle != "" ==> !script.blank(middle[0]) && !script.blank(middle[|middle| - 1])
    ensures |middle| == 11 && middle[0] == '\'' ==> middle == "'" + Normalised(script, value)
    ensures |middle| != 11 || middle[0] != '\'' ==> Normalised(script, value) == middle
    ensures Normalised(script, value) == "" <==> Blank(script, value)
  {
    left := LeftStripped(script, value);
    right := RightStripped(script, StripLeft(script, value));
    middle := StripRight(script, StripLeft(script, value));
    assert value == left + (middle + right) == left + middle + right;
    if middle != "" {
      assert StripLeft(script, value)[0] == middle[0];
      assert middle[0] in value;
    }
  }

  function Given(script: Script): string -> bool { (value: string) => Normalised(script, value) != "" }

  function Invalid(script: Script): string -> bool {
    (value: string) => Normalised(script, value) != "" && !ValidRid(script, Normalised(script, value))
  }

  function AddRid(script: Script, rids: seq<Rid>, rid: string): seq<Rid> {
    if ValidRid(script, rid) && rid !in rids then rids + [rid] else rids
  }

  /** The valid RIDs of the file in order of first appearance. */
  function FirstAppearances(script: Script, values: seq<string>): seq<Rid> {
    if values == [] then []
    else AddRid(script, FirstAppearances(script, values[..|values| - 1]), Normalised(script, values[|values| - 1]))
  }

  ghost predicate Appears(script: Script, values: seq<string>, rid: string) {
    exists i :: 0 <= i < |values| && Normalised(script, values[i]) == rid
  }

  lemma AppearsNext(script: Script, values: seq<string>, rid: string)
    requires values != []
    ensures Appears(script, values, rid) <==>
      Appears(script, values[..|values| - 1], rid) || Normalised(script, values[|values| - 1]) == rid
  {
    if Appears(script, values[..|values| - 1], rid) {
      var i :| 0 <= i < |values| - 1 && Normalised(script, values[..|values| - 1][i]) == rid;
      assert Normalised(script, values[i]) == rid;
    }
  }

  lemma FirstAppearancesNext(script: Script, values: seq<string>, n: nat)
    requires n < |values|
    ensures FirstAppearances(script, values[..n + 1])
         == AddRid(script, FirstAppearances(script, values[..n]), Normalised(script, values[n]))
  {
    assert values[..n + 1][..n] == values[..n];
  }

  lemma {:induction false} FirstAppearancesGrow(script: Script, values: seq<string>, n: nat)
    requires n <= |values|
    ensures FirstAppearances(script, values[..n]) <= FirstAppearances(script, values)
    decreases |values| - n
  {
    if n == |values| {
      TakeAll(values);
    } else {
      FirstAppearancesNext(script, values, n);
      FirstAppearancesGrow(script, values, n + 1);
    }
  }

  /** Ten letters or digits, each once, and none that the file lacks; a longer
      file only adds RIDs behind the others, so they come in order of first
      appearance. */
  lemma {:induction false} FirstAppearancesOk(script: Script, values: seq<string>)
    ensures Distinct(FirstAppearances(script, values))
    ensures forall rid :: rid in FirstAppearances(script, values) <==>
      |rid| == 10 && (forall c :: c in rid ==> script.alnum(c)) && Appears(script, values, rid)
    ensures forall n :: 0 <= n <= |values| ==>
      FirstAppearances(script, values[..n]) <= FirstAppearances(script, values)
  {
    if values != [] {
      FirstAppearancesOk(script, values[..|values| - 1]);
      forall rid
        ensures rid in FirstAppearances(script, values) <==>
          |rid| == 10 && (forall c :: c in rid ==> script.alnum(c)) && Appears(script, values, rid)
      {
        AppearsNext(script, values, rid);
      }
    }
    forall n | 0 <= n <= |values| ensures FirstAppearances(script, values[..n]) <= FirstAppearances(script, values) {
      FirstAppearancesGrow(script, values, n);
    }
  }

  /** The loop's variables after the first `n` values. */
  ghost predicate ReadSoFar(script: Script, values: seq<string>, n: nat, rids: seq<Rid>, submitted: nat, invalid: nat)
    requires n <= |values|
  {
    rids == FirstAppearances(script, values[..n]) &&
    submitted == CountIf(values[..n], Given(script)) && invalid == CountIf(values[..n], Invalid(script))
  }

  lemma ReadNext(script: Script, values: seq<string>, n: nat, rids: seq<Rid>, submitted: nat, invalid: nat)
    requires n < |values| && ReadSoFar(script, values, n, rids, submitted, invalid)
    ensures var rid := Normalised(script, values[n]);
            ReadSoFar(script, values, n + 1, AddRid(script, rids, rid), submitted + (if rid != "" then 1 else 0),
              invalid + (if rid != "" && !ValidRid(script, rid) then 1 else 0))
  {
    FirstAppearancesNext(script, values, n);
    CountNext(values, n, Given(script));
    CountNext(values, n, Invalid(script));
  }

  function BlankValue(script: Script): string -> bool { (value: string) => Blank(script, value) }

  function GivesRid(script: Script): string -> bool {
    (value: string) =>
      |Normalised(script, value)| == 10 && forall c :: c in Normalised(script, value) ==> script.alnum(c)
  }

  lemma {:induction false} FewerThanGiven(script: Script, values: seq<string>)
    ensures |FirstAppearances(script, values)| <= CountIf(values, GivesRid(script))
  {
    if values != [] {
      FewerThanGiven(script, values[..|values| - 1]);
    }
  }

  /** Every value is either blank and not counted, or counted as submitted; a
      submitted one is either counted as invalid or gives a RID. */
  lemma {:induction false} ReadCounts(script: Script, values: seq<string>)
    ensures CountIf(values, Given(script)) + CountIf(values, BlankValue(script)) == |values|
    ensures CountIf(values, Given(script)) == CountIf(values, Invalid(script)) + CountIf(values, GivesRid(script))
  {
    if values != [] {
      var value := values[|values| - 1];
      ReadCounts(script, values[..|values| - 1]);
      var left, middle, right := NormalisedMiddle(script, value);
      assert ValidRid(script, Normalised(script, value)) <==> GivesRid(script)(value);
    }
  }

  datatype ReadResult =
    | TooMany
    | NoneValid(skipped: nat)
    | NoneGiven
    | Read(rids: seq<Rid>, submitted: nat, invalid: nat)

  /** What a file with these RIDs and counts gives. */
  function ResultOf(rids: seq<Rid>, submitted: nat, invalid: nat): ReadResult {
    if |rids| > MAX_UNIQUE_RIDS then TooMany
    else if rids != [] then Read(rids, submitted, invalid)
    else if invalid > 0 then NoneValid(invalid) else NoneGiven
  }

  lemma NothingRead(script: Script, values: seq<string>)
    ensures FirstAppearances(script, values) == [] <==> CountIf(values, GivesRid(script)) == 0
    ensures CountIf(values, BlankValue(script)) == |values| <==>
      forall i :: 0 <= i < |values| ==> Blank(script, values[i])
  {
    AllCounted(values, BlankValue(script));
    FewerThanGiven(script, values);
    if FirstAppearances(script, values) == [] {
      FirstAppearancesOk(script, values);
      forall i | 0 <= i < |values| ensures !GivesRid(script)(values[i]) {
        if GivesRid(script)(values[i]) {
          assert Appears(script, values, Normalised(script, values[i]));
        }
      }
      CountNone(values, GivesRid(script));
    }
  }

  /** The counting loop over the RID column. */
  method ReadUploadedRids(script: Script, values: seq<string>) returns (result: ReadResult)
    ensures result ==
      ResultOf(FirstAppearances(script, values), CountIf(values, Given(script)), CountIf(values, Invalid(script)))
    ensures result.TooMany? <==> |FirstAppearances(script, values)| > 50_000
    ensures result.Read? ==>
      result.rids != [] && result.submitted == |values| - CountIf(values, BlankValue(script)) &&
      result.submitted == result.invalid + CountIf(values, GivesRid(script))
    ensures result.NoneValid? ==> result.skipped > 0 && result.skipped == |values| - CountIf(values, BlankValue(script))
    ensures result.NoneGiven? <==> forall i :: 0 <= i < |values| ==> Blank(script, values[i])
  {
    ReadCounts(script, values);
    NothingRead(script, values);
    var submitted, invalid := 0, 0;
    var rids: seq<Rid>, seen: set<Rid> := [], {};
    for n := 0 to |values|
      invariant ReadSoFar(script, values, n, rids, submitted, invalid) && |rids| <= MAX_UNIQUE_RIDS
      invariant forall rid :: rid in seen <==> rid in rids
    {
      ReadNext(script, values, n, rids, submitted, invalid);
      var rid := Normalised(script, values[n]);
      if rid == "" {
        continue;
      }
      submitted := submitted + 1;
      if !ValidRid(script, rid) {
        invalid := invalid + 1;
        continue;
      }
      if rid !in seen {
        seen := seen + {rid};
        rids := rids + [rid];
      }
      if |rids| > MAX_UNIQUE_RIDS {
        FirstAppearancesGrow(script, values, n + 1);
        return TooMany;
      }
    }
    TakeAll(values);
    if rids == [] {
      return if invalid > 0 then NoneValid(invalid) else NoneGiven;
    }
    return Read(rids, submitted, invalid);
  }

  // ---- import_final_ids ----

  datatype Decision = Accepted | Rejected

  datatype Lifecycle = Completed | Terminated | OverQuota | QualityTerminated | Unfinished

  /** `clients` are the attempt's, its survey's and its integration's client. */
  datatype Attempt = Attempt(clients: set<ClientId>, status: Lifecycle, initiated: Month)

  datatype FinalStatus = FinalStatus(client: ClientId, status: Decision, month: Month, upload: nat)

  datatype Outcome = Applied | NotFound | ClientMismatch | NotCompleted

  datatype Item = Item(upload: nat, rid: Rid, outcome: Outcome, previous: Option<Decision>, applied: Option<Decision>)

  /** The two audit tables; an attempt is named by its unique RID. */
  datatype Desk = Desk(statuses: map<Rid, FinalStatus>, items: seq<Item>)

  /** One upload with the attempts its transaction sees and locks.  `auto` is
      the result of the auto-rejection query, in the order it returns. */
  datatype Upload = Upload(number: nat, attempts: map<Rid, Attempt>, rids: seq<Rid>, auto: seq<Rid>,
                           client: ClientId, month: Month, decision: Decision)

  predicate Eligible(u: Upload, rid: Rid) {
    rid in u.attempts && u.client in u.attempts[rid].clients && u.attempts[rid].status != Unfinished
  }

  /** Completed in the selected month, left out of an accepted file that did
      hit something, and never decided before. */
  predicate AutoRejected(desk: Desk, u: Upload, rid: Rid) {
    u.decision == Accepted && (exists r :: r in u.rids && Eligible(u, r)) &&
    rid in u.attempts && u.client in u.attempts[rid].clients && u.attempts[rid].status == Completed &&
    u.attempts[rid].initiated == u.month && rid !in u.rids && rid !in desk.statuses
  }

  ghost predicate WellFormed(desk: Desk, u: Upload) {
    Distinct(u.rids) && Distinct(u.auto) && forall rid :: rid in u.auto <==> AutoRejected(desk, u, rid)
  }

  function DecisionOf(desk: Desk, rid: Rid): Option<Decision> {
    if rid in desk.statuses then Some(desk.statuses[rid].status) else None
  }

  /** The nested `apply_status`. */
  function ApplyStatus(desk: Desk, u: Upload, rid: Rid, decision: Decision): Desk {
    Desk(desk.statuses[rid := FinalStatus(u.client, decision, u.month, u.number)],
         desk.items + [Item(u.number, rid, Applied, DecisionOf(desk, rid), Some(decision))])
  }

  function OutcomeOf(u: Upload, rid: Rid): Outcome {
    if rid !in u.attempts then NotFound
    else if u.client !in u.attempts[rid].clients then ClientMismatch
    else if u.attempts[rid].status == Unfinished then NotCompleted
    else Applied
  }

  function ApplyRid(desk: Desk, u: Upload, rid: Rid): Desk {
    var outcome := OutcomeOf(u, rid);
    if outcome == Applied then ApplyStatus(desk, u, rid, u.decision)
    else desk.(items := desk.items + [Item(u.number, rid, outcome, None, None)])
  }

  function ApplyRids(desk: Desk, u: Upload, rids: seq<Rid>): Desk {
    if rids == [] then desk else ApplyRid(ApplyRids(desk, u, rids[..|rids| - 1]), u, rids[|rids| - 1])
  }

  function ApplyAuto(desk: Desk, u: Upload, rids: seq<Rid>): Desk {
    if rids == [] then desk else ApplyStatus(ApplyAuto(desk, u, rids[..|rids| - 1]), u, rids[|rids| - 1], Rejected)
  }

  function Import(desk: Desk, u: Upload): Desk {
    ApplyAuto(ApplyRids(desk, u, u.rids), u, u.auto)
  }

  function Has(u: Upload, outcome: Outcome): Rid -> bool {
    (rid: Rid) => OutcomeOf(u, rid) == outcome
  }

  datatype Counters = Counters(applied: nat, notFound: nat, mismatch: nat, notCompleted: nat)

  function Tally(u: Upload, rids: seq<Rid>): Counters {
    Counters(CountIf(rids, Has(u, Applied)), CountIf(rids, Has(u, NotFound)),
             CountIf(rids, Has(u, ClientMismatch)), CountIf(rids, Has(u, NotCompleted)))
  }

  function Counted(counters: Counters, outcome: Outcome): Counters {
    match outcome
    case Applied => counters.(applied := counters.applied + 1)
    case NotFound => counters.(notFound := counters.notFound + 1)
    case ClientMismatch => counters.(mismatch := counters.mismatch + 1)
    case NotCompleted => counters.(notCompleted := counters.notCompleted + 1)
  }

  /** One more RID of the file. */
  lemma RidsNext(desk: Desk, u: Upload, n: nat)
    requires n < |u.rids|
    ensures ApplyRids(desk, u, u.rids[..n + 1]) == ApplyRid(ApplyRids(desk, u, u.rids[..n]), u, u.rids[n])
    ensures Tally(u, u.rids[..n + 1]) == Counted(Tally(u, u.rids[..n]), OutcomeOf(u, u.rids[n]))
  {
    assert u.rids[..n + 1][..n] == u.rids[..n];
    CountNext(u.rids, n, Has(u, Applied));
    CountNext(u.rids, n, Has(u, NotFound));
    CountNext(u.rids, n, Has(u, ClientMismatch));
    CountNext(u.rids, n, Has(u, NotCompleted));
  }

  lemma AutoNext(desk: Desk, u: Upload, n: nat)
    requires n < |u.auto|
    ensures ApplyAuto(desk, u, u.auto[..n + 1]) == ApplyStatus(ApplyAuto(desk, u, u.auto[..n]), u, u.auto[n], Rejected)
  {
    assert u.auto[..n + 1][..n] == u.auto[..n];
  }

  class FinalIdDesk {
    var statuses: map<Rid, FinalStatus>
    var items: seq<Item>

    constructor ()
      ensures Tables() == Desk(map[], [])
    {
      statuses, items := map[], [];
    }

    function Tables(): Desk
      reads this
    {
      Desk(statuses, items)
    }

    method RecordStatus(u: Upload, rid: Rid, decision: Decision)
      modifies this
      ensures Tables() == ApplyStatus(old(Tables()), u, rid, decision)
    {
      var previous := if rid in statuses then Some(statuses[rid].status) else None;
      statuses := statuses[rid := FinalStatus(u.client, decision, u.month, u.number)];
      items := items + [Item(u.number, rid, Applied, previous, Some(decision))];
    }

    /** The loop over the file's RIDs. */
    method DecideListed(u: Upload) returns (counters: Counters)
      modifies this
      ensures Tables() == ApplyRids(old(Tables()), u, u.rids)
      ensures counters == Tally(u, u.rids)
    {
      counters := Counters(0, 0, 0, 0);
      for n := 0 to |u.rids|
        invariant Tables() == ApplyRids(old(Tables()), u, u.rids[..n])
        invariant counters == Tally(u, u.rids[..n])
      {
        var rid := u.rids[n];
        RidsNext(Desk(old(statuses), old(items)), u, n);
        if rid !in u.attempts {
          counters := counters.(notFound := counters.notFound + 1);
          items := items + [Item(u.number, rid, NotFound, None, None)];
        } else if u.client !in u.attempts[rid].clients {
          counters := counters.(mismatch := counters.mismatch + 1);
          items := items + [Item(u.number, rid, ClientMismatch, None, None)];
        } else if u.attempts[rid].status == Unfinished {
          counters := counters.(notCompleted := counters.notCompleted + 1);
          items := items + [Item(u.number, rid, NotCompleted, None, None)];
        } else {
          counters := counters.(applied := counters.applied + 1);
          RecordStatus(u, rid, u.decision);
        }
      }
      TakeAll(u.rids);
    }

    /** The loop over the attempts an accepted file leaves out. */
    method RejectMissing(u: Upload) returns (rejected: nat)
      modifies this
      ensures Tables() == ApplyAuto(old(Tables()), u, u.auto) && rejected == |u.auto|
    {
      rejected := 0;
      for n := 0 to |u.auto|
        invariant Tables() == ApplyAuto(old(Tables()), u, u.auto[..n]) && rejected == n
      {
        AutoNext(Desk(old(statuses), old(items)), u, n);
        rejected := rejected + 1;
        RecordStatus(u, u.auto[n], Rejected);
      }
      TakeAll(u.auto);
    }

    /** The per-client transaction of `import_final_ids`. */
    method ImportFinalIds(u: Upload) returns (counters: Counters, autoRejected: nat)
      requires WellFormed(Tables(), u)
      modifies this
      ensures Tables() == Import(old(Tables()), u)
      ensures counters == Tally(u, u.rids) && autoRejected == |u.auto|
    {
      counters := DecideListed(u);
      autoRejected := RejectMissing(u);
    }
  }

  // ---- The audit replays to the table ----

  /** The decision of the last applied item of an attempt. */
  function Replay(items: seq<Item>, rid: Rid): Option<Decision> {
    if items == [] then None
    else
      var last := items[|items| - 1];
      if last.outcome == Applied && last.rid == rid then last.applied else Replay(items[..|items| - 1], rid)
  }

  ghost predicate ChainOk(items: seq<Item>, j: nat)
    requires j < |items|
  {
    items[j].outcome == Applied ==> items[j].previous == Replay(items[..j], items[j].rid)
  }

  ghost predicate Audited(desk: Desk) {
    (forall rid :: DecisionOf(desk, rid) == Replay(desk.items, rid)) &&
    forall j :: 0 <= j < |desk.items| ==> ChainOk(desk.items, j)
  }

  lemma ItemKeepsAudit(desk: Desk, desk': Desk, item: Item)
    requires Audited(desk) && desk'.items == desk.items + [item]
    requires item.outcome == Applied ==> item.previous == DecisionOf(desk, item.rid)
    requires forall rid ::
      DecisionOf(desk', rid) ==
        (if item.outcome == Applied && item.rid == rid then item.applied else DecisionOf(desk, rid))
    ensures Audited(desk')
  {
    assert desk'.items[..|desk.items|] == desk.items;
    forall j | 0 <= j < |desk'.items| ensures ChainOk(desk'.items, j) {
      if j < |desk.items| {
        assert ChainOk(desk.items, j) && desk'.items[..j] == desk.items[..j];
      }
    }
  }

  lemma {:induction false} RidsKeepAudit(desk: Desk, u: Upload, rids: seq<Rid>)
    requires Audited(desk)
    ensures Audited(ApplyRids(desk, u, rids))
  {
    if rids != [] {
      var rid := rids[|rids| - 1];
      var earlier := ApplyRids(desk, u, rids[..|rids| - 1]);
      RidsKeepAudit(desk, u, rids[..|rids| - 1]);
      ItemKeepsAudit(earlier, ApplyRid(earlier, u, rid), ApplyRid(earlier, u, rid).items[|earlier.items|]);
    }
  }

  lemma {:induction false} AutoKeepsAudit(desk: Desk, u: Upload, rids: seq<Rid>)
    requires Audited(desk)
    ensures Audited(ApplyAuto(desk, u, rids))
  {
    if rids != [] {
      var rid := rids[|rids| - 1];
      var earlier := ApplyAuto(desk, u, rids[..|rids| - 1]);
      AutoKeepsAudit(desk, u, rids[..|rids| - 1]);
      var later := ApplyStatus(earlier, u, rid, Rejected);
      ItemKeepsAudit(earlier, later, later.items[|earlier.items|]);
    }
  }

  function ImportAll(uploads: seq<Upload>): Desk {
    if uploads == [] then Desk(map[], []) else Import(ImportAll(uploads[..|uploads| - 1]), uploads[|uploads| - 1])
  }

  /** After any uploads an attempt's status is its last applied item's, and
      every item's `previous_status` is the one before it. */
  lemma {:induction false} AuditReplays(uploads: seq<Upload>)
    ensures Audited(ImportAll(uploads))
  {
    if uploads != [] {
      var u := uploads[|uploads| - 1];
      AuditReplays(uploads[..|uploads| - 1]);
      RidsKeepAudit(ImportAll(uploads[..|uploads| - 1]), u, u.rids);
      AutoKeepsAudit(ApplyRids(ImportAll(uploads[..|uploads| - 1]), u, u.rids), u, u.auto);
    }
  }

  // ---- What one upload decides ----

  /** The row that an upload writes. */
  ghost predicate Sets(after: Desk, u: Upload, rid: Rid, decision: Decision) {
    rid in after.statuses && after.statuses[rid].client == u.client && after.statuses[rid].status == decision &&
    after.statuses[rid].month == u.month && after.statuses[rid].upload == u.number
  }

  ghost predicate SameStatus(desk: Desk, after: Desk, rid: Rid) {
    (rid in after.statuses <==> rid in desk.statuses) &&
    (rid in desk.statuses ==> after.statuses[rid] == desk.statuses[rid])
  }

  lemma {:induction false} RidsDecide(desk: Desk, u: Upload, rids: seq<Rid>, rid: Rid)
    ensures var after := ApplyRids(desk, u, rids);
            if rid in rids && Eligible(u, rid) then Sets(after, u, rid, u.decision) else SameStatus(desk, after, rid)
  {
    if rids != [] {
      RidsDecide(desk, u, rids[..|rids| - 1], rid);
      assert rid in rids <==> rid in rids[..|rids| - 1] || rid == rids[|rids| - 1];
    }
  }

  lemma {:induction false} AutoDecides(desk: Desk, u: Upload, rids: seq<Rid>, rid: Rid)
    ensures var after := ApplyAuto(desk, u, rids);
            if rid in rids then Sets(after, u, rid, Rejected) else SameStatus(desk, after, rid)
  {
    if rids != [] {
      AutoDecides(desk, u, rids[..|rids| - 1], rid);
      assert rid in rids <==> rid in rids[..|rids| - 1] || rid == rids[|rids| - 1];
    }
  }

  /** An attempt of the client whose journey is over. */
  predicate Settled(u: Upload, rid: Rid) {
    rid in u.attempts && u.client in u.attempts[rid].clients &&
    u.attempts[rid].status in {Completed, Terminated, OverQuota, QualityTerminated}
  }

  /** What the file decides without naming the attempt. */
  predicate LeftOut(desk: Desk, u: Upload, rid: Rid) {
    Settled(u, rid) && u.attempts[rid].status == Completed && u.attempts[rid].initiated == u.month &&
    rid !in u.rids && rid !in desk.statuses && u.decision != Rejected
  }

  /** Listed attempts of the client whose journey is over get the file's
      decision, client, month and upload.  An accepted file that has one also
      rejects the client's completed, undecided, unlisted attempts of its
      month.  Everybody else keeps the whole row, or none: an automatic
      rejection never overwrites a decision. */
  lemma UploadDecides(desk: Desk, u: Upload, rid: Rid)
    requires WellFormed(desk, u)
    ensures var after, hit := Import(desk, u), exists r :: r in u.rids && Settled(u, r);
            if rid in u.rids && Settled(u, rid) then Sets(after, u, rid, u.decision)
            else if hit && LeftOut(desk, u, rid) then Sets(after, u, rid, Rejected)
            else SameStatus(desk, after, rid)
    ensures rid in u.auto ==> DecisionOf(desk, rid) == None
  {
    RidsDecide(desk, u, u.rids, rid);
    AutoDecides(ApplyRids(desk, u, u.rids), u, u.auto, rid);
    assert forall r :: Eligible(u, r) <==> Settled(u, r);
  }

  // ---- What one upload records ----

  /** The audit item of a listed RID. */
  ghost predicate ListedItem(desk: Desk, u: Upload, rid: Rid, item: Item) {
    item.upload == u.number && item.rid == rid &&
    (item.outcome == Applied <==> Settled(u, rid)) && (item.outcome == NotFound <==> rid !in u.attempts) &&
    (item.outcome == ClientMismatch <==> rid in u.attempts && u.client !in u.attempts[rid].clients) &&
    (Settled(u, rid) ==> item.applied == Some(u.decision) && item.previous == DecisionOf(desk, rid)) &&
    (!Settled(u, rid) ==> item.applied == None && item.previous == None)
  }

  /** The item that one more listed RID adds. */
  lemma LastItem(desk: Desk, earlier: Desk, u: Upload, rid: Rid)
    requires SameStatus(desk, earlier, rid)
    ensures var items := ApplyRid(earlier, u, rid).items;
            |items| == |earlier.items| + 1 && earlier.items <= items &&
            ListedItem(desk, u, rid, items[|earlier.items|])
  {
  }

  lemma {:induction false} RidItems(desk: Desk, u: Upload, rids: seq<Rid>)
    requires Distinct(rids)
    ensures var items := ApplyRids(desk, u, rids).items;
            |items| == |desk.items| + |rids| && desk.items <= items &&
            forall j :: 0 <= j < |rids| ==> ListedItem(desk, u, rids[j], items[|desk.items| + j])
  {
    if rids != [] {
      var n := |rids| - 1;
      RidItems(desk, u, rids[..n]);
      RidsDecide(desk, u, rids[..n], rids[n]);
      LastItem(desk, ApplyRids(desk, u, rids[..n]), u, rids[n]);
    }
  }

  /** The audit item of an automatic rejection. */
  ghost predicate RejectedItem(u: Upload, rid: Rid, item: Item) {
    item.upload == u.number && item.rid == rid && item.outcome == Applied &&
    item.applied == Some(Rejected) && item.previous == None
  }

  lemma LastRejection(desk: Desk, earlier: Desk, u: Upload, rid: Rid)
    requires SameStatus(desk, earlier, rid) && rid !in desk.statuses
    ensures var items := ApplyStatus(earlier, u, rid, Rejected).items;
            |items| == |earlier.items| + 1 && earlier.items <= items && RejectedItem(u, rid, items[|earlier.items|])
  {
  }

  lemma {:induction false} AutoItems(desk: Desk, u: Upload, rids: seq<Rid>)
    requires Distinct(rids) && forall rid :: rid in rids ==> rid !in desk.statuses
    ensures var items := ApplyAuto(desk, u, rids).items;
            |items| == |desk.items| + |rids| && desk.items <= items &&
            forall j :: 0 <= j < |rids| ==> RejectedItem(u, rids[j], items[|desk.items| + j])
  {
    if rids != [] {
      var n := |rids| - 1;
      assert rids[n] in rids && forall rid :: rid in rids[..n] ==> rid in rids;
      AutoItems(desk, u, rids[..n]);
      AutoDecides(desk, u, rids[..n], rids[n]);
      LastRejection(desk, ApplyAuto(desk, u, rids[..n]), u, rids[n]);
    }
  }

  lemma ListedOnce(desk: Desk, u: Upload)
    requires WellFormed(desk, u)
    ensures Distinct(u.rids + u.auto)
    ensures forall rid :: rid in u.auto ==> rid !in ApplyRids(desk, u, u.rids).statuses
  {
    forall i, j | 0 <= i < |u.rids| && 0 <= j < |u.auto| ensures u.rids[i] != u.auto[j] {
      assert u.auto[j] in u.auto && u.rids[i] in u.rids;
    }
    forall rid | rid in u.auto ensures rid !in ApplyRids(desk, u, u.rids).statuses {
      RidsDecide(desk, u, u.rids, rid);
    }
  }

  /** One upload records one item for each listed RID, in the file's order,
      and then one for each automatic rejection, no RID twice; each says what
      was found, what was decided and what was decided before the upload.
      Earlier items stay as they are. */
  lemma OneItemPerRid(desk: Desk, u: Upload)
    requires WellFormed(desk, u)
    ensures var items, a, all := Import(desk, u).items, |desk.items|, u.rids + u.auto;
            desk.items <= items && |items| == a + |all| && Distinct(all) &&
            (forall k :: 0 <= k < |u.rids| ==> ListedItem(desk, u, u.rids[k], items[a + k])) &&
            forall k :: 0 <= k < |u.auto| ==> RejectedItem(u, u.auto[k], items[a + |u.rids| + k])
  {
    ListedOnce(desk, u);
    RidItems(desk, u, u.rids);
    AutoItems(ApplyRids(desk, u, u.rids), u, u.auto);
    var items, middle, a := Import(desk, u).items, ApplyRids(desk, u, u.rids).items, |desk.items|;
    forall k | 0 <= k < |u.rids| ensures ListedItem(desk, u, u.rids[k], items[a + k]) {
      assert items[a + k] == middle[a + k];
    }
  }

  // ---- Counting ----

  function Records(outcome: Outcome): Item -> bool { (item: Item) => item.outcome == outcome }

  ghost predicate CountsItems(c: Counters, items: seq<Item>) {
    c.applied == CountIf(items, Records(Applied)) && c.notFound == CountIf(items, Records(NotFound)) &&
    c.mismatch == CountIf(items, Records(ClientMismatch)) && c.notCompleted == CountIf(items, Records(NotCompleted))
  }

  lemma OneMoreItem(c: Counters, items: seq<Item>, item: Item)
    requires CountsItems(c, items)
    ensures CountsItems(Counted(c, item.outcome), items + [item])
  {
    CountAppend(items, item, Records(Applied));
    CountAppend(items, item, Records(NotFound));
    CountAppend(items, item, Records(ClientMismatch));
    CountAppend(items, item, Records(NotCompleted));
  }

  lemma OneMoreListed(desk: Desk, u: Upload, rids: seq<Rid>)
    requires rids != []
    ensures var n := |rids| - 1;
            var earlier, items := ApplyRids(desk, u, rids[..n]).items, ApplyRids(desk, u, rids).items;
            |items| == |earlier| + 1 && items == earlier + [items[|earlier|]] &&
            Tally(u, rids) == Counted(Tally(u, rids[..n]), items[|earlier|].outcome)
  {
  }

  /** Each counter is the number of the items with its outcome, and together
      they are the listed RIDs. */
  lemma {:induction false} OutcomesPartition(desk: Desk, u: Upload, rids: seq<Rid>)
    ensures var c, items := Tally(u, rids), ApplyRids(desk, u, rids).items;
            |rids| == c.applied + c.notFound + c.mismatch + c.notCompleted && desk.items <= items &&
            CountsItems(c, items[|desk.items|..])
  {
    if rids != [] {
      var earlier, items := ApplyRids(desk, u, rids[..|rids| - 1]).items, ApplyRids(desk, u, rids).items;
      OutcomesPartition(desk, u, rids[..|rids| - 1]);
      OneMoreListed(desk, u, rids);
      OneMoreItem(Tally(u, rids[..|rids| - 1]), earlier[|desk.items|..], items[|earlier|]);
      assert items[|desk.items|..] == earlier[|desk.items|..] + [items[|earlier|]];
    }
  }
}
