/** Monthly local survey ids such as 20260800000001 (surveys/models.py): a
    year-month prefix and a counter padded to eight digits. */
module LocalIds {
  import opened Counting

  const COLUMN_LENGTH := 14

  // ---- Decimal rendering ----

  function Digit(d: nat): char
    requires d < 10
  {
    '0' + (d as char)
  }

  function Digits(n: nat): string {
    if n < 10 then [Digit(n)] else Digits(n / 10) + [Digit(n % 10)]
  }

  function Zeros(k: nat): string {
    if k == 0 then "" else Zeros(k - 1) + "0"
  }

  /** Python's `{value:08d}`: never shorter than eight, longer when it must be. */
  function Padded(n: nat): string {
    if |Digits(n)| >= 8 then Digits(n) else Zeros(8 - |Digits(n)|) + Digits(n)
  }

  function Number(s: string): nat {
    if s == "" then 0
    else Number(s[..|s| - 1]) * 10 + (if '0' <= s[|s| - 1] <= '9' then (s[|s| - 1] - '0') as nat else 0)
  }

  lemma {:induction false} ReadZeros(k: nat)
    ensures Number(Zeros(k)) == 0
  {
    if k > 0 {
      assert Zeros(k)[..|Zeros(k)| - 1] == Zeros(k - 1);
      ReadZeros(k - 1);
    }
  }

  lemma {:induction false} ReadDigits(zeros: nat, n: nat)
    ensures Number(Zeros(zeros) + Digits(n)) == n
  {
    var s := Zeros(zeros) + Digits(n);
    if n < 10 {
      assert s[..|s| - 1] == Zeros(zeros);
      ReadZeros(zeros);
    } else {
      assert s[..|s| - 1] == Zeros(zeros) + Digits(n / 10);
      ReadDigits(zeros, n / 10);
    }
  }

  function Power10(k: nat): nat { if k == 0 then 1 else 10 * Power10(k - 1) }

  lemma PowerPositive(k: nat)
    ensures Power10(k) >= 1
  {
  }

  lemma {:induction false} DigitsFit(n: nat, k: nat)
    requires k >= 1
    ensures |Digits(n)| <= k <==> n < Power10(k)
    decreases k
  {
    if k == 1 {
      assert Power10(1) == 10;
    } else if n >= 10 {
      DigitsFit(n / 10, k - 1);
    } else {
      assert Power10(k - 1) >= 1 by { PowerPositive(k - 1); }
    }
  }

  function Render(prefix: string, value: nat): string {
    prefix + Padded(value)
  }

  /** Reading an id back gives its counter, so ids of one month never collide
      even beyond eight digits. */
  lemma RenderRoundTrip(prefix: string, value: nat)
    ensures |Render(prefix, value)| >= |prefix| && Render(prefix, value)[..|prefix|] == prefix
    ensures Number(Render(prefix, value)[|prefix|..]) == value
  {
    assert Render(prefix, value)[|prefix|..] == Padded(value);
    if |Digits(value)| >= 8 {
      assert Zeros(0) + Digits(value) == Digits(value);
      ReadDigits(0, value);
    } else {
      ReadDigits(8 - |Digits(value)|, value);
    }
  }

  lemma ZerosLength(k: nat)
    ensures |Zeros(k)| == k
  {
  }

  /** An id fits its column exactly for the first 99,999,999 of a month. */
  lemma FitsColumnIff(prefix: string, value: nat)
    requires |prefix| == 6
    ensures |Render(prefix, value)| >= 14
    ensures |Render(prefix, value)| <= COLUMN_LENGTH <==> value < 100_000_000
  {
    DigitsFit(value, 8);
    ZerosLength(if |Digits(value)| >= 8 then 0 else 8 - |Digits(value)|);
    assert Power10(2) == 100 && Power10(4) == 10_000 && Power10(6) == 1_000_000 && Power10(8) == 100_000_000;
  }

  // ---- The sequence ----

  function LastValue(last: map<string, nat>, prefix: string): nat {
    if prefix in last then last[prefix] else 0
  }

  function Advance(last: map<string, nat>, prefix: string, count: int): map<string, nat> {
    if count < 1 then last else last[prefix := LastValue(last, prefix) + count]
  }

  function Issued(last: map<string, nat>, prefix: string, count: int): seq<string> {
    if count < 1 then []
    else seq(count, (i: nat) => Render(prefix, LastValue(last, prefix) + 1 + i))
  }

  class LocalIdSequence {
    var last: map<string, nat>

    constructor ()
      ensures last == map[]
    {
      last := map[];
    }

    /** `next_ids` in the month of `prefix`: the next `count` counters. */
    method NextIds(prefix: string, count: int) returns (ids: seq<string>)
      modifies this
      ensures last == Advance(old(last), prefix, count)
      ensures ids == Issued(old(last), prefix, count)
    {
      if count < 1 {
        return [];
      }
      var first := (if prefix in last then last[prefix] else 0) + 1;
      last := last[prefix := first - 1 + count];
      ids := [];
      for value := first to first + count
        invariant |ids| == value - first
        invariant forall i :: 0 <= i < |ids| ==> ids[i] == Render(prefix, first + i)
      {
        ids := ids + [Render(prefix, value)];
      }
    }
  }

  datatype Call = Call(prefix: string, count: int)

  function After(calls: seq<Call>): map<string, nat> {
    if calls == [] then map[]
    else
      var c := calls[|calls| - 1];
      Advance(After(calls[..|calls| - 1]), c.prefix, c.count)
  }

  /** Everything a history of calls has handed out. */
  function AllIssued(calls: seq<Call>): seq<string> {
    if calls == [] then []
    else
      var c := calls[|calls| - 1];
      AllIssued(calls[..|calls| - 1]) + Issued(After(calls[..|calls| - 1]), c.prefix, c.count)
  }

  /** An id of this history: some counter its month has already reached. */
  ghost predicate Reached(last: map<string, nat>, id: string) {
    |id| >= 6 && 1 <= Number(id[6..]) <= LastValue(last, id[..6])
  }

  lemma IssuedAreNew(last: map<string, nat>, c: Call)
    requires |c.prefix| == 6
    ensures Distinct(Issued(last, c.prefix, c.count))
    ensures forall id :: id in Issued(last, c.prefix, c.count) ==>
      !Reached(last, id) && Reached(Advance(last, c.prefix, c.count), id)
  {
    var ids := Issued(last, c.prefix, c.count);
    forall i | 0 <= i < |ids|
      ensures |ids[i]| >= 6 && ids[i][..6] == c.prefix && Number(ids[i][6..]) == LastValue(last, c.prefix) + 1 + i
    {
      RenderRoundTrip(c.prefix, LastValue(last, c.prefix) + 1 + i);
    }
  }

  /** No two ids ever issued are the same, over any calls in any months. */
  lemma {:induction false} NeverIssuedTwice(calls: seq<Call>)
    requires forall i :: 0 <= i < |calls| ==> |calls[i].prefix| == 6
    ensures Distinct(AllIssued(calls))
    ensures forall id :: id in AllIssued(calls) ==> Reached(After(calls), id)
  {
    if calls != [] {
      var earlier, c := calls[..|calls| - 1], calls[|calls| - 1];
      NeverIssuedTwice(earlier);
      IssuedAreNew(After(earlier), c);
      var before, more := AllIssued(earlier), Issued(After(earlier), c.prefix, c.count);
      assert forall id :: Reached(After(earlier), id) ==> Reached(After(calls), id);
      assert forall i :: 0 <= i < |before| ==> before[i] in before;
      assert forall i :: 0 <= i < |more| ==> more[i] in more;
    }
  }

  ghost predicate Holds(ids: seq<string>, prefix: string, value: nat) {
    exists id :: id in ids && |id| >= 6 && id[..6] == prefix && Number(id[6..]) == value
  }

  lemma IssuedHolds(last: map<string, nat>, c: Call, value: nat)
    requires |c.prefix| == 6 && LastValue(last, c.prefix) < value <= LastValue(last, c.prefix) + c.count
    ensures Holds(Issued(last, c.prefix, c.count), c.prefix, value)
  {
    RenderRoundTrip(c.prefix, value);
    assert Issued(last, c.prefix, c.count)[value - LastValue(last, c.prefix) - 1] == Render(c.prefix, value);
  }

  /** Every counter that a month has reached was handed out, from 1 on; the
      counter is the number of ids asked for in that month. */
  lemma {:induction false} NoGaps(calls: seq<Call>, prefix: string, value: nat)
    requires forall i :: 0 <= i < |calls| ==> |calls[i].prefix| == 6
    ensures 1 <= value <= LastValue(After(calls), prefix) <==> Holds(AllIssued(calls), prefix, value)
  {
    if calls != [] {
      var earlier, c := calls[..|calls| - 1], calls[|calls| - 1];
      var before, more := AllIssued(earlier), Issued(After(earlier), c.prefix, c.count);
      NoGaps(earlier, prefix, value);
      NeverIssuedTwice(calls);
      if Holds(before, prefix, value) {
        var id :| id in before && |id| >= 6 && id[..6] == prefix && Number(id[6..]) == value;
        assert id in before + more;
      } else if 1 <= value <= LastValue(After(calls), prefix) {
        IssuedHolds(After(earlier), c, value);
        var id :| id in more && |id| >= 6 && id[..6] == prefix && Number(id[6..]) == value;
        assert id in before + more;
      }
    }
  }
}
