/** Time buckets of the dashboard (surveys/dashboard.py).  Instants are
    seconds of local time since the start of year 0; the zone has no clock
    changes. */
module DashboardWindow {
  import opened Counting

  type Instant = nat

  const HOUR := 3600

  const DAY := 86_400

  const WEEK := 604_800

  // ---- Calendar ----

  predicate LeapYear(year: nat) {
    year % 4 == 0 && (year % 100 != 0 || year % 400 == 0)
  }

  /** Months are numbered `year * 12 + month - 1`. */
  function DaysIn(month: nat): nat {
    var m := month % 12;
    if m == 1 then (if LeapYear(month / 12) then 29 else 28)
    else if m == 3 || m == 5 || m == 8 || m == 10 then 30
    else 31
  }

  function FirstDay(month: nat): nat {
    if month == 0 then 0 else FirstDay(month - 1) + DaysIn(month - 1)
  }

  lemma {:induction false} FirstDayIncreases(a: nat, b: nat)
    requires a < b
    ensures FirstDay(a) + 28 <= FirstDay(b)
  {
    if a + 1 < b {
      FirstDayIncreases(a, b - 1);
    }
  }

  /** Leap years before a year, from year 0 on. */
  function LeapDays(year: nat): nat {
    (year + 3) / 4 - (year + 99) / 100 + (year + 399) / 400
  }

  lemma QuotientIs(x: nat, d: nat, q: nat)
    requires d > 0 && q * d <= x < q * d + d
    ensures x / d == q
  {
    var k := x / d;
    assert x == k * d + x % d;
    assert k < q ==> (k + 1) * d <= q * d;
    assert q < k ==> (q + 1) * d <= k * d;
  }

  lemma OneMoreMultiple(year: nat, k: nat)
    requires k > 0
    ensures (year + k) / k == (year + k - 1) / k + (if year % k == 0 then 1 else 0)
  {
    var q, r := year / k, year % k;
    assert year == q * k + r && (q + 1) * k == q * k + k;
    QuotientIs(year + k, k, q + 1);
    if r == 0 {
      QuotientIs(year + k - 1, k, q);
    } else {
      QuotientIs(year + k - 1, k, q + 1);
    }
  }

  lemma Multiples(q: nat)
    ensures (400 * q) % 100 == 0 && (100 * q) % 4 == 0
  {
    QuotientIs(400 * q, 100, 4 * q);
    QuotientIs(100 * q, 4, 25 * q);
  }

  lemma LeapRules(year: nat)
    ensures year % 400 == 0 ==> year % 100 == 0
    ensures year % 100 == 0 ==> year % 4 == 0
  {
    Multiples(year / 400);
    Multiples(year / 100);
    assert year == 400 * (year / 400) + year % 400;
    assert year == 100 * (year / 100) + year % 100;
  }

  lemma OneMoreLeapDay(year: nat)
    ensures LeapDays(year + 1) == LeapDays(year) + (if LeapYear(year) then 1 else 0)
  {
    OneMoreMultiple(year, 4);
    OneMoreMultiple(year, 100);
    OneMoreMultiple(year, 400);
    LeapRules(year);
  }

  /** Days of the year before each month, in a common year. */
  const DAYS_BEFORE := [0, 31, 59, 90, 120, 151, 181, 212, 243, 273, 304, 334, 365]

  lemma OneMoreMonth(m: nat)
    requires 0 < m <= 12
    ensures DAYS_BEFORE[m] == DAYS_BEFORE[m - 1] +
      if m == 2 then 28 else if m == 4 || m == 6 || m == 9 || m == 11 then 30 else 31
  {
  }

  lemma MonthLength(year: nat, m: nat)
    requires m < 12
    ensures FirstDay(year * 12 + m + 1) == FirstDay(year * 12 + m) +
      if m == 1 then (if LeapYear(year) then 29 else 28) else if m == 3 || m == 5 || m == 8 || m == 10 then 30 else 31
  {
    QuotientIs(year * 12 + m, 12, year);
  }

  lemma {:induction false} MonthOfYear(year: nat, m: nat)
    requires m <= 12
    ensures FirstDay(year * 12 + m)
         == FirstDay(year * 12) + DAYS_BEFORE[m] + (if m >= 2 && LeapYear(year) then 1 else 0)
  {
    if m > 0 {
      MonthOfYear(year, m - 1);
      MonthLength(year, m - 1);
      OneMoreMonth(m);
    }
  }

  lemma {:induction false} YearStart(year: nat)
    ensures FirstDay(year * 12) == year * 365 + LeapDays(year)
  {
    if year > 0 {
      YearStart(year - 1);
      MonthOfYear(year - 1, 12);
      OneMoreLeapDay(year - 1);
      assert (year - 1) * 12 + 12 == year * 12;
    }
  }

  /** The calendar in closed form: where each month of each year starts. */
  lemma Calendar(year: nat, m: nat)
    requires m < 12
    ensures FirstDay(year * 12 + m)
         == year * 365 + LeapDays(year) + DAYS_BEFORE[m] + (if m >= 2 && LeapYear(year) then 1 else 0)
  {
    YearStart(year);
    MonthOfYear(year, m);
  }

  /** The month that contains a day, searched upwards from one before it. */
  function MonthFrom(month: nat, day: nat): (m: nat)
    requires FirstDay(month) <= day
    ensures month <= m && FirstDay(m) <= day < FirstDay(m + 1)
    decreases day - FirstDay(month)
  {
    if day < FirstDay(month + 1) then month else MonthFrom(month + 1, day)
  }

  function MonthOf(t: Instant): (m: nat)
    ensures FirstDay(m) <= t / DAY < FirstDay(m + 1)
  {
    MonthFrom(0, t / DAY)
  }

  lemma MonthOfUnique(t: Instant, m: nat)
    requires FirstDay(m) <= t / DAY < FirstDay(m + 1)
    ensures MonthOf(t) == m
  {
    if MonthOf(t) < m {
      FirstDayIncreases(MonthOf(t), m);
      if MonthOf(t) + 1 < m {
        FirstDayIncreases(MonthOf(t) + 1, m);
      }
    } else if m < MonthOf(t) {
      if m + 1 < MonthOf(t) {
        FirstDayIncreases(m + 1, MonthOf(t));
      }
    }
  }

  /** `_month_shift`: the first of the shifted month, same time of day. */
  function MonthShift(t: Instant, offset: int): Instant
    requires MonthOf(t) + offset >= 0
  {
    FirstDay(MonthOf(t) + offset) * DAY + t % DAY
  }

  lemma DayOfSum(days: nat, rest: nat)
    requires rest < DAY
    ensures (days * DAY + rest) / DAY == days && (days * DAY + rest) % DAY == rest
  {
  }

  lemma ShiftedMonth(t: Instant, offset: int)
    requires MonthOf(t) + offset >= 0
    ensures MonthOf(MonthShift(t, offset)) == MonthOf(t) + offset
    ensures MonthShift(t, offset) % DAY == t % DAY
  {
    var m := MonthOf(t) + offset;
    FirstDayIncreases(m, m + 1);
    DayOfSum(FirstDay(m), t % DAY);
    MonthOfUnique(MonthShift(t, offset), m);
  }

  /** Shifting by months is additive. */
  lemma MonthShiftAdds(t: Instant, a: int, b: int)
    requires MonthOf(t) + a >= 0 && MonthOf(t) + a + b >= 0
    ensures MonthOf(MonthShift(t, a)) + b >= 0
    ensures MonthShift(MonthShift(t, a), b) == MonthShift(t, a + b)
  {
    ShiftedMonth(t, a);
  }

  /** A positive shift moves strictly forward. */
  lemma MonthShiftForward(t: Instant, offset: int)
    requires offset > 0
    ensures MonthShift(t, offset) > t
  {
    var m := MonthOf(t) + 1;
    if offset > 1 {
      FirstDayIncreases(m, MonthOf(t) + offset);
    }
    assert FirstDay(MonthOf(t) + offset) >= t / DAY + 1;
    assert FirstDay(MonthOf(t) + offset) * DAY >= (t / DAY + 1) * DAY;
  }

  function Midnight(t: Instant): Instant { t / DAY * DAY }

  function MonthStart(t: Instant): Instant { FirstDay(MonthOf(t)) * DAY }

  lemma MonthStartBefore(t: Instant)
    ensures MonthStart(t) <= t && MonthOf(MonthStart(t)) == MonthOf(t)
    ensures MonthStart(t) % DAY == 0
  {
    DayOfSum(FirstDay(MonthOf(t)), 0);
    MonthOfUnique(MonthStart(t), MonthOf(t));
  }

  // ---- Buckets ----

  datatype Bucket = Bucket(lower: Instant, upper: Instant)

  /** Contiguous, disjoint and covering the half-open window. */
  ghost predicate Covers(buckets: seq<Bucket>, start: Instant, end: Instant) {
    if buckets == [] then start == end
    else
      var last := buckets[|buckets| - 1];
      last.lower <= last.upper == end && Covers(buckets[..|buckets| - 1], start, last.lower)
  }

  function InBucket(b: Bucket): Instant -> bool { (t: Instant) => b.lower <= t < b.upper }

  function BucketTotal(buckets: seq<Bucket>, visits: seq<Instant>): nat {
    if buckets == [] then 0
    else BucketTotal(buckets[..|buckets| - 1], visits) + CountIf(visits, InBucket(buckets[|buckets| - 1]))
  }

  lemma {:induction false} CoveredInOrder(buckets: seq<Bucket>, start: Instant, end: Instant)
    requires Covers(buckets, start, end)
    ensures start <= end
  {
    if buckets != [] {
      CoveredInOrder(buckets[..|buckets| - 1], start, buckets[|buckets| - 1].lower);
    }
  }

  /** Every visit of the window falls in exactly one bucket: the bucket counts
      add up to the window's count. */
  lemma {:induction false} BucketsConserveVisits(buckets: seq<Bucket>, start: Instant, end: Instant,
                                                 visits: seq<Instant>)
    requires Covers(buckets, start, end)
    ensures BucketTotal(buckets, visits) == CountIf(visits, InBucket(Bucket(start, end)))
  {
    if buckets == [] {
      CountNone(visits, InBucket(Bucket(start, end)));
    } else {
      var earlier, last := buckets[..|buckets| - 1], buckets[|buckets| - 1];
      BucketsConserveVisits(earlier, start, last.lower, visits);
      CoveredInOrder(earlier, start, last.lower);
      CountSplit(visits, InBucket(Bucket(start, last.lower)), InBucket(last), InBucket(Bucket(start, end)));
    }
  }

  // ---- Steps ----

  datatype Step = Seconds(stride: nat) | Months

  function StepOn(step: Step, t: Instant): Instant {
    match step
    case Seconds(stride) => t + stride
    case Months => MonthShift(t, 1)
  }

  /** `i` steps after the start. */
  function Later(step: Step, start: Instant, i: nat): Instant {
    if i == 0 then start else StepOn(step, Later(step, start, i - 1))
  }

  /** The same in closed form. */
  function LowerEnd(step: Step, start: Instant, i: nat): Instant {
    match step
    case Seconds(stride) => start + i * stride
    case Months => if i == 0 then start else MonthShift(start, i)
  }

  lemma {:induction false} LaterIsLowerEnd(step: Step, start: Instant, i: nat)
    ensures Later(step, start, i) == LowerEnd(step, start, i)
  {
    if i > 0 {
      LaterIsLowerEnd(step, start, i - 1);
      match step {
        case Seconds(stride) => assert i * stride == (i - 1) * stride + stride;
        case Months => if i > 1 { MonthShiftAdds(start, i - 1, 1); }
      }
    }
  }

  /** Contiguous buckets from `start` to `end`, each a step after the last. */
  ghost predicate Tiles(buckets: seq<Bucket>, start: Instant, step: Step, end: Instant) {
    if buckets == [] then start == end
    else
      var last := buckets[|buckets| - 1];
      last.lower == Later(step, start, |buckets| - 1) <= last.upper == end &&
      Tiles(buckets[..|buckets| - 1], start, step, last.lower)
  }

  lemma TilesAppend(buckets: seq<Bucket>, start: Instant, step: Step, lower: Instant, upper: Instant)
    requires Tiles(buckets, start, step, lower) && lower == Later(step, start, |buckets|) <= upper
    ensures Tiles(buckets + [Bucket(lower, upper)], start, step, upper)
  {
    assert (buckets + [Bucket(lower, upper)])[..|buckets|] == buckets;
  }

  lemma {:induction false} TilesCover(buckets: seq<Bucket>, start: Instant, step: Step, end: Instant)
    requires Tiles(buckets, start, step, end)
    ensures Covers(buckets, start, end)
  {
    if buckets != [] {
      TilesCover(buckets[..|buckets| - 1], start, step, buckets[|buckets| - 1].lower);
    }
  }

  function Min(a: Instant, b: Instant): Instant { if a <= b then a else b }

  /** Each bucket starts its number of steps after the window does and ends one
      step later, or with the window; the last one reaches the end. */
  ghost predicate BucketsAt(buckets: seq<Bucket>, start: Instant, step: Step, end: Instant) {
    end <= LowerEnd(step, start, |buckets|) &&
    forall i :: 0 <= i < |buckets| ==>
      buckets[i].lower == LowerEnd(step, start, i) && buckets[i].upper == Min(end, LowerEnd(step, start, i + 1))
  }

  /** Each bucket ends where the next one starts. */
  lemma {:induction false} TileAt(buckets: seq<Bucket>, start: Instant, step: Step, end: Instant, i: nat)
    requires Tiles(buckets, start, step, end) && i < |buckets|
    ensures buckets[i].lower == Later(step, start, i) && buckets[i].upper <= end
    ensures buckets[i].upper == if i < |buckets| - 1 then buckets[i + 1].lower else end
  {
    var n := |buckets| - 1;
    if i < n {
      TileAt(buckets[..n], start, step, buckets[n].lower, i);
    }
  }

  ghost predicate LinkedAt(buckets: seq<Bucket>, start: Instant, step: Step, end: Instant, i: nat)
    requires i < |buckets|
  {
    buckets[i].lower == LowerEnd(step, start, i) && buckets[i].upper <= end &&
    buckets[i].upper == if i < |buckets| - 1 then buckets[i + 1].lower else end
  }

  lemma TilesLinked(buckets: seq<Bucket>, start: Instant, step: Step, end: Instant, i: nat)
    requires Tiles(buckets, start, step, end) && i < |buckets|
    ensures LinkedAt(buckets, start, step, end, i)
  {
    TileAt(buckets, start, step, end, i);
    LaterIsLowerEnd(step, start, i);
  }

  lemma LinkedEnds(buckets: seq<Bucket>, start: Instant, step: Step, end: Instant, i: nat)
    requires i < |buckets| && LinkedAt(buckets, start, step, end, i) && end <= LowerEnd(step, start, |buckets|)
    requires i + 1 < |buckets| ==> LinkedAt(buckets, start, step, end, i + 1)
    ensures buckets[i].upper == Min(end, LowerEnd(step, start, i + 1))
  {
    if i + 1 == |buckets| {
      assert LowerEnd(step, start, i + 1) == LowerEnd(step, start, |buckets|);
    }
  }

  lemma TileEnds(buckets: seq<Bucket>, start: Instant, step: Step, end: Instant, i: nat)
    requires Tiles(buckets, start, step, end) && end <= LowerEnd(step, start, |buckets|) && i < |buckets|
    ensures buckets[i].lower == LowerEnd(step, start, i)
    ensures buckets[i].upper == Min(end, LowerEnd(step, start, i + 1))
  {
    TilesLinked(buckets, start, step, end, i);
    if i + 1 < |buckets| {
      TilesLinked(buckets, start, step, end, i + 1);
    }
    LinkedEnds(buckets, start, step, end, i);
  }

  lemma TilesAt(buckets: seq<Bucket>, start: Instant, step: Step, end: Instant)
    requires Tiles(buckets, start, step, end) && end <= Later(step, start, |buckets|)
    ensures BucketsAt(buckets, start, step, end)
  {
    LaterIsLowerEnd(step, start, |buckets|);
    forall i | 0 <= i < |buckets|
      ensures buckets[i].lower == LowerEnd(step, start, i) && buckets[i].upper == Min(end, LowerEnd(step, start, i + 1))
    {
      TileEnds(buckets, start, step, end, i);
    }
  }

  // ---- The loops ----

  ghost predicate StartBefore(buckets: seq<Bucket>, end: Instant) {
    forall b :: b in buckets ==> b.lower < end
  }

  /** The `while lower < end` loops with a fixed stride. */
  method StrideBuckets(start: Instant, end: Instant, stride: nat) returns (buckets: seq<Bucket>)
    requires stride > 0 && start <= end
    ensures Tiles(buckets, start, Seconds(stride), end) && StartBefore(buckets, end)
    ensures end <= Later(Seconds(stride), start, |buckets|)
  {
    buckets := [];
    var lower := start;
    while lower < end
      invariant lower == Later(Seconds(stride), start, |buckets|)
      invariant Tiles(buckets, start, Seconds(stride), Min(lower, end)) && StartBefore(buckets, end)
    {
      var upper := Min(end, lower + stride);
      TilesAppend(buckets, start, Seconds(stride), lower, upper);
      buckets := buckets + [Bucket(lower, upper)];
      lower := lower + stride;
    }
  }

  /** The `while lower < end` loops that step by calendar months. */
  method MonthBuckets(start: Instant, end: Instant) returns (buckets: seq<Bucket>)
    requires start <= end
    ensures Tiles(buckets, start, Months, end) && StartBefore(buckets, end)
    ensures end <= Later(Months, start, |buckets|)
  {
    buckets := [];
    var lower := start;
    while lower < end
      invariant lower <= end && lower == Min(end, Later(Months, start, |buckets|))
      invariant Tiles(buckets, start, Months, lower) && StartBefore(buckets, end)
      decreases end - lower
    {
      MonthShiftForward(lower, 1);
      var upper := Min(end, MonthShift(lower, 1));
      TilesAppend(buckets, start, Months, lower, upper);
      buckets := buckets + [Bucket(lower, upper)];
      lower := upper;
    }
  }

  lemma LaterSeconds(start: Instant, stride: nat, i: nat)
    ensures Later(Seconds(stride), start, i) == start + i * stride
  {
    LaterIsLowerEnd(Seconds(stride), start, i);
  }

  lemma NextMultiple(index: nat, count: nat, stride: nat)
    requires index < count
    ensures (index + 1) * stride == index * stride + stride <= count * stride
  {
    assert count * stride == (index + 1) * stride + (count - index - 1) * stride;
  }

  lemma StridesFit(start: Instant, index: nat, count: nat, stride: nat, end: Instant)
    requires index < count && start + count * stride == end
    ensures Later(Seconds(stride), start, index) == start + index * stride
    ensures Later(Seconds(stride), start, index + 1) == start + index * stride + stride <= end
  {
    LaterSeconds(start, stride, index);
    NextMultiple(index, count, stride);
  }

  /** The `for index in range(count)` loops that end exactly at `end`. */
  method CountedBuckets(end: Instant, count: nat, stride: nat) returns (start: Instant, buckets: seq<Bucket>)
    requires count * stride <= end
    ensures start == end - count * stride && |buckets| == count && Tiles(buckets, start, Seconds(stride), end)
    ensures end == Later(Seconds(stride), start, count)
  {
    start := end - count * stride;
    buckets := [];
    for index := 0 to count
      invariant |buckets| == index && Tiles(buckets, start, Seconds(stride), Later(Seconds(stride), start, index))
    {
      var lower := start + index * stride;
      StridesFit(start, index, count, stride, end);
      var upper := Min(end, lower + stride);
      TilesAppend(buckets, start, Seconds(stride), lower, upper);
      buckets := buckets + [Bucket(lower, upper)];
    }
    LaterSeconds(start, stride, count);
  }

  lemma MonthStartAround(t: Instant, month: nat)
    ensures FirstDay(month) * DAY <= t <==> month <= MonthOf(t)
  {
    var m := MonthOf(t);
    if month < m {
      FirstDayIncreases(month, m);
    } else if m + 1 < month {
      FirstDayIncreases(m + 1, month);
    }
    if month <= m {
      assert FirstDay(month) * DAY <= t / DAY * DAY;
    } else {
      assert FirstDay(month) * DAY >= (t / DAY + 1) * DAY;
    }
  }

  /** Where the search for the six months starts. */
  ghost predicate FiveBack(start: Instant, end: Instant) {
    MonthOf(end) >= 5 && MonthOf(start) == MonthOf(end) - 5 && start == FirstDay(MonthOf(end) - 5) * DAY
  }

  lemma FiveMonthsBack(end: Instant)
    requires MonthOf(end) >= 5
    ensures MonthOf(MonthStart(end)) == MonthOf(end) && FiveBack(MonthShift(MonthStart(end), -5), end)
  {
    MonthStartBefore(end);
    ShiftedMonth(MonthStart(end), -5);
  }

  /** The first of the `index`-th of the six months. */
  lemma SixMonthsLater(end: Instant, start: Instant, index: nat)
    requires FiveBack(start, end)
    ensures Later(Months, start, index) == MonthShift(start, index) == FirstDay(MonthOf(end) - 5 + index) * DAY
  {
    DayOfSum(FirstDay(MonthOf(end) - 5), 0);
    LaterIsLowerEnd(Months, start, index);
  }

  /** Only the months after the six start after the end. */
  lemma SixMonthsEnd(end: Instant, start: Instant, index: nat)
    requires FiveBack(start, end)
    ensures Later(Months, start, index) <= end <==> index <= 5
  {
    SixMonthsLater(end, start, index);
    MonthStartAround(end, MonthOf(end) - 5 + index);
  }

  /** One more month. */
  lemma SixMonthsNext(end: Instant, start: Instant, buckets: seq<Bucket>, index: nat)
    requires FiveBack(start, end) && index < 6 && |buckets| == index
    requires Tiles(buckets, start, Months, Min(end, Later(Months, start, index)))
    ensures var lower := MonthShift(start, index);
            Tiles(buckets + [Bucket(lower, Min(end, MonthShift(lower, 1)))], start, Months,
              Min(end, Later(Months, start, index + 1)))
  {
    SixMonthsLater(end, start, index);
    SixMonthsEnd(end, start, index);
    var lower := Later(Months, start, index);
    MonthShiftForward(lower, 1);
    TilesAppend(buckets, start, Months, lower, Min(end, StepOn(Months, lower)));
  }

  /** The six calendar months that end with the current one. */
  method SixMonthBuckets(end: Instant) returns (start: Instant, buckets: seq<Bucket>)
    requires MonthOf(end) >= 5
    ensures Tiles(buckets, start, Months, end) && |buckets| == 6 && end <= Later(Months, start, 6)
    ensures start == FirstDay(MonthOf(end) - 5) * DAY
  {
    var current := MonthStart(end);
    FiveMonthsBack(end);
    start := MonthShift(current, -5);
    SixMonthsEnd(end, start, 0);
    buckets := [];
    for index := 0 to 6
      invariant |buckets| == index && Tiles(buckets, start, Months, Min(end, Later(Months, start, index)))
    {
      SixMonthsNext(end, start, buckets, index);
      var lower := MonthShift(start, index);
      var upper := Min(end, MonthShift(lower, 1));
      buckets := buckets + [Bucket(lower, upper)];
    }
    SixMonthsEnd(end, start, 6);
  }

  // ---- dashboard_range_window ----

  /** Days are numbered from the same origin as instants; a financial year is
      absent when the request leaves it to the current one. */
  datatype Range =
    | Custom(first: nat, last: nat)
    | OnDate(day: nat)
    | Today
    | LastHours(hours: nat)
    | LastDays(days: nat)
    | ThisMonth
    | ThreeMonths
    | SixMonths
    | FinancialYear(year: Option<int>)

  datatype Window = Window(start: Instant, end: Instant, buckets: seq<Bucket>)

  datatype Result = Ok(window: Window) | Refused

  function CurrentFinancialYear(now: Instant): int {
    if MonthOf(now) % 12 >= 3 then MonthOf(now) / 12 else MonthOf(now) / 12 - 1
  }

  function SelectedYear(year: Option<int>, now: Instant): int {
    if year.Some? && year.value != 0 then year.value else CurrentFinancialYear(now)
  }

  predicate Acceptable(range: Range, now: Instant) {
    match range
    case Custom(first, last) => first <= last <= now / DAY && last - first <= 366 * 5
    case OnDate(day) => day <= now / DAY
    case FinancialYear(year) => 2020 <= SelectedYear(year, now) <= CurrentFinancialYear(now)
    case _ => true
  }

  /** The keys the dashboard offers, at a time their windows can reach back from. */
  predicate Offered(range: Range, now: Instant) {
    MonthOf(now) >= 5 && now >= 13 * WEEK &&
    (range.LastHours? ==> range.hours in {24, 48}) &&
    (range.LastDays? ==> range.days in {7, 15, 21, 28})
  }

  lemma FinancialYearStartsBefore(year: int, now: Instant)
    requires 0 <= year <= CurrentFinancialYear(now)
    ensures FirstDay(year * 12 + 3) * DAY <= now
  {
    var april := year * 12 + 3;
    assert april <= MonthOf(now);
    if april < MonthOf(now) {
      FirstDayIncreases(april, MonthOf(now));
    }
    MonthStartBefore(now);
  }

  /** Where the window of an accepted range begins and ends. */
  function RangeStart(range: Range, now: Instant): int
    requires Offered(range, now) && Acceptable(range, now)
  {
    match range
    case Custom(first, _) => first * DAY
    case OnDate(day) => day * DAY
    case Today => Midnight(now)
    case LastHours(hours) => now - hours * HOUR
    case LastDays(days) => now - days * DAY
    case ThisMonth => MonthStart(now)
    case ThreeMonths => now - 13 * WEEK
    case SixMonths => FirstDay(MonthOf(now) - 5) * DAY
    case FinancialYear(year) => FirstDay(SelectedYear(year, now) * 12 + 3) * DAY
  }

  function RangeEnd(range: Range, now: Instant): Instant
    requires Offered(range, now) && Acceptable(range, now)
  {
    match range
    case Custom(_, last) => Min(now, (last + 1) * DAY)
    case OnDate(day) => Min(now, (day + 1) * DAY)
    case FinancialYear(year) => Min(now, FirstDay(SelectedYear(year, now) * 12 + 15) * DAY)
    case _ => now
  }

  // ---- What a range shows ----

  /** The year a financial year is named after: it runs from April to March. */
  function FiscalYear(t: Instant): int { (MonthOf(t) + 9) / 12 - 1 }

  /** Whether a visit in the past belongs to a range, by its date. */
  ghost predicate Shown(range: Range, now: Instant, t: Instant) {
    match range
    case Custom(first, last) => first <= t / DAY <= last
    case OnDate(day) => t / DAY == day
    case Today => t / DAY == now / DAY
    case LastHours(hours) => now - t <= hours * 3600
    case LastDays(days) => now - t <= days * 24 * 3600
    case ThisMonth => MonthOf(t) == MonthOf(now)
    case ThreeMonths => now - t <= 91 * 24 * 3600
    case SixMonths => MonthOf(now) - MonthOf(t) <= 5
    case FinancialYear(None) => FiscalYear(t) == FiscalYear(now)
    case FinancialYear(Some(year)) => FiscalYear(t) == if year == 0 then FiscalYear(now) else year
  }

  /** What the dates of a request must meet: in order, not in the future, five
      years at most; a financial year has begun and is not before 2020. */
  ghost predicate Answerable(range: Range, now: Instant) {
    match range
    case Custom(first, last) => first <= last && last * DAY <= now && last < first + 1831
    case OnDate(day) => day * DAY <= now
    case FinancialYear(None) => MonthOf(now) >= 2020 * 12 + 3
    case FinancialYear(Some(year)) =>
      if year == 0 then MonthOf(now) >= 2020 * 12 + 3 else year >= 2020 && FirstDay(year * 12 + 3) * DAY <= now
    case _ => true
  }

  lemma AcceptableIff(range: Range, now: Instant)
    ensures Acceptable(range, now) <==> Answerable(range, now)
  {
    if range.FinancialYear? && SelectedYear(range.year, now) >= 2020 {
      MonthStartAround(now, SelectedYear(range.year, now) * 12 + 3);
    }
  }

  lemma SameDay(t: Instant, day: nat)
    ensures day <= t / DAY <==> day * DAY <= t
  {
  }

  lemma EarlierMonth(t: Instant, now: Instant)
    requires t <= now
    ensures MonthOf(t) <= MonthOf(now)
  {
    MonthStartBefore(t);
    MonthStartAround(now, MonthOf(t));
  }

  lemma FiscalYearIs(t: Instant, year: nat)
    ensures FiscalYear(t) == year <==> year * 12 + 3 <= MonthOf(t) < year * 12 + 15
  {
  }

  lemma InDaysIff(first: nat, last: nat, now: Instant, t: Instant)
    ensures first * DAY <= t < Min(now, (last + 1) * DAY) <==> t < now && first <= t / DAY <= last
  {
    SameDay(t, first);
    SameDay(t, last + 1);
  }

  lemma InMonthsIff(first: nat, last: nat, now: Instant, t: Instant)
    ensures FirstDay(first) * DAY <= t < Min(now, FirstDay(last + 1) * DAY) <==> t < now && first <= MonthOf(t) <= last
  {
    MonthStartAround(t, first);
    MonthStartAround(t, last + 1);
  }

  lemma InFinancialYearIff(year: Option<int>, now: Instant, t: Instant)
    requires Offered(FinancialYear(year), now) && Acceptable(FinancialYear(year), now)
    ensures var range := FinancialYear(year);
            RangeStart(range, now) <= t < RangeEnd(range, now) <==> t < now && Shown(range, now, t)
  {
    var selected := SelectedYear(year, now);
    InMonthsIff(selected * 12 + 3, selected * 12 + 14, now, t);
    FiscalYearIs(t, selected);
  }

  lemma InMonthRangeIff(range: Range, now: Instant, t: Instant)
    requires range.ThisMonth? || range.SixMonths?
    requires Offered(range, now)
    ensures RangeStart(range, now) <= t < RangeEnd(range, now) <==> t < now && Shown(range, now, t)
  {
    if t < now {
      EarlierMonth(t, now);
    }
    MonthStartAround(t, MonthOf(now));
    MonthStartAround(t, MonthOf(now) - 5);
  }

  lemma InDatesIff(range: Range, now: Instant, t: Instant)
    requires range.Custom? || range.OnDate? || range.Today?
    requires Offered(range, now) && Acceptable(range, now)
    ensures RangeStart(range, now) <= t < RangeEnd(range, now) <==> t < now && Shown(range, now, t)
  {
    match range {
      case Custom(first, last) => InDaysIff(first, last, now, t);
      case OnDate(day) => InDaysIff(day, day, now, t);
      case Today => SameDay(t, now / DAY);
    }
  }

  /** The window of an accepted range holds exactly the past visits that the
      range shows. */
  lemma InWindowIff(range: Range, now: Instant, t: Instant)
    requires Offered(range, now) && Acceptable(range, now)
    ensures RangeStart(range, now) <= t < RangeEnd(range, now) <==> t < now && Shown(range, now, t)
  {
    match range {
      case ThisMonth => InMonthRangeIff(range, now, t);
      case SixMonths => InMonthRangeIff(range, now, t);
      case FinancialYear(year) => InFinancialYearIff(year, now, t);
      case LastHours(_) =>
      case LastDays(_) =>
      case ThreeMonths =>
      case _ => InDatesIff(range, now, t);
    }
  }

  /** How far apart the lower ends of a range's buckets are. */
  function StepOf(range: Range): Step {
    match range
    case Custom(first, last) =>
      if first == last then Seconds(2 * HOUR) else if last - first < 62 then Seconds(DAY) else Months
    case OnDate(_) => Seconds(2 * HOUR)
    case Today => Seconds(2 * HOUR)
    case LastHours(hours) => Seconds(hours / 12 * HOUR)
    case LastDays(_) => Seconds(DAY)
    case ThisMonth => Seconds(DAY)
    case ThreeMonths => Seconds(WEEK)
    case SixMonths => Months
    case FinancialYear(_) => Months
  }

  /** How many points the charts with a fixed number of them show. */
  function FixedPoints(range: Range): Option<nat> {
    match range
    case LastHours(_) => Some(12)
    case LastDays(days) => Some(days)
    case ThreeMonths => Some(13)
    case SixMonths => Some(6)
    case _ => None
  }

  /** What a branch must leave behind. */
  ghost predicate Built(range: Range, now: Instant, start: Instant, end: Instant, buckets: seq<Bucket>)
    requires Offered(range, now) && Acceptable(range, now)
  {
    start == RangeStart(range, now) && end == RangeEnd(range, now) && Tiles(buckets, start, StepOf(range), end) &&
    end <= Later(StepOf(range), start, |buckets|) &&
    match FixedPoints(range)
    case Some(points) => |buckets| == points
    case None => StartBefore(buckets, end)
  }

  /** How many points a chart has: two-hour steps for one day, days, or the
      calendar months that the window touches. */
  ghost predicate HasPoints(range: Range, w: Window) {
    var points := |w.buckets|;
    match range
    case Custom(first, last) =>
      if first == last then points == (w.end - w.start + 7199) / 7200
      else if last < first + 62 then points == (w.end - w.start + 86_399) / 86_400
      else w.start < w.end ==> points == MonthOf(w.end - 1) - MonthOf(w.start) + 1
    case OnDate(_) => points == (w.end - w.start + 7199) / 7200
    case Today => points == (w.end - w.start + 7199) / 7200
    case LastHours(hours) => points == 12
    case LastDays(days) => points == days
    case ThisMonth => points == (w.end - w.start + 86_399) / 86_400
    case ThreeMonths => points == 13
    case SixMonths => points == 6
    case FinancialYear(_) => w.start < w.end ==> points == MonthOf(w.end - 1) - MonthOf(w.start) + 1
  }

  /** Steps of seconds: the last bucket starts before the end and reaches it. */
  lemma SecondsPoints(buckets: seq<Bucket>, start: Instant, stride: nat, end: Instant)
    requires stride > 0 && start <= end
    requires BucketsAt(buckets, start, Seconds(stride), end) && StartBefore(buckets, end)
    ensures |buckets| == (end - start + stride - 1) / stride
  {
    var n := |buckets|;
    if n > 0 {
      assert buckets[n - 1] in buckets && buckets[n - 1].lower == start + (n - 1) * stride;
      assert n * stride == (n - 1) * stride + stride;
      assert n * stride <= end - start + stride - 1 < n * stride + stride;
    }
    QuotientIs(end - start + stride - 1, stride, n);
  }

  lemma MonthLower(start: Instant, i: nat)
    requires start % DAY == 0 && i > 0
    ensures LowerEnd(Months, start, i) == FirstDay(MonthOf(start) + i) * DAY
  {
  }

  lemma EndsInMonth(end: Instant, month: nat)
    requires end > 0
    ensures FirstDay(month) * DAY < end <==> month <= MonthOf(end - 1)
  {
    MonthStartAround(end - 1, month);
  }

  lemma MonthsTouched(start: Instant, end: Instant, n: nat)
    requires n > 0 && start < end <= FirstDay(MonthOf(start) + n) * DAY
    requires n > 1 ==> FirstDay(MonthOf(start) + (n - 1)) * DAY < end
    ensures n == MonthOf(end - 1) - MonthOf(start) + 1
  {
    EndsInMonth(end, MonthOf(start) + n);
    EarlierMonth(start, end - 1);
    if n > 1 {
      EndsInMonth(end, MonthOf(start) + (n - 1));
    }
  }

  /** Steps of months from a midnight: one bucket for each month touched. */
  lemma MonthPoints(buckets: seq<Bucket>, start: Instant, end: Instant)
    requires start < end && start % DAY == 0
    requires BucketsAt(buckets, start, Months, end) && StartBefore(buckets, end)
    ensures |buckets| == MonthOf(end - 1) - MonthOf(start) + 1
  {
    var n := |buckets|;
    assert n > 0;
    MonthLower(start, n);
    if n > 1 {
      assert buckets[n - 1] in buckets;
      MonthLower(start, n - 1);
    }
    MonthsTouched(start, end, n);
  }

  lemma StartsAtMidnight(range: Range, now: Instant)
    requires Offered(range, now) && Acceptable(range, now)
    ensures FixedPoints(range).None? ==> RangeStart(range, now) % DAY == 0
  {
  }

  lemma PointsOk(range: Range, w: Window)
    requires BucketsAt(w.buckets, w.start, StepOf(range), w.end) && w.start <= w.end
    requires FixedPoints(range).Some? ==> |w.buckets| == FixedPoints(range).value
    requires FixedPoints(range).None? ==> StartBefore(w.buckets, w.end) && w.start % DAY == 0
    ensures HasPoints(range, w)
  {
    if FixedPoints(range).None? {
      match StepOf(range) {
        case Seconds(stride) => SecondsPoints(w.buckets, w.start, stride, w.end);
        case Months => if w.start < w.end { MonthPoints(w.buckets, w.start, w.end); }
      }
    }
  }

  /** The branches that begin at a midnight and use a `while` loop. */
  method DayBuckets(range: Range, now: Instant) returns (start: Instant, end: Instant, buckets: seq<Bucket>)
    requires Offered(range, now) && Acceptable(range, now)
    requires range.Custom? || range.OnDate? || range.Today? || range.ThisMonth?
    ensures Built(range, now, start, end, buckets)
  {
    end := now;
    match range {
      case Custom(first, last) =>
        start := first * DAY;
        end := Min(now, (last + 1) * DAY);
        var days := last - first + 1;
        if days == 1 {
          buckets := StrideBuckets(start, end, 2 * HOUR);
        } else if days <= 62 {
          buckets := StrideBuckets(start, end, DAY);
        } else {
          buckets := MonthBuckets(start, end);
        }
      case OnDate(day) =>
        start := day * DAY;
        end := Min(now, start + DAY);
        buckets := StrideBuckets(start, end, 2 * HOUR);
      case Today =>
        start := Midnight(now);
        buckets := StrideBuckets(start, end, 2 * HOUR);
      case ThisMonth =>
        start := MonthStart(now);
        MonthStartBefore(now);
        buckets := StrideBuckets(start, end, DAY);
    }
  }

  /** The branches that count back from now. */
  method RollingBuckets(range: Range, now: Instant) returns (start: Instant, end: Instant, buckets: seq<Bucket>)
    requires Offered(range, now) && Acceptable(range, now)
    requires range.LastHours? || range.LastDays? || range.ThreeMonths?
    ensures Built(range, now, start, end, buckets)
  {
    end := now;
    match range {
      case LastHours(hours) =>
        start, buckets := CountedBuckets(now, 12, hours / 12 * HOUR);
      case LastDays(days) =>
        start, buckets := CountedBuckets(now, days, DAY);
      case ThreeMonths =>
        start, buckets := CountedBuckets(now, 13, WEEK);
    }
  }

  method FinancialYearBuckets(selected: nat, now: Instant)
    returns (start: Instant, end: Instant, buckets: seq<Bucket>)
    requires selected <= CurrentFinancialYear(now)
    ensures start == FirstDay(selected * 12 + 3) * DAY && end == Min(now, FirstDay(selected * 12 + 15) * DAY)
    ensures Tiles(buckets, start, Months, end) && StartBefore(buckets, end)
    ensures end <= Later(Months, start, |buckets|)
  {
    FinancialYearStartsBefore(selected, now);
    FirstDayIncreases(selected * 12 + 3, selected * 12 + 15);
    start := FirstDay(selected * 12 + 3) * DAY;
    end := Min(now, FirstDay(selected * 12 + 15) * DAY);
    buckets := MonthBuckets(start, end);
  }

  /** The branches made of calendar months. */
  method CalendarBuckets(range: Range, now: Instant) returns (start: Instant, end: Instant, buckets: seq<Bucket>)
    requires Offered(range, now) && Acceptable(range, now)
    requires range.SixMonths? || range.FinancialYear?
    ensures Built(range, now, start, end, buckets)
  {
    end := now;
    match range {
      case SixMonths =>
        start, buckets := SixMonthBuckets(now);
      case FinancialYear(year) =>
        start, end, buckets := FinancialYearBuckets(SelectedYear(year, now), now);
    }
  }

  /** What every branch leaves behind is what the window promises. */
  lemma BuiltOk(range: Range, now: Instant, w: Window)
    requires Offered(range, now) && Acceptable(range, now) && Built(range, now, w.start, w.end, w.buckets)
    ensures Covers(w.buckets, w.start, w.end) && BucketsAt(w.buckets, w.start, StepOf(range), w.end)
    ensures HasPoints(range, w)
    ensures forall t: Instant :: w.start <= t < w.end <==> t < now && Shown(range, now, t)
  {
    TilesCover(w.buckets, w.start, StepOf(range), w.end);
    TilesAt(w.buckets, w.start, StepOf(range), w.end);
    CoveredInOrder(w.buckets, w.start, w.end);
    StartsAtMidnight(range, now);
    PointsOk(range, w);
    forall t: Instant ensures w.start <= t < w.end <==> t < now && Shown(range, now, t) {
      InWindowIff(range, now, t);
    }
  }

  /** For every offered key the buckets cover exactly its window, each starts
      its number of steps after the window does, and every loop ends; invalid
      dates and years are refused. */
  method DashboardRangeWindow(range: Range, now: Instant) returns (result: Result)
    requires Offered(range, now)
    ensures result.Ok? <==> Answerable(range, now)
    ensures result.Ok? ==> Acceptable(range, now)
    ensures result.Ok? ==> result.window.start == RangeStart(range, now) && result.window.end == RangeEnd(range, now)
    ensures result.Ok? ==> forall t: Instant ::
      result.window.start <= t < result.window.end <==> t < now && Shown(range, now, t)
    ensures result.Ok? ==> Covers(result.window.buckets, result.window.start, result.window.end)
    ensures result.Ok? ==> HasPoints(range, result.window)
    ensures result.Ok? ==>
      BucketsAt(result.window.buckets, result.window.start, StepOf(range), result.window.end)
  {
    AcceptableIff(range, now);
    if !Acceptable(range, now) {
      return Refused;
    }
    var start, end, buckets;
    match range {
      case Custom(_, _) => start, end, buckets := DayBuckets(range, now);
      case OnDate(_) => start, end, buckets := DayBuckets(range, now);
      case Today => start, end, buckets := DayBuckets(range, now);
      case ThisMonth => start, end, buckets := DayBuckets(range, now);
      case SixMonths => start, end, buckets := CalendarBuckets(range, now);
      case FinancialYear(_) => start, end, buckets := CalendarBuckets(range, now);
      case _ => start, end, buckets := RollingBuckets(range, now);
    }
    BuiltOk(range, now, Window(start, end, buckets));
    return Ok(Window(start, end, buckets));
  }

  // ---- dashboard_comparison_window ----

  function ComparisonStart(range: Range, w: Window): int
    requires range.ThisMonth? ==> MonthOf(w.start) >= 1
  {
    if range.ThisMonth? then MonthShift(w.start, -1) else 2 * w.start - w.end
  }

  function ComparisonEnd(range: Range, w: Window): int
    requires range.ThisMonth? ==> MonthOf(w.start) >= 1
  {
    if range.ThisMonth? then
      var shifted := MonthShift(w.start, -1) + (w.end - w.start);
      if w.start <= shifted then w.start else shifted
    else w.start
  }

  lemma OneMonthBack(start: Instant)
    requires MonthOf(start) >= 1 && start == MonthStart(start)
    ensures MonthShift(start, -1) == FirstDay(MonthOf(start) - 1) * DAY
    ensures start == FirstDay(MonthOf(start)) * DAY == MonthShift(start, -1) + DaysIn(MonthOf(start) - 1) * DAY
  {
    MonthStartBefore(start);
  }

  /** The baseline of a month to date holds the visits as far into the month
      before, any other one those as long before, and none of the selected
      window.  It is equally long unless the month so far outruns the whole
      previous month. */
  lemma ComparisonIsFair(range: Range, w: Window, t: Instant)
    requires w.start <= w.end
    requires range.ThisMonth? ==> MonthOf(w.start) >= 1 && w.start == MonthStart(w.start)
    ensures ComparisonStart(range, w) <= ComparisonEnd(range, w) <= w.start
    ensures var same := ComparisonEnd(range, w) - ComparisonStart(range, w) == w.end - w.start;
            same <==> !range.ThisMonth? || w.end - w.start <= DaysIn(MonthOf(w.start) - 1) * DAY
    ensures ComparisonStart(range, w) <= t < ComparisonEnd(range, w) <==>
      if range.ThisMonth? then MonthOf(t) + 1 == MonthOf(w.start) && t - MonthStart(t) < w.end - w.start
      else w.start <= t + (w.end - w.start) < w.end
  {
    if range.ThisMonth? {
      OneMonthBack(w.start);
      MonthStartAround(t, MonthOf(w.start));
      MonthStartAround(t, MonthOf(w.start) - 1);
    }
  }
}
