/**
 * The calendar arithmetic of the date utilities, on integer years and on
 * instants given as milliseconds since the epoch: the leap-year rule, the
 * number of leap years between two years, the table of time units, unit
 * conversion and the distance between two instants in each unit.
 *
 * A `Date` argument is an `Option<int>` (None is Java's null) holding the
 * instant in milliseconds, or, where the Java code first formats the date as
 * "yyyy", the calendar year it formats to.
 */
module DateUtils {
  import opened Wrappers

  // ---------------------------------------------------------------------
  // Integer helpers with Java's meaning.

  function Abs(x: int): (r: nat)
    ensures r == x || r == -x
  {
    if x < 0 then -x else x
  }

  function Min(a: int, b: int): int { if a <= b then a else b }

  function Max(a: int, b: int): int { if a <= b then b else a }

  /** Java's `/` on a positive divisor: the quotient rounded toward zero (Dafny's `/` rounds down). */
  function JavaDiv(a: int, b: int): (q: int)
    requires b > 0
    ensures a >= 0 ==> b * q <= a < b * (q + 1)
    ensures a < 0 ==> b * (q - 1) < a <= b * q
  {
    if a >= 0 then a / b else -((-a) / b)
  }

  /** Division is determined by a quotient and a remainder in range. */
  lemma DivUnique(a: int, d: int, q: int, r: int)
    requires d > 0 && 0 <= r < d && a == d * q + r
    ensures a / d == q && a % d == r
  {
    var q0, r0 := a / d, a % d;
    assert a == d * q0 + r0;
    var e := q0 - q;
    assert d * e == r - r0;
    // |r - r0| < d leaves only e == 0
    if e > 0 {
      assert false;
    } else if e < 0 {
      assert false;
    }
  }

  // ---------------------------------------------------------------------
  // Leap years.

  /** isLeapYear(int): divisible by 4 but not by 100, or divisible by 400. */
  predicate IsLeapYear(year: int)
    ensures year % 4 != 0 ==> !IsLeapYear(year)
    ensures year % 4 == 0 && year % 100 != 0 ==> IsLeapYear(year)
    ensures year % 100 == 0 ==> (IsLeapYear(year) <==> year % 400 == 0)
  {
    CenturyDivisors(year);
    (year % 4 == 0 && year % 100 != 0) || year % 400 == 0
  }

  /** A multiple of 400 is a multiple of 4 and of 100. */
  lemma CenturyDivisors(year: int)
    ensures year % 400 == 0 ==> year % 4 == 0 && year % 100 == 0
  {
    if year % 400 == 0 {
      var q := year / 400;
      assert year == 4 * (100 * q) == 100 * (4 * q);
    }
  }

  /** The number of leap years from `lo` to `hi`, both included. */
  function LeapYearsIn(lo: int, hi: int): (n: nat)
    ensures n <= if lo <= hi then hi - lo + 1 else 0
    decreases hi - lo
  {
    if lo > hi then 0 else LeapYearsIn(lo, hi - 1) + (if IsLeapYear(hi) then 1 else 0)
  }

  /**
   * getLeapYearCount on the years its two dates format to: with one date
   * null, whether the other one's year is a leap year; with both null, none;
   * otherwise the leap years of the closed range between the two years.
   */
  method GetLeapYearCount(start: Option<int>, end: Option<int>) returns (count: int)
    ensures start.None? ==> count == (if end.Some? && IsLeapYear(end.value) then 1 else 0)
    ensures start.Some? && end.None? ==> count == (if IsLeapYear(start.value) then 1 else 0)
    ensures start.Some? && end.Some? ==>
              count == LeapYearsIn(Min(start.value, end.value), Max(start.value, end.value))
  {
    if start.None? {
      return if end.Some? && IsLeapYear(end.value) then 1 else 0;
    }
    if end.None? {
      return if IsLeapYear(start.value) then 1 else 0;
    }
    var startYear, endYear := start.value, end.value;
    if startYear == endYear {
      return if IsLeapYear(startYear) then 1 else 0;
    }
    var leapYears := 0;
    var offset := Abs(startYear - endYear);
    var year := Min(startYear, endYear);
    // The Java loop is a do-while; here offset >= 1, so its first test would pass anyway.
    while offset > -1
      invariant offset >= -1
      invariant year + offset == Max(startYear, endYear)
      invariant leapYears == LeapYearsIn(Min(startYear, endYear), year - 1)
      decreases offset
    {
      if IsLeapYear(year) {
        leapYears := leapYears + 1;
      }
      year := year + 1;
      offset := offset - 1;
    }
    return leapYears;
  }

  /** The leap years up to `n`, counted from a fixed origin: the Gregorian closed form. */
  function LeapsUpTo(n: int): int {
    n / 4 - n / 100 + n / 400
  }

  /** Stepping `n` by one moves `n / d` by one exactly when `d` divides `n`. */
  lemma DivStep(n: int, d: int)
    requires d > 0
    ensures n / d - (n - 1) / d == if n % d == 0 then 1 else 0
  {
    assert n == d * (n / d) + n % d;
    if n % d == 0 {
      DivUnique(n - 1, d, n / d - 1, d - 1);
    } else {
      DivUnique(n - 1, d, n / d, n % d - 1);
    }
  }

  lemma LeapStep(n: int)
    ensures LeapsUpTo(n) - LeapsUpTo(n - 1) == if IsLeapYear(n) then 1 else 0
  {
    DivStep(n, 4);
    DivStep(n, 100);
    DivStep(n, 400);
    if n % 400 == 0 {
      DivUnique(n, 4, n / 400 * 100, 0);
      DivUnique(n, 100, n / 400 * 4, 0);
    } else if n % 100 == 0 {
      DivUnique(n, 4, n / 100 * 25, 0);
    }
  }

  /** The count of a range is the difference of the closed form at its two ends. */
  lemma {:induction false} LeapYearsInClosedForm(lo: int, hi: int)
    requires lo <= hi + 1
    ensures LeapYearsIn(lo, hi) == LeapsUpTo(hi) - LeapsUpTo(lo - 1)
    decreases hi - lo
  {
    if lo <= hi {
      LeapYearsInClosedForm(lo, hi - 1);
      LeapStep(hi);
    }
  }

  lemma ShiftDiv(n: int, d: int, k: int)
    requires d > 0
    ensures (n + d * k) / d == n / d + k
  {
    assert n == d * (n / d) + n % d;
    assert n + d * k == d * (n / d + k) + n % d;
    DivUnique(n + d * k, d, n / d + k, n % d);
  }

  /** Every run of 400 consecutive years holds exactly 97 leap years. */
  lemma LeapYearsPer400(lo: int)
    ensures LeapYearsIn(lo, lo + 399) == 97
  {
    LeapYearsInClosedForm(lo, lo + 399);
    var n := lo - 1;
    ShiftDiv(n, 4, 100);
    ShiftDiv(n, 100, 4);
    ShiftDiv(n, 400, 1);
    assert LeapsUpTo(n + 400) == LeapsUpTo(n) + 97;
  }

  lemma LeapYearExamples()
    ensures IsLeapYear(2000) && IsLeapYear(2024)
    ensures !IsLeapYear(1900) && !IsLeapYear(2023)
    ensures LeapYearsIn(1999, 2004) == 2
  {
    assert LeapYearsIn(1999, 2003) == 1 by {
      assert LeapYearsIn(1999, 2000) == 1;
    }
  }

  // ---------------------------------------------------------------------
  // Time units.

  /** UM_MS: the milliseconds in each named unit. */
  const UnitMillisTable: map<string, int> := map[
    "ms" := 1, "msec" := 1,
    "s" := 1000, "sec" := 1000,
    "min" := 60000,
    "h" := 3600000, "hr" := 3600000,
    "d" := 86400000, "day" := 86400000,
    "w" := 604800000,
    "m" := 2592000000, "lm" := 2592000000,
    "bm" := 2678400000,
    "feb" := 2419200000,
    "lyFeb" := 2505600000,
    "y" := 31536000000,
    "ly" := 31622400000
  ]

  const SecondMillis := 1000
  const MinuteMillis := 60 * SecondMillis
  const HourMillis := 60 * MinuteMillis
  const DayMillis := 24 * HourMillis
  const WeekMillis := 7 * DayMillis

  /** The table agrees with the calendar: 60 s a minute, 24 h a day, 7 days a week, months and years of whole days. */
  lemma UnitTableConsistent()
    ensures UnitMillisTable["ms"] == UnitMillisTable["msec"] == 1
    ensures UnitMillisTable["s"] == UnitMillisTable["sec"] == SecondMillis
    ensures UnitMillisTable["min"] == MinuteMillis
    ensures UnitMillisTable["h"] == UnitMillisTable["hr"] == HourMillis
    ensures UnitMillisTable["d"] == UnitMillisTable["day"] == DayMillis
    ensures UnitMillisTable["w"] == WeekMillis
    ensures UnitMillisTable["m"] == UnitMillisTable["lm"] == 30 * DayMillis
    ensures UnitMillisTable["bm"] == 31 * DayMillis
    ensures UnitMillisTable["feb"] == 28 * DayMillis
    ensures UnitMillisTable["lyFeb"] == 29 * DayMillis
    ensures UnitMillisTable["y"] == 365 * DayMillis
    ensures UnitMillisTable["ly"] == 366 * DayMillis
  {
  }

  /** unitMillis: the milliseconds of a known unit; an unknown or null unit counts as one millisecond. */
  function UnitMillis(um: Option<string>): (ms: int)
    ensures ms >= 1
    ensures um.None? || um.value !in UnitMillisTable ==> ms == 1
    ensures um.Some? && um.value in UnitMillisTable ==> ms == UnitMillisTable[um.value]
  {
    if um.Some? && um.value in UnitMillisTable then UnitMillisTable[um.value] else UnitMillisTable["ms"]
  }

  /** getMillis: `time` units in milliseconds. */
  function GetMillis(time: int, um: Option<string>): (ms: int)
    ensures UnitMillis(um) == 1 ==> ms == time
    ensures (ms < 0 <==> time < 0) && (ms == 0 <==> time == 0)
    ensures ms % UnitMillis(um) == 0 && ms / UnitMillis(um) == time
  {
    DivUnique(UnitMillis(um) * time, UnitMillis(um), time, 0);
    time * UnitMillis(um)
  }

  /** getSecond: `time` units in whole seconds, truncated toward zero as Java's long division does. */
  function GetSecond(time: int, um: Option<string>): (s: int)
    ensures var ms := GetMillis(time, um);
            Abs(ms) - SecondMillis < SecondMillis * Abs(s) <= Abs(ms)
    ensures s != 0 ==> (s < 0 <==> time < 0)
  {
    JavaDiv(GetMillis(time, um), UnitMillisTable["sec"])
  }

  lemma ConversionExamples(t: int)
    ensures GetSecond(t, Some("min")) == 60 * t
    ensures GetSecond(t, Some("sec")) == t
    ensures GetSecond(-1500, Some("ms")) == -1
    ensures GetSecond(1500, None) == 1
    ensures GetMillis(t, Some("week")) == t
  {
    if t >= 0 {
      DivUnique(t * 60000, 1000, 60 * t, 0);
      DivUnique(t * 1000, 1000, t, 0);
    } else {
      DivUnique(-(t * 60000), 1000, -60 * t, 0);
      DivUnique(-(t * 1000), 1000, -t, 0);
    }
  }

  // ---------------------------------------------------------------------
  // Intervals between instants.

  /** getIntervalMillis: the distance between two instants; a null instant fails the not-null assertion. */
  function GetIntervalMillis(start: Option<int>, end: Option<int>): (r: Result<int>)
    ensures r.Failure? <==> start.None? || end.None?
    ensures r.Failure? ==> r.error == IllegalArgument
    ensures r.Success? ==> r.value >= 0 && (r.value == end.value - start.value || r.value == start.value - end.value)
  {
    if start.None? || end.None? then Failure(IllegalArgument)
    else Success(Abs(end.value - start.value))
  }

  /** The distance does not depend on the order of the two instants. */
  lemma IntervalSymmetric(a: Option<int>, b: Option<int>)
    ensures GetIntervalMillis(a, b) == GetIntervalMillis(b, a)
  {
  }

  /** The distance in whole units of `unit` milliseconds. */
  function IntervalIn(start: Option<int>, end: Option<int>, unit: string): (r: Result<int>)
    requires unit in UnitMillisTable
  {
    var ms := GetIntervalMillis(start, end);
    if ms.Failure? then Failure(ms.error) else Success(ms.value / UnitMillisTable[unit])
  }

  /** What each getIntervalX promises: the whole units that fit into the distance, failing on null. */
  ghost predicate WholeUnits(start: Option<int>, end: Option<int>, unit: int, r: Result<int>)
    requires unit > 0
  {
    && (r.Failure? <==> start.None? || end.None?)
    && (r.Failure? ==> r.error == IllegalArgument)
    && (r.Success? ==> unit * r.value <= Abs(end.value - start.value) < unit * (r.value + 1))
  }

  function GetIntervalSecond(start: Option<int>, end: Option<int>): (r: Result<int>)
    ensures WholeUnits(start, end, SecondMillis, r)
  {
    IntervalIn(start, end, "sec")
  }

  function GetIntervalMinute(start: Option<int>, end: Option<int>): (r: Result<int>)
    ensures WholeUnits(start, end, MinuteMillis, r)
  {
    IntervalIn(start, end, "min")
  }

  function GetIntervalHour(start: Option<int>, end: Option<int>): (r: Result<int>)
    ensures WholeUnits(start, end, HourMillis, r)
  {
    IntervalIn(start, end, "hr")
  }

  function GetIntervalDay(start: Option<int>, end: Option<int>): (r: Result<int>)
    ensures WholeUnits(start, end, DayMillis, r)
  {
    IntervalIn(start, end, "day")
  }

  function GetIntervalWeek(start: Option<int>, end: Option<int>): (r: Result<int>)
    ensures WholeUnits(start, end, WeekMillis, r)
  {
    IntervalIn(start, end, "w")
  }

  /** Coarser units count no more: a distance of w weeks is at least 7w days, and so on down to seconds. */
  lemma IntervalUnitsNest(start: int, end: int)
    ensures GetIntervalWeek(Some(start), Some(end)).value * 7 <= GetIntervalDay(Some(start), Some(end)).value
    ensures GetIntervalDay(Some(start), Some(end)).value * 24 <= GetIntervalHour(Some(start), Some(end)).value
    ensures GetIntervalHour(Some(start), Some(end)).value * 60 <= GetIntervalMinute(Some(start), Some(end)).value
    ensures GetIntervalMinute(Some(start), Some(end)).value * 60 <= GetIntervalSecond(Some(start), Some(end)).value
  {
    var ms := Abs(end - start);
    var w, d, h := ms / WeekMillis, ms / DayMillis, ms / HourMillis;
    var m, s := ms / MinuteMillis, ms / SecondMillis;
    assert WeekMillis * w <= ms < DayMillis * (d + 1);
    assert DayMillis * d <= ms < HourMillis * (h + 1);
    assert HourMillis * h <= ms < MinuteMillis * (m + 1);
    assert MinuteMillis * m <= ms < SecondMillis * (s + 1);
  }

  // ---------------------------------------------------------------------
  // Same day.

  /** isSameDay as written: both present and less than a day apart. */
  function IsSameDay(now: Option<int>, other: Option<int>): (b: bool)
    ensures b <==> now.Some? && other.Some? && Abs(other.value - now.value) < DayMillis
  {
    if now.None? || other.None? then false
    else GetIntervalMillis(now, other).value / UnitMillisTable["day"] == 0
  }

  /** Less than a day apart is not the same calendar day, and it is not transitive. */
  lemma IsSameDayCounterexamples()
    ensures IsSameDay(Some(DayMillis - 1), Some(DayMillis))
    ensures !SameCalendarDay(Some(DayMillis - 1), Some(DayMillis), 0)
    ensures IsSameDay(Some(0), Some(50000000)) && IsSameDay(Some(50000000), Some(100000000))
    ensures !IsSameDay(Some(0), Some(100000000))
  {
    DivUnique(DayMillis - 1, DayMillis, 0, DayMillis - 1);
    DivUnique(DayMillis, DayMillis, 1, 0);
  }

  /** The day an instant falls on, in a time zone `offset` milliseconds ahead of UTC. */
  function DayIndex(t: int, offset: int): int {
    (t + offset) / DayMillis
  }

  /** isSameDay as evidently intended: both instants fall on the same calendar day of one time zone. */
  predicate SameCalendarDay(now: Option<int>, other: Option<int>, offset: int) {
    now.Some? && other.Some? && DayIndex(now.value, offset) == DayIndex(other.value, offset)
  }

  /** The intended relation is transitive, and it implies the as-written one. */
  lemma SameCalendarDayProperties(a: Option<int>, b: Option<int>, c: Option<int>, offset: int)
    ensures SameCalendarDay(a, b, offset) && SameCalendarDay(b, c, offset) ==> SameCalendarDay(a, c, offset)
    ensures SameCalendarDay(a, b, offset) ==> IsSameDay(a, b)
  {
    if SameCalendarDay(a, b, offset) {
      var x, y := a.value + offset, b.value + offset;
      var k := x / DayMillis;
      assert x == DayMillis * k + x % DayMillis;
      assert y == DayMillis * k + y % DayMillis;
    }
  }
}
