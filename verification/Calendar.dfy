/**
  UTC calendar arithmetic: utcMidnightMillis, toUtcDateString and calendarDaysUntil.

  Time values, Day, YearFromTime and MakeDay follow section 21.4.1 of ECMA-262, Date.UTC follows
  section 21.4.3.4. The API and the worker hold the same text twice; this module models both.
*/
module Calendar {
  import opened Wrappers
  import opened Decimal

  const MS_PER_DAY := 86_400_000
  const MAX_TIME := 8_640_000_000_000_000

  /** A valid JavaScript time value, in milliseconds since the epoch. */
  type Instant = t: int | -MAX_TIME <= t <= MAX_TIME

  /** A moment since the epoch, as a host clock reads it. */
  type Clock = t: Instant | 0 <= t

  // ---- proleptic Gregorian calendar ----

  predicate IsLeap(y: int) {
    y % 4 == 0 && (y % 100 != 0 || y % 400 == 0)
  }

  function DaysInYear(y: int): int {
    if IsLeap(y) then 366 else 365
  }

  /** The day number of January 1st of year y. */
  function DayFromYear(y: int): int {
    365 * (y - 1970) + (y - 1969) / 4 - (y - 1901) / 100 + (y - 1601) / 400
  }

  /** Days of year y before the zero-based month m; m == 12 gives the length of the year. */
  function DaysBeforeMonth(y: int, m: int): int
    requires 0 <= m <= 12
  {
    DaysBefore(m) + (if m >= 2 && IsLeap(y) then 1 else 0)
  }

  /** Days before the zero-based month m of a common year. */
  function DaysBefore(m: int): int
    requires 0 <= m <= 12
  {
    if m == 0 then 0 else if m == 1 then 31 else if m == 2 then 59 else if m == 3 then 90 else if m == 4 then 120
    else if m == 5 then 151 else if m == 6 then 181 else if m == 7 then 212 else if m == 8 then 243 else if m == 9 then 273
    else if m == 10 then 304 else if m == 11 then 334 else 365
  }

  datatype Civil = Civil(year: int, month: int, day: int)

  predicate ValidCivil(c: Civil) {
    1 <= c.month <= 12 && 1 <= c.day <= DaysBeforeMonth(c.year, c.month) - DaysBeforeMonth(c.year, c.month - 1)
  }

  /** Year, then month, then day. */
  predicate Before(a: Civil, b: Civil) {
    a.year < b.year || (a.year == b.year && (a.month < b.month || (a.month == b.month && a.day < b.day)))
  }

  function DayNumber(c: Civil): int
    requires ValidCivil(c)
  {
    DayFromYear(c.year) + DaysBeforeMonth(c.year, c.month - 1) + c.day - 1
  }

  lemma LeapTerms(y: int)
    ensures (y - 1968) / 4 - (y - 1969) / 4 == (if y % 4 == 0 then 1 else 0)
    ensures (y - 1900) / 100 - (y - 1901) / 100 == (if y % 100 == 0 then 1 else 0)
    ensures (y - 1600) / 400 - (y - 1601) / 400 == (if y % 400 == 0 then 1 else 0)
  {
    assert y - 1968 == 4 * (y / 4 - 492) + y % 4;
    assert y - 1900 == 100 * (y / 100 - 19) + y % 100;
    assert y - 1600 == 400 * (y / 400 - 4) + y % 400;
  }

  lemma LeapNesting(y: int)
    ensures y % 400 == 0 ==> y % 100 == 0
    ensures y % 100 == 0 ==> y % 4 == 0
  {
    var q, r := y / 100, y / 400;
    assert y == 100 * q + y % 100 && y == 400 * r + y % 400;
    assert y % 400 == 0 ==> y == 100 * (4 * r);
    assert y % 100 == 0 ==> y == 4 * (25 * q);
  }

  lemma YearStep(y: int)
    ensures DayFromYear(y + 1) == DayFromYear(y) + DaysInYear(y)
  {
    LeapTerms(y);
    LeapNesting(y);
  }

  lemma {:induction false} YearsAreMonotone(y: int, z: int)
    requires y <= z
    ensures DayFromYear(z) >= DayFromYear(y) + 365 * (z - y)
    decreases z - y
  {
    if y < z {
      YearStep(z - 1);
      YearsAreMonotone(y, z - 1);
    }
  }

  /** The largest year, from y on, that starts no later than day n. */
  function YearFrom(n: int, y: int): int
    decreases n - DayFromYear(y)
  {
    YearStep(y);
    if n < DayFromYear(y + 1) then y else YearFrom(n, y + 1)
  }

  lemma {:induction false} YearFromHolds(n: int, y: int)
    requires DayFromYear(y) <= n
    ensures DayFromYear(YearFrom(n, y)) <= n < DayFromYear(YearFrom(n, y) + 1)
    decreases n - DayFromYear(y)
  {
    YearStep(y);
    if DayFromYear(y + 1) <= n {
      YearFromHolds(n, y + 1);
    }
  }

  /** A year that starts no later than day n: no year has more than 366 days, none fewer than 365. */
  function EarlyYear(n: int): int {
    1970 + if n >= 0 then n / 366 else n / 365 - 1
  }

  /** YearFromTime of ECMA-262, on day numbers. */
  function YearFromDay(n: int): int {
    YearFrom(n, EarlyYear(n))
  }

  lemma YearHoldsDay(n: int)
    ensures DayFromYear(YearFromDay(n)) <= n < DayFromYear(YearFromDay(n) + 1)
  {
    assert DayFromYear(EarlyYear(n)) <= n;
    YearFromHolds(n, EarlyYear(n));
  }

  /** The month (1 to 12) that holds the zero-based day k of year y, searched from month m. */
  function MonthFrom(y: int, k: int, m: int): int
    requires 1 <= m <= 12
    decreases 12 - m
  {
    if m == 12 || k < DaysBeforeMonth(y, m) then m else MonthFrom(y, k, m + 1)
  }

  lemma {:induction false} MonthFromHolds(y: int, k: int, m: int)
    requires 1 <= m <= 12 && DaysBeforeMonth(y, m - 1) <= k < DaysInYear(y)
    ensures var r := MonthFrom(y, k, m); m <= r <= 12 && DaysBeforeMonth(y, r - 1) <= k < DaysBeforeMonth(y, r)
    decreases 12 - m
  {
    if m < 12 && DaysBeforeMonth(y, m) <= k {
      MonthFromHolds(y, k, m + 1);
    }
  }

  lemma {:induction false} MonthFromRange(y: int, k: int, m: int)
    requires 1 <= m <= 12
    ensures m <= MonthFrom(y, k, m) <= 12
    decreases 12 - m
  {
    if m < 12 && DaysBeforeMonth(y, m) <= k {
      MonthFromRange(y, k, m + 1);
    }
  }

  /** The UTC date of day number n. */
  function CivilFromDay(n: int): Civil {
    var y := YearFromDay(n);
    var k := n - DayFromYear(y);
    MonthFromRange(y, k, 1);
    var m := MonthFrom(y, k, 1);
    Civil(y, m, k - DaysBeforeMonth(y, m - 1) + 1)
  }

  lemma MonthsAreMonotone(y: int, m: int, r: int)
    requires 0 <= m <= r <= 12
    ensures DaysBeforeMonth(y, m) <= DaysBeforeMonth(y, r)
    ensures m < r ==> DaysBeforeMonth(y, m) < DaysBeforeMonth(y, r)
  {
  }

  lemma DayOfYearBounds(c: Civil)
    requires ValidCivil(c)
    ensures DayFromYear(c.year) <= DayNumber(c) < DayFromYear(c.year + 1)
  {
    YearStep(c.year);
    MonthsAreMonotone(c.year, c.month, 12);
    MonthsAreMonotone(c.year, 0, c.month - 1);
  }

  /** The day number preserves the order of dates, in both directions. */
  lemma DayNumberPreservesOrder(a: Civil, b: Civil)
    requires ValidCivil(a) && ValidCivil(b)
    ensures Before(a, b) <==> DayNumber(a) < DayNumber(b)
    ensures a == b <==> DayNumber(a) == DayNumber(b)
  {
    if Before(a, b) {
      EarlierIsSmaller(a, b);
    } else if Before(b, a) {
      EarlierIsSmaller(b, a);
    }
  }

  lemma EarlierIsSmaller(a: Civil, b: Civil)
    requires ValidCivil(a) && ValidCivil(b) && Before(a, b)
    ensures DayNumber(a) < DayNumber(b)
  {
    DayOfYearBounds(a);
    DayOfYearBounds(b);
    if a.year < b.year {
      YearsAreMonotone(a.year + 1, b.year);
    } else if a.month < b.month {
      MonthsAreMonotone(a.year, a.month, b.month - 1);
    }
  }

  lemma DayOfCivilOfDay(n: int)
    ensures ValidCivil(CivilFromDay(n)) && DayNumber(CivilFromDay(n)) == n
  {
    var y := YearFromDay(n);
    YearHoldsDay(n);
    YearStep(y);
    MonthFromHolds(y, n - DayFromYear(y), 1);
  }

  /** Dates and day numbers are in bijection. */
  lemma CivilOfDayOfCivil(c: Civil)
    requires ValidCivil(c)
    ensures CivilFromDay(DayNumber(c)) == c
  {
    DayOfCivilOfDay(DayNumber(c));
    DayNumberPreservesOrder(c, CivilFromDay(DayNumber(c)));
  }

  // ---- the calendar that the day numbers follow ----

  /** The months of the Gregorian calendar, leap years by the rule of 4, 100 and 400. */
  lemma MonthLengths(y: int, m: int)
    requires 1 <= m <= 12
    ensures var length := DaysBeforeMonth(y, m) - DaysBeforeMonth(y, m - 1);
      length == if m == 2 then (if (y % 4 == 0 && y % 100 != 0) || y % 400 == 0 then 29 else 28)
                else if m in {4, 6, 9, 11} then 30 else 31
  {
    LeapNesting(y);
  }

  lemma EpochIsDayZero()
    ensures DayNumber(Civil(1970, 1, 1)) == 0
  {
  }

  /** The day after a date: the next of the month, the first of the next month, or January 1st. */
  lemma NextDay(c: Civil)
    requires ValidCivil(c)
    ensures var next := if ValidCivil(c.(day := c.day + 1)) then c.(day := c.day + 1)
                        else if c.month < 12 then Civil(c.year, c.month + 1, 1) else Civil(c.year + 1, 1, 1);
      ValidCivil(next) && DayNumber(next) == DayNumber(c) + 1
  {
    YearStep(c.year);
    MonthLengths(c.year, c.month);
    MonthLengths(if c.month < 12 then c.year else c.year + 1, if c.month < 12 then c.month + 1 else 1);
  }

  // ---- Date.UTC and the two functions of the source ----

  /** The day of Date.UTC(y, m, d): years 0 to 99 mean 1900 to 1999, and m and d may overflow their ranges. */
  function DayUTC(y: int, m: int, d: int): int {
    var fullYear := if 0 <= y <= 99 then 1900 + y else y;
    DayFromYear(fullYear + m / 12) + DaysBeforeMonth(fullYear + m / 12, m % 12) + d - 1
  }

  function DateUTC(y: int, m: int, d: int): int {
    DayUTC(y, m, d) * MS_PER_DAY
  }

  function Signed(negative: bool, n: nat): int {
    if negative then 0 - n else n
  }

  /** Number(s) for an optionally signed string of digits; anything else counts as NaN. */
  function ToNumber(s: string): Option<int> {
    if s != "" && (s[0] == '+' || s[0] == '-') then
      var v := if |s| == 1 then None else DigitsValue(s[1..]);
      if v.None? then None else Some(Signed(s[0] == '-', v.value))
    else
      var v := DigitsValue(s);
      if v.None? then None else Some(v.value)
  }

  /** s.slice(a, b) */
  function Slice(s: string, a: nat, b: nat): string
    requires a <= b
  {
    if |s| <= a then "" else if |s| <= b then s[a..] else s[a..b]
  }

  /** The DATE text or the Date object that the source accepts. */
  datatype DateValue = Text(text: string) | Moment(at: Instant)

  function DayOf(t: Instant): int {
    t / MS_PER_DAY
  }

  function UtcDate(t: Instant): Civil {
    CivilFromDay(DayOf(t))
  }

  /** A day holds the 86,400,000 milliseconds from its midnight on. */
  lemma DayHoldsItsMoments(t: Instant)
    ensures DayOf(t) * 86_400_000 <= t < (DayOf(t) + 1) * 86_400_000
  {
  }

  /** A missing value stands for NaN. */
  function UtcMidnightMillis(value: DateValue): Option<int> {
    match value
    case Text(text) =>
      var s := Slice(text, 0, 10);
      var y, m, d := ToNumber(Slice(s, 0, 4)), ToNumber(Slice(s, 5, 7)), ToNumber(Slice(s, 8, 10));
      if y.Some? && m.Some? && d.Some? then Some(DateUTC(y.value, m.value - 1, d.value)) else None
    case Moment(t) =>
      var c := UtcDate(t);
      Some(DateUTC(c.year, c.month - 1, c.day))
  }

  /** The year as toISOString prints it. */
  function YearText(y: int): string {
    if 0 <= y <= 9999 then Padded(y, 4) else if y > 0 then "+" + Padded(y, 6) else "-" + Padded(-y, 6)
  }

  function DateText(c: Civil): (s: string)
    requires 0 <= c.month && 0 <= c.day
    ensures |s| >= 10
  {
    YearText(c.year) + "-" + Padded(c.month, 2) + "-" + Padded(c.day, 2)
  }

  /** instant.toISOString().slice(0, 10): the time of day starts after the date text. */
  function ToUtcDateString(t: Instant): (s: string)
    ensures |s| == 10
  {
    DayOfCivilOfDay(DayOf(t));
    Slice(DateText(UtcDate(t)), 0, 10)
  }

  /** Math.round(a / b): halves go up. */
  function RoundDiv(a: int, b: int): int
    requires b > 0
  {
    (2 * a + b) / (2 * b)
  }

  /** NaN in either midnight makes the difference NaN. */
  function DaysBetween(later: Option<int>, earlier: Option<int>): Option<int> {
    if later.Some? && earlier.Some? then Some(RoundDiv(later.value - earlier.value, MS_PER_DAY)) else None
  }

  function CalendarDaysUntil(expiryDate: DateValue, now: Instant): Option<int> {
    DaysBetween(UtcMidnightMillis(expiryDate), UtcMidnightMillis(Moment(now)))
  }

  // ---- what the arithmetic means ----

  lemma DaysBetweenMidnights(later: Option<int>, earlier: Option<int>, j: int, k: int)
    ensures IsMidnight(later, j) && IsMidnight(earlier, k) ==> DaysBetween(later, earlier) == Some(j - k)
  {
    Distribute(j, k);
  }

  /** The time value is the midnight that starts a day. */
  predicate IsMidnight(millis: Option<int>, day: int) {
    millis.Some? && millis.value == day * MS_PER_DAY
  }

  /** The day that a date value denotes to the source, if it denotes one. */
  ghost function DayOfValue(value: DateValue): (d: int)
    ensures UtcMidnightMillis(value).Some? ==> IsMidnight(UtcMidnightMillis(value), d)
  {
    if UtcMidnightMillis(value).None? then 0 else
      MidnightIsWhole(value);
      var d :| UtcMidnightMillis(value).value == d * MS_PER_DAY;
      d
  }

  lemma MidnightIsWhole(value: DateValue)
    requires UtcMidnightMillis(value).Some?
    ensures exists d :: UtcMidnightMillis(value).value == d * MS_PER_DAY
  {
    match value
    case Text(text) =>
      var s := Slice(text, 0, 10);
      WholeDay(ToNumber(Slice(s, 0, 4)).value, ToNumber(Slice(s, 5, 7)).value - 1, ToNumber(Slice(s, 8, 10)).value);
    case Moment(t) =>
      WholeDay(UtcDate(t).year, UtcDate(t).month - 1, UtcDate(t).day);
  }

  lemma WholeDay(y: int, m: int, d: int)
    ensures exists day :: DateUTC(y, m, d) == day * MS_PER_DAY
  {
    assert DateUTC(y, m, d) == DayUTC(y, m, d) * MS_PER_DAY;
  }

  /** Two midnights are an exact number of days apart. */
  lemma MidnightsAreWholeDaysApart(a: DateValue, b: DateValue)
    requires UtcMidnightMillis(a).Some? && UtcMidnightMillis(b).Some?
    ensures UtcMidnightMillis(a).value - UtcMidnightMillis(b).value == (DayOfValue(a) - DayOfValue(b)) * 86_400_000
  {
    Distribute(DayOfValue(a), DayOfValue(b));
  }

  lemma Distribute(j: int, k: int)
    ensures j * MS_PER_DAY - k * MS_PER_DAY == (j - k) * MS_PER_DAY
  {
  }

  /** So the rounding in calendarDaysUntil never rounds. */
  lemma RoundingIsExact(expiryDate: DateValue, now: Instant)
    requires UtcMidnightMillis(expiryDate).Some?
    ensures CalendarDaysUntil(expiryDate, now) == Some(DayOfValue(expiryDate) - DayOfValue(Moment(now)))
  {
    DaysUntilMidnight(expiryDate, now, DayOfValue(expiryDate), DayOfValue(Moment(now)));
  }

  /** Days from a to b and from b to c add up to the days from a to c. */
  lemma DaysUntilIsAdditive(a: Instant, b: Instant, c: DateValue)
    requires UtcMidnightMillis(c).Some?
    ensures CalendarDaysUntil(Moment(b), a).value + CalendarDaysUntil(c, b).value == CalendarDaysUntil(c, a).value
  {
    RoundingIsExact(Moment(b), a);
    RoundingIsExact(c, b);
    RoundingIsExact(c, a);
  }

  lemma SameMidnight(a: Instant, b: Instant)
    requires DayOf(a) == DayOf(b)
    ensures UtcDate(a) == UtcDate(b) && UtcMidnightMillis(Moment(a)) == UtcMidnightMillis(Moment(b))
  {
  }

  /** Only the UTC date of the two moments matters. */
  lemma TimeOfDayIsIgnored(a: Instant, b: Instant, expiryDate: DateValue)
    requires DayOf(a) == DayOf(b)
    ensures CalendarDaysUntil(expiryDate, a) == CalendarDaysUntil(expiryDate, b)
    ensures ToUtcDateString(a) == ToUtcDateString(b)
  {
    SameMidnight(a, b);
  }

  /** A moment denotes its own UTC day exactly when Date.UTC does not remap its year. */
  lemma MidnightOfMoment(t: Instant)
    ensures DayOfValue(Moment(t)) == DayOf(t) <==> !(0 <= UtcDate(t).year <= 99)
  {
    var c := UtcDate(t);
    DayOfCivilOfDay(DayOf(t));
    if 0 <= c.year <= 99 {
      DayUTCOfRemapped(c);
    } else {
      DayUTCOfCivil(c);
    }
  }

  /** Date.UTC puts a date of the years 0 to 99 later than it is. */
  lemma DayUTCOfRemapped(c: Civil)
    ensures ValidCivil(c) && 0 <= c.year <= 99 ==> DayUTC(c.year, c.month - 1, c.day) > DayNumber(c)
  {
    if ValidCivil(c) {
      assert (c.month - 1) / 12 == 0 && (c.month - 1) % 12 == c.month - 1;
      DayOfYearBounds(c);
      YearsAreMonotone(c.year + 1, 1900 + c.year);
      MonthsAreMonotone(1900 + c.year, 0, c.month - 1);
    }
  }

  lemma DayUTCOfCivil(c: Civil)
    ensures ValidCivil(c) && !(0 <= c.year <= 99) ==> DayUTC(c.year, c.month - 1, c.day) == DayNumber(c)
  {
    if ValidCivil(c) {
      assert (c.month - 1) / 12 == 0 && (c.month - 1) % 12 == c.month - 1;
    }
  }

  lemma SlicesOfDateText(y: string, m: string, d: string)
    requires |y| == 4 && |m| == |d| == 2
    ensures var s := y + "-" + m + "-" + d;
      |s| == 10 && Slice(s, 0, 10) == s && Slice(s, 0, 4) == y && Slice(s, 5, 7) == m && Slice(s, 8, 10) == d
  {
  }

  lemma PaddedReadsBack(n: nat, w: nat)
    requires w == 2 || w == 3 || w == 4
    requires n < (if w == 2 then 100 else if w == 3 then 1000 else 10000)
    ensures ToNumber(Padded(n, w)) == Some(n)
  {
    assert Pow10(1) == 10 && Pow10(2) == 100 && Pow10(3) == 1000 && Pow10(4) == 10000;
    ValueOfPadded(n, w);
    PaddedIsDigits(n, w);
  }

  /** A four-digit date from year 100 on is read back as the day it names. */
  lemma MidnightOfText(c: Civil)
    ensures ValidCivil(c) && 100 <= c.year <= 9999 ==> IsMidnight(UtcMidnightMillis(Text(DateText(c))), DayNumber(c))
  {
    if ValidCivil(c) && 100 <= c.year <= 9999 {
      FieldsOfDateText(c);
      MidnightOfFields(DateText(c), c);
    }
  }

  /** A text that reads as a date is the midnight of its day if and only if Date.UTC does not remap the year. */
  lemma MidnightOfFields(s: string, c: Civil)
    ensures Reads(s, c.year, c.month, c.day) && ValidCivil(c) ==>
      (IsMidnight(UtcMidnightMillis(Text(s)), DayNumber(c)) <==> !(0 <= c.year <= 99))
  {
    ReadsAs(s, c.year, c.month, c.day);
    DayUTCOfCivil(c);
    DayUTCOfRemapped(c);
  }

  /** What the slices of a four-digit date text are read as. */
  lemma FieldsOfDateText(c: Civil)
    ensures ValidCivil(c) && 0 <= c.year <= 9999 ==> Reads(DateText(c), c.year, c.month, c.day)
  {
    if ValidCivil(c) && 0 <= c.year <= 9999 {
      SlicesOfDateText(Padded(c.year, 4), Padded(c.month, 2), Padded(c.day, 2));
      PaddedReadsBack(c.year, 4);
      PaddedReadsBack(c.month, 2);
      PaddedReadsBack(c.day, 2);
    }
  }

  /** A text of ten characters whose slices are three numbers. */
  predicate Reads(s: string, y: int, m: int, d: int) {
    && Slice(s, 0, 10) == s
    && ToNumber(Slice(s, 0, 4)) == Some(y) && ToNumber(Slice(s, 5, 7)) == Some(m) && ToNumber(Slice(s, 8, 10)) == Some(d)
  }

  lemma ReadsAs(s: string, y: int, m: int, d: int)
    ensures Reads(s, y, m, d) ==> UtcMidnightMillis(Text(s)) == Some(DateUTC(y, m - 1, d))
  {
  }

  lemma MidnightOfNow(now: Instant)
    ensures !(0 <= UtcDate(now).year <= 99) ==> IsMidnight(UtcMidnightMillis(Moment(now)), DayOf(now))
  {
    MidnightOfMoment(now);
  }

  /** The day count of the source, for a DATE text and any moment outside the remapped years. */
  lemma DaysUntilCountsDays(c: Civil, now: Instant)
    requires ValidCivil(c) && 100 <= c.year <= 9999 && !(0 <= UtcDate(now).year <= 99)
    ensures CalendarDaysUntil(Text(DateText(c)), now) == Some(DayNumber(c) - DayOf(now))
  {
    MidnightOfText(c);
    MidnightOfNow(now);
    DaysUntilMidnight(Text(DateText(c)), now, DayNumber(c), DayOf(now));
  }

  lemma DaysUntilMidnight(value: DateValue, now: Instant, e: int, n: int)
    ensures IsMidnight(UtcMidnightMillis(value), e) && IsMidnight(UtcMidnightMillis(Moment(now)), n) ==>
      CalendarDaysUntil(value, now) == Some(e - n)
  {
    DaysBetweenMidnights(UtcMidnightMillis(value), UtcMidnightMillis(Moment(now)), e, n);
  }

  // ---- printing a date and reading it back ----

  lemma YearOfInstant(t: Instant)
    ensures -1_000_000 < UtcDate(t).year < 1_000_000
  {
    DayOfCivilOfDay(DayOf(t));
    YearHoldsDay(DayOf(t));
    var y := UtcDate(t).year;
    assert -100_000_000 <= DayOf(t) <= 100_000_000;
    if y >= 1_000_000 {
      YearsAreMonotone(1970, y);
    } else if y <= -1_000_000 {
      YearsAreMonotone(y + 1, 1970);
    }
  }

  /** The year that Date.UTC lands in, for a day of month up to 12. */
  lemma YearOfDateUTC(y: int, m: int, d: int)
    requires 1 <= d <= 12
    ensures var z := (if 0 <= y <= 99 then 1900 + y else y) + m / 12;
      exists c: Civil :: ValidCivil(c) && c.year == z && DateUTC(y, m, d) == DayNumber(c) * MS_PER_DAY
  {
    var z := (if 0 <= y <= 99 then 1900 + y else y) + m / 12;
    var c := Civil(z, m % 12 + 1, d);
    assert ValidCivil(c) && DateUTC(y, m, d) == DayNumber(c) * MS_PER_DAY;
  }

  /** Reading back a date of a year with six digits: it lands in a year near a thousandth of the right one. */
  lemma ExpandedYearReadsBack(c: Civil)
    requires ValidCivil(c) && !(0 <= c.year <= 9999) && -1_000_000 < c.year < 1_000_000
    ensures UtcMidnightMillis(Text(Slice(DateText(c), 0, 10))) == Some(DateUTC(ReadYear(c.year), ReadMonth(c.year), c.month))
  {
    FieldsOfExpandedText(c);
    ReadsAs(Slice(DateText(c), 0, 10), ReadYear(c.year), ReadMonth(c.year) + 1, c.month);
  }

  lemma FieldsOfExpandedText(c: Civil)
    requires ValidCivil(c) && !(0 <= c.year <= 9999) && -1_000_000 < c.year < 1_000_000
    ensures Reads(Slice(DateText(c), 0, 10), ReadYear(c.year), ReadMonth(c.year) + 1, c.month)
  {
    var a: nat := if c.year < 0 then 0 - c.year else c.year;
    assert DateText(c) == ExpandedText(c.year < 0, a, c.month, c.day);
    FieldsOfTenCharacters(c.year < 0, a, c.month, c.day);
  }

  function ExpandedText(negative: bool, a: nat, month: nat, day: nat): string {
    (if negative then "-" else "+") + Padded(a, 6) + "-" + Padded(month, 2) + "-" + Padded(day, 2)
  }

  lemma FieldsOfTenCharacters(negative: bool, a: nat, month: nat, day: nat)
    requires a < 1_000_000 && month < 100
    ensures Reads(Slice(ExpandedText(negative, a, month, day), 0, 10), Signed(negative, a / 1000), a % 100, month)
  {
    var sign := if negative then "-" else "+";
    SlicesOfExpandedDateText(sign, a, Padded(month, 2), Padded(day, 2));
    SignedReadsBack(sign, a / 1000);
    PaddedReadsBack(a % 100, 2);
    PaddedReadsBack(month, 2);
  }

  lemma SignedReadsBack(sign: string, n: nat)
    requires (sign == "-" || sign == "+") && n < 1000
    ensures ToNumber(sign + Padded(n, 3)) == Some(Signed(sign == "-", n))
  {
    assert Pow10(3) == 1000;
    ValueOfPadded(n, 3);
    assert (sign + Padded(n, 3))[1..] == Padded(n, 3);
  }

  lemma SlicesOfExpandedDateText(sign: string, a: nat, m: string, d: string)
    requires |sign| == 1 && |m| == |d| == 2
    ensures var s := Slice(sign + Padded(a, 6) + "-" + m + "-" + d, 0, 10);
      |s| == 10 && Slice(s, 0, 10) == s && Slice(s, 0, 4) == sign + Padded(a / 1000, 3)
      && Slice(s, 5, 7) == Padded(a % 100, 2) && Slice(s, 8, 10) == m
  {
    PaddedSplits(a);
    var p := Padded(a, 6);
    var s := sign + p + "-" + m + "-" + d;
    assert s[0..10][0..4] == sign + p[..3];
    assert s[0..10][5] == p[4] && s[0..10][6] == p[5];
    assert s[0..10][5..7] == p[4..];
    assert s[0..10][8..] == m;
  }

  lemma DigitsOf(a: nat)
    ensures a / 10 / 10 / 10 == a / 1000
    ensures a % 100 / 10 == a / 10 % 10 && a % 100 % 10 == a % 10 && a % 100 / 10 < 10
  {
    var h, t, u := a / 100, a / 10 % 10, a % 10;
    assert a / 10 == 10 * h + t;
    assert a == 100 * h + (10 * t + u) && a % 100 == 10 * t + u;
  }

  lemma PaddedSplits(a: nat)
    ensures Padded(a, 6)[..3] == Padded(a / 1000, 3)
    ensures Padded(a, 6)[4..] == Padded(a % 100, 2)
  {
    DigitsOf(a);
    var a1, b := a / 10, a % 100;
    var a2 := a1 / 10;
    var front, d2, d1, d0 := Padded(a2 / 10, 3), [DigitChar(a2 % 10)], [DigitChar(a1 % 10)], [DigitChar(a % 10)];
    assert Padded(a, 6) == front + d2 + d1 + d0 by {
      assert Padded(a, 6) == Padded(a1, 5) + d0 && Padded(a1, 5) == Padded(a2, 4) + d1 && Padded(a2, 4) == front + d2;
    }
    assert Padded(b, 2) == d1 + d0 by {
      assert Padded(b, 2) == Padded(b / 10, 1) + [DigitChar(b % 10)];
      assert Padded(b / 10, 1) == Padded(b / 10 / 10, 0) + [DigitChar(b / 10 % 10)];
    }
  }

  /**
    Printing the UTC date of an instant and reading it back gives that UTC day for the years 100 to
    9999 and for no other year: Date.UTC remaps the years 0 to 99, and the ten characters kept of a
    six-digit year no longer name the date.
  */
  lemma PrintThenReadIsIdentity(t: Instant)
    ensures IsMidnight(UtcMidnightMillis(Text(ToUtcDateString(t))), DayOf(t))
       <==> 100 <= UtcDate(t).year <= 9999
  {
    var c := UtcDate(t);
    DayOfCivilOfDay(DayOf(t));
    if 0 <= c.year <= 9999 {
      SlicesOfDateText(Padded(c.year, 4), Padded(c.month, 2), Padded(c.day, 2));
      if c.year >= 100 {
        MidnightOfText(c);
      } else {
        SmallYearReadsBack(c);
      }
    } else {
      YearOfInstant(t);
      ExpandedYearNamesAnotherDay(c);
    }
  }

  lemma ExpandedYearNamesAnotherDay(c: Civil)
    requires ValidCivil(c) && !(0 <= c.year <= 9999) && -1_000_000 < c.year < 1_000_000
    ensures !IsMidnight(UtcMidnightMillis(Text(Slice(DateText(c), 0, 10))), DayNumber(c))
  {
    ExpandedYearReadsBack(c);
    ThousandthIsFar(c.year);
    AnotherDay(c, ReadYear(c.year), ReadMonth(c.year));
  }

  /** The year and the zero-based month that the first ten characters of a six-digit date seem to name. */
  function ReadYear(y: int): int {
    Signed(y < 0, (if y < 0 then 0 - y else y) / 1000)
  }

  function ReadMonth(y: int): int {
    (if y < 0 then 0 - y else y) % 100 - 1
  }

  lemma ThousandthIsFar(y: int)
    requires !(0 <= y <= 9999) && -1_000_000 < y < 1_000_000
    ensures (if 0 <= ReadYear(y) <= 99 then 1900 + ReadYear(y) else ReadYear(y)) + ReadMonth(y) / 12 != y
  {
  }

  lemma AnotherDay(c: Civil, y: int, m: int)
    requires ValidCivil(c) && (if 0 <= y <= 99 then 1900 + y else y) + m / 12 != c.year
    ensures DateUTC(y, m, c.month) != DayNumber(c) * MS_PER_DAY
  {
    YearOfDateUTC(y, m, c.month);
    var z :| ValidCivil(z) && z.year != c.year && DateUTC(y, m, c.month) == DayNumber(z) * MS_PER_DAY;
    DayNumberPreservesOrder(c, z);
  }

  lemma SmallYearReadsBack(c: Civil)
    requires ValidCivil(c) && 0 <= c.year <= 99
    ensures !IsMidnight(UtcMidnightMillis(Text(DateText(c))), DayNumber(c))
  {
    FieldsOfDateText(c);
    MidnightOfFields(DateText(c), c);
  }
}
