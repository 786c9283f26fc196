/** Exchange timestamps: the proleptic Gregorian day count and the calculator that memoises
    the last day it converted. */
module Calendar {

  // ---------------------------------------------------------------- day count

  datatype Date = Date(year: int, month: int, day: int)

  predicate IsLeap(y: int) {
    y % 4 == 0 && (y % 100 != 0 || y % 400 == 0)
  }

  function DaysInYear(y: int): int {
    if IsLeap(y) then 366 else 365
  }

  function DaysInMonth(y: int, m: int): int {
    if m == 2 then (if IsLeap(y) then 29 else 28)
    else if m in {4, 6, 9, 11} then 30 else 31
  }

  /** How many multiples of `n` there are from 0 up to, not including, `y`. */
  function Multiples(y: int, n: int): int
    requires n > 0
  {
    (y + n - 1) / n
  }

  /** Days from the start of year 0 to the start of year `y`. */
  function DaysBeforeYear(y: int): int {
    365 * y + Multiples(y, 4) - Multiples(y, 100) + Multiples(y, 400)
  }

  function DaysBeforeMonth(y: int, m: int): int
    decreases m
  {
    if m <= 1 then 0 else DaysBeforeMonth(y, m - 1) + DaysInMonth(y, m - 1)
  }

  /** `sys_days` of a date: the first of the month plus `day - 1` days, from 1970-01-01. */
  function DayCount(d: Date): int {
    DaysBeforeYear(d.year) + DaysBeforeMonth(d.year, d.month) + d.day - 1 - DaysBeforeYear(1970)
  }

  predicate IsDate(d: Date) {
    0 <= d.year <= 9999 && 1 <= d.month <= 12 && 1 <= d.day <= DaysInMonth(d.year, d.month)
  }

  function NextDay(d: Date): Date {
    if d.day < DaysInMonth(d.year, d.month) then d.(day := d.day + 1)
    else if d.month < 12 then Date(d.year, d.month + 1, 1)
    else Date(d.year + 1, 1, 1)
  }

  lemma FirstsOfMonths(y: int)
    ensures var firsts := [0, 31, 59, 90, 120, 151, 181, 212, 243, 273, 304, 334];
      forall m | 1 <= m <= 12 ::
        DaysBeforeMonth(y, m) == firsts[m - 1] + (if m > 2 && IsLeap(y) then 1 else 0)
  {
    var leap := if IsLeap(y) then 1 else 0;
    assert DaysBeforeMonth(y, 2) == 31;
    assert DaysBeforeMonth(y, 3) == 59 + leap;
    assert DaysBeforeMonth(y, 4) == 90 + leap;
    assert DaysBeforeMonth(y, 5) == 120 + leap;
    assert DaysBeforeMonth(y, 6) == 151 + leap;
    assert DaysBeforeMonth(y, 7) == 181 + leap;
    assert DaysBeforeMonth(y, 8) == 212 + leap;
    assert DaysBeforeMonth(y, 9) == 243 + leap;
    assert DaysBeforeMonth(y, 10) == 273 + leap;
    assert DaysBeforeMonth(y, 11) == 304 + leap;
    assert DaysBeforeMonth(y, 12) == 334 + leap;
  }

  /** The months of a common and of a leap year, and the century rule, written out. */
  lemma KnownYears()
    ensures var firsts := [0, 31, 59, 90, 120, 151, 181, 212, 243, 273, 304, 334];
      forall m | 1 <= m <= 12 ::
        && DayCount(Date(2025, m, 1)) == 20089 + firsts[m - 1]
        && DayCount(Date(2024, m, 1)) == 19723 + firsts[m - 1] + (if m > 2 then 1 else 0)
    ensures DayCount(Date(2000, 2, 29)) + 1 == DayCount(Date(2000, 3, 1)) == 11017
    ensures DayCount(Date(2100, 2, 28)) + 1 == DayCount(Date(2100, 3, 1)) == 47541
    ensures DayCount(Date(1900, 2, 28)) + 1 == DayCount(Date(1900, 3, 1)) == -25508
  {
    FirstsOfMonths(2025);
    FirstsOfMonths(2024);
  }

  predicate Earlier(a: Date, b: Date) {
    || a.year < b.year
    || (a.year == b.year && a.month < b.month)
    || (a.year == b.year && a.month == b.month && a.day < b.day)
  }

  lemma MultiplesStep(y: int, n: int)
    requires n in {4, 100, 400}
    ensures Multiples(y + 1, n) == Multiples(y, n) + (if y % n == 0 then 1 else 0)
  {
  }

  lemma LeapYears(y: int)
    ensures (y % 400 == 0 ==> y % 100 == 0) && (y % 100 == 0 ==> y % 4 == 0)
  {
  }

  lemma YearStep(y: int)
    ensures DaysBeforeYear(y + 1) == DaysBeforeYear(y) + DaysInYear(y)
  {
    MultiplesStep(y, 4);
    MultiplesStep(y, 100);
    MultiplesStep(y, 400);
    LeapYears(y);
  }

  lemma DaysBeforeMonthEnd(y: int)
    ensures DaysBeforeMonth(y, 12) + DaysInMonth(y, 12) == DaysInYear(y)
  {
    assert DaysBeforeMonth(y, 3) == 31 + DaysInMonth(y, 2);
    assert DaysBeforeMonth(y, 5) == DaysBeforeMonth(y, 3) + 61;
    assert DaysBeforeMonth(y, 7) == DaysBeforeMonth(y, 5) + 61;
    assert DaysBeforeMonth(y, 9) == DaysBeforeMonth(y, 7) + 62;
    assert DaysBeforeMonth(y, 11) == DaysBeforeMonth(y, 9) + 61;
  }

  lemma YearEnd(y: int)
    ensures DayCount(Date(y + 1, 1, 1)) == DayCount(Date(y, 12, 31)) + 1
  {
    YearStep(y);
    DaysBeforeMonthEnd(y);
  }

  /** The day count is the Gregorian one: it is 0 at the epoch and each calendar day adds
      one. */
  lemma DayCountIsGregorian(d: Date)
    requires IsDate(d)
    ensures DayCount(Date(1970, 1, 1)) == 0
    ensures DayCount(NextDay(d)) == DayCount(d) + 1
    ensures d != Date(9999, 12, 31) ==> IsDate(NextDay(d))
  {
    if d.day == DaysInMonth(d.year, d.month) {
      if d.month == 12 {
        YearEnd(d.year);
      } else {
        assert DaysBeforeMonth(d.year, d.month + 1) == DaysBeforeMonth(d.year, d.month) + d.day;
      }
    }
  }

  lemma {:induction false} YearsAdd(a: int, b: int)
    requires a < b
    ensures DaysBeforeYear(a) + DaysInYear(a) <= DaysBeforeYear(b)
    decreases b - a
  {
    YearStep(b - 1);
    if a < b - 1 {
      YearsAdd(a, b - 1);
    }
  }

  lemma {:induction false} MonthsAdd(y: int, m: int, n: int)
    requires 1 <= m < n
    ensures DaysBeforeMonth(y, m) + DaysInMonth(y, m) <= DaysBeforeMonth(y, n)
    decreases n - m
  {
    if m < n - 1 {
      MonthsAdd(y, m, n - 1);
    }
  }

  lemma DayWithinYear(d: Date)
    requires IsDate(d)
    ensures 0 <= DaysBeforeMonth(d.year, d.month) + d.day - 1 < DaysInYear(d.year)
  {
    DaysBeforeMonthEnd(d.year);
    if d.month < 12 {
      MonthsAdd(d.year, d.month, 12);
    }
    if 1 < d.month {
      MonthsAdd(d.year, 1, d.month);
    }
  }

  lemma DayCountOrders(a: Date, b: Date)
    requires IsDate(a) && IsDate(b) && Earlier(a, b)
    ensures DayCount(a) < DayCount(b)
  {
    DayWithinYear(a);
    DayWithinYear(b);
    if a.year < b.year {
      YearsAdd(a.year, b.year);
    } else if a.month < b.month {
      MonthsAdd(a.year, a.month, b.month);
    }
  }

  // ---------------------------------------------------------------- timestamps

  datatype Clock = Clock(hour: int, minute: int, second: int)

  predicate IsClock(c: Clock) {
    0 <= c.hour < 24 && 0 <= c.minute < 60 && 0 <= c.second < 60
  }

  /** Seconds since the epoch, as `from_stream` parses them. */
  function Seconds(d: Date, c: Clock): int {
    DayCount(d) * 86400 + c.hour * 3600 + c.minute * 60 + c.second
  }

  /** Milliseconds since the epoch, without any memory of earlier calls. */
  function Stamp(d: Date, c: Clock, millisec: int): int {
    Seconds(d, c) * 1000 + millisec
  }

  predicate EarlierClock(a: Clock, b: Clock) {
    || a.hour < b.hour
    || (a.hour == b.hour && a.minute < b.minute)
    || (a.hour == b.hour && a.minute == b.minute && a.second < b.second)
  }

  /** Timestamps are strictly increasing in date, time and millisecond. */
  lemma StampOrders(d: Date, c: Clock, ms: int, d': Date, c': Clock, ms': int)
    requires IsDate(d) && IsDate(d') && IsClock(c) && IsClock(c')
    requires 0 <= ms < 1000 && 0 <= ms' < 1000
    requires Earlier(d, d') || (d == d' && (EarlierClock(c, c') || (c == c' && ms < ms')))
    ensures Stamp(d, c, ms) < Stamp(d', c', ms')
  {
    if Earlier(d, d') {
      DayCountOrders(d, d');
    }
  }

  function NextSecond(d: Date, c: Clock): (Date, Clock) {
    if c.second < 59 then (d, c.(second := c.second + 1))
    else if c.minute < 59 then (d, Clock(c.hour, c.minute + 1, 0))
    else if c.hour < 23 then (d, Clock(c.hour + 1, 0, 0))
    else (NextDay(d), Clock(0, 0, 0))
  }

  lemma MidnightAdds(d: Date, ms: int)
    requires IsDate(d)
    ensures Stamp(NextDay(d), Clock(0, 0, 0), ms) == Stamp(d, Clock(23, 59, 59), ms) + 1000
  {
    var n, n' := DayCount(d), DayCount(NextDay(d));
    assert n' == n + 1 by { DayCountIsGregorian(d); }
    assert Seconds(d, Clock(23, 59, 59)) == n * 86400 + 86399;
    assert Seconds(NextDay(d), Clock(0, 0, 0)) == n' * 86400;
  }

  lemma SecondAdds(d: Date, c: Clock, ms: int)
    requires IsClock(c) && c != Clock(23, 59, 59)
    ensures var (d', c') := NextSecond(d, c);
      d' == d && IsClock(c') && Stamp(d, c', ms) == Stamp(d, c, ms) + 1000
  {
    var c' := NextSecond(d, c).1;
    assert c'.hour * 3600 + c'.minute * 60 + c'.second == c.hour * 3600 + c.minute * 60 + c.second + 1;
    var n := DayCount(d);
    assert Seconds(d, c) == n * 86400 + c.hour * 3600 + c.minute * 60 + c.second;
    assert Seconds(d, c') == n * 86400 + c'.hour * 3600 + c'.minute * 60 + c'.second;
  }

  /** The scale: each second of the clock adds 1000, over midnight too. */
  lemma SecondsCount(d: Date, c: Clock, ms: int)
    requires IsDate(d) && IsClock(c)
    ensures IsClock(NextSecond(d, c).1)
    ensures Stamp(NextSecond(d, c).0, NextSecond(d, c).1, ms) == Stamp(d, c, ms) + 1000
  {
    if c == Clock(23, 59, 59) {
      MidnightAdds(d, ms);
    } else {
      SecondAdds(d, c, ms);
    }
  }

  /** Each millisecond adds one, from midnight of 1970-01-01 on. */
  lemma MillisecondsCount(d: Date, c: Clock, ms: int)
    ensures Stamp(d, c, ms) == Stamp(d, c, 0) + ms
    ensures d == Date(1970, 1, 1) && c == Clock(0, 0, 0) ==> Stamp(d, c, ms) == ms
  {
    var n := Seconds(d, c);
    assert Stamp(d, c, ms) == n * 1000 + ms && Stamp(d, c, 0) == n * 1000;
    if d == Date(1970, 1, 1) {
      assert DayCount(d) == 0;
    }
  }

  // ---------------------------------------------------------------- digits

  predicate IsDigit(c: char) {
    '0' <= c <= '9'
  }

  function DigitValue(c: char): int {
    c as int - '0' as int
  }

  function DateOf(s: string): Date
    requires |s| == 8
  {
    Date(DigitValue(s[0]) * 1000 + DigitValue(s[1]) * 100 + DigitValue(s[2]) * 10 + DigitValue(s[3]),
         DigitValue(s[4]) * 10 + DigitValue(s[5]),
         DigitValue(s[6]) * 10 + DigitValue(s[7]))
  }

  /** Eight digits, `YYYYMMDD`, with a month the calendar knows. */
  predicate IsDayText(s: string) {
    && |s| == 8
    && (forall i | 0 <= i < 8 :: IsDigit(s[i]))
    && 1 <= DateOf(s).month <= 12
  }

  /** `HH:MM:SS`. */
  predicate IsTimeText(s: string) {
    |s| == 8 && forall i | 0 <= i < 8 && i != 2 && i != 5 :: IsDigit(s[i])
  }

  function ClockOf(s: string): Clock
    requires |s| == 8
  {
    Clock(DigitValue(s[0]) * 10 + DigitValue(s[1]),
          DigitValue(s[3]) * 10 + DigitValue(s[4]),
          DigitValue(s[6]) * 10 + DigitValue(s[7]))
  }

  // ---------------------------------------------------------------- texts written and read back

  function TwoDigits(n: int): (s: string)
    requires 0 <= n < 100
    ensures |s| == 2
  {
    [('0' as int + n / 10) as char, ('0' as int + n % 10) as char]
  }

  function DayText(d: Date): (s: string)
    requires IsDate(d)
    ensures |s| == 8
  {
    TwoDigits(d.year / 100) + TwoDigits(d.year % 100) + TwoDigits(d.month) + TwoDigits(d.day)
  }

  function TimeText(c: Clock): (s: string)
    requires IsClock(c)
    ensures |s| == 8
  {
    TwoDigits(c.hour) + ":" + TwoDigits(c.minute) + ":" + TwoDigits(c.second)
  }

  lemma ReadTwoDigits(n: int)
    requires 0 <= n < 100
    ensures var s := TwoDigits(n);
      IsDigit(s[0]) && IsDigit(s[1]) && DigitValue(s[0]) * 10 + DigitValue(s[1]) == n
  {
  }

  /** Every date and every time of day reads back from its text. */
  lemma TextsReadBack(d: Date, c: Clock)
    requires IsDate(d) && IsClock(c)
    ensures IsDayText(DayText(d)) && DateOf(DayText(d)) == d
    ensures IsTimeText(TimeText(c)) && ClockOf(TimeText(c)) == c
  {
    ReadTwoDigits(d.year / 100);
    ReadTwoDigits(d.year % 100);
    ReadTwoDigits(d.month);
    ReadTwoDigits(d.day);
    ReadTwoDigits(c.hour);
    ReadTwoDigits(c.minute);
    ReadTwoDigits(c.second);
  }

  lemma KnownTexts()
    ensures DayText(Date(2025, 6, 2)) == "20250602" && DateOf("20250602") == Date(2025, 6, 2)
    ensures TimeText(Clock(9, 30, 15)) == "09:30:15" && ClockOf("09:30:15") == Clock(9, 30, 15)
  {
  }

  /** One instant written out. */
  lemma KnownInstant()
    ensures DayText(Date(2025, 6, 2)) == "20250602" && TimeText(Clock(9, 30, 15)) == "09:30:15"
    ensures Stamp(DateOf("20250602"), ClockOf("09:30:15"), 0) == 1748856615000
  {
    KnownTexts();
    assert DaysBeforeMonth(2025, 3) == 59;
    assert DaysBeforeMonth(2025, 5) == 120;
    assert DayCount(Date(2025, 6, 2)) == 20241;
  }

  // ---------------------------------------------------------------- the calculator in place

  /** The number a run of digits denotes. */
  function ParseInt(s: string): int {
    if s == "" then 0 else ParseInt(s[..|s| - 1]) * 10 + DigitValue(s[|s| - 1])
  }

  /** The date a cached day number stands for. */
  function DateOfNumber(n: int): Date {
    Date(n / 10000, n / 100 % 100, n % 100)
  }

  /** The number the first `k` of eight digits denote, written out. */
  function LeadingDigits(s: string, k: nat): int
    requires |s| == 8 && k <= 8
  {
    if k == 0 then 0 else LeadingDigits(s, k - 1) * 10 + DigitValue(s[k - 1])
  }

  lemma DayTextIsNumber(s: string)
    requires IsDayText(s)
    ensures ParseInt(s) == DateOf(s).year * 10000 + DateOf(s).month * 100 + DateOf(s).day
  {
    for k := 0 to 8
      invariant ParseInt(s[..k]) == LeadingDigits(s, k)
    {
      assert s[..k + 1][..k] == s[..k];
    }
    assert s[..8] == s;
    assert LeadingDigits(s, 2) == DigitValue(s[0]) * 10 + DigitValue(s[1]);
    assert LeadingDigits(s, 4) == DateOf(s).year;
    assert LeadingDigits(s, 6) == DateOf(s).year * 100 + DateOf(s).month;
  }

  lemma SplitNumber(y: int, m: int, d: int)
    requires 0 <= y && 0 <= m < 100 && 0 <= d < 100
    ensures DateOfNumber(y * 10000 + m * 100 + d) == Date(y, m, d)
  {
    var n := y * 10000 + m * 100 + d;
    assert n / 100 == y * 100 + m;
    assert n / 10000 == y;
  }

  /** The day number determines the date, so it is a sound key for the cache. */
  lemma NumberIsKey(s: string)
    requires IsDayText(s)
    ensures DateOfNumber(ParseInt(s)) == DateOf(s)
    ensures ParseInt(s) != 0
  {
    DayTextIsNumber(s);
    SplitNumber(DateOf(s).year, DateOf(s).month, DateOf(s).day);
  }

  class TimeStampCalculator {
    var cachedDayEpoch: int
    var cachedDay: int

    ghost predicate Valid()
      reads this
    {
      cachedDay != 0 ==> cachedDayEpoch == DayCount(DateOfNumber(cachedDay))
    }

    constructor ()
      ensures Valid()
    {
      cachedDayEpoch, cachedDay := 0, 0;
    }

    /** The cache cannot be observed: whatever was computed before, the result is the stateless
        conversion. */
    method Compute(actionDay: string, updateTime: string, millisec: int) returns (stamp: int)
      requires Valid() && IsDayText(actionDay) && IsTimeText(updateTime)
      modifies this
      ensures Valid()
      ensures stamp == Stamp(DateOf(actionDay), ClockOf(updateTime), millisec)
      ensures forall d, c | IsDate(d) && IsClock(c) && actionDay == DayText(d) && updateTime == TimeText(c) ::
                stamp == Stamp(d, c, millisec)
    {
      forall d, c | IsDate(d) && IsClock(c) && actionDay == DayText(d) && updateTime == TimeText(c)
        ensures DateOf(actionDay) == d && ClockOf(updateTime) == c
      {
        TextsReadBack(d, c);
      }
      NumberIsKey(actionDay);
      var day := ParseInt(actionDay);
      if day != cachedDay {
        cachedDay := day;
        cachedDayEpoch := DayCount(DateOf(actionDay));
      }
      var c := ClockOf(updateTime);
      stamp := cachedDayEpoch * 86400000 + c.hour * 3600000 + c.minute * 60000 + c.second * 1000 + millisec;
    }
  }
}
