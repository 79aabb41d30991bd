/**
  The US equities calendar.  A date is its proleptic Gregorian ordinal (day 1 is Monday,
  January 1 of year 1); a time stamp is a minute count.
*/
module Calendar {
  type Date = int

  const REGULAR_OPEN := 570
  const REGULAR_CLOSE := 960
  const EARLY_CLOSE := 780
  const BAR_INTERVAL := 5
  const MINUTES_PER_DAY := 1440

  // ---------- Dates ----------

  predicate Leap(y: int) {
    y % 4 == 0 && (y % 100 != 0 || y % 400 == 0)
  }

  function DaysBeforeYear(y: int): int {
    365 * (y - 1) + (y - 1) / 4 - (y - 1) / 100 + (y - 1) / 400
  }

  function DaysInYear(y: int): int {
    if Leap(y) then 366 else 365
  }

  const MONTH_STARTS: seq<int> := [0, 31, 59, 90, 120, 151, 181, 212, 243, 273, 304, 334, 365]

  function DaysBeforeMonth(y: int, m: int): int
    requires 1 <= m <= 13
  {
    MONTH_STARTS[m - 1] + if m > 2 && Leap(y) then 1 else 0
  }

  function DaysInMonth(y: int, m: int): int
    requires 1 <= m <= 12
  {
    DaysBeforeMonth(y, m + 1) - DaysBeforeMonth(y, m)
  }

  predicate ValidDate(y: int, m: int, d: int) {
    1 <= m <= 12 && 1 <= d <= DaysInMonth(y, m)
  }

  function ToDate(y: int, m: int, d: int): Date
    requires ValidDate(y, m, d)
  {
    DaysBeforeYear(y) + DaysBeforeMonth(y, m) + d
  }

  /** Thirty days have April, June, September and November. */
  lemma MonthLengths(y: int, m: int)
    requires 1 <= m <= 12
    ensures DaysInMonth(y, m) == if m in {4, 6, 9, 11} then 30 else if m != 2 then 31 else if Leap(y) then 29 else 28
  {
  }

  /** Dates count on from month to month and from year to year, and the first is January 1 of year 1. */
  lemma DatesCount(y: int, m: int)
    requires 1 <= m <= 12
    ensures ToDate(y, m, DaysInMonth(y, m)) + 1 == if m == 12 then ToDate(y + 1, 1, 1) else ToDate(y, m + 1, 1)
    ensures ToDate(1, 1, 1) == 1
  {
    MonthLengths(y, m);
    MonthLengths(y, if m == 12 then 1 else m + 1);
    YearEnds(y);
    assert DaysBeforeYear(1) == 0;
    hide DaysBeforeYear;
    hide Leap;
  }

  lemma YearEnds(y: int)
    ensures DaysBeforeYear(y) + DaysBeforeMonth(y, 13) == DaysBeforeYear(y + 1)
  {
    YearLength(y);
    hide DaysBeforeYear;
  }

  /** 0 is Monday, 6 is Sunday. */
  function Weekday(d: Date): int {
    (d + 6) % 7
  }

  lemma Quotients(y: int)
    ensures y / 4 - (y - 1) / 4 == if y % 4 == 0 then 1 else 0
    ensures y / 100 - (y - 1) / 100 == if y % 100 == 0 then 1 else 0
    ensures y / 400 - (y - 1) / 400 == if y % 400 == 0 then 1 else 0
  {
  }

  lemma CenturiesAreFours(y: int)
    ensures y % 400 == 0 ==> y % 100 == 0
    ensures y % 100 == 0 ==> y % 4 == 0
  {
    assert y == 100 * (y / 100) + y % 100;
    assert y == 400 * (y / 400) + y % 400;
    assert y % 100 == 0 ==> y == 4 * (25 * (y / 100));
    assert y % 400 == 0 ==> y == 100 * (4 * (y / 400));
  }

  /** Leap days up to and including year y. */
  lemma LeapDays(y: int)
    ensures (y - 1) / 4 - (y - 1) / 100 + (y - 1) / 400 + (if Leap(y) then 1 else 0) == y / 4 - y / 100 + y / 400
  {
    Quotients(y);
    CenturiesAreFours(y);
  }

  lemma YearLength(y: int)
    ensures DaysBeforeYear(y + 1) == DaysBeforeYear(y) + DaysInYear(y)
  {
    LeapDays(y);
  }

  function YearFrom(y: int, d: Date): int
    requires d > DaysBeforeYear(y)
    decreases d - DaysBeforeYear(y)
  {
    YearLength(y);
    if d <= DaysBeforeYear(y + 1) then y else YearFrom(y + 1, d)
  }

  function YearOf(d: Date): int
    requires d >= 1
  {
    YearFrom(1, d)
  }

  predicate InYear(d: Date, y: int) {
    DaysBeforeYear(y) < d <= DaysBeforeYear(y + 1)
  }

  lemma YearFromCorrect(y: int, d: Date)
    requires d > DaysBeforeYear(y)
    ensures InYear(d, YearFrom(y, d)) && YearFrom(y, d) >= y
    decreases d - DaysBeforeYear(y)
  {
    YearLength(y);
    if d > DaysBeforeYear(y + 1) {
      YearFromCorrect(y + 1, d);
    }
  }

  lemma {:induction false} YearsIncrease(y: int, z: int)
    requires y <= z
    ensures DaysBeforeYear(z) >= DaysBeforeYear(y) + 365 * (z - y)
    decreases z - y
  {
    if y < z {
      YearLength(y);
      YearsIncrease(y + 1, z);
    }
  }

  lemma YearUnique(d: Date, y: int)
    requires d >= 1 && InYear(d, y)
    ensures YearOf(d) == y
  {
    YearFromCorrect(1, d);
    var z := YearOf(d);
    if y < z { YearsIncrease(y + 1, z); }
    if z < y { YearsIncrease(z + 1, y); }
  }

  // ---------- Easter ----------

  datatype Computus = Computus(golden: int, h: int, correction: int, m: int)

  /** The intermediate values of the anonymous Gregorian algorithm. */
  function ComputusOf(year: int): Computus {
    var a := year % 19;
    var b := year / 100;
    var c := year % 100;
    var d := b / 4;
    var e := b % 4;
    var f := (b + 8) / 25;
    var g := (b - f + 1) / 3;
    var h := (19 * a + b - d - g + 15) % 30;
    var i := c / 4;
    var k := c % 4;
    var correction := (32 + 2 * e + 2 * i - h - k) % 7;
    Computus(a, h, correction, (a + 11 * h + 22 * correction) / 451)
  }

  function EasterMonth(year: int): int {
    var q := ComputusOf(year);
    (q.h + q.correction - 7 * q.m + 114) / 31
  }

  function EasterDay(year: int): int {
    var q := ComputusOf(year);
    (q.h + q.correction - 7 * q.m + 114) % 31 + 1
  }

  /** The days from March 22 to Easter. */
  lemma EasterOffset(year: int)
    ensures var q := ComputusOf(year);
      && 0 <= q.golden < 19 && 0 <= q.h < 30 && 0 <= q.correction < 7
      && 0 <= q.h + q.correction - 7 * q.m <= 34
      && (q.m == 1 <==> q.correction == 6 && (q.h == 29 || (q.h == 28 && q.golden >= 11)))
      && (q.m == 0 || q.m == 1)
  {
  }

  lemma EasterIsValid(year: int)
    ensures ValidDate(year, EasterMonth(year), EasterDay(year))
    ensures var q := ComputusOf(year);
      ToDate(year, EasterMonth(year), EasterDay(year)) == ToDate(year, 3, 22) + q.h + q.correction - 7 * q.m
  {
    EasterOffset(year);
  }

  function Easter(year: int): Date {
    EasterIsValid(year);
    ToDate(year, EasterMonth(year), EasterDay(year))
  }

  function GoodFriday(year: int): Date {
    Easter(year) - 2
  }

  /** March 22 in terms of the algorithm's century and year parts, modulo 7. */
  lemma March22(year: int) returns (weeks: int)
    ensures var b, c := year / 100, year % 100;
      ToDate(year, 3, 22) == 7 * weeks + 5 * (b % 4) + 5 * (c / 4) + c % 4 + 3
  {
    var b, c := year / 100, year % 100;
    var d, e, i, k := b / 4, b % 4, c / 4, c % 4;
    LeapDays(year);
    YearParts(d, e, i, k);
    assert year == 400 * d + 100 * e + 4 * i + k;
    weeks := 20871 * d + 5217 * e + 208 * i + 52 * k - 41;
  }

  lemma YearParts(d: int, e: int, i: int, k: int)
    requires 0 <= e < 4 && 0 <= i < 25 && 0 <= k < 4
    ensures var y := 400 * d + 100 * e + 4 * i + k;
      y / 4 == 100 * d + 25 * e + i && y / 100 == 4 * d + e && y / 400 == d
  {
  }

  /** The correction brings h to a fixed remainder modulo 7. */
  lemma CorrectionWeeks(year: int) returns (weeks: int)
    ensures var q, b, c := ComputusOf(year), year / 100, year % 100;
      q.h + q.correction == 32 + 2 * (b % 4) + 2 * (c / 4) - c % 4 - 7 * weeks
  {
    var b, c := year / 100, year % 100;
    weeks := (32 + 2 * (b % 4) + 2 * (c / 4) - ComputusOf(year).h - c % 4) / 7;
  }

  /** Easter is a Sunday from March 22 to April 25, in every year; Good Friday is a Friday. */
  lemma EasterIsSunday(year: int)
    ensures Weekday(Easter(year)) == 6 && Weekday(GoodFriday(year)) == 4
    ensures ToDate(year, 3, 22) <= Easter(year) <= ToDate(year, 4, 25)
  {
    EasterIsValid(year);
    EasterOffset(year);
    var u := March22(year);
    var v := CorrectionWeeks(year);
    WholeWeeks(Easter(year), u - v - ComputusOf(year).m + (year / 100) % 4 + (year % 100) / 4 + 5);
  }

  lemma WholeWeeks(d: Date, weeks: int)
    requires d == 7 * weeks
    ensures Weekday(d) == 6 && Weekday(d - 2) == 4
    ensures forall n :: d - 7 < n < d ==> Weekday(n) != 6
  {
  }

  /** The year's place in the nineteen-year lunar cycle. */
  function GoldenNumber(year: int): int {
    year % 19 + 1
  }

  /**
    The Gregorian epact, the age of the moon at the start of the year: eleven days a year in
    the cycle, less a day for each leap day a century drops, and eight more in 25 centuries.
  */
  function Epact(year: int): int {
    var century := year / 100;
    (11 * (GoldenNumber(year) - 1) + 8 - (century - century / 4) + (8 * century + 13) / 25) % 30
  }

  /**
    The paschal full moon: March 21 and as many days as the epact is short of 23, but one day
    less for epact 24, and for epact 25 in the second half of the cycle.
  */
  function PaschalFullMoon(year: int): Date {
    var e := Epact(year);
    ToDate(year, 3, 21) + (23 - e) % 30 - if e == 24 || (e == 25 && GoldenNumber(year) > 11) then 1 else 0
  }

  /** The algorithm's two divisions are the eight days in 25 centuries. */
  lemma LunarEquation(century: int)
    ensures (century - (century + 8) / 25 + 1) / 3 == (8 * century + 13) / 25
  {
    var u, r := century / 25, century % 25;
    var t := if r >= 17 then 1 else 0;
    assert (century + 8) / 25 == u + t;
    assert century - (u + t) + 1 == 3 * (8 * u) + (r - t + 1);
    assert 8 * century + 13 == 25 * (8 * u) + (8 * r + 13);
    assert (r - t + 1) / 3 == (8 * r + 13) / 25;
  }

  /** The algorithm's h is the days the epact leaves. */
  lemma EpactGivesH(year: int)
    ensures ComputusOf(year).h == (23 - Epact(year)) % 30
  {
    LunarEquation(year / 100);
    HFromEpact(year % 19, year / 100, (8 * (year / 100) + 13) / 25);
  }

  lemma HFromEpact(a: int, b: int, g: int)
    ensures (19 * a + b - b / 4 - g + 15) % 30 == (23 - (11 * a + 8 - (b - b / 4) + g) % 30) % 30
  {
    var x := 11 * a + 8 - (b - b / 4) + g;
    assert 19 * a + b - b / 4 - g + 15 == 23 - x + 30 * a;
    assert 23 - x + 30 * a - (23 - x % 30) == 30 * (a - x / 30);
    SameRemainder(23 - x + 30 * a, 23 - x % 30, a - x / 30);
  }

  lemma SameRemainder(x: int, y: int, n: int)
    requires x - y == 30 * n
    ensures x % 30 == y % 30
  {
  }

  lemma FullMoonFromH(year: int)
    ensures var q := ComputusOf(year);
      PaschalFullMoon(year) == ToDate(year, 3, 21) + q.h - if q.h == 29 || (q.h == 28 && q.golden >= 11) then 1 else 0
  {
    EpactGivesH(year);
    GoldenIs(year);
    hide ComputusOf;
    hide DaysBeforeYear;
    EpactRange(year);
    hide Epact;
    hide GoldenNumber;
    ShortOf23(Epact(year));
  }

  lemma GoldenIs(year: int)
    ensures ComputusOf(year).golden == GoldenNumber(year) - 1
  {
  }

  lemma EpactRange(year: int)
    ensures 0 <= Epact(year) < 30
  {
  }

  lemma ShortOf23(e: int)
    requires 0 <= e < 30
    ensures (23 - e) % 30 == 29 <==> e == 24
    ensures (23 - e) % 30 == 28 <==> e == 25
  {
  }

  /** What the computus means: Easter is the first Sunday strictly after the paschal full moon. */
  lemma EasterIsFirstSundayAfterFullMoon(year: int)
    ensures PaschalFullMoon(year) < Easter(year) <= PaschalFullMoon(year) + 7
    ensures forall d :: PaschalFullMoon(year) < d < Easter(year) ==> Weekday(d) != 6
  {
    FullMoonFromH(year);
    hide PaschalFullMoon;
    hide ComputusOf;
    hide DaysBeforeYear;
    EasterIsSunday(year);
    EasterIsValid(year);
    EasterOffset(year);
    WholeWeeks(Easter(year), Easter(year) / 7);
  }

  // ---------- Holidays ----------

  function Observed(d: Date): Date {
    if Weekday(d) == 5 then d - 1 else if Weekday(d) == 6 then d + 1 else d
  }

  function OnOrAfter(d: Date, weekday: int): Date {
    d + (weekday - Weekday(d)) % 7
  }

  function NthWeekday(year: int, month: int, weekday: int, occurrence: int): Date
    requires 1 <= month <= 12
  {
    OnOrAfter(ToDate(year, month, 1), weekday) + 7 * (occurrence - 1)
  }

  function LastWeekday(year: int, month: int, weekday: int): Date
    requires 1 <= month <= 12
  {
    OnOrAfter(ToDate(year, month, DaysInMonth(year, month)) - 6, weekday)
  }

  lemma Remainder7(x: int, u: int, r: int)
    requires x == 7 * u + r && 0 <= r < 7
    ensures x % 7 == r
  {
  }

  lemma OnOrAfterRange(d: Date, weekday: int)
    requires 0 <= weekday < 7
    ensures d <= OnOrAfter(d, weekday) < d + 7 && Weekday(OnOrAfter(d, weekday)) == weekday
  {
    var a := Weekday(d);
    Remainder7(OnOrAfter(d, weekday) + 6, (d + 6) / 7 - (weekday - a) / 7, weekday);
  }

  lemma WeeksLater(d: Date, weeks: int)
    ensures Weekday(d + 7 * weeks) == Weekday(d)
  {
    Remainder7(d + 7 * weeks + 6, (d + 6) / 7 + weeks, Weekday(d));
  }

  lemma SameWeekday(d: Date, e: Date)
    requires Weekday(d) == Weekday(e) && -7 < d - e < 7
    ensures d == e
  {
  }

  lemma NthWeekdayRange(year: int, month: int, weekday: int, occurrence: int)
    requires 1 <= month <= 12 && 0 <= weekday < 7
    ensures var d := NthWeekday(year, month, weekday, occurrence);
      7 * (occurrence - 1) <= d - ToDate(year, month, 1) < 7 * occurrence && Weekday(d) == weekday
  {
    var first := ToDate(year, month, 1);
    OnOrAfterRange(first, weekday);
    WeeksLater(OnOrAfter(first, weekday), occurrence - 1);
  }

  lemma LastWeekdayRange(year: int, month: int, weekday: int)
    requires 1 <= month <= 12 && 0 <= weekday < 7
    ensures var d := LastWeekday(year, month, weekday);
      0 <= ToDate(year, month, DaysInMonth(year, month)) - d < 7 && Weekday(d) == weekday
  {
    OnOrAfterRange(ToDate(year, month, DaysInMonth(year, month)) - 6, weekday);
  }

  /** The search loop ends on the occurrence-th such weekday of the month. */
  method FindNthWeekday(year: int, month: int, weekday: int, occurrence: int) returns (d: Date)
    requires 1 <= month <= 12 && 0 <= weekday < 7
    ensures d == NthWeekday(year, month, weekday, occurrence)
    ensures Weekday(d) == weekday
    ensures 7 * (occurrence - 1) <= d - ToDate(year, month, 1) < 7 * occurrence
  {
    hide ToDate;
    var current := ToDate(year, month, 1);
    ghost var goal := OnOrAfter(current, weekday);
    OnOrAfterRange(current, weekday);
    NthWeekdayRange(year, month, weekday, occurrence);
    while Weekday(current) != weekday
      invariant ToDate(year, month, 1) <= current <= goal
      decreases goal - current
    {
      current := current + 1;
    }
    SameWeekday(current, goal);
    d := current + 7 * (occurrence - 1);
  }

  method FindLastWeekday(year: int, month: int, weekday: int) returns (d: Date)
    requires 1 <= month <= 12 && 0 <= weekday < 7
    ensures d == LastWeekday(year, month, weekday)
    ensures Weekday(d) == weekday
    ensures 0 <= ToDate(year, month, DaysInMonth(year, month)) - d < 7
  {
    hide ToDate;
    d := ToDate(year, month, DaysInMonth(year, month));
    ghost var goal := OnOrAfter(d - 6, weekday);
    OnOrAfterRange(d - 6, weekday);
    while Weekday(d) != weekday
      invariant goal <= d <= ToDate(year, month, DaysInMonth(year, month))
      decreases d - goal
    {
      d := d - 1;
    }
    SameWeekday(d, goal);
  }

  function YearHolidays(year: int): set<Date> {
    {Observed(ToDate(year, 1, 1)), NthWeekday(year, 1, 0, 3), NthWeekday(year, 2, 0, 3), GoodFriday(year),
     LastWeekday(year, 5, 0), Observed(ToDate(year, 7, 4)), NthWeekday(year, 9, 0, 1), NthWeekday(year, 11, 3, 4),
     Observed(ToDate(year, 12, 25))}
    + if year >= 2022 then {Observed(ToDate(year, 6, 19))} else {}
  }

  function EarlyCandidates(year: int): set<Date> {
    {ToDate(year, 7, 3), ToDate(year, 12, 24), NthWeekday(year, 11, 3, 4) + 1}
  }

  lemma ObservedRange(d: Date)
    ensures d - 1 <= Observed(d) <= d + 1 && Weekday(Observed(d)) < 5
  {
  }

  /** A holiday is a weekday of its own year, except that New Year may be observed the day before. */
  lemma HolidayPlace(year: int, d: Date)
    requires d in YearHolidays(year)
    ensures 0 <= Weekday(d) < 5
    ensures DaysBeforeYear(year) <= d < DaysBeforeYear(year + 1)
  {
    hide ComputusOf;
    YearLength(year);
    ObservedRange(ToDate(year, 1, 1));
    ObservedRange(ToDate(year, 6, 19));
    ObservedRange(ToDate(year, 7, 4));
    ObservedRange(ToDate(year, 12, 25));
    NthWeekdayRange(year, 1, 0, 3);
    NthWeekdayRange(year, 2, 0, 3);
    NthWeekdayRange(year, 9, 0, 1);
    NthWeekdayRange(year, 11, 3, 4);
    LastWeekdayRange(year, 5, 0);
    EasterIsSunday(year);
  }

  lemma EarlyPlace(year: int, d: Date)
    requires d in EarlyCandidates(year)
    ensures InYear(d, year)
  {
    YearLength(year);
    NthWeekdayRange(year, 11, 3, 4);
  }

  /** The weekday that falls in the seven days of the month from a given day on. */
  predicate InWeekFrom(d: Date, year: int, month: int, day: int, weekday: int)
    requires ValidDate(year, month, day)
  {
    Weekday(d) == weekday && ToDate(year, month, day) <= d < ToDate(year, month, day) + 7
  }

  /** A fixed date when it is a weekday; the Friday before a Saturday, the Monday after a Sunday. */
  predicate Beside(d: Date, fixed: Date) {
    || (d == fixed && Weekday(d) < 5)
    || (d == fixed - 1 && Weekday(d) == 4)
    || (d == fixed + 1 && Weekday(d) == 0)
  }

  /** The Friday before the first Sunday after the paschal full moon. */
  predicate BeforeEaster(d: Date, year: int) {
    Weekday(d) == 4 && PaschalFullMoon(year) < d + 2 <= PaschalFullMoon(year) + 7
  }

  lemma ObservedIs(d: Date, fixed: Date)
    ensures d == Observed(fixed) <==> Beside(d, fixed)
  {
  }

  lemma NthWeekdayIs(year: int, month: int, weekday: int, occurrence: int, d: Date)
    requires 1 <= month <= 12 && 0 <= weekday < 7 && 1 <= occurrence <= 4
    ensures ValidDate(year, month, 7 * occurrence - 6)
    ensures d == NthWeekday(year, month, weekday, occurrence)
      <==> InWeekFrom(d, year, month, 7 * occurrence - 6, weekday)
  {
    NthWeekdayRange(year, month, weekday, occurrence);
    hide NthWeekday;
    if InWeekFrom(d, year, month, 7 * occurrence - 6, weekday) {
      SameWeekday(d, NthWeekday(year, month, weekday, occurrence));
    }
  }

  lemma LastMondayOfMayIs(year: int, d: Date)
    ensures d == LastWeekday(year, 5, 0) <==> InWeekFrom(d, year, 5, 25, 0)
  {
    LastWeekdayRange(year, 5, 0);
    hide LastWeekday;
    if InWeekFrom(d, year, 5, 25, 0) {
      SameWeekday(d, LastWeekday(year, 5, 0));
    }
  }

  lemma GoodFridayIs(year: int, d: Date)
    ensures d == GoodFriday(year) <==> BeforeEaster(d, year)
  {
    EasterIsFirstSundayAfterFullMoon(year);
    EasterIsSunday(year);
    hide Easter;
    hide PaschalFullMoon;
    if BeforeEaster(d, year) {
      SameWeekday(d, GoodFriday(year));
    }
  }

  /** The closing days of a year, from the month, the weekday and the moon. */
  predicate Closed(d: Date, year: int) {
    || Beside(d, ToDate(year, 1, 1))                // New Year
    || InWeekFrom(d, year, 1, 15, 0)                // third Monday of January
    || InWeekFrom(d, year, 2, 15, 0)                // third Monday of February
    || BeforeEaster(d, year)                        // Good Friday
    || InWeekFrom(d, year, 5, 25, 0)                // last Monday of May
    || (year >= 2022 && Beside(d, ToDate(year, 6, 19)))
    || Beside(d, ToDate(year, 7, 4))
    || InWeekFrom(d, year, 9, 1, 0)                 // first Monday of September
    || InWeekFrom(d, year, 11, 22, 3)               // fourth Thursday of November
    || Beside(d, ToDate(year, 12, 25))
  }

  /** Exactly the dates of a year's holidays. */
  lemma HolidaysExactly(year: int, d: Date)
    ensures d in YearHolidays(year) <==> Closed(d, year)
  {
    ObservedIs(d, ToDate(year, 1, 1));
    ObservedIs(d, ToDate(year, 6, 19));
    ObservedIs(d, ToDate(year, 7, 4));
    ObservedIs(d, ToDate(year, 12, 25));
    NthWeekdayIs(year, 1, 0, 3, d);
    NthWeekdayIs(year, 2, 0, 3, d);
    NthWeekdayIs(year, 9, 0, 1, d);
    NthWeekdayIs(year, 11, 3, 4, d);
    LastMondayOfMayIs(year, d);
    GoodFridayIs(year, d);
    hide Observed;
    hide NthWeekday;
    hide LastWeekday;
    hide GoodFriday;
    hide Beside;
    hide InWeekFrom;
    hide BeforeEaster;
    hide DaysBeforeYear;
  }

  ghost predicate HolidayBetween(d: Date, startYear: int, endYear: int) {
    exists year :: startYear - 1 <= year <= endYear + 1 && d in YearHolidays(year)
  }

  ghost predicate EarlyBetween(d: Date, startYear: int, endYear: int) {
    exists year :: startYear - 1 <= year <= endYear + 1 && d in EarlyCandidates(year)
  }

  /** The range-free reading: a holiday of the date's own year, or next New Year observed early. */
  predicate IsHoliday(d: Date)
    requires d >= 1
  {
    d in YearHolidays(YearOf(d)) || d in YearHolidays(YearOf(d) + 1)
  }

  predicate IsTradingDay(d: Date)
    requires d >= 1
  {
    Weekday(d) < 5 && !IsHoliday(d)
  }

  predicate IsEarlyClose(d: Date)
    requires d >= 1
  {
    d in EarlyCandidates(YearOf(d)) && IsTradingDay(d)
  }

  lemma HolidayYear(d: Date, year: int)
    requires d >= 1 && d in YearHolidays(year)
    ensures year == YearOf(d) || year == YearOf(d) + 1
  {
    hide YearHolidays;
    HolidayPlace(year, d);
    YearFromCorrect(1, d);
    var y := YearOf(d);
    if year < y { YearsIncrease(year + 1, y); }
    if y + 1 < year { YearsIncrease(y + 2, year); YearLength(y + 1); }
  }

  lemma YearMonotone(d: Date, e: Date)
    requires 1 <= d <= e
    ensures YearOf(d) <= YearOf(e)
  {
    YearFromCorrect(1, d);
    YearFromCorrect(1, e);
    var y, z := YearOf(d), YearOf(e);
    if z < y { YearsIncrease(z + 1, y); }
  }

  /** The holiday set built for a query range agrees with the range-free reading on every date in it. */
  lemma HolidaysAreLocal(d: Date, first: Date, last: Date)
    requires 1 <= first <= d <= last
    ensures HolidayBetween(d, YearOf(first), YearOf(last)) <==> IsHoliday(d)
  {
    hide YearHolidays;
    YearMonotone(first, d);
    YearMonotone(d, last);
    if HolidayBetween(d, YearOf(first), YearOf(last)) {
      var year :| YearOf(first) - 1 <= year <= YearOf(last) + 1 && d in YearHolidays(year);
      HolidayYear(d, year);
    }
  }

  method Holidays(startYear: int, endYear: int) returns (holidays: set<Date>)
    requires startYear <= endYear
    ensures forall d :: d in holidays <==> HolidayBetween(d, startYear, endYear)
  {
    hide YearHolidays;
    holidays := {};
    for year := startYear - 1 to endYear + 2
      invariant forall d :: d in holidays <==> exists y :: startYear - 1 <= y < year && d in YearHolidays(y)
    {
      holidays := holidays + YearHolidays(year);
    }
  }

  method EarlyCloses(startYear: int, endYear: int, holidays: set<Date>) returns (early: set<Date>)
    requires startYear <= endYear
    ensures forall d :: d in early <==> Weekday(d) < 5 && d !in holidays && EarlyBetween(d, startYear, endYear)
  {
    hide EarlyCandidates;
    early := {};
    for year := startYear - 1 to endYear + 2
      invariant forall d :: d in early <==> Weekday(d) < 5 && d !in holidays && EarlyBetween(d, startYear, year - 2)
    {
      early := early + set d | d in EarlyCandidates(year) && Weekday(d) < 5 && d !in holidays;
    }
  }

  // ---------- Sessions ----------

  datatype Session = Session(day: Date, openMinute: int, closeMinute: int, bars: seq<int>, early: bool)

  function Grid(day: Date, fromMinute: int, closeMinute: int): seq<int>
    decreases closeMinute - fromMinute
  {
    if fromMinute >= closeMinute then []
    else [day * MINUTES_PER_DAY + fromMinute] + Grid(day, fromMinute + BAR_INTERVAL, closeMinute)
  }

  method ExpectedBarStartTimes(day: Date, openMinute: int, closeMinute: int) returns (stamps: seq<int>)
    ensures stamps == Grid(day, openMinute, closeMinute)
  {
    var current := day * MINUTES_PER_DAY + openMinute;
    var close := day * MINUTES_PER_DAY + closeMinute;
    stamps := [];
    while current < close
      invariant Grid(day, openMinute, closeMinute) == stamps + Grid(day, current - day * MINUTES_PER_DAY, closeMinute)
      decreases close - current
    {
      stamps := stamps + [current];
      current := current + BAR_INTERVAL;
    }
  }

  lemma {:induction false} GridShape(day: Date, fromMinute: int, count: nat)
    ensures var g := Grid(day, fromMinute, fromMinute + BAR_INTERVAL * count);
      |g| == count && forall i :: 0 <= i < count ==> g[i] == day * MINUTES_PER_DAY + fromMinute + BAR_INTERVAL * i
    decreases count
  {
    if count > 0 {
      GridShape(day, fromMinute + BAR_INTERVAL, count - 1);
    }
  }

  function SessionOn(d: Date): Session
    requires d >= 1
  {
    var close := if IsEarlyClose(d) then EARLY_CLOSE else REGULAR_CLOSE;
    Session(d, REGULAR_OPEN, close, Grid(d, REGULAR_OPEN, close), close != REGULAR_CLOSE)
  }

  /**
    Which days trade and for how long: weekdays that are not closed (New Year's Day may close
    the last Friday of the year before); from 9:30 to 16:00, or to 13:00 on July 3, December 24
    and the day after the fourth Thursday of November.
  */
  lemma SessionsExactly(d: Date)
    requires d >= 1
    ensures var y, s := YearOf(d), SessionOn(d);
      && (IsTradingDay(d) <==> Weekday(d) < 5 && !Closed(d, y) && !Closed(d, y + 1))
      && s.day == d && s.openMinute == 570
      && s.closeMinute == (if s.early then 780 else 960)
      && s.early == (IsTradingDay(d)
           && (d == ToDate(y, 7, 3) || d == ToDate(y, 12, 24) || InWeekFrom(d, y, 11, 23, 4)))
  {
    TradingDayIs(d);
    EarlyCandidateIs(YearOf(d), d);
    SessionIs(d);
    hide *;
  }

  lemma TradingDayIs(d: Date)
    requires d >= 1
    ensures IsTradingDay(d) <==> Weekday(d) < 5 && !Closed(d, YearOf(d)) && !Closed(d, YearOf(d) + 1)
  {
    HolidaysExactly(YearOf(d), d);
    HolidaysExactly(YearOf(d) + 1, d);
    hide YearHolidays;
    hide Closed;
    hide YearOf;
    hide Weekday;
  }

  lemma SessionIs(d: Date)
    requires d >= 1
    ensures var s := SessionOn(d);
      && s.day == d && s.openMinute == 570 && s.closeMinute == (if s.early then 780 else 960)
      && s.early == (IsTradingDay(d) && d in EarlyCandidates(YearOf(d)))
  {
    hide IsTradingDay;
    hide EarlyCandidates;
    hide YearOf;
    hide Grid;
  }

  lemma EarlyCandidateIs(year: int, d: Date)
    ensures d in EarlyCandidates(year)
      <==> d == ToDate(year, 7, 3) || d == ToDate(year, 12, 24) || InWeekFrom(d, year, 11, 23, 4)
  {
    NthWeekdayIs(year, 11, 3, 4, d - 1);
    FridayAfter(year, d);
    hide NthWeekday;
    hide InWeekFrom;
    hide ToDate;
  }

  lemma FridayAfter(year: int, d: Date)
    ensures InWeekFrom(d, year, 11, 23, 4) <==> InWeekFrom(d - 1, year, 11, 22, 3)
  {
    assert ToDate(year, 11, 23) == ToDate(year, 11, 22) + 1;
    hide ToDate;
    NextDay(d);
    hide Weekday;
  }

  lemma NextDay(d: Date)
    ensures Weekday(d) == 4 <==> Weekday(d - 1) == 3
  {
  }

  /** The sessions of a date range, each decided by its own date alone. */
  function Sessions(first: Date, last: Date): seq<Session>
    requires first >= 1
    decreases last - first
  {
    if first > last then []
    else (if IsTradingDay(first) then [SessionOn(first)] else []) + Sessions(first + 1, last)
  }

  /** Python dates run over the years 1 to 9999, and the holiday years reach one further each way. */
  predicate Representable(first: Date, last: Date) {
    first <= last ==> 1 <= first && 2 <= YearOf(first) && YearOf(last) <= 9998
  }

  /**
    The calendar's day loop, with holiday and early-close sets built for the query's years.
    Its result is `Sessions`, which never looks at the range: the calendar is local.
  */
  method SessionsBetween(first: Date, last: Date) returns (sessions: seq<Session>)
    requires first >= 1 && Representable(first, last)
    ensures sessions == Sessions(first, last)
  {
    hide IsTradingDay;
    hide IsEarlyClose;
    hide Weekday;
    hide YearOf;
    hide HolidayBetween;
    hide EarlyBetween;
    sessions := [];
    if first > last {
      return;
    }
    YearMonotone(first, last);
    var holidays := Holidays(YearOf(first), YearOf(last));
    var early := EarlyCloses(YearOf(first), YearOf(last), holidays);
    var current := first;
    while current <= last
      invariant first <= current <= last + 1
      invariant Sessions(first, last) == sessions + Sessions(current, last)
    {
      DayDecision(current, first, last);
      if Weekday(current) < 5 && current !in holidays {
        var close := if current in early then EARLY_CLOSE else REGULAR_CLOSE;
        var bars := ExpectedBarStartTimes(current, REGULAR_OPEN, close);
        sessions := sessions + [Session(current, REGULAR_OPEN, close, bars, close != REGULAR_CLOSE)];
      }
      current := current + 1;
    }
  }

  lemma DayDecision(d: Date, first: Date, last: Date)
    requires 1 <= first <= d <= last
    ensures Weekday(d) < 5 && !HolidayBetween(d, YearOf(first), YearOf(last)) <==> IsTradingDay(d)
    ensures IsEarlyClose(d) <==>
      && Weekday(d) < 5
      && !HolidayBetween(d, YearOf(first), YearOf(last))
      && EarlyBetween(d, YearOf(first), YearOf(last))
  {
    HolidaysAreLocal(d, first, last);
    EarlyIsLocal(d, first, last);
  }

  lemma EarlyIsLocal(d: Date, first: Date, last: Date)
    requires 1 <= first <= d <= last
    ensures EarlyBetween(d, YearOf(first), YearOf(last)) <==> d in EarlyCandidates(YearOf(d))
  {
    hide EarlyCandidates;
    YearMonotone(first, d);
    YearMonotone(d, last);
    if EarlyBetween(d, YearOf(first), YearOf(last)) {
      var year :| YearOf(first) - 1 <= year <= YearOf(last) + 1 && d in EarlyCandidates(year);
      EarlyPlace(year, d);
      YearUnique(d, year);
    }
  }

  /** So a query over two adjacent ranges is the two queries joined. */
  lemma {:induction false} SessionsJoin(first: Date, middle: Date, last: Date)
    requires 1 <= first <= middle + 1 && middle <= last
    ensures Sessions(first, last) == Sessions(first, middle) + Sessions(middle + 1, last)
    decreases middle - first
  {
    hide IsTradingDay;
    hide SessionOn;
    if first <= middle {
      SessionsJoin(first + 1, middle, last);
    }
  }

  /** Output dates are strictly increasing and are exactly the trading days of the range. */
  lemma {:induction false} SessionsComplete(first: Date, last: Date)
    requires first >= 1
    ensures forall i :: 0 <= i < |Sessions(first, last)| ==>
      var s := Sessions(first, last)[i];
      first <= s.day <= last && IsTradingDay(s.day) && s == SessionOn(s.day)
    ensures forall i, j :: 0 <= i < j < |Sessions(first, last)| ==>
      Sessions(first, last)[i].day < Sessions(first, last)[j].day
    ensures forall d :: first <= d <= last && IsTradingDay(d) ==> SessionOn(d) in Sessions(first, last)
    decreases last - first
  {
    hide IsTradingDay;
    hide IsEarlyClose;
    hide Grid;
    if first <= last {
      SessionsComplete(first + 1, last);
    }
  }
}
