/** The Gregorian to Jalali conversion behind the expiry-date token: a Julian day number by
    division, then a walk over the Jalali months from a reference date. */
module Jalali {

  // ---------------------------------------------------------------- Go's integer division

  function Quo(a: int, b: int): int
    requires b > 0
  {
    if a >= 0 then a / b else -(-a / b)
  }

  function Rem(a: int, b: int): int
    requires b > 0
  {
    if a >= 0 then a % b else -(-a % b)
  }

  /** Division truncates toward zero: the remainder is smaller than the divisor and has the sign of
      the dividend. */
  lemma {:induction false} DivisionTruncates(a: int, b: int)
    requires b > 0
    ensures a == Quo(a, b) * b + Rem(a, b) && -b < Rem(a, b) < b && (a >= 0 ==> Rem(a, b) >= 0) && (a <= 0 ==> Rem(a, b) <= 0)
  {
    assert -a == (-a / b) * b + -a % b;
    Negated(-a / b, b);
  }

  lemma {:induction false} Negated(q: int, b: int)
    ensures -(q * b) == -q * b
  {
  }

  // ---------------------------------------------------------------- the two calendars

  datatype Date = Date(y: int, m: int, d: int)

  predicate IsJalaliLeap(y: int) {
    Rem(y, 33) in {1, 5, 9, 13, 17, 22, 26, 30}
  }

  function JalaliMonthDays(y: int, m: int): int {
    if m <= 6 then 31
    else if m <= 11 then 30
    else if IsJalaliLeap(y) then 30
    else 29
  }

  predicate ValidJalali(j: Date) {
    1 <= j.m <= 12 && 1 <= j.d <= JalaliMonthDays(j.y, j.m)
  }

  function NextJalali(j: Date): Date {
    if j.d < JalaliMonthDays(j.y, j.m) then Date(j.y, j.m, j.d + 1)
    else if j.m < 12 then Date(j.y, j.m + 1, 1)
    else Date(j.y + 1, 1, 1)
  }

  /** The Gregorian leap rule: every fourth year but the centuries, except every fourth century. */
  predicate IsGregorianLeap(y: int) {
    y % 4 == 0 && (y % 100 != 0 || y % 400 == 0)
  }

  function GregorianMonthDays(y: int, m: int): int {
    if m == 2 then (if IsGregorianLeap(y) then 29 else 28)
    else if m == 4 || m == 6 || m == 9 || m == 11 then 30
    else 31
  }

  predicate ValidGregorian(g: Date) {
    1 <= g.m <= 12 && 1 <= g.d <= GregorianMonthDays(g.y, g.m)
  }

  function NextGregorian(g: Date): Date {
    if g.d < GregorianMonthDays(g.y, g.m) then Date(g.y, g.m, g.d + 1)
    else if g.m < 12 then Date(g.y, g.m + 1, 1)
    else Date(g.y + 1, 1, 1)
  }

  /** The Julian day number as the conversion computes it. */
  function JulianDay(g: Date): int {
    var a := Quo(14 - g.m, 12);
    var y := g.y + 4800 - a;
    var m := g.m + 12 * a - 3;
    g.d + Quo(153 * m + 2, 5) + 365 * y + Quo(y, 4) - Quo(y, 100) + Quo(y, 400) - 32045
  }

  const REFERENCE_DAY := 2460311
  const REFERENCE := Date(1402, 10, 11)

  // ---------------------------------------------------------------- counting Jalali days

  function YearDays(y: int): int {
    if IsJalaliLeap(y) then 366 else 365
  }

  /** Days from the start of year 0 to the start of year `y`. */
  function YearStart(y: int): int
    decreases if y < 0 then -y else y
  {
    if y == 0 then 0
    else if y > 0 then YearStart(y - 1) + YearDays(y - 1)
    else YearStart(y + 1) - YearDays(y)
  }

  /** Days from the start of the year to the start of month `m`, by the month lengths. */
  function MonthStart(y: int, m: int): int
    decreases m
  {
    if m <= 1 then 0 else MonthStart(y, m - 1) + JalaliMonthDays(y, m - 1)
  }

  function DayCount(j: Date): int {
    YearStart(j.y) + MonthStart(j.y, j.m) + j.d
  }

  /** What it means for a Jalali date to be the Gregorian one: it is a date, and lies as far from
      the reference date as the Julian days do. */
  predicate Converts(g: Date, j: Date) {
    ValidJalali(j) && DayCount(j) - DayCount(REFERENCE) == JulianDay(g) - REFERENCE_DAY
  }

  lemma {:induction false} YearStep(y: int)
    ensures YearStart(y + 1) == YearStart(y) + YearDays(y)
  {
  }

  lemma {:induction false} MonthStarts(y: int)
    ensures forall m | 1 <= m <= 7 :: MonthStart(y, m) == 31 * (m - 1)
    ensures forall m | 7 <= m <= 12 :: MonthStart(y, m) == 186 + 30 * (m - 7)
    ensures MonthStart(y, 13) == YearDays(y)
  {
    assert MonthStart(y, 1) == 0;
    assert MonthStart(y, 2) == 31;
    assert MonthStart(y, 3) == 62;
    assert MonthStart(y, 4) == 93;
    assert MonthStart(y, 5) == 124;
    assert MonthStart(y, 6) == 155;
    assert MonthStart(y, 7) == 186;
    assert MonthStart(y, 8) == 216;
    assert MonthStart(y, 9) == 246;
    assert MonthStart(y, 10) == 276;
    assert MonthStart(y, 11) == 306;
    assert MonthStart(y, 12) == 336;
  }

  lemma {:induction false} MonthStartsAlike(x: int, y: int, m: int)
    requires 1 <= m <= 12
    ensures MonthStart(x, m) == MonthStart(y, m)
  {
    MonthStarts(x);
    MonthStarts(y);
    if m > 7 {
      assert MonthStart(x, m) == 186 + 30 * (m - 7) == MonthStart(y, m);
    }
  }

  /** The first day of the month after `m` continues the count. */
  lemma {:induction false} MonthStep(y: int, m: int, d: int)
    requires 1 <= m <= 12
    ensures DayCount(if m < 12 then Date(y, m + 1, d) else Date(y + 1, 1, d)) ==
      DayCount(Date(y, m, d)) + JalaliMonthDays(y, m)
  {
    YearStep(y);
    MonthStarts(y);
    assert MonthStart(y + 1, 1) == 0;
    if m == 12 {
      assert MonthStart(y, 13) == MonthStart(y, 12) + JalaliMonthDays(y, 12);
    }
  }

  /** The walk forward over whole months from the reference date. */
  method WalkForward(days: int) returns (jy: int, jm: int, jd: int)
    requires days > 0
    ensures ValidJalali(Date(jy, jm, jd))
    ensures DayCount(Date(jy, jm, jd)) == DayCount(REFERENCE) + days
  {
    var left := days;
    jy, jm, jd := 1402, 10, 11;
    while left > 0
      invariant left >= 0 && ValidJalali(Date(jy, jm, jd))
      invariant DayCount(Date(jy, jm, jd)) + left == DayCount(REFERENCE) + days
      decreases left
    {
      var remaining := JalaliMonthDays(jy, jm) - jd + 1;
      if left < remaining {
        jd := jd + left;
        return;
      }
      MonthStep(jy, jm, 1);
      left := left - remaining;
      jm := jm + 1;
      if jm > 12 {
        jm := 1;
        jy := jy + 1;
      }
      jd := 1;
    }
  }

  /** The walk backward: take the days off the reference day, then borrow whole months. */
  method WalkBackward(days: int) returns (jy: int, jm: int, jd: int)
    requires days <= 0
    ensures ValidJalali(Date(jy, jm, jd))
    ensures DayCount(Date(jy, jm, jd)) == DayCount(REFERENCE) + days
  {
    jy, jm, jd := 1402, 10, 11;
    jd := jd + days;
    while jd < 1
      invariant 1 <= jm <= 12 && jd <= JalaliMonthDays(jy, jm)
      invariant DayCount(Date(jy, jm, jd)) == DayCount(REFERENCE) + days
      decreases -jd
    {
      ghost var before := jd;
      jm := jm - 1;
      if jm < 1 {
        jm := 12;
        jy := jy - 1;
      }
      MonthStep(jy, jm, before);
      jd := jd + JalaliMonthDays(jy, jm);
    }
  }

  method GregorianToJalali(gy: int, gm: int, gd: int) returns (jy: int, jm: int, jd: int)
    ensures Converts(Date(gy, gm, gd), Date(jy, jm, jd))
  {
    var days := JulianDay(Date(gy, gm, gd)) - REFERENCE_DAY;
    if days > 0 {
      jy, jm, jd := WalkForward(days);
    } else {
      jy, jm, jd := WalkBackward(days);
    }
  }

  // ---------------------------------------------------------------- the conversion is a calendar

  lemma {:induction false} NextIsNextDay(j: Date)
    requires ValidJalali(j)
    ensures ValidJalali(NextJalali(j)) && DayCount(NextJalali(j)) == DayCount(j) + 1
  {
    if j.d == JalaliMonthDays(j.y, j.m) {
      MonthStep(j.y, j.m, 1);
    }
  }

  lemma {:induction false} YearsApart(x: int, y: int)
    requires x < y
    ensures YearStart(x) + YearDays(x) <= YearStart(y)
    decreases y - x
  {
    YearStep(x);
    if x + 1 < y {
      YearsApart(x + 1, y);
    }
  }

  lemma {:induction false} DayWithinYear(j: Date)
    requires ValidJalali(j)
    ensures YearStart(j.y) < DayCount(j) <= YearStart(j.y) + YearDays(j.y)
  {
    MonthStarts(j.y);
  }

  /** No two dates share a day, so a Gregorian date has exactly one Jalali date. */
  lemma {:induction false} ConversionIsUnique(i: Date, j: Date)
    requires ValidJalali(i) && ValidJalali(j) && DayCount(i) == DayCount(j)
    ensures i == j
  {
    DayWithinYear(i);
    DayWithinYear(j);
    if i.y < j.y {
      YearsApart(i.y, j.y);
    } else if j.y < i.y {
      YearsApart(j.y, i.y);
    } else {
      MonthStarts(i.y);
    }
  }

  lemma {:induction false} NextMultiples(y: int)
    requires y >= 0
    ensures (y + 1) / 4 - y / 4 == if (y + 1) % 4 == 0 then 1 else 0
    ensures (y + 1) / 100 - y / 100 == if (y + 1) % 100 == 0 then 1 else 0
    ensures (y + 1) / 400 - y / 400 == if (y + 1) % 400 == 0 then 1 else 0
  {
  }

  lemma {:induction false} FourHundreds(y: int, k: int)
    requires y == 400 * k
    ensures y % 100 == 0 && y % 4 == 0
  {
    assert y == 100 * (4 * k) == 4 * (100 * k);
  }

  lemma {:induction false} Hundreds(y: int, k: int)
    requires y == 100 * k
    ensures y % 4 == 0
  {
    assert y == 4 * (25 * k);
  }

  lemma {:induction false} MultiplesNest(y: int)
    ensures y % 400 == 0 ==> y % 100 == 0
    ensures y % 100 == 0 ==> y % 4 == 0
  {
    if y % 400 == 0 {
      FourHundreds(y, y / 400);
    } else if y % 100 == 0 {
      Hundreds(y, y / 100);
    }
  }

  lemma {:induction false} LeapYearsAlike(y: int)
    requires y >= 0
    ensures Quo(y + 1, 4) - Quo(y + 1, 100) + Quo(y + 1, 400) - (Quo(y, 4) - Quo(y, 100) + Quo(y, 400)) ==
      if IsGregorianLeap(y + 1) then 1 else 0
  {
    NextMultiples(y);
    MultiplesNest(y + 1);
  }

  lemma {:induction false} ShiftKeepsQuarters(y: int)
    ensures (y + 4800) % 4 == y % 4
  {
  }

  lemma {:induction false} ShiftKeepsHundreds(y: int)
    ensures (y + 4800) % 100 == y % 100
  {
  }

  lemma {:induction false} ShiftKeepsFourHundreds(y: int)
    ensures (y + 4800) % 400 == y % 400
  {
  }

  lemma {:induction false} LeapRuleShifts(y: int)
    ensures IsGregorianLeap(y + 4800) == IsGregorianLeap(y)
  {
    ShiftKeepsQuarters(y);
    ShiftKeepsHundreds(y);
    ShiftKeepsFourHundreds(y);
  }

  /** What the formula adds for the whole years before the year starting on 1 March. */
  function YearPart(y: int): int {
    365 * y + Quo(y, 4) - Quo(y, 100) + Quo(y, 400)
  }

  /** What it adds for the months since 1 March. */
  function MonthPart(m: int): int {
    Quo(153 * m + 2, 5)
  }

  lemma {:induction false} JulianDayParts(g: Date)
    requires 1 <= g.m <= 12
    ensures g.m <= 2 ==> JulianDay(g) == g.d + MonthPart(g.m + 9) + YearPart(g.y + 4799) - 32045
    ensures g.m > 2 ==> JulianDay(g) == g.d + MonthPart(g.m - 3) + YearPart(g.y + 4800) - 32045
  {
    if g.m <= 2 {
      assert Quo(14 - g.m, 12) == 1;
    } else {
      assert Quo(14 - g.m, 12) == 0;
    }
  }

  lemma {:induction false} EndOfFebruary(y: int)
    requires y >= -4799
    ensures MonthPart(0) + YearPart(y + 4800) == GregorianMonthDays(y, 2) + MonthPart(11) + YearPart(y + 4799)
  {
    LeapYearsAlike(y + 4799);
    LeapRuleShifts(y);
  }

  lemma {:induction false} WithinMonth(g: Date)
    requires ValidGregorian(g) && g.d < GregorianMonthDays(g.y, g.m)
    ensures ValidGregorian(NextGregorian(g)) && JulianDay(NextGregorian(g)) == JulianDay(g) + 1
  {
    JulianDayParts(g);
    JulianDayParts(NextGregorian(g));
  }

  lemma {:induction false} AtMonthEnd(g: Date)
    requires ValidGregorian(g) && g.y >= -4799 && g.d == GregorianMonthDays(g.y, g.m)
    ensures ValidGregorian(NextGregorian(g)) && JulianDay(NextGregorian(g)) == JulianDay(g) + 1
  {
    JulianDayParts(g);
    JulianDayParts(NextGregorian(g));
    if g.m == 2 {
      EndOfFebruary(g.y);
    } else {
      MonthPartSteps(g.y, g.m);
    }
  }

  /** The division formula follows the calendar from 1 March 4800 BC on: over month ends, the end
      of February in every kind of year, and the end of the year. */
  lemma {:induction false} JulianDaysAreConsecutive(g: Date)
    requires ValidGregorian(g) && g.y >= -4799
    ensures ValidGregorian(NextGregorian(g)) && JulianDay(NextGregorian(g)) == JulianDay(g) + 1
  {
    if g.d == GregorianMonthDays(g.y, g.m) {
      AtMonthEnd(g);
    } else {
      WithinMonth(g);
    }
  }

  lemma {:induction false} MonthPartSteps(y: int, m: int)
    requires 1 <= m <= 12 && m != 2
    ensures m == 1 ==> MonthPart(11) == MonthPart(10) + GregorianMonthDays(y, m)
    ensures 3 <= m ==> MonthPart(m - 2) == MonthPart(m - 3) + GregorianMonthDays(y, m)
  {
  }

  /** The walk starts from a pair of dates that are the same day. */
  lemma {:induction false} ReferenceConverts()
    ensures Converts(Date(2024, 1, 1), REFERENCE)
  {
    assert !IsJalaliLeap(1402);
  }

  /** The leap years of the cycle of our days. */
  lemma {:induction false} LeapYearsAre(y: int)
    requires 1387 <= y < 1420
    ensures IsJalaliLeap(y) <==> y in {1387, 1391, 1395, 1399, 1403, 1408, 1412, 1416}
  {
  }

  lemma {:induction false} ConvertsOnlyTo(g: Date, i: Date, j: Date)
    requires Converts(g, i)
    ensures Converts(g, j) <==> i == j
  {
    if Converts(g, j) {
      ConversionIsUnique(i, j);
    }
  }

  /** New year's day of 2024, and the first and the last day of the Jalali leap year it fell before. */
  lemma {:induction false} KnownDates(j: Date)
    ensures Converts(Date(2024, 1, 1), j) <==> j == Date(1402, 10, 11)
    ensures Converts(Date(2024, 3, 20), j) <==> j == Date(1403, 1, 1)
    ensures Converts(Date(2025, 3, 20), j) <==> j == Date(1403, 12, 30)
  {
    LeapYearsAre(1402);
    LeapYearsAre(1403);
    YearStep(1402);
    MonthStarts(1402);
    MonthStarts(1403);
    KnownDays();
    ConvertsOnlyTo(Date(2024, 1, 1), Date(1402, 10, 11), j);
    ConvertsOnlyTo(Date(2024, 3, 20), Date(1403, 1, 1), j);
    ConvertsOnlyTo(Date(2025, 3, 20), Date(1403, 12, 30), j);
  }

  lemma {:induction false} KnownDays()
    ensures JulianDay(Date(2024, 1, 1)) == 2460311
    ensures JulianDay(Date(2024, 3, 20)) == 2460390
    ensures JulianDay(Date(2025, 3, 20)) == 2460755
  {
  }

  /** Consecutive Gregorian days convert to consecutive Jalali days. */
  lemma {:induction false} ConsecutiveDays(g: Date, j: Date, k: Date)
    requires ValidGregorian(g) && g.y >= -4799 && Converts(g, j) && Converts(NextGregorian(g), k)
    ensures k == NextJalali(j)
  {
    JulianDaysAreConsecutive(g);
    NextIsNextDay(j);
    ConversionIsUnique(k, NextJalali(j));
  }

  // ---------------------------------------------------------------- the cycle of 33 years

  lemma {:induction false} LeapCycle(y: int)
    ensures y >= 0 ==> IsJalaliLeap(y + 33) == IsJalaliLeap(y)
    ensures y < 0 ==> !IsJalaliLeap(y)
  {
  }

  /** How many of the years 0 to `y` - 1 are leap years, for `y` up to 33. */
  function LeapsBefore(y: int): int {
    (if y > 1 then 1 else 0) + (if y > 5 then 1 else 0) + (if y > 9 then 1 else 0) + (if y > 13 then 1 else 0) +
    (if y > 17 then 1 else 0) + (if y > 22 then 1 else 0) + (if y > 26 then 1 else 0) + (if y > 30 then 1 else 0)
  }

  lemma {:induction false} LeapsStep(y: int)
    requires 0 <= y < 33
    ensures LeapsBefore(y + 1) == LeapsBefore(y) + if IsJalaliLeap(y) then 1 else 0
  {
    assert Quo(y, 33) == 0;
    assert IsJalaliLeap(y) == (y in {1, 5, 9, 13, 17, 22, 26, 30});
  }

  lemma {:induction false} WithinFirstCycle(y: int)
    requires 0 <= y <= 33
    ensures YearStart(y) == 365 * y + LeapsBefore(y)
    decreases y
  {
    if y > 0 {
      WithinFirstCycle(y - 1);
      YearStep(y - 1);
      LeapsStep(y - 1);
    }
  }

  lemma {:induction false} FirstCycle(y: int)
    requires y == 0
    ensures YearStart(y + 33) - YearStart(y) == 12053
  {
    WithinFirstCycle(y + 33);
    WithinFirstCycle(y);
    assert LeapsBefore(y + 33) == 8 && LeapsBefore(y) == 0;
  }

  lemma {:induction false} CycleFrom(y: int)
    requires y >= 0
    ensures YearStart(y + 33) - YearStart(y) == 12053
    decreases y
  {
    if y > 0 {
      CycleFrom(y - 1);
      CycleMoves(y - 1);
    } else {
      FirstCycle(y);
    }
  }

  lemma {:induction false} CycleMoves(y: int)
    requires y >= 0
    ensures YearStart(y + 34) - YearStart(y + 33) == YearStart(y + 1) - YearStart(y)
  {
    LeapCycle(y);
    YearStep(y);
    YearStep(y + 33);
  }

  lemma {:induction false} ShortCycle(y: int)
    requires y <= -3
    ensures YearStart(y + 33) - YearStart(y) < 12053
    decreases -y
  {
    YearStep(y);
    YearStep(y + 33);
    LeapCycle(y);
    if y == -3 {
      TwoBefore(y + 1);
      assert Rem(y + 33, 33) == 30;
    } else {
      ShortCycle(y + 1);
    }
  }

  lemma {:induction false} TwoBefore(y: int)
    requires y == -1 || y == -2
    ensures YearStart(y + 33) - YearStart(y) == 12053
  {
    WithinFirstCycle(y + 33);
    YearStep(y);
    assert Rem(y, 33) == y;
    if y == -2 {
      YearStep(y + 1);
      assert Rem(y + 1, 33) == y + 1;
    }
  }

  /** 33 years are 12053 days exactly from year -2 on: Go's remainder is negative for negative
      years, so none of those is ever a leap year. */
  lemma {:induction false} CycleExactlyFromYearMinusTwo(y: int)
    ensures YearStart(y + 33) - YearStart(y) == 12053 <==> y >= -2
  {
    if y >= 0 {
      CycleFrom(y);
    } else if y <= -3 {
      ShortCycle(y);
    } else {
      TwoBefore(y);
    }
  }

  lemma {:induction false} CycleLater(j: Date)
    requires ValidJalali(j) && j.y >= 0
    ensures var moved := Date(j.y + 33, j.m, j.d); ValidJalali(moved) && DayCount(moved) == DayCount(j) + 12053
  {
    CycleFrom(j.y);
    LeapCycle(j.y);
    MonthStartsAlike(j.y, j.y + 33, j.m);
  }

  /** Moving 12053 days on moves a Jalali date of a non-negative year by exactly 33 years. */
  lemma {:induction false} CycleMovesTheYear(g: Date, h: Date, j: Date, k: Date)
    requires Converts(g, j) && Converts(h, k) && j.y >= 0 && JulianDay(h) == JulianDay(g) + 12053
    ensures k == Date(j.y + 33, j.m, j.d)
  {
    CycleLater(j);
    ConversionIsUnique(k, Date(j.y + 33, j.m, j.d));
  }
}
