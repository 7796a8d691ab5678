/** Easter, the static holiday list and the low-liquidity calendar of `session_time/src/calendar.rs`. */
module Holidays {
  import opened Prelude
  import opened Gregorian

  // ---------- Easter: the Meeus/Jones/Butcher computus ----------

  /** Integer division and remainder as the source's signed integers do them: towards zero. */
  function Quot(x: int, m: int): int
    requires m > 0
  {
    if x >= 0 then x / m else -((-x) / m)
  }

  function Rem(x: int, m: int): int
    requires m > 0
  {
    if x >= 0 then x % m else -((-x) % m)
  }

  function EasterSunday(year: int): Option<int> {
    var h := ComputusMoon(year);
    ComputusDate(year, Rem(year, 19), h, ComputusSunday(year, h))
  }

  function ComputusDate(year: int, a: int, h: int, l: int): Option<int> {
    var m := Quot(a + 11 * h + 22 * l, 451);
    var month := Quot(h + l - 7 * m + 114, 31);
    var day := Rem(h + l - 7 * m + 114, 31) + 1;
    FromYmd(year, month, day)
  }

  function ComputusMoon(year: int): int {
    var a, b := Rem(year, 19), Quot(year, 100);
    var d := Quot(b, 4);
    var f := Quot(b + 8, 25);
    var g := Quot(b - f + 1, 3);
    Rem(19 * a + b - d - g + 15, 30)
  }

  function ComputusSunday(year: int, h: int): int {
    var b, c := Quot(year, 100), Rem(year, 100);
    var e, i, k := Rem(b, 4), Quot(c, 4), Rem(c, 4);
    Rem(32 + 2 * e + 2 * i - h - k, 7)
  }

  // ---------- The ecclesiastical full moon: golden number, century corrections, epact ----------

  function GoldenNumber(y: int): int { y % 19 + 1 }

  function SolarCorrection(y: int): int { 3 * (y / 100 + 1) / 4 - 12 }

  function LunarCorrection(y: int): int { (8 * (y / 100 + 1) + 5) / 25 - 5 }

  function Epact(y: int): int {
    var raw := (11 * GoldenNumber(y) + 20 + LunarCorrection(y) - SolarCorrection(y)) % 30;
    if raw == 24 || (raw == 25 && GoldenNumber(y) > 11) then raw + 1 else raw
  }

  /** The full moon on or after 21 March, as a day of March (32 is 1 April). */
  function FullMoonOfMarch(y: int): int {
    var n := 44 - Epact(y);
    if n < 21 then n + 30 else n
  }

  function MarchDay(y: int, day: int): int {
    DayNumber(Date(y, 3, 1)) + day - 1
  }

  function FullMoon(y: int): int { MarchDay(y, FullMoonOfMarch(y)) }

  function SundayAfter(n: int): int { n + 7 - Weekday(n) }

  /** The first Sunday strictly after a day. */
  lemma SundayAfterIsFirst(n: int, r: int)
    ensures r == SundayAfter(n) <==>
            && n < r && Weekday(r) == SUNDAY
            && forall i :: n < i < r ==> Weekday(i) != SUNDAY
  {
    var s := SundayAfter(n);
    SundayAfterIs(n);
    hide Weekday, SundayAfter;
    forall i | n < i < s ensures Weekday(i) != SUNDAY {
      WeekdayRepeats(i, s - i);
    }
  }

  lemma SundayAfterIs(n: int)
    ensures n < SundayAfter(n) <= n + 7 && Weekday(SundayAfter(n)) == SUNDAY
  {
  }

  lemma SundayWithinWeek(n: int, r: int)
    requires n < r <= n + 7 && Weekday(r) == SUNDAY
    ensures r == SundayAfter(n)
  {
  }

  // ---------- The computus finds the first Sunday after that moon ----------

  /** h is how far the uncorrected moon lies past 21 March. */
  function MoonOffset(y: int): int {
    var a, b := y % 19, y / 100;
    var g := (b - (b + 8) / 25 + 1) / 3;
    (19 * a + b - b / 4 - g + 15) % 30
  }

  function SundayOffset(y: int): int {
    var b, c := y / 100, y % 100;
    (32 + 2 * (b % 4) + 2 * (c / 4) - MoonOffset(y) - c % 4) % 7
  }

  lemma CenturyCorrections(b: int)
    requires b >= 0
    ensures 3 * (b + 1) / 4 == b - b / 4
    ensures (8 * (b + 1) + 5) / 25 == (b - (b + 8) / 25 + 1) / 3
    ensures b - (b + 8) / 25 + 1 >= 0 && b - b / 4 - (b - (b + 8) / 25 + 1) / 3 >= -15
  {
    var q, r := b / 25, b % 25;
    assert b == 25 * q + r;
    var s := if r >= 17 then 1 else 0;
    DivideUnique(b + 8, 25, q + s, r + 8 - 25 * s);
    var w := (r + 1 - s) / 3;
    DivideUnique(b - (q + s) + 1, 3, 8 * q + w, (r + 1 - s) % 3);
    DivideUnique(8 * b + 13, 25, 8 * q + w, 8 * r + 13 - 25 * w);
  }

  /** The computus's moon and the epact's moon differ only by the one-day corrections. */
  lemma MoonOffsetMatchesEpact(y: int)
    requires y >= 0
    ensures var h, a := MoonOffset(y), y % 19;
            FullMoonOfMarch(y) == 21 + h - (if h == 29 || (h == 28 && a > 10) then 1 else 0)
  {
    var a, b := y % 19, y / 100;
    CenturyCorrections(b);
    var d, g := b / 4, (b - (b + 8) / 25 + 1) / 3;
    var low, high := 19 * a + b - d - g + 15, 11 * a + 38 + g - b + d;
    assert MoonOffset(y) == low % 30;
    var h := low % 30;
    assert low == 30 * (low / 30) + h;
    var e := if h <= 23 then 23 - h else 53 - h;
    var t := if h <= 23 then a + 1 - low / 30 else a - low / 30;
    assert low + high == 30 * a + 53;
    DivideUnique(high, 30, t, e);
    assert 11 * GoldenNumber(y) + 20 + LunarCorrection(y) - SolarCorrection(y) == high;
  }

  lemma MarchDayClosedForm(y: int, day: int)
    ensures MarchDay(y, day) == 365 * y + y / 4 - y / 100 + y / 400 + 59 + day
  {
    MonthsFillYear(y);
    YearStartCountsYears(y);
    DivideUnique(y + 4, 4, y / 4 + 1, y % 4);
    DivideUnique(y + 100, 100, y / 100 + 1, y % 100);
    DivideUnique(y + 400, 400, y / 400 + 1, y % 400);
  }

  /** The day h + l + 1 days past 21 March is a Sunday. */
  lemma OffsetsReachSunday(y: int)
    requires y >= 0
    ensures Weekday(MarchDay(y, 22 + MoonOffset(y) + SundayOffset(y))) == SUNDAY
  {
    var b, c, h := y / 100, y % 100, MoonOffset(y);
    var d, e, i, k := b / 4, b % 4, c / 4, c % 4;
    assert b == 4 * d + e && c == 4 * i + k && y == 100 * b + c;
    DivideUnique(y, 4, 25 * b + i, k);
    DivideUnique(y, 400, d, 100 * e + c);
    var total := 32 + 2 * e + 2 * i - h - k;
    var l := total % 7;
    assert total == 7 * (total / 7) + l;
    MarchDayClosedForm(y, 22 + h + l);
    var n := MarchDay(y, 22 + h + l);
    assert n == 365 * y + 25 * b + i - b + d + 81 + h + l;
    var q := 20871 * d + 5218 * e + 209 * i + 52 * k + 17 - total / 7;
    assert n + 6 == 7 * q;
    DivideUnique(n + 6, 7, q, 0);
  }

  /** What the computus computes, in the terms above. */
  lemma EasterInTerms(y: int)
    requires y >= 0
    ensures var a, h, l := y % 19, MoonOffset(y), SundayOffset(y);
            var m := if l == 6 && (h == 29 || (h == 28 && a > 10)) then 1 else 0;
            && 0 <= h + l - 7 * m <= 34
            && EasterSunday(y) == Some(MarchDay(y, 22 + h + l - 7 * m))
  {
    ComputusMoonIs(y);
    ComputusSundayIs(y);
    MoonOffsetRange(y);
    SundayOffsetRange(y);
    Truncation(y, 19);
    hide Quot, Rem, ComputusMoon, ComputusSunday, MoonOffset, SundayOffset, ComputusDate;
    ComputusDateIs(y, y % 19, MoonOffset(y), SundayOffset(y));
  }

  lemma DayOfMarchOrApril(y: int, x: int)
    requires 0 <= x <= 34
    ensures FromYmd(y, (x + 114) / 31, (x + 114) % 31 + 1) == Some(MarchDay(y, 22 + x))
  {
    MonthsFillYear(y);
    hide YearStart, MonthStart;
    if x <= 9 {
      DivideUnique(x + 114, 31, 3, x + 21);
    } else {
      DivideUnique(x + 114, 31, 4, x - 10);
    }
  }

  lemma LateMoon(a: int, h: int, l: int)
    requires 0 <= a < 19 && 0 <= h < 30 && 0 <= l < 7
    ensures (a + 11 * h + 22 * l) / 451 == if l == 6 && (h == 29 || (h == 28 && a > 10)) then 1 else 0
  {
  }

  lemma Truncation(x: int, m: int)
    requires x >= 0 && m > 0
    ensures Quot(x, m) == x / m && Rem(x, m) == x % m
  {
  }

  /** For a year from 0 on every dividend is non-negative, so truncation plays no part. */
  lemma ComputusMoonIs(y: int)
    requires y >= 0
    ensures ComputusMoon(y) == MoonOffset(y)
  {
    hide Quot, Rem;
    var a, b := y % 19, y / 100;
    Truncation(y, 19);
    Truncation(y, 100);
    CenturyCorrections(b);
    Truncation(b, 4);
    Truncation(b + 8, 25);
    var f := (b + 8) / 25;
    Truncation(b - f + 1, 3);
    var g := (b - f + 1) / 3;
    Truncation(19 * a + b - b / 4 - g + 15, 30);
  }

  lemma ComputusSundayIs(y: int)
    requires y >= 0
    ensures ComputusSunday(y, MoonOffset(y)) == SundayOffset(y)
  {
    hide Quot, Rem, MoonOffset;
    var b, c := y / 100, y % 100;
    Truncation(y, 100);
    Truncation(b, 4);
    Truncation(c, 4);
    MoonOffsetRange(y);
    Truncation(32 + 2 * (b % 4) + 2 * (c / 4) - MoonOffset(y) - c % 4, 7);
  }

  lemma MoonOffsetRange(y: int)
    ensures 0 <= MoonOffset(y) < 30
  {
  }

  lemma ComputusDateIs(y: int, a: int, h: int, l: int)
    requires 0 <= a < 19 && 0 <= h < 30 && 0 <= l < 7
    ensures var m := if l == 6 && (h == 29 || (h == 28 && a > 10)) then 1 else 0;
            && 0 <= h + l - 7 * m <= 34
            && ComputusDate(y, a, h, l) == Some(MarchDay(y, 22 + h + l - 7 * m))
  {
    LateMoon(a, h, l);
    Truncation(a + 11 * h + 22 * l, 451);
    var x := h + l - 7 * ((a + 11 * h + 22 * l) / 451);
    Truncation(x + 114, 31);
    hide Quot, Rem;
    DayOfMarchOrApril(y, x);
  }

  lemma SundayOffsetRange(y: int)
    ensures 0 <= SundayOffset(y) < 7
  {
  }

  /** For every year from 0 on, the computus finds the first Sunday strictly after the ecclesiastical
      full moon, and that is a day from 22 March to 25 April. */
  lemma EasterIsFirstSundayAfterFullMoon(y: int)
    requires y >= 0
    ensures EasterSunday(y) == Some(SundayAfter(FullMoon(y)))
    ensures DayNumber(Date(y, 3, 22)) <= SundayAfter(FullMoon(y)) <= DayNumber(Date(y, 4, 25))
  {
    var a, h, l := y % 19, MoonOffset(y), SundayOffset(y);
    var m := if l == 6 && (h == 29 || (h == 28 && a > 10)) then 1 else 0;
    var r := MarchDay(y, 22 + h + l - 7 * m);
    EasterInTerms(y);
    MoonOffsetMatchesEpact(y);
    OffsetsReachSunday(y);
    MoonOffsetRange(y);
    SundayOffsetRange(y);
    MonthsFillYear(y);
    hide MoonOffset, SundayOffset, FullMoonOfMarch, EasterSunday, Weekday, YearStart, MonthStart, SundayAfter;
    if m == 1 {
      WeekdayRepeats(r, 7);
    }
    SundayWithinWeek(FullMoon(y), r);
  }

  // ---------- The holiday list ----------

  function HolidaysForYear(y: int): seq<int> {
    var fixedDates := Listed(FromYmd(y, 1, 1)) + Listed(FromYmd(y, 12, 25));
    var thanksgiving := Listed(NthWeekdayOfMonth(y, 11, THURSDAY, 4));
    var goodFriday := match EasterSunday(y) case Some(easter) => [easter - 2] case None => [];
    fixedDates + thanksgiving + goodFriday
  }

  function Listed(date: Option<int>): seq<int> {
    match date case Some(d) => [d] case None => []
  }

  predicate IsHoliday(date: int) {
    date in HolidaysForYear(DateOf(date).year)
  }

  predicate IsLowLiquidity(date: int) {
    var y := DateOf(date).year;
    var start, end := FromYmd(y, 12, 26), FromYmd(y, 12, 31);
    var thanksgiving := NthWeekdayOfMonth(y, 11, THURSDAY, 4);
    || IsHoliday(date)
    || (start.Some? && end.Some? && start.value <= date <= end.value)
    || (thanksgiving.Some? && date == thanksgiving.value + 1)
  }

  function Thanksgiving(y: int): int {
    NthFrom(DayNumber(Date(y, 11, 1)), THURSDAY, 4)
  }

  function GoodFriday(y: int): int { SundayAfter(FullMoon(y)) - 2 }

  /** Thanksgiving is a Thursday from 22 to 28 November. */
  lemma ThanksgivingInNovember(y: int)
    ensures NthWeekdayOfMonth(y, 11, THURSDAY, 4) == Some(Thanksgiving(y))
    ensures Weekday(Thanksgiving(y)) == THURSDAY
    ensures DayNumber(Date(y, 11, 22)) <= Thanksgiving(y) <= DayNumber(Date(y, 11, 28))
  {
    var first := DayNumber(Date(y, 11, 1));
    FirstOccurrence(first, THURSDAY);
    NthFromCounts(first, THURSDAY, 4);
  }

  /** The list of a year holds exactly New Year's Day, Christmas, Thanksgiving and Good Friday, and the
      last two can only be a Thursday and a Friday. */
  lemma HolidaysAre(y: int, date: int)
    requires y >= 0
    ensures date in HolidaysForYear(y) <==>
            || date == DayNumber(Date(y, 1, 1))
            || date == DayNumber(Date(y, 12, 25))
            || date == Thanksgiving(y)
            || date == GoodFriday(y)
    ensures Weekday(Thanksgiving(y)) == THURSDAY
    ensures Weekday(GoodFriday(y)) == FRIDAY
  {
    ThanksgivingInNovember(y);
    EasterIsFirstSundayAfterFullMoon(y);
    GoodFridayIsFriday(y);
    hide EasterSunday, NthWeekdayOfMonth, Thanksgiving, FullMoon, SundayAfter, Weekday, YearStart, MonthStart;
  }

  lemma GoodFridayIsFriday(y: int)
    ensures Weekday(GoodFriday(y)) == FRIDAY
  {
    hide FullMoon;
    SundayAfterIs(FullMoon(y));
  }

  /** In calendar terms: entries are skipped on 1 January, Good Friday, Thanksgiving and the day after
      it, and from 25 to 31 December, and on no other day. */
  lemma LowLiquidityDays(date: int)
    requires DateOf(date).year >= 0
    ensures var d := DateOf(date);
            IsLowLiquidity(date) <==>
            || (d.month == 1 && d.day == 1)
            || (d.month == 12 && d.day >= 25)
            || date == Thanksgiving(d.year) || date == Thanksgiving(d.year) + 1
            || date == GoodFriday(d.year)
  {
    var d := DateOf(date);
    var y := d.year;
    HolidaysAre(y, date);
    ThanksgivingInNovember(y);
    FromYmdIs(date, y, 1, 1);
    FromYmdIs(date, y, 12, 25);
    if d.month < 12 {
      MonthStartMonotone(y, d.month, 12);
    }
    hide Thanksgiving, GoodFriday, NthWeekdayOfMonth, HolidaysForYear, YearStart, MonthStart;
  }
}
