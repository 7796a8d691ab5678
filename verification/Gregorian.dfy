/** Proleptic Gregorian dates from year 0 on, and the calendar rules of `session_time/src/calendar.rs`.

    A date is held as its day number, counted from 1 January of year 0; the year, month and day of a
    number are recovered by `DateOf`. Weekdays are numbered from Sunday = 0, as the source does. */
module Gregorian {
  import opened Prelude

  // ---------- Dates and day numbers ----------

  datatype Date = Date(year: int, month: int, day: int)

  predicate IsLeap(y: int) { y % 4 == 0 && (y % 100 != 0 || y % 400 == 0) }

  function MonthLength(y: int, m: int): (n: int)
    requires 1 <= m <= 12
    ensures 28 <= n <= 31
  {
    if m == 2 then (if IsLeap(y) then 29 else 28)
    else if m == 4 || m == 6 || m == 9 || m == 11 then 30
    else 31
  }

  function YearLength(y: int): int { if IsLeap(y) then 366 else 365 }

  /** Days from 1 January of year 0 to 1 January of year y. */
  function YearStart(y: int): int {
    365 * y + (y + 3) / 4 - (y + 99) / 100 + (y + 399) / 400
  }

  /** The closed form counts exactly the lengths of the years. */
  lemma YearStartCountsYears(y: int)
    ensures YearStart(0) == 0
    ensures YearStart(y + 1) == YearStart(y) + YearLength(y)
  {
    Carry(y, 4);
    Carry(y, 100);
    Carry(y, 400);
    if y % 100 == 0 {
      DivideUnique(y, 4, 25 * (y / 100), 0);
    }
    if y % 400 == 0 {
      DivideUnique(y, 100, 4 * (y / 400), 0);
    }
  }

  lemma Carry(y: int, m: int)
    requires m > 1
    ensures (y + m) / m - (y + m - 1) / m == if y % m == 0 then 1 else 0
  {
    var q, r := y / m, y % m;
    assert y == m * q + r;
    DivideUnique(y + m, m, q + 1, r);
    if r == 0 {
      DivideUnique(y + m - 1, m, q, m - 1);
    } else {
      DivideUnique(y + m - 1, m, q + 1, r - 1);
    }
  }

  lemma DivideUnique(x: int, m: int, q: int, r: int)
    requires m > 0 && x == m * q + r && 0 <= r < m
    ensures x / m == q && x % m == r
  {
    var q', r' := x / m, x % m;
    assert x == m * q' + r';
    if q' < q {
      MulStep(m, q - q');
    } else if q' > q {
      MulStep(m, q' - q);
    }
  }

  lemma MulStep(m: int, k: int)
    requires m > 0 && k >= 1
    ensures m * k >= m
  {
  }

  function MonthStart(y: int, m: int): int
    requires 1 <= m <= 13
  {
    if m == 1 then 0 else MonthStart(y, m - 1) + MonthLength(y, m - 1)
  }

  predicate Valid(d: Date) {
    1 <= d.month <= 12 && 1 <= d.day <= MonthLength(d.year, d.month)
  }

  function DayNumber(d: Date): int
    requires Valid(d)
  {
    YearStart(d.year) + MonthStart(d.year, d.month) + d.day - 1
  }

  function Next(d: Date): Date
    requires Valid(d)
  {
    if d.day < MonthLength(d.year, d.month) then d.(day := d.day + 1)
    else if d.month < 12 then Date(d.year, d.month + 1, 1)
    else Date(d.year + 1, 1, 1)
  }

  function Previous(d: Date): Date
    requires Valid(d)
  {
    if d.day > 1 then d.(day := d.day - 1)
    else if d.month > 1 then Date(d.year, d.month - 1, MonthLength(d.year, d.month - 1))
    else Date(d.year - 1, 12, 31)
  }

  /** From March on the days before a month are a fifth of 153 times the months since, as in the usual conversions. */
  lemma {:induction false} MonthStartClosedForm(y: int, m: int)
    requires 3 <= m <= 13
    ensures MonthStart(y, m) == (if IsLeap(y) then 60 else 59) + (153 * (m - 3) + 2) / 5
  {
    if m == 3 {
      assert MonthStart(y, 2) == 31;
    } else {
      MonthStartClosedForm(y, m - 1);
    }
  }

  lemma MonthsFillYear(y: int)
    ensures MonthStart(y, 13) == YearLength(y)
    ensures MonthStart(y, 12) == YearLength(y) - 31
    ensures MonthStart(y, 2) == 31 && MonthStart(y, 3) == if IsLeap(y) then 60 else 59
    ensures MonthStart(y, 4) == MonthStart(y, 3) + 31
    ensures MonthStart(y, 11) == MonthStart(y, 3) + 245
  {
    MonthStartClosedForm(y, 4);
    MonthStartClosedForm(y, 11);
    MonthStartClosedForm(y, 12);
    MonthStartClosedForm(y, 13);
    assert MonthStart(y, 3) == MonthStart(y, 2) + MonthLength(y, 2);
    assert MonthStart(y, 1) == 0;
  }

  /** Day numbers count one day at a time, through every month and year end. */
  lemma NextIsNextDay(d: Date)
    requires Valid(d)
    ensures Valid(Next(d)) && DayNumber(Next(d)) == DayNumber(d) + 1
    ensures Valid(Previous(d)) && DayNumber(Previous(d)) == DayNumber(d) - 1
  {
    NextIsLater(d);
    PreviousIsEarlier(d);
  }

  lemma NextIsLater(d: Date)
    requires Valid(d)
    ensures Valid(Next(d)) && DayNumber(Next(d)) == DayNumber(d) + 1
  {
    hide YearStart;
    if d.day == MonthLength(d.year, d.month) {
      if d.month < 12 {
        assert MonthStart(d.year, d.month + 1) == MonthStart(d.year, d.month) + MonthLength(d.year, d.month);
      } else {
        MonthsFillYear(d.year);
        YearStartCountsYears(d.year);
        hide IsLeap, YearLength;
        assert MonthStart(d.year + 1, 1) == 0;
      }
    }
  }

  lemma PreviousIsEarlier(d: Date)
    requires Valid(d)
    ensures Valid(Previous(d)) && DayNumber(Previous(d)) == DayNumber(d) - 1
  {
    hide YearStart;
    if d.day == 1 {
      if d.month > 1 {
        assert MonthStart(d.year, d.month) == MonthStart(d.year, d.month - 1) + MonthLength(d.year, d.month - 1);
      } else {
        MonthsFillYear(d.year - 1);
        YearStartCountsYears(d.year - 1);
        hide IsLeap, YearLength;
        assert MonthStart(d.year, 1) == 0;
      }
    }
  }

  /** The date with the given day number. */
  function DateOf(n: int): (d: Date)
    ensures Valid(d) && DayNumber(d) == n
    decreases if n < 0 then -n else n
  {
    if n == 0 then
      Date(0, 1, 1)
    else if n > 0 then
      var p := DateOf(n - 1);
      NextIsNextDay(p);
      Next(p)
    else
      var p := DateOf(n + 1);
      NextIsNextDay(p);
      Previous(p)
  }

  lemma YearStartMonotone(y: int, z: int)
    requires y < z
    ensures YearStart(y) + YearLength(y) <= YearStart(z)
    decreases z - y
  {
    YearStartCountsYears(y);
    if y + 1 < z {
      YearStartMonotone(y + 1, z);
    }
  }

  lemma MonthStartMonotone(y: int, m: int, k: int)
    requires 1 <= m < k <= 13
    ensures MonthStart(y, m) + MonthLength(y, m) <= MonthStart(y, k)
    decreases k - m
  {
    if m + 1 < k {
      MonthStartMonotone(y, m + 1, k);
    }
  }

  /** No two dates share a day number. */
  lemma DayNumberInjective(a: Date, b: Date)
    requires Valid(a) && Valid(b) && DayNumber(a) == DayNumber(b)
    ensures a == b
  {
    WithinYear(a);
    WithinYear(b);
    if a.year < b.year {
      YearStartMonotone(a.year, b.year);
    } else if b.year < a.year {
      YearStartMonotone(b.year, a.year);
    } else if a.month < b.month {
      MonthStartMonotone(a.year, a.month, b.month);
    } else if b.month < a.month {
      MonthStartMonotone(a.year, b.month, a.month);
    }
  }

  lemma WithinYear(d: Date)
    requires Valid(d)
    ensures 0 <= DayNumber(d) - YearStart(d.year) < YearLength(d.year)
  {
    MonthsFillYear(d.year);
    MonthStartMonotone(d.year, d.month, 13);
    if d.month > 1 {
      MonthStartMonotone(d.year, 1, d.month);
    }
  }

  /** 1 January of year 0 is a Saturday, which makes 1 January 1970 a Thursday. */
  function Weekday(n: int): (w: int)
    ensures 0 <= w < 7
  {
    (n + 6) % 7
  }

  const SUNDAY := 0
  const MONDAY := 1
  const THURSDAY := 4
  const FRIDAY := 5

  function FromYmd(y: int, m: int, d: int): Option<int> {
    if 1 <= m <= 12 && 1 <= d <= MonthLength(y, m) then Some(DayNumber(Date(y, m, d))) else None
  }

  lemma FromYmdIs(n: int, y: int, m: int, d: int)
    requires FromYmd(y, m, d).Some?
    ensures FromYmd(y, m, d).value == n <==> DateOf(n) == Date(y, m, d)
  {
    if FromYmd(y, m, d).value == n {
      DayNumberInjective(DateOf(n), Date(y, m, d));
    }
  }

  // ---------- The n-th weekday of a month ----------

  function NthWeekdayOfMonth(y: int, m: int, weekday: int, n: int): Option<int>
    requires 0 <= weekday < 7 && n >= 1
  {
    match FromYmd(y, m, 1)
    case None => None
    case Some(first) => Some(NthFrom(first, weekday, n))
  }

  function NthFrom(first: int, weekday: int, n: int): int {
    var offset := (7 + weekday - Weekday(first)) % 7;
    first + offset + 7 * (n - 1)
  }

  /** How many of the days in [lo, hi) fall on the weekday. */
  function CountWeekday(weekday: int, lo: int, hi: int): int
    requires lo <= hi
    decreases hi - lo
  {
    if lo == hi then 0
    else CountWeekday(weekday, lo, hi - 1) + (if Weekday(hi - 1) == weekday then 1 else 0)
  }

  lemma {:induction false} CountInShortSpan(weekday: int, lo: int, hi: int)
    requires 0 <= weekday < 7 && lo <= hi <= lo + 7
    requires forall i :: lo <= i < hi ==> Weekday(i) != weekday
    ensures CountWeekday(weekday, lo, hi) == 0
    decreases hi - lo
  {
    if lo < hi {
      CountInShortSpan(weekday, lo, hi - 1);
    }
  }

  lemma {:induction false} CountSplit(weekday: int, lo: int, mid: int, hi: int)
    requires lo <= mid <= hi
    ensures CountWeekday(weekday, lo, hi) == CountWeekday(weekday, lo, mid) + CountWeekday(weekday, mid, hi)
    decreases hi - mid
  {
    if mid < hi {
      CountSplit(weekday, lo, mid, hi - 1);
    }
  }

  /** Weekdays repeat every seven days and not sooner. */
  lemma WeekdayRepeats(d: int, i: int)
    requires 0 < i <= 7
    ensures Weekday(d + i) == Weekday(d) <==> i == 7
  {
  }

  lemma FirstOccurrence(first: int, weekday: int)
    requires 0 <= weekday < 7
    ensures var r := NthFrom(first, weekday, 1);
            first <= r < first + 7 && Weekday(r) == weekday
  {
  }

  lemma {:induction false} NthFromCounts(first: int, weekday: int, n: int)
    requires 0 <= weekday < 7 && n >= 1
    ensures var r := NthFrom(first, weekday, n);
            first <= r && Weekday(r) == weekday && CountWeekday(weekday, first, r) == n - 1
    decreases n
  {
    hide Weekday;
    var r := NthFrom(first, weekday, n);
    FirstOccurrence(first, weekday);
    if n == 1 {
      forall i | first <= i < r ensures Weekday(i) != weekday {
        WeekdayRepeats(i, r - i);
      }
      CountInShortSpan(weekday, first, r);
    } else {
      NthFromCounts(first, weekday, n - 1);
      var p := r - 7;
      assert p == NthFrom(first, weekday, n - 1);
      WeekdayRepeats(p, 7);
      forall i | p + 1 <= i < r ensures Weekday(i) != weekday {
        WeekdayRepeats(p, i - p);
      }
      CountSplit(weekday, first, p, r);
      CountSplit(weekday, p, p + 1, r);
      CountInShortSpan(weekday, p + 1, r);
      assert CountWeekday(weekday, p, p + 1) == CountWeekday(weekday, p, p) + 1;
    }
  }

  /** The result falls on the weekday, and exactly n - 1 days of the month before it do. */
  lemma NthWeekdayIsNth(y: int, m: int, weekday: int, n: int)
    requires 1 <= m <= 12 && 0 <= weekday < 7 && n >= 1
    ensures var r := NthWeekdayOfMonth(y, m, weekday, n);
            var first := DayNumber(Date(y, m, 1));
            && r.Some? && first <= r.value
            && Weekday(r.value) == weekday
            && CountWeekday(weekday, first, r.value) == n - 1
  {
    NthFromCounts(DayNumber(Date(y, m, 1)), weekday, n);
  }
}
