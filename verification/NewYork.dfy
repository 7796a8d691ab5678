/** New York wall-clock time over an abstract zone, and the occurrence search of
    `session_time/src/true_open_capture.rs`.

    Instants and wall-clock readings are whole nanoseconds since midnight of 1 January of year 0, the first
    in UTC, the second as the clock shows. The zone database is abstract: all that is known of it is
    `IsNewYork`. */
module NewYork {
  import opened Prelude
  import opened Gregorian

  const SECOND := 1_000_000_000
  const MINUTE := 60 * SECOND
  const HOUR := 60 * MINUTE
  const DAY := 24 * HOUR
  const STANDARD := -5 * HOUR
  const DAYLIGHT := -4 * HOUR

  /** The offset in force at each instant. */
  type Zone = int -> int

  ghost predicate ChangesAt(z: Zone, t: int) { z(t - 1) != z(t) }

  /** Two offsets, changing only when the clock shows 02:00. */
  ghost predicate IsNewYork(z: Zone) {
    && (forall t :: z(t) == STANDARD || z(t) == DAYLIGHT)
    && (forall t :: ChangesAt(z, t) ==> (t + z(t - 1)) % DAY == 2 * HOUR)
  }

  /** What the wall clock shows at an instant, the date it shows and the time of day. */
  function Local(z: Zone, t: int): int { t + z(t) }

  function DateAt(z: Zone, t: int): int { Local(z, t) / DAY }

  function TimeOfDay(local: int): int { local % DAY }

  datatype LocalResult = Single(at: int) | Ambiguous(earlier: int, later: int) | NoSuchTime

  /** The instants at which the clock shows a given reading. */
  function FromLocal(z: Zone, naive: int): LocalResult {
    var daylight, standard := naive - DAYLIGHT, naive - STANDARD;
    if z(daylight) == DAYLIGHT then
      if z(standard) == STANDARD then Ambiguous(daylight, standard) else Single(daylight)
    else if z(standard) == STANDARD then Single(standard)
    else NoSuchTime
  }

  predicate Shows(r: LocalResult, t: int) {
    match r
    case Single(at) => t == at
    case Ambiguous(earlier, later) => t == earlier || t == later
    case NoSuchTime => false
  }

  lemma FromLocalIsInverse(z: Zone, naive: int, t: int)
    requires IsNewYork(z)
    ensures Shows(FromLocal(z, naive), t) <==> Local(z, t) == naive
  {
    assert z(t) == STANDARD || z(t) == DAYLIGHT;
    assert z(naive - DAYLIGHT) == STANDARD || z(naive - DAYLIGHT) == DAYLIGHT;
    assert z(naive - STANDARD) == STANDARD || z(naive - STANDARD) == DAYLIGHT;
  }

  // ---------- What a change of offset does to the clock ----------

  /** Between two instants with different offsets there is a change. */
  lemma {:induction false} FindChange(z: Zone, lo: int, hi: int) returns (c: int)
    requires lo < hi && z(lo) != z(hi)
    ensures lo < c <= hi && ChangesAt(z, c) && z(c - 1) == z(lo)
    decreases hi - lo
  {
    if z(lo + 1) != z(lo) {
      c := lo + 1;
    } else {
      c := FindChange(z, lo + 1, hi);
    }
  }

  lemma DayTime(q: int, r: int)
    requires 0 <= r < DAY
    ensures (DAY * q + r) / DAY == q && TimeOfDay(DAY * q + r) == r
  {
    DivideUnique(DAY * q + r, DAY, q, r);
  }

  /** The clock fails to advance only across an autumn change, and then both readings lie in [01:00, 02:00) of
      one date. */
  lemma ClockTurnsBack(z: Zone, s: int, t: int)
    requires IsNewYork(z) && s < t && Local(z, t) <= Local(z, s)
    ensures HOUR <= TimeOfDay(Local(z, s)) < 2 * HOUR
    ensures HOUR <= TimeOfDay(Local(z, t)) < 2 * HOUR
    ensures Local(z, s) / DAY == Local(z, t) / DAY
  {
    assert z(s) == DAYLIGHT && z(t) == STANDARD;
    var c := FindChange(z, s, t);
    var q := (c + DAYLIGHT) / DAY;
    assert c + DAYLIGHT == DAY * q + 2 * HOUR;
    DayTime(q, Local(z, s) - DAY * q);
    DayTime(q, Local(z, t) - DAY * q);
  }

  /** A reading outside [01:00, 02:00) keeps its place: later instants read later. */
  lemma ClockAdvances(z: Zone, s: int, t: int)
    requires IsNewYork(z) && s < t
    requires !(HOUR <= TimeOfDay(Local(z, s)) < 2 * HOUR) || !(HOUR <= TimeOfDay(Local(z, t)) < 2 * HOUR)
    ensures Local(z, s) < Local(z, t)
  {
    if Local(z, t) <= Local(z, s) {
      ClockTurnsBack(z, s, t);
    }
  }

  lemma ReadingMissing(z: Zone, naive: int)
    requires IsNewYork(z) && FromLocal(z, naive) == NoSuchTime
    ensures 2 * HOUR <= TimeOfDay(naive) < 3 * HOUR
  {
    assert z(naive - DAYLIGHT) == STANDARD && z(naive - STANDARD) == DAYLIGHT;
    var c := FindChange(z, naive - DAYLIGHT, naive - STANDARD);
    var q := (c + STANDARD) / DAY;
    assert c + STANDARD == DAY * q + 2 * HOUR;
    DayTime(q, naive - DAY * q);
  }

  /** Every reading outside [01:00, 03:00) is shown at exactly one instant. */
  lemma ReadingOnce(z: Zone, naive: int)
    requires IsNewYork(z) && !(HOUR <= TimeOfDay(naive) < 3 * HOUR)
    ensures FromLocal(z, naive).Single?
    ensures Local(z, FromLocal(z, naive).at) == naive
  {
    match FromLocal(z, naive)
    case Single(at) =>
      FromLocalIsInverse(z, naive, at);
    case Ambiguous(earlier, later) =>
      FromLocalIsInverse(z, naive, earlier);
      FromLocalIsInverse(z, naive, later);
      ClockTurnsBack(z, earlier, later);
    case NoSuchTime =>
      ReadingMissing(z, naive);
  }

  // ---------- The search ----------

  /** The clock shows hour:00 exactly, on the given weekday if there is one. */
  predicate ReadsNaive(local: int, hour: int, weekday: Option<int>) {
    && TimeOfDay(local) == HOUR * hour
    && (weekday.Some? ==> Weekday(local / DAY) == weekday.value)
  }

  predicate Reads(z: Zone, t: int, hour: int, weekday: Option<int>) {
    ReadsNaive(Local(z, t), hour, weekday)
  }

  /** r is the first instant strictly after `after` at which the clock so reads. */
  ghost predicate FirstAfter(z: Zone, after: int, hour: int, weekday: Option<int>, r: int) {
    after < r && Reads(z, r, hour, weekday) && forall t :: after < t < r ==> !Reads(z, t, hour, weekday)
  }

  predicate WeekdayGiven(weekday: Option<int>) {
    weekday.Some? ==> 0 <= weekday.value < 7
  }

  function CandidateDate(local: int, hour: int): int {
    if TimeOfDay(local) / HOUR >= hour then local / DAY + 1 else local / DAY
  }

  function OnOrAfter(date: int, weekday: Option<int>): int {
    match weekday
    case None => date
    case Some(w) => date + (w - Weekday(date)) % 7
  }

  function CandidateReading(local: int, hour: int, weekday: Option<int>): int {
    DAY * OnOrAfter(CandidateDate(local, hour), weekday) + HOUR * hour
  }

  function NextOccurrence(z: Zone, after: int, hour: int, weekday: Option<int>): int {
    match FromLocal(z, CandidateReading(Local(z, after), hour, weekday))
    case Single(at) => at
    case Ambiguous(earlier, _) => earlier
    case NoSuchTime => after
  }

  /** The search as written: step the date until the weekday fits (never more than six steps). */
  method NextNyOccurrence(z: Zone, after: int, hour: int, weekday: Option<int>) returns (r: int)
    requires 0 <= hour < 24 && WeekdayGiven(weekday)
    ensures r == NextOccurrence(z, after, hour, weekday)
  {
    var nyNow := Local(z, after);
    var date := nyNow / DAY;
    if nyNow % DAY / HOUR >= hour {
      date := date + 1;
    }
    if weekday.Some? {
      ghost var start := date;
      while Weekday(date) != weekday.value
        invariant start <= date <= start + 6
        invariant OnOrAfter(date, weekday) == OnOrAfter(start, weekday)
        decreases start + 6 - date
      {
        StepTowards(date, weekday.value);
        WithinSixDays(start, date, weekday.value);
        date := date + 1;
      }
    }
    match FromLocal(z, DAY * date + HOUR * hour) {
      case Single(at) => return at;
      case Ambiguous(earlier, _) => return earlier;
      case NoSuchTime => return after;
    }
  }

  lemma StepTowards(date: int, w: int)
    requires 0 <= w < 7 && Weekday(date) != w
    ensures date < OnOrAfter(date, Some(w)) && OnOrAfter(date + 1, Some(w)) == OnOrAfter(date, Some(w))
  {
    var day := Weekday(date);
    assert Weekday(date + 1) == if day == 6 then 0 else day + 1;
    hide Weekday;
    var ahead := if w >= day then w - day else w - day + 7;
    DivideUnique(w - day, 7, if w >= day then 0 else -1, ahead);
    DivideUnique(w - Weekday(date + 1), 7, if w >= Weekday(date + 1) then 0 else -1, ahead - 1);
  }

  lemma WithinSixDays(start: int, date: int, w: int)
    requires 0 <= w < 7 && date < OnOrAfter(date, Some(w)) == OnOrAfter(start, Some(w))
    ensures date < start + 6
  {
  }

  // ---------- Where the search is right ----------

  lemma OnOrAfterIsFirst(date: int, weekday: Option<int>)
    requires WeekdayGiven(weekday)
    ensures var d := OnOrAfter(date, weekday);
            && date <= d <= date + 6
            && (weekday.Some? ==> Weekday(d) == weekday.value)
            && forall i :: date <= i < d ==> weekday.Some? && Weekday(i) != weekday.value
  {
  }

  /** On the wall clock, the candidate is the least matching reading past the current one. */
  lemma CandidateIsNextReading(local: int, hour: int, weekday: Option<int>)
    requires 0 <= hour < 24 && WeekdayGiven(weekday)
    ensures var n := CandidateReading(local, hour, weekday);
            && local < n <= local + (if weekday.Some? then 7 else 1) * DAY
            && ReadsNaive(n, hour, weekday)
            && forall m :: local < m < n ==> !ReadsNaive(m, hour, weekday)
  {
    var date := CandidateDate(local, hour);
    var d := OnOrAfter(date, weekday);
    OnOrAfterIsFirst(date, weekday);
    DayTime(d, HOUR * hour);
    var r := TimeOfDay(local);
    assert local == DAY * (local / DAY) + r;
    assert r / HOUR >= hour <==> r >= HOUR * hour;
    hide Weekday, OnOrAfter;
    forall m | local < m < DAY * d + HOUR * hour ensures !ReadsNaive(m, hour, weekday) {
      if TimeOfDay(m) == HOUR * hour {
        assert m == DAY * (m / DAY) + HOUR * hour;
        assert date <= m / DAY < d;
      }
    }
  }

  /** For any hour but 1 and 2 the search returns the first instant strictly after its input at which the
      New York clock reads that hour, across every change of offset. */
  lemma NextOccurrenceIsFirst(z: Zone, after: int, hour: int, weekday: Option<int>)
    requires IsNewYork(z) && 0 <= hour < 24 && hour != 1 && hour != 2 && WeekdayGiven(weekday)
    ensures FirstAfter(z, after, hour, weekday, NextOccurrence(z, after, hour, weekday))
    ensures NextOccurrence(z, after, hour, weekday) - after <= (if weekday.Some? then 7 else 1) * DAY + HOUR
  {
    var n := CandidateReading(Local(z, after), hour, weekday);
    CandidateIsNextReading(Local(z, after), hour, weekday);
    ReadingOnce(z, n);
    SingleIsFirst(z, after, hour, weekday);
  }

  /** For any hour but 1: a candidate reading that is shown once is first shown then. */
  lemma SingleIsFirst(z: Zone, after: int, hour: int, weekday: Option<int>)
    requires IsNewYork(z) && 0 <= hour < 24 && hour != 1 && WeekdayGiven(weekday)
    requires FromLocal(z, CandidateReading(Local(z, after), hour, weekday)).Single?
    ensures FirstAfter(z, after, hour, weekday, NextOccurrence(z, after, hour, weekday))
    ensures NextOccurrence(z, after, hour, weekday) - after <= (if weekday.Some? then 7 else 1) * DAY + HOUR
  {
    var local := Local(z, after);
    var n := CandidateReading(local, hour, weekday);
    CandidateIsNextReading(local, hour, weekday);
    var r := NextOccurrence(z, after, hour, weekday);
    FromLocalIsInverse(z, n, r);
    assert Local(z, r) == n;
    hide CandidateReading, FromLocal;
    if r < after {
      ClockAdvances(z, r, after);
    }
    assert z(r) >= STANDARD && z(after) <= DAYLIGHT;
    forall t | after < t < r ensures !Reads(z, t, hour, weekday) {
      if TimeOfDay(Local(z, t)) == HOUR * hour {
        ClockAdvances(z, after, t);
        ClockAdvances(z, t, r);
      }
    }
  }

  // ---------- Hours 1 and 2, call by call ----------

  /** Asked for 02:00 the search is right exactly when the reading it settles on exists. */
  lemma HourTwoFirstIff(z: Zone, after: int, weekday: Option<int>)
    requires IsNewYork(z) && WeekdayGiven(weekday)
    ensures FirstAfter(z, after, 2, weekday, NextOccurrence(z, after, 2, weekday)) <==>
            FromLocal(z, CandidateReading(Local(z, after), 2, weekday)) != NoSuchTime
  {
    var n := CandidateReading(Local(z, after), 2, weekday);
    CandidateIsNextReading(Local(z, after), 2, weekday);
    hide CandidateReading;
    NeverTwiceAtTwo(z, n);
    if FromLocal(z, n).Single? {
      SingleIsFirst(z, after, 2, weekday);
    }
  }

  lemma NeverTwiceAtTwo(z: Zone, naive: int)
    requires IsNewYork(z) && TimeOfDay(naive) == 2 * HOUR
    ensures !FromLocal(z, naive).Ambiguous?
  {
    if FromLocal(z, naive).Ambiguous? {
      FromLocalIsInverse(z, naive, FromLocal(z, naive).earlier);
      FromLocalIsInverse(z, naive, FromLocal(z, naive).later);
      ClockTurnsBack(z, FromLocal(z, naive).earlier, FromLocal(z, naive).later);
    }
  }

  function OneOClock(local: int): int { DAY * (local / DAY) + HOUR }

  /** The clock shows 01:00 twice on the present date, a date that is asked for, and has shown only the first. */
  predicate BetweenTwoOnes(z: Zone, after: int, weekday: Option<int>) {
    var m := OneOClock(Local(z, after));
    && ReadsNaive(m, 1, weekday)
    && FromLocal(z, m) == Ambiguous(m - DAYLIGHT, m - STANDARD)
    && m - DAYLIGHT <= after < m - STANDARD
  }

  /** Asked for 01:00 the search is right exactly outside the first pass of a repeated hour. */
  lemma HourOneFirstIff(z: Zone, after: int, weekday: Option<int>)
    requires IsNewYork(z) && WeekdayGiven(weekday)
    ensures FirstAfter(z, after, 1, weekday, NextOccurrence(z, after, 1, weekday)) <==>
            !BetweenTwoOnes(z, after, weekday)
  {
    hide BetweenTwoOnes, FirstAfter, NextOccurrence;
    if BetweenTwoOnes(z, after, weekday) {
      SecondOneMissed(z, after, weekday);
    } else {
      OneIsFirst(z, after, weekday);
    }
  }

  /** What the search for 01:00 returns shows the candidate reading, and nothing before it does. */
  lemma OneIsShown(z: Zone, after: int, weekday: Option<int>)
    requires IsNewYork(z) && WeekdayGiven(weekday)
    ensures var n, r := CandidateReading(Local(z, after), 1, weekday), NextOccurrence(z, after, 1, weekday);
            Local(z, r) == n && forall t :: t < r ==> Local(z, t) != n
  {
    var n, r := CandidateReading(Local(z, after), 1, weekday), NextOccurrence(z, after, 1, weekday);
    CandidateIsNextReading(Local(z, after), 1, weekday);
    hide CandidateReading;
    if FromLocal(z, n).NoSuchTime? {
      ReadingMissing(z, n);
    } else {
      FromLocalIsInverse(z, n, r);
      forall t | t < r ensures Local(z, t) != n {
        FromLocalIsInverse(z, n, t);
      }
    }
  }

  /** From 01:00 on, the candidate is on a later date. */
  lemma CandidateTomorrow(local: int, weekday: Option<int>)
    requires WeekdayGiven(weekday) && TimeOfDay(local) >= HOUR
    ensures CandidateReading(local, 1, weekday) >= OneOClock(local) + DAY
  {
    OnOrAfterIsFirst(CandidateDate(local, 1), weekday);
    assert TimeOfDay(local) / HOUR >= 1;
    hide OnOrAfter;
  }

  lemma SecondOneMissed(z: Zone, after: int, weekday: Option<int>)
    requires IsNewYork(z) && WeekdayGiven(weekday) && BetweenTwoOnes(z, after, weekday)
    ensures !FirstAfter(z, after, 1, weekday, NextOccurrence(z, after, 1, weekday))
  {
    var local, r := Local(z, after), NextOccurrence(z, after, 1, weekday);
    var m := OneOClock(local);
    FromLocalIsInverse(z, m, m - STANDARD);
    assert Reads(z, m - STANDARD, 1, weekday);
    assert local == DAY * (local / DAY) + TimeOfDay(local);
    assert z(after) == DAYLIGHT || z(after) == STANDARD;
    FirstPass(z, m, after);
    hide FromLocal, NextOccurrence, CandidateReading, Weekday;
    CandidateTomorrow(local, weekday);
    OneIsShown(z, after, weekday);
    assert z(r) <= DAYLIGHT;
  }

  /** Until 01:00 comes again the clock is not changed. */
  lemma FirstPass(z: Zone, m: int, after: int)
    requires IsNewYork(z) && FromLocal(z, m).Ambiguous? && TimeOfDay(m) == HOUR && m - DAYLIGHT <= after < m - STANDARD
    ensures z(after) == DAYLIGHT
  {
    if z(after) != DAYLIGHT {
      var c := FindChange(z, m - DAYLIGHT, after);
      DayTime(m / DAY, c + DAYLIGHT - DAY * (m / DAY));
    }
  }

  lemma OneIsFirst(z: Zone, after: int, weekday: Option<int>)
    requires IsNewYork(z) && WeekdayGiven(weekday) && !BetweenTwoOnes(z, after, weekday)
    ensures FirstAfter(z, after, 1, weekday, NextOccurrence(z, after, 1, weekday))
  {
    var local, r := Local(z, after), NextOccurrence(z, after, 1, weekday);
    var n := CandidateReading(local, 1, weekday);
    CandidateIsNextReading(local, 1, weekday);
    OneIsShown(z, after, weekday);
    hide FromLocal, NextOccurrence, CandidateReading, Weekday, BetweenTwoOnes, IsNewYork;
    if r < after {
      ClockTurnsBack(z, r, after);
      CandidateTomorrow(local, weekday);
    }
    forall t | after < t < r ensures !Reads(z, t, 1, weekday) {
      var k := Local(z, t);
      if Reads(z, t, 1, weekday) {
        assert k == OneOClock(k);
        if k >= n {
          ClockTurnsBack(z, t, r);
        } else {
          ClockTurnsBack(z, after, t);
          SecondOneBetween(z, after, t);
        }
      }
    }
  }

  /** Meeting 01:00 again on the present date means standing between the two. */
  lemma SecondOneBetween(z: Zone, after: int, t: int)
    requires IsNewYork(z) && after < t && Local(z, t) == OneOClock(Local(z, after)) <= Local(z, after)
    ensures var m := OneOClock(Local(z, after));
              && FromLocal(z, m) == Ambiguous(m - DAYLIGHT, m - STANDARD)
              && m - DAYLIGHT <= after < m - STANDARD
  {
    var m := OneOClock(Local(z, after));
    ClockTurnsBack(z, after, t);
    assert z(after) == DAYLIGHT && z(t) == STANDARD;
    assert m <= Local(z, after) < m + HOUR;
    if z(m - DAYLIGHT) != DAYLIGHT {
      // Daylight time would have begun between 00:00 and 01:00.
      assert z(m - DAYLIGHT) == STANDARD;
      var q := Local(z, after) / DAY;
      var c := FindChange(z, m - DAYLIGHT, after);
      DayTime(q, c + STANDARD - DAY * q);
    }
  }

  // ---------- Where it is not ----------

  /** A zone that springs forward once, at 02:00 of day 1. */
  function SpringZone(t: int): int {
    if t < DAY + 2 * HOUR - STANDARD then STANDARD else DAYLIGHT
  }

  /** A zone that falls back once, at 02:00 of day 1. */
  function AutumnZone(t: int): int {
    if t < DAY + 2 * HOUR - DAYLIGHT then DAYLIGHT else STANDARD
  }

  /** Asked for 02:00 the evening before the clocks spring forward, the search returns its own input. */
  lemma HourTwoInGap()
    ensures IsNewYork(SpringZone)
    ensures var after := DAY - 4 * HOUR - STANDARD;
            NextOccurrence(SpringZone, after, 2, None) == after
  {
  }

  /** Asked for 01:00 at 01:30 of the repeated hour, the search skips the second 01:00. */
  lemma HourOneRepeats()
    ensures IsNewYork(AutumnZone)
    ensures var after, second := DAY + HOUR + 30 * MINUTE - DAYLIGHT, DAY + HOUR - STANDARD;
            && after < second < NextOccurrence(AutumnZone, after, 1, None)
            && Reads(AutumnZone, second, 1, None)
  {
  }

  ghost predicate AlwaysFirst(hour: int) {
    forall z, after, weekday :: IsNewYork(z) && WeekdayGiven(weekday) ==>
      FirstAfter(z, after, hour, weekday, NextOccurrence(z, after, hour, weekday))
  }

  /** Exactly which hours the search may be used for. */
  lemma AlwaysFirstIff(hour: int)
    requires 0 <= hour < 24
    ensures AlwaysFirst(hour) <==> hour != 1 && hour != 2
  {
    if hour == 1 {
      HourOneRepeats();
      assert WeekdayGiven(None);
      var after := DAY + HOUR + 30 * MINUTE - DAYLIGHT;
      assert !FirstAfter(AutumnZone, after, 1, None, NextOccurrence(AutumnZone, after, 1, None));
    } else if hour == 2 {
      HourTwoInGap();
      assert WeekdayGiven(None);
      var after := DAY - 4 * HOUR - STANDARD;
      assert !FirstAfter(SpringZone, after, 2, None, NextOccurrence(SpringZone, after, 2, None));
    } else {
      forall z, after, weekday | IsNewYork(z) && WeekdayGiven(weekday)
        ensures FirstAfter(z, after, hour, weekday, NextOccurrence(z, after, hour, weekday))
      {
        NextOccurrenceIsFirst(z, after, hour, weekday);
      }
    }
  }
}
