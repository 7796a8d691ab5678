/** The eight daily entry windows of `session_time/src/macro_cycle.rs`. */
module MacroCycle {
  import opened Prelude
  import opened Gregorian
  import opened NewYork

  const MACRO_CYCLE_HOURS := [3, 6, 9, 12, 15, 18, 21, 0]
  const HALF_WIDTH_MINUTES := 10

  function Distance(a: int, b: int): int { if a >= b then a - b else b - a }

  /** Whole minutes between two readings: the source truncates towards zero before taking the magnitude. */
  function MinutesBetween(a: int, b: int): int { Distance(a, b) / MINUTE }

  function MinutesFromCycleCenter(local: int, hour: int): int {
    var today := DAY * (local / DAY) + HOUR * hour;
    Min(MinutesBetween(local, today), Min(MinutesBetween(local, today - DAY), MinutesBetween(local, today + DAY)))
  }

  predicate IsWithinMacroCycle(z: Zone, t: int) {
    exists hour :: hour in MACRO_CYCLE_HOURS && MinutesFromCycleCenter(Local(z, t), hour) <= HALF_WIDTH_MINUTES
  }

  /** The centre of some cycle: a wall-clock reading of a whole multiple of three hours. */
  predicate IsCenter(local: int) { local % (3 * HOUR) == 0 }

  function CenterReading(date: int, hour: int): int { DAY * date + HOUR * hour }

  lemma CenterParts(local: int)
    ensures IsCenter(local) <==> exists hour :: hour in MACRO_CYCLE_HOURS && TimeOfDay(local) == HOUR * hour
  {
    var q, r := local / DAY, TimeOfDay(local);
    assert local == DAY * q + r;
    if IsCenter(local) {
      var k := local / (3 * HOUR);
      assert local == 3 * HOUR * k;
      var j := k - 8 * q;
      assert r == 3 * HOUR * j && 0 <= j < 8;
      var hour := 3 * j;
      assert hour in MACRO_CYCLE_HOURS by {
        assert MACRO_CYCLE_HOURS[if j == 0 then 7 else j - 1] == hour;
      }
    }
    if hour :| hour in MACRO_CYCLE_HOURS && r == HOUR * hour {
      assert hour % 3 == 0;
      DivideUnique(local, 3 * HOUR, 8 * q + hour / 3, 0);
    }
  }

  /** A few whole minutes apart means less than one minute more. */
  lemma MinutesAtMost(a: int, b: int, n: int)
    ensures MinutesBetween(a, b) <= n <==> Distance(a, b) < (n + 1) * MINUTE
  {
  }

  lemma NearHour(local: int, hour: int)
    requires hour in MACRO_CYCLE_HOURS
    requires MinutesFromCycleCenter(local, hour) <= HALF_WIDTH_MINUTES
    ensures exists c :: IsCenter(c) && Distance(local, c) < 11 * MINUTE
  {
    var q := local / DAY;
    hide MinutesBetween, IsCenter;
    var day := if MinutesBetween(local, CenterReading(q, hour)) <= HALF_WIDTH_MINUTES then q
               else if MinutesBetween(local, CenterReading(q - 1, hour)) <= HALF_WIDTH_MINUTES then q - 1
               else q + 1;
    var c := CenterReading(day, hour);
    MinutesAtMost(local, c, HALF_WIDTH_MINUTES);
    DayTime(day, HOUR * hour);
    CenterParts(c);
    assert IsCenter(c) && Distance(local, c) < 11 * MINUTE;
  }

  lemma NearCenter(local: int, c: int)
    requires IsCenter(c) && Distance(local, c) < 11 * MINUTE
    ensures exists hour :: hour in MACRO_CYCLE_HOURS && MinutesFromCycleCenter(local, hour) <= HALF_WIDTH_MINUTES
  {
    CenterParts(c);
    var hour :| hour in MACRO_CYCLE_HOURS && TimeOfDay(c) == HOUR * hour;
    MinutesAtMost(local, c, HALF_WIDTH_MINUTES);
    hide MinutesBetween, IsCenter, MinutesFromCycleCenter;
    assert c == CenterReading(c / DAY, hour);
    OneOfThree(local, c / DAY, hour);
  }

  lemma OneOfThree(local: int, day: int, hour: int)
    requires local / DAY - 1 <= day <= local / DAY + 1
    requires MinutesBetween(local, CenterReading(day, hour)) <= HALF_WIDTH_MINUTES
    ensures MinutesFromCycleCenter(local, hour) <= HALF_WIDTH_MINUTES
  {
    hide MinutesBetween;
    var q := local / DAY;
    assert day == q - 1 || day == q || day == q + 1;
  }

  /** The window is everything less than eleven minutes (not ten) either side of a centre. */
  lemma WithinIffNearCenter(z: Zone, t: int)
    ensures IsWithinMacroCycle(z, t) <==>
            exists c :: IsCenter(c) && Distance(Local(z, t), c) < 11 * MINUTE
  {
    var local := Local(z, t);
    hide MinutesFromCycleCenter, IsCenter, Distance;
    if hour :| hour in MACRO_CYCLE_HOURS && MinutesFromCycleCenter(local, hour) <= HALF_WIDTH_MINUTES {
      NearHour(local, hour);
    }
    if c :| IsCenter(c) && Distance(local, c) < 11 * MINUTE {
      NearCenter(local, c);
    }
  }

  // ---------- The next centre ----------

  ghost predicate FirstCenterFrom(z: Zone, t: int, r: int) {
    && t <= r && IsCenter(Local(z, r))
    && forall s :: t <= s < r ==> !IsCenter(Local(z, s))
  }

  predicate Candidate(local: int, day: int, hour: int) {
    0 <= day < 2 && hour in MACRO_CYCLE_HOURS && CenterReading(local / DAY + day, hour) >= local
  }

  lemma CenterReadOnce(z: Zone, date: int, hour: int)
    requires IsNewYork(z) && hour in MACRO_CYCLE_HOURS
    ensures FromLocal(z, CenterReading(date, hour)).Single?
    ensures Local(z, FromLocal(z, CenterReading(date, hour)).at) == CenterReading(date, hour)
    ensures IsCenter(CenterReading(date, hour))
  {
    DayTime(date, HOUR * hour);
    ReadingOnce(z, CenterReading(date, hour));
    CenterParts(CenterReading(date, hour));
  }

  /** Over both candidate days, the loops keep the earliest instant that shows a centre not yet past, and
      that is the first one at or after the input. */
  method NextMacroCycleAfter(z: Zone, instant: int) returns (r: int)
    requires IsNewYork(z)
    ensures FirstCenterFrom(z, instant, r)
  {
    hide FromLocal, IsCenter, IsNewYork, Local;
    var ny := Local(z, instant);
    var best: Option<int> := None;
    for day := 0 to 2
      invariant best.Some? ==> Kept(z, ny, best.value)
      invariant forall d, hour :: 0 <= d < day && Candidate(ny, d, hour) ==> NoLater(z, ny, best, d, hour)
    {
      for i := 0 to 8
        invariant best.Some? ==> Kept(z, ny, best.value)
        invariant forall d, hour :: 0 <= d < day && Candidate(ny, d, hour) ==> NoLater(z, ny, best, d, hour)
        invariant forall j :: 0 <= j < i && Candidate(ny, day, MACRO_CYCLE_HOURS[j]) ==>
                    NoLater(z, ny, best, day, MACRO_CYCLE_HOURS[j])
      {
        var hour := MACRO_CYCLE_HOURS[i];
        var reading := DAY * (ny / DAY + day) + HOUR * hour;
        if reading >= ny {
          CenterReadOnce(z, ny / DAY + day, hour);
          var candidate := match FromLocal(z, reading) case Single(at) => at case _ => instant;
          assert Kept(z, ny, candidate);
          best := if best.Some? && best.value < candidate then best else Some(candidate);
        }
      }
    }
    EarliestIsFirst(z, instant, best);
    r := best.value;
  }

  /** An instant showing a centre no earlier than the current reading. */
  predicate Kept(z: Zone, ny: int, r: int) {
    IsCenter(Local(z, r)) && Local(z, r) >= ny
  }

  predicate NoLater(z: Zone, ny: int, best: Option<int>, day: int, hour: int) {
    var shown := FromLocal(z, CenterReading(ny / DAY + day, hour));
    best.Some? && shown.Single? && best.value <= shown.at
  }

  lemma CenterUndisturbed(z: Zone, s: int, t: int)
    requires IsNewYork(z) && s < t && (IsCenter(Local(z, s)) || IsCenter(Local(z, t)))
    ensures Local(z, s) < Local(z, t)
  {
    CenterParts(Local(z, s));
    CenterParts(Local(z, t));
    ClockAdvances(z, s, t);
  }

  lemma EarliestIsFirst(z: Zone, instant: int, best: Option<int>)
    requires IsNewYork(z)
    requires best.Some? ==> Kept(z, Local(z, instant), best.value)
    requires forall d, hour :: Candidate(Local(z, instant), d, hour) ==> NoLater(z, Local(z, instant), best, d, hour)
    ensures best.Some? && FirstCenterFrom(z, instant, best.value)
  {
    var ny := Local(z, instant);
    // Midnight tomorrow is always a candidate, so something was kept.
    assert MACRO_CYCLE_HOURS[7] == 0;
    assert Candidate(ny, 1, 0);
    assert NoLater(z, ny, best, 1, 0);
    CenterReadOnce(z, ny / DAY + 1, 0);
    var r, midnight := best.value, FromLocal(z, CenterReading(ny / DAY + 1, 0)).at;
    if r < instant {
      CenterUndisturbed(z, r, instant);
    }
    forall s | instant <= s < r ensures !IsCenter(Local(z, s)) {
      if IsCenter(Local(z, s)) {
        EarlierCenterIsCandidate(z, instant, best, s, midnight);
      }
    }
  }

  lemma EarlierCenterIsCandidate(z: Zone, instant: int, best: Option<int>, s: int, midnight: int)
    requires IsNewYork(z) && instant <= s < midnight && IsCenter(Local(z, s))
    requires Local(z, midnight) == DAY * (Local(z, instant) / DAY + 1)
    requires forall d, hour :: Candidate(Local(z, instant), d, hour) ==> NoLater(z, Local(z, instant), best, d, hour)
    ensures best.Some? && best.value <= s
  {
    var ny, local := Local(z, instant), Local(z, s);
    CenterUndisturbed(z, s, midnight);
    if instant < s {
      CenterUndisturbed(z, instant, s);
    }
    FromLocalIsInverse(z, local, s);
    hide IsNewYork, FromLocal, Local;
    var hour := CenterToday(ny, local);
    assert NoLater(z, ny, best, 0, hour);
  }

  lemma CenterToday(ny: int, local: int) returns (hour: int)
    requires IsCenter(local) && ny <= local < DAY * (ny / DAY + 1)
    ensures Candidate(ny, 0, hour) && CenterReading(ny / DAY + 0, hour) == local
  {
    CenterParts(local);
    hour :| hour in MACRO_CYCLE_HOURS && TimeOfDay(local) == HOUR * hour;
    hide IsCenter;
    var q := ny / DAY;
    assert DAY * q <= ny;
    DayTime(q, local - DAY * q);
  }
}
