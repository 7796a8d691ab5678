/** True Open levels: when one is captured, how long it is valid, and which weeks get a weekly one.
    Follows `session_time/src/true_open.rs`, `true_open_capture.rs` and the week rules of `calendar.rs`. */
module TrueOpen {
  import opened Prelude
  import opened Domain
  import opened Gregorian
  import opened Holidays
  import opened NewYork

  datatype Timeframe = Weekly | Daily

  datatype TrueOpenLevel = TrueOpenLevel(timeframe: Timeframe, symbol: string, level: real, setAt: int, expiresAt: int)

  // ---------- Which weeks qualify ----------

  /** 18:00 on the Sunday on or before the date the clock shows. */
  function WeekStartFor(z: Zone, t: int): int {
    var date := DateAt(z, t);
    var naive := DAY * (date - Weekday(date)) + 18 * HOUR;
    match FromLocal(z, naive)
    case Single(at) => at
    case Ambiguous(earlier, _) => earlier
    case NoSuchTime => naive
  }

  predicate IsFullTradingWeek(z: Zone, weekStart: int) {
    var previous := weekStart - 7 * DAY;
    DateAt(z, weekStart) - DateAt(z, previous) == 7 && !IsHoliday(DateAt(z, weekStart))
  }

  predicate WeekQualifies(z: Zone, t: int) {
    IsFullTradingWeek(z, WeekStartFor(z, t))
  }

  /** The open is on the Sunday on or before the date, at 18:00. */
  lemma WeekStartIsSundayEvening(z: Zone, t: int)
    requires IsNewYork(z)
    ensures var s := WeekStartFor(z, t);
            && Local(z, s) == DAY * (DateAt(z, t) - Weekday(DateAt(z, t))) + 18 * HOUR
            && DateAt(z, s) == DateAt(z, t) - Weekday(DateAt(z, t))
            && TimeOfDay(Local(z, s)) == 18 * HOUR
            && Weekday(DateAt(z, s)) == SUNDAY
            && 0 <= DateAt(z, t) - DateAt(z, s) < 7
  {
    var date := DateAt(z, t);
    var sunday := date - Weekday(date);
    var naive := DAY * sunday + 18 * HOUR;
    DayTime(sunday, 18 * HOUR);
    ReadingOnce(z, naive);
    SundayBefore(date);
  }

  lemma SundayBefore(date: int)
    ensures Weekday(date - Weekday(date)) == SUNDAY
  {
  }

  /** A week of absolute time moves an 18:00 reading by exactly seven dates, whatever the offsets. */
  lemma SevenDaysApart(z: Zone, weekStart: int)
    requires IsNewYork(z) && TimeOfDay(Local(z, weekStart)) == 18 * HOUR
    ensures DateAt(z, weekStart) - DateAt(z, weekStart - 7 * DAY) == 7
  {
    var previous := weekStart - 7 * DAY;
    var q := DateAt(z, weekStart);
    assert Local(z, weekStart) == DAY * q + 18 * HOUR;
    assert z(previous) == STANDARD || z(previous) == DAYLIGHT;
    assert z(weekStart) == STANDARD || z(weekStart) == DAYLIGHT;
    DayTime(q - 7, Local(z, previous) - DAY * (q - 7));
  }

  /** A week is refused a weekly level exactly when its opening Sunday is 1 January or 25 December. */
  lemma WeekRefusedIff(z: Zone, t: int)
    requires IsNewYork(z)
    requires DateOf(DateAt(z, t) - Weekday(DateAt(z, t))).year >= 0
    ensures var sunday := DateOf(DateAt(z, t) - Weekday(DateAt(z, t)));
            !WeekQualifies(z, t) <==>
            (sunday.month == 1 && sunday.day == 1) || (sunday.month == 12 && sunday.day == 25)
  {
    hide IsNewYork, Weekday, IsHoliday, WeekQualifies, DateAt;
    OpeningSunday(z, t);
    SundayBefore(DateAt(z, t));
    SundayHoliday(DateAt(z, t) - Weekday(DateAt(z, t)));
  }

  lemma OpeningSunday(z: Zone, t: int)
    requires IsNewYork(z)
    ensures WeekQualifies(z, t) <==> !IsHoliday(DateAt(z, t) - Weekday(DateAt(z, t)))
  {
    hide WeekStartFor, IsNewYork, Weekday, IsHoliday, DateAt, TimeOfDay, Local;
    WeekStartIsSundayEvening(z, t);
    SevenDaysApart(z, WeekStartFor(z, t));
  }

  lemma SundayHoliday(n: int)
    requires Weekday(n) == SUNDAY && DateOf(n).year >= 0
    ensures var d := DateOf(n);
            IsHoliday(n) <==> (d.month == 1 && d.day == 1) || (d.month == 12 && d.day == 25)
  {
    var y := DateOf(n).year;
    HolidaysAre(y, n);
    FromYmdIs(n, y, 1, 1);
    FromYmdIs(n, y, 12, 25);
    hide HolidaysForYear, Thanksgiving, GoodFriday, Weekday, YearStart, MonthStart;
  }

  // ---------- Capture and expiry ----------

  predicate NeedsCapture(now: int, current: Option<TrueOpenLevel>) {
    current.None? || now >= current.value.expiresAt
  }

  function CaptureLevel(z: Zone, timeframe: Timeframe, symbol: string, price: real, now: int): Option<TrueOpenLevel> {
    match timeframe
    case Weekly =>
      if WeekQualifies(z, now)
      then Some(TrueOpenLevel(Weekly, symbol, price, now, NextOccurrence(z, now, 18, Some(MONDAY))))
      else None
    case Daily => Some(TrueOpenLevel(Daily, symbol, price, now, NextOccurrence(z, now, 0, None)))
  }

  /** The wall-clock moment that ends a level: midnight, or Monday 18:00. */
  predicate EndsLevel(z: Zone, timeframe: Timeframe, t: int) {
    match timeframe
    case Daily => Reads(z, t, 0, None)
    case Weekly => Reads(z, t, 18, Some(MONDAY))
  }

  /** A captured level is asked for again exactly once a New York midnight (for the week, a Monday 18:00)
      has come since it was captured, across any change of offset. */
  lemma RecapturedIffBoundaryPassed(z: Zone, timeframe: Timeframe, symbol: string, price: real, now: int, t: int)
    requires IsNewYork(z) && now <= t
    ensures var level := CaptureLevel(z, timeframe, symbol, price, now);
            level.Some? ==>
              (NeedsCapture(t, level) <==> exists b :: now < b <= t && EndsLevel(z, timeframe, b))
  {
    var level := CaptureLevel(z, timeframe, symbol, price, now);
    if level.Some? {
      match timeframe {
        case Daily => NextOccurrenceIsFirst(z, now, 0, None);
        case Weekly => NextOccurrenceIsFirst(z, now, 18, Some(MONDAY));
      }
      var b := level.value.expiresAt;
      assert EndsLevel(z, timeframe, b);
    }
  }

  /** The first moment after s that ends levels. */
  ghost predicate EndsFirst(z: Zone, timeframe: Timeframe, s: int, e: int) {
    s < e && EndsLevel(z, timeframe, e) && forall b :: s < b < e ==> !EndsLevel(z, timeframe, b)
  }

  /** The weekly level is withheld exactly in a week that opens on 1 January or 25 December, the daily one never; a
      level captured is of the price, symbol and time asked with, and lasts until the next moment that ends one. */
  lemma CapturedLevel(z: Zone, timeframe: Timeframe, symbol: string, price: real, now: int)
    requires IsNewYork(z)
    requires DateOf(DateAt(z, now) - Weekday(DateAt(z, now))).year >= 0
    ensures var level := CaptureLevel(z, timeframe, symbol, price, now);
            var sunday := DateOf(DateAt(z, now) - Weekday(DateAt(z, now)));
              && (level.None? <==> timeframe == Weekly && ((sunday.month == 1 && sunday.day == 1) ||
                                                           (sunday.month == 12 && sunday.day == 25)))
              && (level.Some? ==>
                    var l := level.value;
                      && l.timeframe == timeframe && l.symbol == symbol && l.level == price && l.setAt == now
                      && EndsFirst(z, timeframe, now, l.expiresAt))
  {
    WeekRefusedIff(z, now);
    NextOccurrenceIsFirst(z, now, 0, None);
    NextOccurrenceIsFirst(z, now, 18, Some(MONDAY));
    hide WeekQualifies, NextOccurrence, DateAt, Weekday, DateOf;
  }

  // ---------- The gate ----------

  function BiasFromPrice(price: real, level: real): Bias {
    if price > level then BuyBias else if price < level then SellBias else Neutral
  }

  predicate GatePasses(weekly: Bias, daily: Bias, direction: Direction) {
    var effective := if weekly == Neutral then daily else weekly;
    match effective
    case Neutral => true
    case BuyBias => direction == Buy
    case SellBias => direction == Sell
  }

  /** A standing bias lets exactly one direction through, the weekly bias deciding alone whenever it takes a side;
      with neither standing, both pass. */
  lemma GateFollowsBias(weeklyPrice: real, weeklyLevel: real, dailyPrice: real, dailyLevel: real, direction: Direction)
    ensures var weekly, daily := BiasFromPrice(weeklyPrice, weeklyLevel), BiasFromPrice(dailyPrice, dailyLevel);
            var side := if weeklyPrice != weeklyLevel then weeklyPrice - weeklyLevel else dailyPrice - dailyLevel;
              GatePasses(weekly, daily, direction) <==> Sign(direction) * side >= 0.0
  {
  }

  // ---------- The level on file over whole runs ----------

  /** A pair-set consulting the level, for its primary symbol at its price. All pair-sets share one file. */
  datatype Look = Look(symbol: string, price: real, at: int)

  predicate InOrder(looks: seq<Look>) {
    forall i, j :: 0 <= i < j < |looks| ==> looks[i].at <= looks[j].at
  }

  /** The level a look goes by, given what is on file. */
  function InForce(z: Zone, timeframe: Timeframe, file: Option<TrueOpenLevel>, look: Look): Option<TrueOpenLevel> {
    if NeedsCapture(look.at, file) then CaptureLevel(z, timeframe, look.symbol, look.price, look.at) else file
  }

  /** What a run of looks leaves on file; a level withheld is not written. */
  function OnFile(z: Zone, timeframe: Timeframe, looks: seq<Look>): Option<TrueOpenLevel> {
    if looks == [] then None
    else
      var before := OnFile(z, timeframe, looks[..|looks| - 1]);
      var level := InForce(z, timeframe, before, looks[|looks| - 1]);
      if level.Some? then level else before
  }

  /** The bias the last of the looks comes to. */
  function BiasAt(z: Zone, timeframe: Timeframe, looks: seq<Look>): Bias
    requires looks != []
  {
    var look := looks[|looks| - 1];
    match InForce(z, timeframe, OnFile(z, timeframe, looks[..|looks| - 1]), look)
    case None => Neutral
    case Some(l) => BiasFromPrice(look.price, l.level)
  }

  class LevelFile {
    const zone: Zone
    const timeframe: Timeframe
    var level: Option<TrueOpenLevel>

    constructor (zone: Zone, timeframe: Timeframe)
      ensures this.zone == zone && this.timeframe == timeframe && level == OnFile(zone, timeframe, [])
    {
      this.zone, this.timeframe, level := zone, timeframe, None;
    }

    /** One look: the level on file, or else a new one, written if there is one; and the bias by it. */
    method LoadOrCapture(look: Look) returns (bias: Bias)
      modifies this
      ensures forall looks :: old(level) == OnFile(zone, timeframe, looks) ==>
                level == OnFile(zone, timeframe, looks + [look]) && bias == BiasAt(zone, timeframe, looks + [look])
    {
      assert forall looks: seq<Look> :: (looks + [look])[..|looks + [look]| - 1] == looks;
      hide NeedsCapture, CaptureLevel, BiasFromPrice;
      var current := level;
      if NeedsCapture(look.at, current) {
        current := CaptureLevel(zone, timeframe, look.symbol, look.price, look.at);
        if current.Some? {
          level := current;
        }
      }
      bias := match current case None => Neutral case Some(l) => BiasFromPrice(look.price, l.level);
    }
  }

  /** A level may be captured then: any day, but not any week. */
  predicate Capturable(z: Zone, timeframe: Timeframe, t: int) {
    timeframe == Daily || WeekQualifies(z, t)
  }

  /** A moment that ends levels has come since s, by t. */
  ghost predicate Ended(z: Zone, timeframe: Timeframe, s: int, t: int) {
    exists b :: s < b <= t && EndsLevel(z, timeframe, b)
  }

  /** The first look, of those up to t since the last moment that ended levels, at which one could be captured. */
  ghost predicate FirstLook(z: Zone, timeframe: Timeframe, looks: seq<Look>, i: int, t: int) {
    && 0 <= i < |looks| && Capturable(z, timeframe, looks[i].at) && !Ended(z, timeframe, looks[i].at, t)
    && forall k :: 0 <= k < i && Capturable(z, timeframe, looks[k].at) ==> Ended(z, timeframe, looks[k].at, t)
  }

  predicate OfLook(level: TrueOpenLevel, timeframe: Timeframe, look: Look) {
    level.timeframe == timeframe && level.symbol == look.symbol && level.level == look.price && level.setAt == look.at
  }

  /** The level on file is that of a look which was the first of its period, and outlasts every later look at which
      another could have been captured; without one, there was no such look. */
  ghost predicate FileTracks(z: Zone, timeframe: Timeframe, looks: seq<Look>, file: Option<TrueOpenLevel>) {
    match file
    case None => forall i :: 0 <= i < |looks| ==> !Capturable(z, timeframe, looks[i].at)
    case Some(l) =>
      exists i :: 0 <= i < |looks| && OfLook(l, timeframe, looks[i])
                  && FirstLook(z, timeframe, looks, i, looks[i].at)
                  && EndsFirst(z, timeframe, looks[i].at, l.expiresAt)
                  && forall k :: i < k < |looks| && Capturable(z, timeframe, looks[k].at) ==> looks[k].at < l.expiresAt
  }

  lemma CaptureEndsFirst(z: Zone, timeframe: Timeframe, look: Look)
    requires IsNewYork(z)
    ensures var level := CaptureLevel(z, timeframe, look.symbol, look.price, look.at);
              && (level.Some? <==> Capturable(z, timeframe, look.at))
              && (level.Some? ==> OfLook(level.value, timeframe, look) &&
                                  EndsFirst(z, timeframe, look.at, level.value.expiresAt))
  {
    hide WeekQualifies;
    NextOccurrenceIsFirst(z, look.at, 0, None);
    NextOccurrenceIsFirst(z, look.at, 18, Some(MONDAY));
    hide NextOccurrence;
  }

  /** What the last look goes by is the level of the first look of the current period, if there is any. */
  ghost predicate GoesBy(z: Zone, timeframe: Timeframe, looks: seq<Look>, level: Option<TrueOpenLevel>)
    requires looks != []
  {
    var t := looks[|looks| - 1].at;
    match level
    case None => forall i :: 0 <= i < |looks| && Capturable(z, timeframe, looks[i].at) ==>
                   Ended(z, timeframe, looks[i].at, t)
    case Some(l) => exists i :: FirstLook(z, timeframe, looks, i, t) && OfLook(l, timeframe, looks[i])
  }

  lemma LookStep(z: Zone, timeframe: Timeframe, looks: seq<Look>, file: Option<TrueOpenLevel>)
    requires IsNewYork(z) && InOrder(looks) && looks != []
    requires FileTracks(z, timeframe, looks[..|looks| - 1], file)
    ensures var level := InForce(z, timeframe, file, looks[|looks| - 1]);
              && GoesBy(z, timeframe, looks, level)
              && FileTracks(z, timeframe, looks, if level.Some? then level else file)
  {
    var last := looks[|looks| - 1];
    CaptureEndsFirst(z, timeframe, last);
    hide Capturable, CaptureLevel, EndsLevel, IsNewYork, FileTracks, GoesBy, Ended, EndsFirst, OfLook;
    if NeedsCapture(last.at, file) {
      EndedBefore(z, timeframe, looks, file);
      if Capturable(z, timeframe, last.at) {
        NewlyCaptured(z, timeframe, looks, CaptureLevel(z, timeframe, last.symbol, last.price, last.at).value);
      } else {
        NothingCaptured(z, timeframe, looks, file);
      }
    } else {
      KeptInForce(z, timeframe, looks, file.value);
    }
  }

  lemma NewlyCaptured(z: Zone, timeframe: Timeframe, looks: seq<Look>, l: TrueOpenLevel)
    requires looks != [] && Capturable(z, timeframe, looks[|looks| - 1].at)
    requires OfLook(l, timeframe, looks[|looks| - 1]) && EndsFirst(z, timeframe, looks[|looks| - 1].at, l.expiresAt)
    requires forall k :: 0 <= k < |looks| - 1 && Capturable(z, timeframe, looks[k].at) ==>
               Ended(z, timeframe, looks[k].at, looks[|looks| - 1].at)
    ensures GoesBy(z, timeframe, looks, Some(l)) && FileTracks(z, timeframe, looks, Some(l))
  {
    hide Capturable, EndsLevel, OfLook, EndsFirst;
    assert FirstLook(z, timeframe, looks, |looks| - 1, looks[|looks| - 1].at);
  }

  lemma NothingCaptured(z: Zone, timeframe: Timeframe, looks: seq<Look>, file: Option<TrueOpenLevel>)
    requires looks != [] && !Capturable(z, timeframe, looks[|looks| - 1].at)
    requires FileTracks(z, timeframe, looks[..|looks| - 1], file)
    requires forall k :: 0 <= k < |looks| - 1 && Capturable(z, timeframe, looks[k].at) ==>
               Ended(z, timeframe, looks[k].at, looks[|looks| - 1].at)
    ensures GoesBy(z, timeframe, looks, None) && FileTracks(z, timeframe, looks, file)
  {
    hide Capturable, Ended, EndsFirst, OfLook, FirstLook;
    var init := looks[..|looks| - 1];
    assert forall k :: 0 <= k < |init| ==> init[k] == looks[k];
    if file.Some? {
      KeptOnFile(z, timeframe, looks, file.value);
    }
  }

  /** Once the level on file has expired, so has every earlier chance to capture one. */
  lemma EndedBefore(z: Zone, timeframe: Timeframe, looks: seq<Look>, file: Option<TrueOpenLevel>)
    requires InOrder(looks) && looks != [] && FileTracks(z, timeframe, looks[..|looks| - 1], file)
    requires NeedsCapture(looks[|looks| - 1].at, file)
    ensures forall k :: 0 <= k < |looks| - 1 && Capturable(z, timeframe, looks[k].at) ==>
              Ended(z, timeframe, looks[k].at, looks[|looks| - 1].at)
  {
    hide Capturable, EndsLevel;
    var init := looks[..|looks| - 1];
    forall k | 0 <= k < |looks| - 1 && Capturable(z, timeframe, looks[k].at)
      ensures Ended(z, timeframe, looks[k].at, looks[|looks| - 1].at)
    {
      assert init[k] == looks[k];
      assert looks[k].at < file.value.expiresAt;
    }
  }

  /** A level not yet expired goes on being the one of the first look of its period. */
  lemma KeptInForce(z: Zone, timeframe: Timeframe, looks: seq<Look>, l: TrueOpenLevel)
    requires InOrder(looks) && looks != [] && FileTracks(z, timeframe, looks[..|looks| - 1], Some(l))
    requires looks[|looks| - 1].at < l.expiresAt
    ensures GoesBy(z, timeframe, looks, Some(l)) && FileTracks(z, timeframe, looks, Some(l))
  {
    hide Capturable, EndsLevel;
    var t := looks[|looks| - 1].at;
    KeptOnFile(z, timeframe, looks, l);
    var i :| 0 <= i < |looks| && OfLook(l, timeframe, looks[i]) && FirstLook(z, timeframe, looks, i, looks[i].at)
          && EndsFirst(z, timeframe, looks[i].at, l.expiresAt);
    assert looks[i].at <= t;
    forall k | 0 <= k < i && Capturable(z, timeframe, looks[k].at)
      ensures Ended(z, timeframe, looks[k].at, t)
    {
      var b :| looks[k].at < b <= looks[i].at && EndsLevel(z, timeframe, b);
      assert b <= t;
    }
    assert FirstLook(z, timeframe, looks, i, t);
  }

  lemma KeptOnFile(z: Zone, timeframe: Timeframe, looks: seq<Look>, l: TrueOpenLevel)
    requires looks != [] && FileTracks(z, timeframe, looks[..|looks| - 1], Some(l))
    requires looks[|looks| - 1].at < l.expiresAt || !Capturable(z, timeframe, looks[|looks| - 1].at)
    ensures FileTracks(z, timeframe, looks, Some(l))
  {
    hide Capturable, EndsLevel, Ended, EndsFirst;
    var init := looks[..|looks| - 1];
    var i :| 0 <= i < |init| && OfLook(l, timeframe, init[i]) && FirstLook(z, timeframe, init, i, init[i].at)
          && EndsFirst(z, timeframe, init[i].at, l.expiresAt)
          && forall k :: i < k < |init| && Capturable(z, timeframe, init[k].at) ==> init[k].at < l.expiresAt;
    assert forall k :: 0 <= k < |init| ==> init[k] == looks[k];
    assert FirstLook(z, timeframe, looks, i, looks[i].at);
  }

  lemma {:induction false} FileAlwaysTracks(z: Zone, timeframe: Timeframe, looks: seq<Look>)
    requires IsNewYork(z) && InOrder(looks)
    ensures FileTracks(z, timeframe, looks, OnFile(z, timeframe, looks))
  {
    if looks != [] {
      hide InForce, FileTracks;
      FileAlwaysTracks(z, timeframe, looks[..|looks| - 1]);
      LookStep(z, timeframe, looks, OnFile(z, timeframe, looks[..|looks| - 1]));
    }
  }

  /** Whatever looks have come before, a look's bias weighs its price against that of the first look since New York
      midnight (for the week, since Monday 18:00) at which a level could be captured, whichever pair-set's it was; and
      takes no side if there has been none. */
  lemma BiasWeighsFirstLook(z: Zone, timeframe: Timeframe, looks: seq<Look>)
    requires IsNewYork(z) && InOrder(looks) && looks != []
    ensures var last := looks[|looks| - 1];
            if exists i :: FirstLook(z, timeframe, looks, i, last.at)
            then exists i :: FirstLook(z, timeframe, looks, i, last.at) &&
                             BiasAt(z, timeframe, looks) == BiasFromPrice(last.price, looks[i].price)
            else BiasAt(z, timeframe, looks) == Neutral
  {
    var last, before := looks[|looks| - 1], OnFile(z, timeframe, looks[..|looks| - 1]);
    assert InOrder(looks[..|looks| - 1]);
    FileAlwaysTracks(z, timeframe, looks[..|looks| - 1]);
    LookStep(z, timeframe, looks, before);
    hide InForce, OnFile, FileTracks, BiasFromPrice, Capturable, Ended;
    if InForce(z, timeframe, before, last).Some? {
      var i :| FirstLook(z, timeframe, looks, i, last.at) &&
               OfLook(InForce(z, timeframe, before, last).value, timeframe, looks[i]);
      assert BiasAt(z, timeframe, looks) == BiasFromPrice(last.price, looks[i].price);
    }
  }

  /** Two pair-sets in one cycle: the second goes by the price of the first one's symbol, and would take no side if it
      had the file to itself. */
  lemma SecondPairSetMisled(z: Zone, now: int)
    requires IsNewYork(z)
    ensures BiasAt(z, Daily, [Look("EURUSD", 1.1, now), Look("GBPUSD", 1.3, now)]) == BuyBias
    ensures BiasAt(z, Daily, [Look("GBPUSD", 1.3, now)]) == Neutral
  {
    var euro, pound := Look("EURUSD", 1.1, now), Look("GBPUSD", 1.3, now);
    assert [euro, pound][..1] == [euro] && [euro][..0] == [] && [pound][..0] == [];
    assert OnFile(z, Daily, []) == None;
    assert OnFile(z, Daily, [euro]) == CaptureLevel(z, Daily, "EURUSD", 1.1, now);
    CaptureEndsFirst(z, Daily, euro);
    hide NextOccurrence;
  }
}
