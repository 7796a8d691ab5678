/** The rolling daily and session ranges, and the spread history, of `strategy/src/buffers.rs`. */
module Buffers {
  import opened Prelude
  import opened RealArith
  import opened Window
  import opened NewYork

  // ---------- Resets ----------

  const DAILY_RESET_HOUR := 18
  const SESSION_HOURS := [18, 0, 6, 12]

  datatype Kind = DailyRange | SessionRange

  /** The wall-clock moments at which a range starts over. */
  predicate IsReset(z: Zone, kind: Kind, t: int) {
    match kind
    case DailyRange => Reads(z, t, DAILY_RESET_HOUR, None)
    case SessionRange => exists hour :: hour in SESSION_HOURS && Reads(z, t, hour, None)
  }

  ghost predicate FirstResetAfter(z: Zone, kind: Kind, after: int, r: int) {
    after < r && IsReset(z, kind, r) && forall b :: after < b < r ==> !IsReset(z, kind, b)
  }

  function NextSessionBoundary(z: Zone, after: int): int {
    Min(NextOccurrence(z, after, 18, None),
        Min(NextOccurrence(z, after, 0, None),
            Min(NextOccurrence(z, after, 6, None), NextOccurrence(z, after, 12, None))))
  }

  function NextReset(z: Zone, kind: Kind, after: int): int {
    match kind
    case DailyRange => NextOccurrence(z, after, DAILY_RESET_HOUR, None)
    case SessionRange => NextSessionBoundary(z, after)
  }

  /** From any reading, one of the four session hours comes within six wall-clock hours. */
  lemma SessionHourNear(local: int) returns (hour: int)
    ensures hour in SESSION_HOURS && CandidateReading(local, hour, None) <= local + 6 * HOUR
  {
    var q, r := local / DAY, TimeOfDay(local);
    assert local == DAY * q + r;
    hour := if r < 6 * HOUR then 6 else if r < 12 * HOUR then 12 else if r < 18 * HOUR then 18 else 0;
    assert SESSION_HOURS[0] == 18 && SESSION_HOURS[1] == 0 && SESSION_HOURS[2] == 6 && SESSION_HOURS[3] == 12;
  }

  /** Each range resets at the first of its wall-clock boundaries strictly after the present: a daily one at
      most 25 hours away, a session one at most 7, across any change of offset. */
  lemma NextResetIsFirst(z: Zone, kind: Kind, after: int)
    requires IsNewYork(z)
    ensures FirstResetAfter(z, kind, after, NextReset(z, kind, after))
    ensures NextReset(z, kind, after) - after <= (if kind == DailyRange then 25 else 7) * HOUR
  {
    assert SESSION_HOURS[0] == 18 && SESSION_HOURS[1] == 0 && SESSION_HOURS[2] == 6 && SESSION_HOURS[3] == 12;
    forall hour | hour in SESSION_HOURS
      ensures FirstAfter(z, after, hour, None, NextOccurrence(z, after, hour, None))
      ensures NextOccurrence(z, after, hour, None) - after <= 25 * HOUR
    {
      NextOccurrenceIsFirst(z, after, hour, None);
    }
    if kind == SessionRange {
      SessionResetNear(z, after);
    }
    hide NextOccurrence;
  }

  lemma SessionResetNear(z: Zone, after: int)
    requires IsNewYork(z)
    ensures NextSessionBoundary(z, after) - after <= 7 * HOUR
  {
    var local := Local(z, after);
    var hour := SessionHourNear(local);
    var n := CandidateReading(local, hour, None);
    CandidateIsNextReading(local, hour, None);
    ReadingOnce(z, n);
    var r := NextOccurrence(z, after, hour, None);
    assert Local(z, r) == n;
    assert z(r) >= STANDARD && z(after) <= DAYLIGHT;
    assert NextSessionBoundary(z, after) <= r by {
      hide NextOccurrence;
      assert hour == 18 || hour == 0 || hour == 6 || hour == 12;
    }
  }

  // ---------- The rolling range ----------

  datatype Range = Range(high: real, low: real, resetsAt: int)

  function Widened(b: Range, price: real): Range {
    Range(if price > b.high then price else b.high, if price < b.low then price else b.low, b.resetsAt)
  }

  function Updated(z: Zone, kind: Kind, current: Option<Range>, price: real, now: int): Range {
    if current.Some? && now < current.value.resetsAt then Widened(current.value, price)
    else Range(price, price, NextReset(z, kind, now))
  }

  class RollingBuffer {
    var high: real
    var low: real
    var resetsAt: int

    constructor Start(price: real, resetsAt: int)
      ensures View() == Range(price, price, resetsAt)
    {
      this.high := price;
      this.low := price;
      this.resetsAt := resetsAt;
    }

    function View(): Range
      reads this
    {
      Range(high, low, resetsAt)
    }

    method Observe(price: real)
      modifies this
      ensures View() == Widened(old(View()), price)
    {
      if price > high {
        high := price;
      }
      if price < low {
        low := price;
      }
    }

    predicate IsExpired(now: int)
      reads this
    {
      now >= resetsAt
    }
  }

  function ViewOf(b: RollingBuffer?): Option<Range>
    reads if b == null then {} else {b}
  {
    if b == null then None else Some(b.View())
  }

  /** The owned buffer is widened in place while it lasts, and replaced once it has expired. */
  method UpdateBuffer(z: Zone, kind: Kind, current: RollingBuffer?, price: real, now: int)
    returns (b: RollingBuffer)
    modifies current
    ensures b == current || fresh(b)
    ensures b.View() == Updated(z, kind, old(ViewOf(current)), price, now)
  {
    if current != null && !current.IsExpired(now) {
      current.Observe(price);
      b := current;
    } else {
      var resetsAt;
      if kind == DailyRange {
        resetsAt := NextNyOccurrence(z, now, DAILY_RESET_HOUR, None);
      } else {
        var evening := NextNyOccurrence(z, now, 18, None);
        var midnight := NextNyOccurrence(z, now, 0, None);
        var morning := NextNyOccurrence(z, now, 6, None);
        var noon := NextNyOccurrence(z, now, 12, None);
        resetsAt := Min(evening, Min(midnight, Min(morning, noon)));
      }
      b := new RollingBuffer.Start(price, resetsAt);
    }
  }

  // ---------- Whole runs: the range is the range of the prices since the last boundary ----------

  datatype Tick = Tick(price: real, at: int)

  predicate TimeOrdered(h: seq<Tick>) {
    forall i, j :: 0 <= i < j < |h| ==> h[i].at <= h[j].at
  }

  /** The buffer on file after a run of updates, one per tick. */
  function After(z: Zone, kind: Kind, h: seq<Tick>): Option<Range> {
    if h == [] then None
    else
      var last := h[|h| - 1];
      Some(Updated(z, kind, After(z, kind, h[..|h| - 1]), last.price, last.at))
  }

  /** No boundary has come since tick i. */
  ghost predicate SinceReset(z: Zone, kind: Kind, h: seq<Tick>, i: int)
    requires 0 <= i < |h|
  {
    forall b :: h[i].at < b <= h[|h| - 1].at ==> !IsReset(z, kind, b)
  }

  /** The range bounds exactly the prices since the last boundary, and both ends were observed. */
  ghost predicate IsRangeSinceReset(z: Zone, kind: Kind, h: seq<Tick>, r: Range) {
    && (forall i :: 0 <= i < |h| && SinceReset(z, kind, h, i) ==> r.low <= h[i].price <= r.high)
    && (exists i :: 0 <= i < |h| && SinceReset(z, kind, h, i) && h[i].price == r.high)
    && (exists i :: 0 <= i < |h| && SinceReset(z, kind, h, i) && h[i].price == r.low)
  }

  lemma {:induction false} RangeIsSinceLastReset(z: Zone, kind: Kind, h: seq<Tick>)
    requires IsNewYork(z) && TimeOrdered(h) && h != []
    ensures After(z, kind, h).Some?
    ensures IsRangeSinceReset(z, kind, h, After(z, kind, h).value)
    ensures FirstResetAfter(z, kind, h[|h| - 1].at, After(z, kind, h).value.resetsAt)
  {
    var init, last := h[..|h| - 1], h[|h| - 1];
    NextResetIsFirst(z, kind, last.at);
    assert SinceReset(z, kind, h, |h| - 1);
    hide IsReset, NextReset, IsNewYork, SinceReset, IsRangeSinceReset;
    if init == [] {
      FreshTracks(z, kind, h);
    } else {
      assert TimeOrdered(init) && init[|init| - 1] == h[|h| - 2];
      RangeIsSinceLastReset(z, kind, init);
      var r := After(z, kind, init).value;
      if last.at < r.resetsAt {
        SinceResetCarries(z, kind, h, r.resetsAt);
        WidenedTracks(z, kind, h, r);
        ResetStillFirst(z, kind, h[|h| - 2].at, last.at, r.resetsAt);
      } else {
        NothingCarries(z, kind, h, r.resetsAt);
        FreshTracks(z, kind, h);
      }
    }
  }

  lemma ResetStillFirst(z: Zone, kind: Kind, s: int, t: int, reset: int)
    requires FirstResetAfter(z, kind, s, reset) && s <= t < reset
    ensures FirstResetAfter(z, kind, t, reset)
  {
    hide IsReset;
  }

  lemma FreshTracks(z: Zone, kind: Kind, h: seq<Tick>)
    requires h != [] && SinceReset(z, kind, h, |h| - 1)
    requires forall i :: 0 <= i < |h| - 1 ==> !SinceReset(z, kind, h, i)
    ensures var last := h[|h| - 1];
            IsRangeSinceReset(z, kind, h, Range(last.price, last.price, NextReset(z, kind, last.at)))
  {
    hide SinceReset, NextReset;
  }

  /** Before the reset, what was current stays current. */
  lemma SinceResetCarries(z: Zone, kind: Kind, h: seq<Tick>, reset: int)
    requires |h| >= 2 && TimeOrdered(h)
    requires FirstResetAfter(z, kind, h[|h| - 2].at, reset) && h[|h| - 1].at < reset
    ensures forall i :: 0 <= i < |h| - 1 ==> SinceReset(z, kind, h, i) == SinceReset(z, kind, h[..|h| - 1], i)
  {
    hide IsReset;
    var init := h[..|h| - 1];
    forall i | 0 <= i < |init| ensures SinceReset(z, kind, h, i) == SinceReset(z, kind, init, i) {
      assert init[i] == h[i] && init[|init| - 1] == h[|h| - 2];
      assert init[i].at <= init[|init| - 1].at <= h[|h| - 1].at;
      if SinceReset(z, kind, init, i) {
        forall b | h[i].at < b <= h[|h| - 1].at ensures !IsReset(z, kind, b) {
          if b <= init[|init| - 1].at {
          } else {
            assert h[|h| - 2].at < b < reset;
          }
        }
      }
    }
  }

  lemma WidenedTracks(z: Zone, kind: Kind, h: seq<Tick>, r: Range)
    requires |h| >= 2 && SinceReset(z, kind, h, |h| - 1)
    requires forall i :: 0 <= i < |h| - 1 ==> SinceReset(z, kind, h, i) == SinceReset(z, kind, h[..|h| - 1], i)
    requires IsRangeSinceReset(z, kind, h[..|h| - 1], r)
    ensures IsRangeSinceReset(z, kind, h, Widened(r, h[|h| - 1].price))
  {
    hide SinceReset;
    var init, w := h[..|h| - 1], Widened(r, h[|h| - 1].price);
    assert forall i :: 0 <= i < |init| ==> init[i] == h[i];
    var top :| 0 <= top < |init| && SinceReset(z, kind, init, top) && init[top].price == r.high;
    var bottom :| 0 <= bottom < |init| && SinceReset(z, kind, init, bottom) && init[bottom].price == r.low;
    var high := if h[|h| - 1].price > r.high then |h| - 1 else top;
    var low := if h[|h| - 1].price < r.low then |h| - 1 else bottom;
    assert SinceReset(z, kind, h, high) && h[high].price == w.high;
    assert SinceReset(z, kind, h, low) && h[low].price == w.low;
    forall i | 0 <= i < |h| && SinceReset(z, kind, h, i) ensures w.low <= h[i].price <= w.high {
      if i < |init| {
        assert SinceReset(z, kind, init, i);
      }
    }
  }

  /** Past the reset, nothing older is current. */
  lemma NothingCarries(z: Zone, kind: Kind, h: seq<Tick>, reset: int)
    requires |h| >= 2 && TimeOrdered(h)
    requires FirstResetAfter(z, kind, h[|h| - 2].at, reset) && reset <= h[|h| - 1].at
    ensures forall i :: 0 <= i < |h| - 1 ==> !SinceReset(z, kind, h, i)
  {
    hide IsReset;
    forall i | 0 <= i < |h| - 1 ensures !SinceReset(z, kind, h, i) {
      assert h[i].at <= h[|h| - 2].at;
      assert h[i].at < reset <= h[|h| - 1].at;
    }
  }

  /** Fed the same prices at the same times, the session range always lies within the daily one. */
  lemma SessionWithinDaily(z: Zone, h: seq<Tick>)
    requires IsNewYork(z) && TimeOrdered(h) && h != []
    ensures var daily, session := After(z, DailyRange, h), After(z, SessionRange, h);
            && daily.Some? && session.Some?
            && daily.value.low <= session.value.low <= session.value.high <= daily.value.high
            && session.value.resetsAt <= daily.value.resetsAt
  {
    RangeIsSinceLastReset(z, DailyRange, h);
    RangeIsSinceLastReset(z, SessionRange, h);
    forall t | IsReset(z, DailyRange, t) ensures IsReset(z, SessionRange, t) {
      assert SESSION_HOURS[0] == DAILY_RESET_HOUR;
    }
    hide IsReset, After, IsNewYork;
    forall i | 0 <= i < |h| && SinceReset(z, SessionRange, h, i) ensures SinceReset(z, DailyRange, h, i) {
    }
  }

  // ---------- Spread history ----------

  const MAX_SPREAD_SAMPLES := 900

  function Total(s: seq<real>): real {
    if s == [] then 0.0 else Total(s[..|s| - 1]) + s[|s| - 1]
  }

  class SpreadHistory {
    var samples: seq<real>
    var lastUpdated: Option<int>

    constructor ()
      ensures samples == [] && lastUpdated == None
    {
      samples := [];
      lastUpdated := None;
    }

    method Record(spread: real, now: int)
      modifies this
      ensures samples == Slide(old(samples), spread, MAX_SPREAD_SAMPLES)
      ensures lastUpdated == Some(now)
    {
      samples := samples + [spread];
      if |samples| > MAX_SPREAD_SAMPLES {
        samples := samples[1..];
      }
      lastUpdated := Some(now);
    }
  }

  function Average(samples: seq<real>): Option<real> {
    if samples == [] then None else Some(Total(samples) / |samples| as real)
  }

  predicate PassesFilter(samples: seq<real>, current: real, multiplier: real) {
    match Average(samples)
    case Some(average) => current <= average * multiplier
    case None => true
  }

  /** The total is the samples' sum, however they are split up. */
  lemma {:induction false} TotalAppends(s: seq<real>, t: seq<real>)
    ensures Total([]) == 0.0 && forall x :: Total([x]) == x
    ensures Total(s + t) == Total(s) + Total(t)
  {
    assert forall x: real :: [x][..0] == [];
    if t == [] {
      assert s + t == s;
    } else {
      assert (s + t)[..|s + t| - 1] == s + t[..|t| - 1];
      TotalAppends(s, t[..|t| - 1]);
    }
  }

  /** A spread passes exactly if, once for each sample, it comes to no more than the multiplier times their sum; with no
      sample yet, every spread passes. */
  lemma PassesIff(samples: seq<real>, current: real, multiplier: real)
    ensures PassesFilter(samples, current, multiplier) <==>
            samples == [] || current * |samples| as real <= multiplier * Total(samples)
  {
    if samples != [] {
      var n, total := |samples| as real, Total(samples);
      QuotientTimes(total, n);
      var average := total / n;
      assert multiplier * total == average * multiplier * n by {
        assert average * n == total;
        assert average * multiplier * n == multiplier * (average * n);
      }
      SignOfProduct(current - average * multiplier, n);
      assert Product(current - average * multiplier, n) == current * n - average * multiplier * n;
    }
  }

  lemma {:induction false} TotalAtLeast(s: seq<real>, i: nat)
    requires i < |s| && forall j :: 0 <= j < |s| ==> s[j] >= 0.0
    ensures Total(s) >= s[i]
  {
    var init := s[..|s| - 1];
    if i < |init| {
      TotalAtLeast(init, i);
    } else if init != [] {
      TotalAtLeast(init, 0);
    }
  }

  /** The cycle records the current spread before testing it, so a window no longer than the multiplier
      can never reject: with the default 1.5 that is the first cycle only. */
  lemma ShortWindowNeverRejects(earlier: seq<real>, current: real, multiplier: real)
    requires current >= 0.0 && forall j :: 0 <= j < |earlier| ==> earlier[j] >= 0.0
    requires var window := Slide(earlier, current, MAX_SPREAD_SAMPLES); |window| as real <= multiplier
    ensures PassesFilter(Slide(earlier, current, MAX_SPREAD_SAMPLES), current, multiplier)
  {
    var window := Slide(earlier, current, MAX_SPREAD_SAMPLES);
    TotalAtLeast(window, |window| - 1);
    var n, total := |window| as real, Total(window);
    var average := total / n;
    assert average * n == total;
    InversePositive(n);
    DivideIsTimes(total, n);
    MulNonNegative(total, 1.0 / n);
    MulMonotone(n, multiplier, average);
    assert n * average == total;
    assert multiplier * average == average * multiplier;
  }
}
