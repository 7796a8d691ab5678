/** The bounded window both `strategy/src/correlation.rs` and `strategy/src/buffers.rs` keep: push at the
    back, drop the oldest once over the cap. */
module Window {
  function Slide<T>(s: seq<T>, p: T, cap: nat): seq<T> {
    if |s| + 1 > cap then (s + [p])[1..] else s + [p]
  }

  /** What is left in a window that started empty and was fed these samples in order. */
  function Fed<T>(feed: seq<T>, cap: nat): seq<T> {
    if feed == [] then [] else Slide(Fed(feed[..|feed| - 1], cap), feed[|feed| - 1], cap)
  }

  /** Exactly the last `cap` samples (or all of them) survive, in order. */
  lemma {:induction false} WindowIsLastSamples<T>(feed: seq<T>, cap: nat)
    ensures Fed(feed, cap) == if |feed| <= cap then feed else feed[|feed| - cap..]
  {
    if feed == [] {
    } else {
      var init := feed[..|feed| - 1];
      WindowIsLastSamples(init, cap);
      assert feed == init + [feed[|feed| - 1]];
    }
  }
}
