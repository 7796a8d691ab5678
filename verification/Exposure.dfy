/** Net exposure per currency across the open positions: `currency_exposure_snapshot` in `daemon/src/main.rs`
    and `currency_pair` in `risk/src/sizing.rs`. */
module Exposure {
  import opened Prelude
  import opened Domain

  /** A plain six-character ASCII pair splits into base and quote; anything else is not tracked. */
  function CurrencyPair(pair: string): Option<(string, string)> {
    if |pair| == 6 && forall i :: 0 <= i < 6 ==> pair[i] < 128 as char then Some((pair[..3], pair[3..])) else None
  }

  /** A pair splits exactly as two plain ASCII names of three characters each, written one after the other. */
  lemma SplitsIff(pair: string, base: string, quote: string)
    ensures CurrencyPair(pair) == Some((base, quote)) <==>
            && |base| == 3 && |quote| == 3 && pair == base + quote
            && forall i :: 0 <= i < |pair| ==> pair[i] < 128 as char
  {
    if |base| == 3 && |quote| == 3 && pair == base + quote {
      assert pair[..3] == base && pair[3..] == quote;
    }
  }

  function Held(m: map<string, real>, currency: string): real {
    if currency in m then m[currency] else 0.0
  }

  function Add(m: map<string, real>, currency: string, amount: real): map<string, real> {
    m[currency := Held(m, currency) + amount]
  }

  /** What one position contributes to one currency: long the base, short the quote, for a buy. */
  function Contribution(p: Position, currency: string): real {
    match CurrencyPair(p.pair)
    case None => 0.0
    case Some((base, quote)) =>
      var amount := Sign(p.direction) * TotalSize(p.legs);
      (if currency == base then amount else 0.0) + (if currency == quote then -amount else 0.0)
  }

  function Net(positions: seq<Position>, currency: string): real {
    if positions == [] then 0.0
    else Net(positions[..|positions| - 1], currency) + Contribution(positions[|positions| - 1], currency)
  }

  predicate Touched(positions: seq<Position>, currency: string) {
    exists i :: 0 <= i < |positions| && Touches(positions[i], currency)
  }

  predicate Touches(p: Position, currency: string) {
    match CurrencyPair(p.pair)
    case None => false
    case Some((base, quote)) => currency == base || currency == quote
  }

  /** The sum of a map's values, in any order. */
  ghost function Sum(m: map<string, real>): real
    decreases |m|
  {
    if m == map[] then 0.0
    else
      var c :| c in m;
      m[c] + Sum(m - {c})
  }

  lemma {:induction false} SumRemove(m: map<string, real>, c: string)
    requires c in m
    ensures Sum(m) == m[c] + Sum(m - {c})
    decreases |m|
  {
    var d :| d in m && Sum(m) == m[d] + Sum(m - {d});
    if d != c {
      SumRemove(m - {d}, c);
      SumRemove(m - {c}, d);
      assert m - {c} - {d} == m - {d} - {c};
    }
  }

  lemma SumAdd(m: map<string, real>, c: string, amount: real)
    ensures Sum(Add(m, c, amount)) == Sum(m) + amount
  {
    var m' := Add(m, c, amount);
    SumRemove(m', c);
    if c in m {
      SumRemove(m, c);
      assert m' - {c} == m - {c};
    } else {
      assert m' - {c} == m;
    }
  }

  function Booked(m: map<string, real>, p: Position): map<string, real> {
    match CurrencyPair(p.pair)
    case None => m
    case Some((base, quote)) =>
      var amount := Sign(p.direction) * TotalSize(p.legs);
      Add(Add(m, base, amount), quote, -amount)
  }

  /** Every position of the list booked in turn. */
  function SnapshotOf(positions: seq<Position>): map<string, real> {
    if positions == [] then map[]
    else Booked(SnapshotOf(positions[..|positions| - 1]), positions[|positions| - 1])
  }

  lemma BookedOnce(p: Position)
    ensures SnapshotOf([p]) == Booked(map[], p)
  {
    hide Booked;
    assert SnapshotOf([p][..0]) == map[];
  }

  /** The exposure map of a list: its entries are the net of each touched currency, and they cancel out. */
  ghost predicate IsSnapshot(positions: seq<Position>, exposure: map<string, real>) {
    && (forall c :: Held(exposure, c) == Net(positions, c))
    && (forall c :: c in exposure <==> Touched(positions, c))
    && Sum(exposure) == 0.0
  }

  lemma EmptySnapshot()
    ensures IsSnapshot([], map[])
  {
  }

  lemma BookedAdds(m: map<string, real>, p: Position, c: string)
    ensures Held(Booked(m, p), c) == Held(m, c) + Contribution(p, c)
    ensures c in Booked(m, p) <==> c in m || Touches(p, c)
  {
    hide TotalSize;
  }

  lemma BookedBalances(m: map<string, real>, p: Position)
    ensures Sum(Booked(m, p)) == Sum(m)
  {
    if CurrencyPair(p.pair).Some? {
      hide Sum, CurrencyPair, TotalSize;
      var (base, quote) := CurrencyPair(p.pair).value;
      var amount := Sign(p.direction) * TotalSize(p.legs);
      SumAdd(m, base, amount);
      SumAdd(Add(m, base, amount), quote, -amount);
    }
  }

  lemma SnapshotStep(positions: seq<Position>, i: nat, m: map<string, real>)
    requires i < |positions| && IsSnapshot(positions[..i], m)
    ensures IsSnapshot(positions[..i + 1], Booked(m, positions[i]))
  {
    assert positions[..i + 1][..i] == positions[..i];
    BookedBalances(m, positions[i]);
    hide Sum, Booked, Touches, Contribution;
    forall c
      ensures Held(Booked(m, positions[i]), c) == Net(positions[..i + 1], c)
      ensures c in Booked(m, positions[i]) <==> Touched(positions[..i + 1], c)
    {
      BookedAdds(m, positions[i], c);
      TouchedStep(positions, i, c);
    }
  }

  lemma {:induction false} SnapshotIsNet(positions: seq<Position>)
    ensures IsSnapshot(positions, SnapshotOf(positions))
  {
    if positions == [] {
      EmptySnapshot();
    } else {
      hide IsSnapshot, Booked;
      var n := |positions| - 1;
      assert positions[..n + 1] == positions;
      SnapshotIsNet(positions[..n]);
      SnapshotStep(positions, n, SnapshotOf(positions[..n]));
    }
  }

  lemma TouchedStep(positions: seq<Position>, i: nat, c: string)
    requires i < |positions|
    ensures Touched(positions[..i + 1], c) <==> Touched(positions[..i], c) || Touches(positions[i], c)
  {
    hide Touches;
    var before, after := positions[..i], positions[..i + 1];
    if Touched(before, c) {
      var k :| 0 <= k < i && Touches(before[k], c);
      assert after[k] == before[k];
    }
    if Touches(positions[i], c) {
      assert after[i] == positions[i];
    }
    if Touched(after, c) && !Touches(positions[i], c) {
      var k :| 0 <= k < i + 1 && Touches(after[k], c);
      assert before[k] == after[k];
    }
  }

  /** The loop, which also shows that every position adds as much to one currency as it takes from another. */
  method CurrencyExposureSnapshot(positions: seq<Position>) returns (exposure: map<string, real>)
    ensures IsSnapshot(positions, exposure) && exposure == SnapshotOf(positions)
  {
    exposure := map[];
    hide IsSnapshot, TotalSize, CurrencyPair, Add;
    EmptySnapshot();
    for i := 0 to |positions|
      invariant IsSnapshot(positions[..i], exposure) && exposure == SnapshotOf(positions[..i])
    {
      SnapshotStep(positions, i, exposure);
      assert positions[..i + 1][..i] == positions[..i];
      var p := positions[i];
      if CurrencyPair(p.pair).Some? {
        var (base, quote) := CurrencyPair(p.pair).value;
        var amount := Sign(p.direction) * TotalSize(p.legs);
        exposure := Add(exposure, base, amount);
        exposure := Add(exposure, quote, -amount);
      }
    }
    assert positions[..|positions|] == positions;
  }

  // ---------- Sizes on a pair ----------

  /** The legs of every position on the pair, in order. */
  function LegsOn(positions: seq<Position>, pair: string): seq<FillLeg> {
    if positions == [] then []
    else
      var p := positions[|positions| - 1];
      LegsOn(positions[..|positions| - 1], pair) + if p.pair == pair then p.legs else []
  }

  lemma {:induction false} TotalSizeAppend(a: seq<FillLeg>, b: seq<FillLeg>)
    ensures TotalSize(a + b) == TotalSize(a) + TotalSize(b)
  {
    if b == [] {
      assert a + b == a;
    } else {
      assert (a + b)[..|a + b| - 1] == a + b[..|b| - 1];
      TotalSizeAppend(a, b[..|b| - 1]);
    }
  }

  // ---------- Order and hedging ----------

  lemma {:induction false} NetAppend(s: seq<Position>, t: seq<Position>, c: string)
    ensures Net(s + t, c) == Net(s, c) + Net(t, c)
  {
    if t == [] {
      assert s + t == s;
    } else {
      assert (s + t)[..|s + t| - 1] == s + t[..|t| - 1];
      NetAppend(s, t[..|t| - 1], c);
    }
  }

  lemma NetRemove(s: seq<Position>, j: nat, c: string)
    requires j < |s|
    ensures Net(s, c) == Net(s[..j] + s[j + 1..], c) + Contribution(s[j], c)
    ensures multiset(s[..j] + s[j + 1..]) == multiset(s) - multiset{s[j]}
  {
    var left, p, right := s[..j], s[j], s[j + 1..];
    assert s == left + [p] + right;
    NetInsert(left, p, right, c);
  }

  /** The snapshot does not depend on the order of the positions. */
  lemma {:induction false} NetOrderIndependent(s: seq<Position>, t: seq<Position>, c: string)
    requires multiset(s) == multiset(t)
    ensures Net(s, c) == Net(t, c)
  {
    assert |multiset(s)| == |s| && |multiset(t)| == |t|;
    if s == [] {
    } else {
      hide Net;
      var k := |s| - 1;
      assert s[k] in multiset(t);
      var j :| 0 <= j < |t| && t[j] == s[k];
      NetRemove(s, k, c);
      NetRemove(t, j, c);
      NetOrderIndependent(s[..k] + s[k + 1..], t[..j] + t[j + 1..], c);
    }
  }

  lemma NetInsert(s: seq<Position>, p: Position, t: seq<Position>, c: string)
    ensures Net(s + [p] + t, c) == Net(s + t, c) + Contribution(p, c)
  {
    NetAppend(s + [p], t, c);
    NetAppend(s, t, c);
    assert (s + [p])[..|s|] == s;
  }

  /** Adding the opposite position of equal size on the same pair restores every currency, wherever the two
      stand in the list. */
  lemma HedgeCancels(s: seq<Position>, p: Position, t: seq<Position>, hedge: Position, u: seq<Position>, c: string)
    requires hedge.pair == p.pair && hedge.direction != p.direction && TotalSize(hedge.legs) == TotalSize(p.legs)
    ensures Net(s + [p] + t + [hedge] + u, c) == Net(s + t + u, c)
  {
    hide Net, Contribution;
    NetInsert(s + [p] + t, hedge, u, c);
    assert s + [p] + t + u == s + [p] + (t + u);
    NetInsert(s, p, t + u, c);
    assert s + (t + u) == s + t + u;
    OppositeContributions(p, hedge, c);
  }

  lemma OppositeContributions(p: Position, hedge: Position, c: string)
    requires hedge.pair == p.pair && hedge.direction != p.direction && TotalSize(hedge.legs) == TotalSize(p.legs)
    ensures Contribution(p, c) + Contribution(hedge, c) == 0.0
  {
  }
}
