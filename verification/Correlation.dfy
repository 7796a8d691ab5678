/** The rolling correlation window of `strategy/src/correlation.rs`.

    Prices and coefficients are `real`: float rounding is not modelled. The library square root is a
    parameter `sqrt`, known only to return the non-negative root of a non-negative number. */
module Correlation {
  import opened Prelude
  import opened RealArith
  import opened Window

  const MAX_SAMPLES := 500

  datatype Sample = Sample(x: real, y: real)

  ghost predicate IsSquareRoot(sqrt: real -> real) {
    forall v :: v >= 0.0 ==> sqrt(v) >= 0.0 && Square(sqrt(v)) == v
  }

  // ---------- Specification: sums over a window, and the covariance form they make ----------

  function X(p: Sample): real { p.x }

  function Y(p: Sample): real { p.y }

  function Times(f: Sample -> real, g: Sample -> real): Sample -> real {
    (p: Sample) => f(p) * g(p)
  }

  function Combine(a: real, f: Sample -> real, b: real, g: Sample -> real): Sample -> real {
    (p: Sample) => a * f(p) + b * g(p)
  }

  function Sum(s: seq<Sample>, f: Sample -> real): real {
    if s == [] then 0.0 else Sum(s[..|s| - 1], f) + f(s[|s| - 1])
  }

  function Moment(n: real, sumOfProducts: real, sumF: real, sumG: real): real {
    n * sumOfProducts - sumF * sumG
  }

  /** n * sum(f * g) - sum(f) * sum(g): the numerator for (X, Y), a variance factor for (X, X) or (Y, Y). */
  function Cov(s: seq<Sample>, f: Sample -> real, g: Sample -> real): real {
    Moment(|s| as real, Sum(s, Times(f, g)), Sum(s, f), Sum(s, g))
  }

  /** The reading for n samples with numerator r and product of variance factors v. */
  function Reading(n: nat, r: real, v: real, sqrt: real -> real): Option<real> {
    if n < 2 || sqrt(v) == 0.0 then None else Some(r / sqrt(v))
  }

  function Coefficient(s: seq<Sample>, sqrt: real -> real): Option<real> {
    Reading(|s|, Cov(s, X, Y), Product(Cov(s, X, X), Cov(s, Y, Y)), sqrt)
  }

  predicate Constant(s: seq<Sample>, f: Sample -> real) {
    forall i, j :: 0 <= i < |s| && 0 <= j < |s| ==> f(s[i]) == f(s[j])
  }

  // ---------- Specification: Pearson's coefficient, from deviations ----------

  function Mean(s: seq<Sample>, f: Sample -> real): real
    requires s != []
  {
    Sum(s, f) / |s| as real
  }

  /** How far the series stands from its mean over the window. */
  function Deviation(s: seq<Sample>, f: Sample -> real): Sample -> real
    requires s != []
  {
    var mean := Mean(s, f);
    (p: Sample) => f(p) - mean
  }

  /** The sum of the products of two series' deviations. */
  function CoDeviation(s: seq<Sample>, f: Sample -> real, g: Sample -> real): real
    requires s != []
  {
    Sum(s, Times(Deviation(s, f), Deviation(s, g)))
  }

  /** The value's square times both sums of squared deviations is the squared sum of products, and its sign is that
      sum's: what Pearson's coefficient is, without dividing or taking a root. */
  predicate IsPearson(s: seq<Sample>, value: real) {
    && s != []
    && Product(Square(value), Product(CoDeviation(s, X, X), CoDeviation(s, Y, Y))) == Square(CoDeviation(s, X, Y))
    && (value > 0.0 <==> CoDeviation(s, X, Y) > 0.0)
    && (value < 0.0 <==> CoDeviation(s, X, Y) < 0.0)
  }

  // ---------- The window and the accumulator loop ----------

  class CorrelationState {
    var samples: seq<Sample>
    var lastUpdated: Option<int>

    constructor ()
      ensures samples == [] && lastUpdated == None
    {
      samples := [];
      lastUpdated := None;
    }

    method RecordSample(primary: real, secondary: real, now: int)
      modifies this
      ensures samples == Slide(old(samples), Sample(primary, secondary), MAX_SAMPLES)
      ensures lastUpdated == Some(now)
    {
      samples := samples + [Sample(primary, secondary)];
      if |samples| > MAX_SAMPLES {
        samples := samples[1..];
      }
      lastUpdated := Some(now);
    }
  }

  ghost predicate Sums(s: seq<Sample>, sumX: real, sumY: real, sumXY: real, sumX2: real, sumY2: real) {
    && sumX == Sum(s, X) && sumY == Sum(s, Y)
    && sumXY == Sum(s, Times(X, Y)) && sumX2 == Sum(s, Times(X, X)) && sumY2 == Sum(s, Times(Y, Y))
  }

  lemma SumStep(s: seq<Sample>, i: nat, f: Sample -> real)
    requires i < |s|
    ensures Sum(s[..i + 1], f) == Sum(s[..i], f) + f(s[i])
  {
    assert s[..i + 1][..i] == s[..i];
  }

  lemma SumsStep(s: seq<Sample>, i: nat, sumX: real, sumY: real, sumXY: real, sumX2: real, sumY2: real)
    requires i < |s| && Sums(s[..i], sumX, sumY, sumXY, sumX2, sumY2)
    ensures var x, y := s[i].x, s[i].y;
            Sums(s[..i + 1], sumX + x, sumY + y, sumXY + x * y, sumX2 + x * x, sumY2 + y * y)
  {
    hide Sum;
    SumStep(s, i, X);
    SumStep(s, i, Y);
    SumStep(s, i, Times(X, Y));
    SumStep(s, i, Times(X, X));
    SumStep(s, i, Times(Y, Y));
  }

  method ComputeCoefficient(samples: seq<Sample>, sqrt: real -> real) returns (r: Option<real>)
    ensures r == Coefficient(samples, sqrt)
    ensures IsSquareRoot(sqrt) && r.Some? ==> IsPearson(samples, r.value)
  {
    hide IsPearson, IsSquareRoot;
    ReadingIsPearson(samples, sqrt);
    var n := |samples|;
    if n < 2 {
      return None;
    }
    var sumX, sumY, sumXY, sumX2, sumY2 := 0.0, 0.0, 0.0, 0.0, 0.0;
    assert Sums(samples[..0], 0.0, 0.0, 0.0, 0.0, 0.0);
    for i := 0 to n
      invariant Sums(samples[..i], sumX, sumY, sumXY, sumX2, sumY2)
    {
      hide Sums;
      SumsStep(samples, i, sumX, sumY, sumXY, sumX2, sumY2);
      var x, y := samples[i].x, samples[i].y;
      sumX := sumX + x;
      sumY := sumY + y;
      sumXY := sumXY + x * y;
      sumX2 := sumX2 + x * x;
      sumY2 := sumY2 + y * y;
    }
    assert samples[..n] == samples;
    hide Moment, Product;
    var numerator := Moment(n as real, sumXY, sumX, sumY);
    var denominator :=
      sqrt(Product(Moment(n as real, sumX2, sumX, sumX), Moment(n as real, sumY2, sumY, sumY)));
    if denominator == 0.0 {
      return None;
    }
    return Some(numerator / denominator);
  }

  // ---------- Sums are linear, and depend only on what is summed ----------

  lemma {:induction false} SumAgree(s: seq<Sample>, f: Sample -> real, t: seq<Sample>, g: Sample -> real)
    requires |s| == |t| && forall i :: 0 <= i < |s| ==> f(s[i]) == g(t[i])
    ensures Sum(s, f) == Sum(t, g)
  {
    if s == [] {
    } else {
      SumAgree(s[..|s| - 1], f, t[..|t| - 1], g);
    }
  }

  lemma {:induction false} SumCombine(s: seq<Sample>, a: real, f: Sample -> real, b: real, g: Sample -> real)
    ensures Sum(s, Combine(a, f, b, g)) == a * Sum(s, f) + b * Sum(s, g)
  {
    if s == [] {
    } else {
      SumCombine(s[..|s| - 1], a, f, b, g);
    }
  }

  lemma {:induction false} SumAppend(s: seq<Sample>, t: seq<Sample>, f: Sample -> real)
    ensures Sum(s + t, f) == Sum(s, f) + Sum(t, f)
  {
    if t == [] {
      assert s + t == s;
    } else {
      assert (s + t)[..|s + t| - 1] == s + t[..|t| - 1];
      SumAppend(s, t[..|t| - 1], f);
    }
  }

  lemma SumRemove(t: seq<Sample>, j: nat, f: Sample -> real)
    requires j < |t|
    ensures Sum(t, f) == Sum(t[..j] + t[j + 1..], f) + f(t[j])
  {
    hide Sum;
    var left, p, right := t[..j], t[j], t[j + 1..];
    assert t == left + [p] + right;
    SumAppend(left + [p], right, f);
    SumAppend(left, [p], f);
    SumAppend(left, right, f);
    SumSingle(p, f);
  }

  lemma SumSingle(p: Sample, f: Sample -> real)
    ensures Sum([p], f) == f(p)
  {
    assert Sum([p][..0], f) == 0.0;
  }

  lemma MultisetRemove(t: seq<Sample>, j: nat)
    requires j < |t|
    ensures multiset(t[..j] + t[j + 1..]) == multiset(t) - multiset{t[j]}
  {
    assert t == t[..j] + [t[j]] + t[j + 1..];
  }

  lemma {:induction false} SumPermuted(s: seq<Sample>, t: seq<Sample>, f: Sample -> real)
    requires multiset(s) == multiset(t)
    ensures Sum(s, f) == Sum(t, f)
  {
    assert |multiset(s)| == |s| && |multiset(t)| == |t|;
    if s == [] {
    } else {
      var k := |s| - 1;
      hide Sum;
      assert s[k] in multiset(t);
      var j :| 0 <= j < |t| && t[j] == s[k];
      MultisetRemove(s, k);
      MultisetRemove(t, j);
      SumRemove(s, k, f);
      SumRemove(t, j, f);
      SumPermuted(s[..k] + s[k + 1..], t[..j] + t[j + 1..], f);
    }
  }

  // ---------- The covariance form: symmetric, bilinear, positive semidefinite ----------

  lemma CovSymmetric(s: seq<Sample>, f: Sample -> real, g: Sample -> real)
    ensures Cov(s, f, g) == Cov(s, g, f)
  {
    SumAgree(s, Times(f, g), s, Times(g, f));
  }

  lemma SumOfProducts(s: seq<Sample>, a: real, f: Sample -> real, b: real, g: Sample -> real, h: Sample -> real)
    ensures Sum(s, Times(Combine(a, f, b, g), h)) == a * Sum(s, Times(f, h)) + b * Sum(s, Times(g, h))
  {
    hide Sum;
    var product, sum := Times(Combine(a, f, b, g), h), Combine(a, Times(f, h), b, Times(g, h));
    forall i | 0 <= i < |s| ensures product(s[i]) == sum(s[i]) {
      DistributeOver(a, f(s[i]), b, g(s[i]), h(s[i]));
    }
    SumAgree(s, product, s, sum);
    SumCombine(s, a, Times(f, h), b, Times(g, h));
  }

  lemma DistributeOver(a: real, x: real, b: real, y: real, z: real)
    ensures (a * x + b * y) * z == a * (x * z) + b * (y * z)
  {
  }

  lemma CovCombine(s: seq<Sample>, a: real, f: Sample -> real, b: real, g: Sample -> real, h: Sample -> real)
    ensures Cov(s, Combine(a, f, b, g), h) == a * Cov(s, f, h) + b * Cov(s, g, h)
  {
    SumCombine(s, a, f, b, g);
    SumOfProducts(s, a, f, b, g, h);
    var c := Combine(a, f, b, g);
    hide Moment;
    MomentCombine(|s| as real, a, b, Sum(s, Times(f, h)), Sum(s, Times(g, h)), Sum(s, f), Sum(s, g), Sum(s, h),
                  Sum(s, Times(c, h)), Sum(s, c));
  }

  lemma MomentCombine(n: real, a: real, b: real, p: real, q: real, u: real, v: real, w: real, pq: real, uv: real)
    requires pq == a * p + b * q && uv == a * u + b * v
    ensures Moment(n, pq, uv, w) == a * Moment(n, p, u, w) + b * Moment(n, q, v, w)
  {
  }

  lemma CovSquareOfCombination(s: seq<Sample>, a: real, f: Sample -> real, b: real, g: Sample -> real)
    ensures Cov(s, Combine(a, f, b, g), Combine(a, f, b, g))
         == a * a * Cov(s, f, f) + 2.0 * a * b * Cov(s, f, g) + b * b * Cov(s, g, g)
  {
    hide Cov;
    var c := Combine(a, f, b, g);
    CovCombine(s, a, f, b, g, c);
    CovSymmetric(s, f, c);
    CovSymmetric(s, g, c);
    CovCombine(s, a, f, b, g, f);
    CovCombine(s, a, f, b, g, g);
    CovSymmetric(s, f, g);
    var p, r, q := Cov(s, f, f), Cov(s, f, g), Cov(s, g, g);
    assert a * (a * p + b * r) + b * (a * r + b * q) == a * a * p + 2.0 * a * b * r + b * b * q;
  }

  /** Sum of squared distances to a centre. */
  function Spread(s: seq<Sample>, f: Sample -> real, centre: real): real {
    if s == [] then 0.0
    else Spread(s[..|s| - 1], f, centre) + Square(f(s[|s| - 1]) - centre)
  }

  /** The same spread from n, the sum u and the sum of squares q. */
  function Expanded(n: real, q: real, u: real, c: real): real {
    q - 2.0 * c * u + n * c * c
  }

  lemma ExpandedStep(n: real, q: real, u: real, v: real, c: real, n': real, q': real, u': real)
    requires n' == n + 1.0 && q' == q + v * v && u' == u + v
    ensures Expanded(n', q', u', c) == Expanded(n, q, u, c) + Square(v - c)
  {
  }

  lemma {:induction false} SpreadExpanded(s: seq<Sample>, f: Sample -> real, c: real)
    ensures Spread(s, f, c) == Expanded(|s| as real, Sum(s, Times(f, f)), Sum(s, f), c)
  {
    if s == [] {
    } else {
      hide Expanded, Square;
      var init, v := s[..|s| - 1], f(s[|s| - 1]);
      SpreadExpanded(init, f, c);
      var q, u := Sum(init, Times(f, f)), Sum(init, f);
      assert Sum(s, Times(f, f)) == q + v * v && Sum(s, f) == u + v;
      assert Spread(s, f, c) == Spread(init, f, c) + Square(v - c);
      hide *;
      ExpandedStep(|init| as real, q, u, v, c, |s| as real, Sum(s, Times(f, f)), Sum(s, f));
    }
  }

  lemma {:induction false} SpreadZeroIffCentred(s: seq<Sample>, f: Sample -> real, c: real)
    ensures Spread(s, f, c) >= 0.0
    ensures Spread(s, f, c) == 0.0 <==> forall i :: 0 <= i < |s| ==> f(s[i]) == c
  {
    if s == [] {
    } else {
      var init, v := s[..|s| - 1], f(s[|s| - 1]);
      SpreadZeroIffCentred(init, f, c);
      SquareSign(v - c);
      assert forall i :: 0 <= i < |init| ==> init[i] == s[i];
      if forall i :: 0 <= i < |s| ==> f(s[i]) == c {
        forall i | 0 <= i < |init| ensures f(init[i]) == c {
          assert f(s[i]) == c;
        }
        assert f(s[|s| - 1]) == c;
      } else if v == c {
        var i :| 0 <= i < |s| && f(s[i]) != c;
        assert i < |init| && init[i] == s[i];
      }
    }
  }

  /** Growing a window by one sample adds that sample's squared distances to all earlier ones. */
  lemma VarianceGrows(s: seq<Sample>, f: Sample -> real)
    requires s != []
    ensures Cov(s, f, f) == Cov(s[..|s| - 1], f, f) + Spread(s[..|s| - 1], f, f(s[|s| - 1]))
  {
    var init, v := s[..|s| - 1], f(s[|s| - 1]);
    hide Expanded, Moment;
    SpreadExpanded(init, f, v);
    MomentStep(|init| as real, Sum(init, Times(f, f)), Sum(init, f), v);
  }

  lemma MomentStep(n: real, q: real, u: real, v: real)
    ensures Moment(n + 1.0, q + v * v, u + v, u + v) == Moment(n, q, u, u) + Expanded(n, q, u, v)
  {
  }

  /** A variance factor is never negative, and is zero exactly when the series never moves. */
  lemma {:induction false} VarianceFactor(s: seq<Sample>, f: Sample -> real)
    ensures Cov(s, f, f) >= 0.0
    ensures Cov(s, f, f) == 0.0 <==> Constant(s, f)
  {
    if s == [] {
    } else {
      var init, v := s[..|s| - 1], f(s[|s| - 1]);
      VarianceFactor(init, f);
      VarianceGrows(s, f);
      SpreadZeroIffCentred(init, f, v);
      assert forall i :: 0 <= i < |init| ==> init[i] == s[i];
      if Constant(s, f) {
        assert Constant(init, f);
        forall i | 0 <= i < |init| ensures f(init[i]) == v {
          assert f(s[i]) == f(s[|s| - 1]);
        }
      }
    }
  }

  /** The quadratic form with the given coefficients. */
  function Form(p: real, r: real, q: real, a: real, b: real): real {
    a * a * p + 2.0 * a * b * r + b * b * q
  }

  /** A form that is never negative has a non-positive discriminant. */
  lemma Discriminant(p: real, r: real, q: real)
    requires p >= 0.0 && q >= 0.0
    requires forall a, b :: Form(p, r, q, a, b) >= 0.0
    ensures Square(r) <= Product(p, q)
  {
    if q > 0.0 {
      assert Form(p, r, q, q, -r) == q * (p * q - r * r);
      FactorSign(q, p * q - r * r);
    } else if r != 0.0 {
      TiltIsNegative(p, r);
    }
  }

  lemma TiltIsNegative(p: real, r: real)
    requires r != 0.0
    ensures Form(p, r, 0.0, 1.0, -(p + 1.0) / (2.0 * r)) == -1.0
  {
    var t := -(p + 1.0) / (2.0 * r);
    assert t * (2.0 * r) == -(p + 1.0);
    assert Form(p, r, 0.0, 1.0, t) == p + t * (2.0 * r);
  }

  /** Cauchy-Schwarz for the one-pass sums. */
  lemma CauchySchwarz(s: seq<Sample>, f: Sample -> real, g: Sample -> real)
    ensures Square(Cov(s, f, g)) <= Product(Cov(s, f, f), Cov(s, g, g))
  {
    hide Cov;
    VarianceFactor(s, f);
    VarianceFactor(s, g);
    forall a, b ensures Form(Cov(s, f, f), Cov(s, f, g), Cov(s, g, g), a, b) >= 0.0 {
      CovSquareOfCombination(s, a, f, b, g);
      VarianceFactor(s, Combine(a, f, b, g));
    }
    Discriminant(Cov(s, f, f), Cov(s, f, g), Cov(s, g, g));
  }

  // ---------- Readings as arithmetic on the three factors ----------

  lemma ReadingNoneIff(n: nat, r: real, v: real, sqrt: real -> real)
    requires IsSquareRoot(sqrt) && v >= 0.0
    ensures Reading(n, r, v, sqrt) == None <==> n < 2 || v == 0.0
  {
    SquareSign(sqrt(v));
  }

  lemma ReadingInRange(n: nat, r: real, v: real, sqrt: real -> real)
    requires IsSquareRoot(sqrt) && v >= 0.0 && Square(r) <= v
    ensures Reading(n, r, v, sqrt).Some? ==> -1.0 <= Reading(n, r, v, sqrt).value <= 1.0
    ensures Reading(n, r, v, sqrt) == Some(1.0) ==> r > 0.0 && Square(r) == v
    ensures Reading(n, r, v, sqrt) == Some(-1.0) ==> r < 0.0 && Square(r) == v
  {
    var d := sqrt(v);
    if n >= 2 && d != 0.0 {
      QuotientBound(r, d);
      NegatedFactors(d, d);
    }
  }

  lemma ReadingRescaled(n: nat, r: real, v: real, k: real, r': real, v': real, sqrt: real -> real)
    requires IsSquareRoot(sqrt) && v >= 0.0 && k > 0.0 && r' == k * r && v' == k * k * v
    ensures Reading(n, r', v', sqrt) == Reading(n, r, v, sqrt)
  {
    var d := sqrt(v);
    MulPositive(k, k);
    MulNonNegative(k * k, v);
    MulNonNegative(k, d);
    SquareOfProduct(k, d);
    RootsAgree(sqrt(v'), k * d);
    ProductSign(k, d);
    if d != 0.0 {
      CancelFactor(k, r, d);
    }
  }

  lemma ReadingOnLine(n: nat, m: real, p: real, v: real, sqrt: real -> real)
    requires IsSquareRoot(sqrt) && n >= 2 && p > 0.0 && m != 0.0 && v == p * (m * m * p)
    ensures Reading(n, m * p, v, sqrt) == Some(if m > 0.0 then 1.0 else -1.0)
  {
    var slope := if m > 0.0 then m else -m;
    var d := slope * p;
    MulPositive(slope, p);
    SlopeSquared(m, slope, p);
    MulPositive(d, d);
    RootsAgree(sqrt(v), d);
    assert m * p == if m > 0.0 then d else -d;
    DivideProduct(1.0, d);
    DivideProduct(-1.0, d);
  }

  lemma SlopeSquared(m: real, slope: real, p: real)
    requires slope == m || slope == -m
    ensures p * (m * m * p) == (slope * p) * (slope * p)
  {
  }

  lemma FourFactors(a: real, c: real, p: real, q: real)
    ensures (a * a * p) * (c * c * q) == (a * c) * (a * c) * (p * q)
  {
    assert (a * a * p) * (c * c * q) == a * (a * p) * (c * (c * q));
    assert a * (a * p) * (c * (c * q)) == (a * c) * ((a * p) * (c * q));
    assert (a * p) * (c * q) == (a * c) * (p * q);
  }

  lemma SquareOfProduct(k: real, root: real)
    ensures (k * root) * (k * root) == k * k * (root * root)
  {
  }

  // ---------- What the coefficient means ----------

  /** No coefficient exactly when there are fewer than two samples or one series never moves. */
  lemma NoCoefficientIff(s: seq<Sample>, sqrt: real -> real)
    requires IsSquareRoot(sqrt)
    ensures Coefficient(s, sqrt) == None <==> |s| < 2 || Constant(s, X) || Constant(s, Y)
  {
    hide Cov;
    VarianceFactor(s, X);
    VarianceFactor(s, Y);
    ProductSign(Cov(s, X, X), Cov(s, Y, Y));
    ReadingNoneIff(|s|, Cov(s, X, Y), Product(Cov(s, X, X), Cov(s, Y, Y)), sqrt);
  }

  /** The square root is only ever taken of a non-negative number and the result is a correlation. */
  lemma CoefficientInRange(s: seq<Sample>, sqrt: real -> real)
    requires IsSquareRoot(sqrt)
    ensures Product(Cov(s, X, X), Cov(s, Y, Y)) >= 0.0
    ensures Coefficient(s, sqrt).Some? ==> -1.0 <= Coefficient(s, sqrt).value <= 1.0
  {
    hide Cov;
    VarianceFactor(s, X);
    VarianceFactor(s, Y);
    ProductSign(Cov(s, X, X), Cov(s, Y, Y));
    CauchySchwarz(s, X, Y);
    ReadingInRange(|s|, Cov(s, X, Y), Product(Cov(s, X, X), Cov(s, Y, Y)), sqrt);
  }

  lemma PermutationInvariant(s: seq<Sample>, t: seq<Sample>, sqrt: real -> real)
    requires multiset(s) == multiset(t)
    ensures Coefficient(s, sqrt) == Coefficient(t, sqrt)
  {
    assert |multiset(s)| == |s| && |multiset(t)| == |t|;
    CovPermuted(s, t, X, Y);
    CovPermuted(s, t, X, X);
    CovPermuted(s, t, Y, Y);
  }

  lemma CovPermuted(s: seq<Sample>, t: seq<Sample>, f: Sample -> real, g: Sample -> real)
    requires multiset(s) == multiset(t)
    ensures Cov(s, f, g) == Cov(t, f, g)
  {
    assert |multiset(s)| == |s| && |multiset(t)| == |t|;
    SumPermuted(s, t, f);
    SumPermuted(s, t, g);
    SumPermuted(s, t, Times(f, g));
  }

  /** Covariance sees a window only through the values the two series take on it. */
  lemma CovAgree(s: seq<Sample>, f: Sample -> real, g: Sample -> real,
                 t: seq<Sample>, h: Sample -> real, k: Sample -> real)
    requires |s| == |t| && forall i :: 0 <= i < |s| ==> f(s[i]) == h(t[i]) && g(s[i]) == k(t[i])
    ensures Cov(s, f, g) == Cov(t, h, k)
  {
    SumAgree(s, f, t, h);
    SumAgree(s, g, t, k);
    SumAgree(s, Times(f, g), t, Times(h, k));
  }

  lemma DeviationsCancel(s: seq<Sample>, f: Sample -> real)
    requires s != []
    ensures Sum(s, Deviation(s, f)) == 0.0
  {
    var shift := Combine(1.0, f, -Mean(s, f), One);
    QuotientTimes(Sum(s, f), |s| as real);
    hide Sum;
    SumAgree(s, Deviation(s, f), s, shift);
    SumCombine(s, 1.0, f, -Mean(s, f), One);
    SumOfOnes(s);
  }

  lemma CovOfDeviations(s: seq<Sample>, f: Sample -> real, g: Sample -> real)
    requires s != []
    ensures Cov(s, Deviation(s, f), Deviation(s, g)) == Cov(s, f, g)
  {
    var u, v := Combine(1.0, f, -Mean(s, f), One), Combine(1.0, g, -Mean(s, g), One);
    hide Cov, Mean;
    CovAgree(s, Deviation(s, f), Deviation(s, g), s, u, v);
    CovAffine(s, 1.0, f, -Mean(s, f), 1.0, g, -Mean(s, g));
  }

  /** The one-pass factor is the number of samples times the sum of products of deviations. */
  lemma CovIsCoDeviation(s: seq<Sample>, f: Sample -> real, g: Sample -> real)
    requires s != []
    ensures Cov(s, f, g) == Product(|s| as real, CoDeviation(s, f, g))
  {
    DeviationsCancel(s, f);
    DeviationsCancel(s, g);
    CovOfDeviations(s, f, g);
    hide Sum, Deviation;
  }

  lemma PearsonFactors(n: real, r: real, p: real, q: real, root: real, value: real)
    requires n > 0.0 && root > 0.0 && value == Product(n, r) / root
    requires Square(root) == Product(Product(n, p), Product(n, q))
    ensures Product(Square(value), Product(p, q)) == Square(r)
    ensures (value > 0.0 <==> r > 0.0) && (value < 0.0 <==> r < 0.0)
  {
    SignOfProduct(r, n);
    SignOfProduct(value, root);
    QuotientTimes(Product(n, r), root);
    assert Square(n) > 0.0 by { ProductSign(n, n); }
    // n * r == value * root, so n^2 * r^2 == value^2 * root^2 == n^2 * value^2 * p * q.
    SquareOfFactors(n, r);
    SquareOfFactors(value, root);
    ProductRegrouped(n, p, n, q);
    Exchanged(Square(value), Square(n), Product(p, q));
    CancelLeft(Square(n), Square(r), Product(Square(value), Product(p, q)));
  }

  lemma SquareOfFactors(u: real, v: real)
    ensures Square(Product(u, v)) == Product(Square(u), Square(v))
  {
    ProductRegrouped(u, v, u, v);
  }

  lemma ProductRegrouped(a: real, b: real, c: real, d: real)
    ensures Product(Product(a, b), Product(c, d)) == Product(Product(a, c), Product(b, d))
  {
    assert a * b * (c * d) == a * (b * (c * d));
    assert b * (c * d) == c * (b * d);
    assert a * (c * (b * d)) == a * c * (b * d);
  }

  lemma Exchanged(u: real, v: real, w: real)
    ensures Product(u, Product(v, w)) == Product(v, Product(u, w))
  {
    assert u * (v * w) == v * (u * w);
  }

  lemma CancelLeft(k: real, u: real, v: real)
    requires k > 0.0 && Product(k, u) == Product(k, v)
    ensures u == v
  {
    ProductSubtracts(u, v, k);
    ZeroProduct(u - v, k);
  }

  /** A reading is Pearson's coefficient of the window. */
  lemma ReadingIsPearson(s: seq<Sample>, sqrt: real -> real)
    ensures IsSquareRoot(sqrt) && Coefficient(s, sqrt).Some? ==> IsPearson(s, Coefficient(s, sqrt).value)
  {
    if IsSquareRoot(sqrt) && Coefficient(s, sqrt).Some? {
      var root := sqrt(Product(Cov(s, X, X), Cov(s, Y, Y)));
      CoefficientInRange(s, sqrt);
      CovIsCoDeviation(s, X, X);
      CovIsCoDeviation(s, Y, Y);
      CovIsCoDeviation(s, X, Y);
      hide Cov, CoDeviation;
      PearsonFactors(|s| as real, CoDeviation(s, X, Y), CoDeviation(s, X, X), CoDeviation(s, Y, Y), root,
                     Coefficient(s, sqrt).value);
    }
  }

  function Swapped(s: seq<Sample>): seq<Sample> {
    seq(|s|, i requires 0 <= i < |s| => Sample(s[i].y, s[i].x))
  }

  lemma SwapInvariant(s: seq<Sample>, sqrt: real -> real)
    ensures Coefficient(Swapped(s), sqrt) == Coefficient(s, sqrt)
  {
    hide Cov;
    var t := Swapped(s);
    CovAgree(t, X, Y, s, Y, X);
    CovSymmetric(s, Y, X);
    CovAgree(t, X, X, s, Y, Y);
    CovAgree(t, Y, Y, s, X, X);
    assert Product(Cov(s, Y, Y), Cov(s, X, X)) == Product(Cov(s, X, X), Cov(s, Y, Y));
  }

  function One(p: Sample): real { 1.0 }

  lemma {:induction false} SumOfOnes(s: seq<Sample>)
    ensures Sum(s, One) == |s| as real
  {
    if s == [] {
    } else {
      SumOfOnes(s[..|s| - 1]);
    }
  }

  /** A constant series covaries with nothing. */
  lemma CovOfOne(s: seq<Sample>, g: Sample -> real)
    ensures Cov(s, One, g) == 0.0
  {
    SumOfOnes(s);
    SumAgree(s, Times(One, g), s, g);
  }

  lemma CovAffine(s: seq<Sample>, a: real, f: Sample -> real, b: real, c: real, g: Sample -> real, d: real)
    ensures Cov(s, Combine(a, f, b, One), Combine(c, g, d, One)) == a * c * Cov(s, f, g)
  {
    var u, v := Combine(a, f, b, One), Combine(c, g, d, One);
    CovCombine(s, a, f, b, One, v);
    CovOfOne(s, v);
    CovSymmetric(s, f, v);
    CovCombine(s, c, g, d, One, f);
    CovOfOne(s, f);
    CovSymmetric(s, g, f);
  }

  function Rescaled(s: seq<Sample>, a: real, b: real, c: real, d: real): seq<Sample> {
    seq(|s|, i requires 0 <= i < |s| => Sample(a * s[i].x + b, c * s[i].y + d))
  }

  lemma CovRescaled(s: seq<Sample>, a: real, b: real, c: real, d: real)
    ensures var t := Rescaled(s, a, b, c, d);
            && Cov(t, X, Y) == a * c * Cov(s, X, Y)
            && Cov(t, X, X) == a * a * Cov(s, X, X)
            && Cov(t, Y, Y) == c * c * Cov(s, Y, Y)
  {
    hide Cov;
    var t := Rescaled(s, a, b, c, d);
    var u, v := Combine(a, X, b, One), Combine(c, Y, d, One);
    CovAgree(t, X, Y, s, u, v);
    CovAgree(t, X, X, s, u, u);
    CovAgree(t, Y, Y, s, v, v);
    CovAffine(s, a, X, b, c, Y, d);
    CovAffine(s, a, X, b, a, X, b);
    CovAffine(s, c, Y, d, c, Y, d);
  }

  /** Any change of unit and origin of either price leaves the reading alone. */
  lemma AffineInvariant(s: seq<Sample>, a: real, b: real, c: real, d: real, sqrt: real -> real)
    requires IsSquareRoot(sqrt) && a > 0.0 && c > 0.0
    ensures Coefficient(Rescaled(s, a, b, c, d), sqrt) == Coefficient(s, sqrt)
  {
    hide Cov;
    CovRescaled(s, a, b, c, d);
    VarianceFactor(s, X);
    VarianceFactor(s, Y);
    var r, p, q := Cov(s, X, Y), Cov(s, X, X), Cov(s, Y, Y);
    var t := Rescaled(s, a, b, c, d);
    ProductSign(p, q);
    MulPositive(a, c);
    FourFactors(a, c, p, q);
    ReadingRescaled(|s|, r, Product(p, q), a * c, Cov(t, X, Y), Product(Cov(t, X, X), Cov(t, Y, Y)), sqrt);
  }

  /** A series y = m * x + c over the window. */
  predicate OnLine(s: seq<Sample>, m: real, c: real) {
    forall i :: 0 <= i < |s| ==> s[i].y == m * s[i].x + c
  }

  /** The reading is exactly +1 or -1 on every sloped line through a moving series. */
  lemma LineIsExtreme(s: seq<Sample>, m: real, c: real, sqrt: real -> real)
    requires IsSquareRoot(sqrt) && |s| >= 2 && !Constant(s, X) && m != 0.0 && OnLine(s, m, c)
    ensures Coefficient(s, sqrt) == Some(if m > 0.0 then 1.0 else -1.0)
  {
    hide Cov;
    var v := Combine(m, X, c, One);
    var p := Cov(s, X, X);
    CovAgree(s, Y, Y, s, v, v);
    CovAgree(s, X, Y, s, X, v);
    CovAffine(s, m, X, c, m, X, c);
    CovSymmetric(s, X, v);
    CovCombine(s, m, X, c, One, X);
    CovOfOne(s, X);
    VarianceFactor(s, X);
    assert Cov(s, X, Y) == m * p;
    assert Cov(s, Y, Y) == m * m * p;
    ReadingOnLine(|s|, m, p, Product(Cov(s, X, X), Cov(s, Y, Y)), sqrt);
  }

  /** Conversely, a reading of +1 or -1 means the whole window lies on one line, sloped that way. */
  lemma ExtremeMeansLine(s: seq<Sample>, sqrt: real -> real) returns (m: real, c: real)
    requires IsSquareRoot(sqrt)
    requires Coefficient(s, sqrt) == Some(1.0) || Coefficient(s, sqrt) == Some(-1.0)
    ensures OnLine(s, m, c) && (if Coefficient(s, sqrt) == Some(1.0) then m > 0.0 else m < 0.0)
  {
    hide Cov;
    var p, q, r := Cov(s, X, X), Cov(s, Y, Y), Cov(s, X, Y);
    NoCoefficientIff(s, sqrt);
    VarianceFactor(s, X);
    VarianceFactor(s, Y);
    CauchySchwarz(s, X, Y);
    ProductSign(p, q);
    ReadingInRange(|s|, r, Product(p, q), sqrt);
    m := SlopeOf(p, q, r);
    // The residual y - m * x has no variance, so it is the constant c.
    var residual := Combine(1.0, Y, -m, X);
    CovSquareOfCombination(s, 1.0, Y, -m, X);
    CovSymmetric(s, X, Y);
    VarianceFactor(s, residual);
    c := residual(s[0]);
    forall i | 0 <= i < |s| ensures s[i].y == m * s[i].x + c {
      assert residual(s[i]) == residual(s[0]);
    }
  }

  lemma SlopeOf(p: real, q: real, r: real) returns (m: real)
    requires p > 0.0 && r != 0.0 && r * r == p * q
    ensures 1.0 * 1.0 * q + 2.0 * 1.0 * (-m) * r + (-m) * (-m) * p == 0.0
    ensures m > 0.0 <==> r > 0.0
    ensures m != 0.0
  {
    m := r / p;
    QuotientSign(r, p);
    assert m * p == r;
    assert (m * r - q) * p == 0.0 by {
      assert (m * r - q) * p == (m * p) * r - p * q;
    }
    if m * r != q {
      ProductSign(if m * r > q then m * r - q else q - m * r, p);
    }
    assert (-m) * (-m) * p == m * (m * p);
  }
}
