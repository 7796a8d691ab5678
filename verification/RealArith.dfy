/** Facts about products and quotients of reals, stated once so that no other proof multiplies variables. */
module RealArith {
  lemma MulPositive(u: real, v: real)
    requires u > 0.0 && v > 0.0
    ensures u * v > 0.0
  {
  }

  lemma MulNonNegative(u: real, v: real)
    requires u >= 0.0 && v >= 0.0
    ensures u * v >= 0.0
  {
  }

  lemma MulMonotone(u: real, v: real, w: real)
    requires u <= v && w >= 0.0
    ensures u * w <= v * w
  {
    MulNonNegative(v - u, w);
    assert (v - u) * w == v * w - u * w;
  }

  function Product(p: real, q: real): real { p * q }

  lemma ProductSign(p: real, q: real)
    requires p >= 0.0 && q >= 0.0
    ensures Product(p, q) >= 0.0
    ensures p != 0.0 && q != 0.0 ==> Product(p, q) > 0.0
    ensures p == 0.0 || q == 0.0 ==> Product(p, q) == 0.0
  {
    MulNonNegative(p, q);
    if p > 0.0 && q > 0.0 {
      MulPositive(p, q);
    }
  }

  lemma ProductAdds(u: real, v: real, w: real)
    ensures Product(u, v + w) == Product(u, v) + Product(u, w)
  {
  }

  lemma ProductSubtracts(u: real, v: real, w: real)
    ensures Product(u - v, w) == Product(u, w) - Product(v, w)
  {
  }

  lemma QuotientTimes(u: real, d: real)
    requires d != 0.0
    ensures Product(u / d, d) == u
  {
  }

  lemma SignOfProduct(p: real, q: real)
    requires q > 0.0
    ensures Product(p, q) > 0.0 <==> p > 0.0
    ensures Product(p, q) < 0.0 <==> p < 0.0
  {
    if p > 0.0 {
      MulPositive(p, q);
    } else if p < 0.0 {
      MulPositive(-p, q);
      assert (-p) * q == -(p * q);
    }
  }

  lemma ZeroProduct(p: real, q: real)
    ensures Product(p, q) == 0.0 <==> p == 0.0 || q == 0.0
  {
    if q > 0.0 {
      SignOfProduct(p, q);
    } else if q < 0.0 {
      SignOfProduct(-p, -q);
      NegatedFactors(p, q);
    }
  }

  function Square(d: real): real { Product(d, d) }

  lemma SquareSign(d: real)
    ensures Square(d) >= 0.0
    ensures Square(d) == 0.0 <==> d == 0.0
  {
    if d >= 0.0 {
      ProductSign(d, d);
    } else {
      ProductSign(-d, -d);
      NegatedFactors(d, d);
    }
  }

  lemma NegatedFactors(p: real, q: real)
    ensures Product(-p, -q) == Product(p, q)
  {
  }

  lemma StrictSquares(u: real, v: real)
    requires 0.0 <= u < v
    ensures Square(u) < Square(v)
  {
    MulPositive(v - u, v + u);
    assert (v - u) * (v + u) == v * v - u * u;
  }

  lemma StrictSquaresBelow(d: real, u: real)
    requires 0.0 <= d && u < -d
    ensures Square(d) < Square(u)
  {
    StrictSquares(d, -u);
    NegatedFactors(u, u);
  }

  lemma FactorSign(q: real, w: real)
    requires q > 0.0 && q * w >= 0.0
    ensures w >= 0.0
  {
    if w < 0.0 {
      MulPositive(q, -w);
    }
  }

  lemma RootsAgree(u: real, v: real)
    requires u >= 0.0 && v >= 0.0 && Square(u) == Square(v)
    ensures u == v
  {
    if u < v {
      StrictSquares(u, v);
    } else if v < u {
      StrictSquares(v, u);
    }
  }

  /** Division undoes multiplication. */
  lemma DivideProduct(c: real, d: real)
    requires d != 0.0
    ensures (c * d) / d == c
  {
  }

  lemma CancelFactor(k: real, r: real, d: real)
    requires d != 0.0 && k * d != 0.0
    ensures (k * r) / (k * d) == r / d
  {
    var c := r / d;
    assert c * d == r;
    assert c * (k * d) == k * (c * d);
    DivideProduct(c, k * d);
  }

  lemma DivideIsTimes(u: real, d: real)
    requires d != 0.0
    ensures u / d == u * (1.0 / d)
  {
    assert (1.0 / d) * d == 1.0;
    assert (u * (1.0 / d)) * d == u * ((1.0 / d) * d);
    DivideProduct(u * (1.0 / d), d);
  }

  lemma InversePositive(d: real)
    requires d > 0.0
    ensures 1.0 / d > 0.0
  {
    assert d * (1.0 / d) == 1.0;
    FactorSign(d, 1.0 / d);
  }

  lemma DivideMonotone(u: real, v: real, d: real)
    requires d > 0.0 && u <= v
    ensures u / d <= v / d
  {
    InversePositive(d);
    DivideIsTimes(u, d);
    DivideIsTimes(v, d);
    MulMonotone(u, v, 1.0 / d);
  }

  lemma QuotientBetween(low: real, u: real, high: real, d: real)
    requires d > 0.0 && low * d <= u <= high * d
    ensures low <= u / d <= high
  {
    var c := u / d;
    assert c * d == u;
    assert d * (c - low) == c * d - low * d;
    assert d * (high - c) == high * d - c * d;
    FactorSign(d, c - low);
    FactorSign(d, high - c);
  }

  lemma QuotientSign(r: real, p: real)
    requires p > 0.0
    ensures r > 0.0 ==> r / p > 0.0
    ensures r < 0.0 ==> r / p < 0.0
  {
    InversePositive(p);
    DivideIsTimes(r, p);
    if r > 0.0 {
      MulPositive(r, 1.0 / p);
    } else if r < 0.0 {
      MulPositive(-r, 1.0 / p);
      assert (-r) * (1.0 / p) == -(r * (1.0 / p));
    }
  }

  /** A quotient whose square is bounded lies in [-1, 1], and meets an end only when the squares agree. */
  lemma QuotientBound(u: real, d: real)
    requires d > 0.0 && Square(u) <= Square(d)
    ensures -1.0 <= u / d <= 1.0
    ensures u / d == 1.0 ==> u == d
    ensures u / d == -1.0 ==> u == -d
  {
    if u > d {
      StrictSquares(d, u);
    } else if u < -d {
      StrictSquaresBelow(d, u);
    }
    DivideMonotone(u, d, d);
    DivideMonotone(-d, u, d);
    DivideProduct(1.0, d);
    DivideProduct(-1.0, d);
    assert (u / d) * d == u;
  }
}
