/** Exact real arithmetic helpers standing in for `Math.abs`, `Math.min`,
    `Math.max`, `Math.floor` and `Math.pow(10, k)`. */
module RealArith {

  function Abs(x: real): (r: real)
    ensures r >= 0.0
    ensures r == x || r == -x
  {
    if x < 0.0 then -x else x
  }

  function Min(a: real, b: real): (r: real)
    ensures r <= a && r <= b
    ensures r == a || r == b
  {
    if a <= b then a else b
  }

  function Max(a: real, b: real): (r: real)
    ensures r >= a && r >= b
    ensures r == a || r == b
  {
    if a >= b then a else b
  }

  /** `Math.max(lo, Math.min(hi, v))`, the clamp idiom every page uses. */
  function Clamp(v: real, lo: real, hi: real): (r: real)
    requires lo <= hi
    ensures lo <= r <= hi
    ensures lo <= v <= hi ==> r == v
    ensures v < lo ==> r == lo
    ensures v > hi ==> r == hi
  {
    Max(lo, Min(hi, v))
  }

  /** `Math.floor(x)`: the greatest integer not above `x`. */
  function Floor(x: real): (k: int)
    ensures k as real <= x < k as real + 1.0
  {
    x.Floor
  }

  /** Ten to an integer power, exactly. */
  function Pow10(k: int): (r: real)
    ensures r > 0.0
    decreases if k < 0 then -k else k
  {
    if k == 0 then 1.0
    else if k > 0 then 10.0 * Pow10(k - 1)
    else Pow10(k + 1) / 10.0
  }

  lemma Pow10Succ(k: int)
    ensures Pow10(k + 1) == 10.0 * Pow10(k)
    decreases if k < 0 then -k else k
  {
    if k < -1 {
      Pow10Succ(k + 1);
    }
  }

  /** Multiplying a non-negative value by a factor of at least one does not shrink it. */
  lemma GrowByFactor(s: real, k: real)
    requires 1.0 <= k
    ensures 0.0 <= s ==> s <= s * k
  {
    if 0.0 <= s {
      var d := s * (k - 1.0);
      assert d >= 0.0;
      assert s * k == s + d;
    }
  }

  /** Dividing a non-negative value by a factor of at least one does not grow it. */
  lemma ShrinkByFactor(s: real, k: real)
    requires 1.0 <= k
    ensures 0.0 <= s ==> s / k <= s
  {
    if 0.0 <= s {
      var q := s / k;
      assert q * k == s;
      GrowByFactor(q, k);
    }
  }


  /** A named product. The solver compares two named products by the linear
      facts stated about them, which it does far more reliably than two raw
      products with a strict inequality between them. */
  function Mul(a: real, b: real): real
  {
    a * b
  }

  lemma MulMonotone(a: real, b: real, c: real)
    requires a <= b && 0.0 <= c
    ensures Mul(a, c) <= Mul(b, c)
  {
  }

  lemma MulStrict(a: real, b: real, c: real)
    requires a < b && 0.0 < c
    ensures Mul(a, c) < Mul(b, c)
  {
  }

  /** Multiplying by a positive factor keeps strict order, in both directions. */
  lemma MulLess(a: real, b: real, c: real)
    requires 0.0 < c
    ensures a < b <==> Mul(a, c) < Mul(b, c)
  {
    if a < b {
      MulStrict(a, b, c);
    } else {
      MulMonotone(b, a, c);
    }
  }

  /** Negation passes through a quotient. */
  lemma NegOver(a: real, d: real)
    requires d != 0.0
    ensures (-a) / d == -(a / d)
  {
    assert ((-a) / d) * d == -a;
    assert (-(a / d)) * d == -a;
  }
}
