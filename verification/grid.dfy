/** Gridline placement on the graphing pages (Math.jsx and MathNew.jsx):
    a power-of-ten spacing about fifty pixels wide, and the first gridline at
    or before the left (bottom) edge of the visible range. */
module GridLines {
  import opened RealArith

  /** `Math.floor(Math.log10(v))`, computed exactly: the integer k with
      10^k <= v < 10^(k+1). */
  function Log10Floor(v: real): (k: int)
    requires v > 0.0
    ensures Pow10(k) <= v < Pow10(k + 1)
    decreases if v >= 1.0 then 0 else 1, if v >= 1.0 then v.Floor else (1.0 / v).Floor
  {
    if v >= 10.0 then
      assert (v / 10.0).Floor < v.Floor by {
        assert v / 10.0 <= v - 9.0;
      }
      var k := Log10Floor(v / 10.0);
      Pow10Succ(k);
      Pow10Succ(k + 1);
      k + 1
    else if v >= 1.0 then
      Pow10Succ(0);
      0
    else
      assert v < 1.0 ==> 10.0 * v >= 1.0 || (1.0 / (10.0 * v)).Floor < (1.0 / v).Floor by {
        if 10.0 * v < 1.0 {
          assert 1.0 / (10.0 * v) == (1.0 / v) / 10.0;
          assert (1.0 / v) >= 10.0;
          assert (1.0 / v) / 10.0 <= (1.0 / v) - 9.0;
        }
      }
      var k := Log10Floor(10.0 * v);
      Pow10Succ(k - 1);
      k - 1
  }

  /** `Math.pow(10, Math.floor(Math.log10(50 / scale)))`: the largest power of
      ten not above fifty pixels' worth of graph units. */
  function GridSpacing(scale: real): (spacing: real)
    requires scale > 0.0
    ensures spacing > 0.0
    ensures spacing <= 50.0 / scale < 10.0 * spacing
    ensures exists k :: spacing == Pow10(k)
  {
    var k := Log10Floor(50.0 / scale);
    Pow10Succ(k);
    Pow10(k)
  }

  /** One grid cell is therefore more than 5 and at most 50 pixels wide. */
  lemma GridCellWidth(scale: real)
    requires scale > 0.0
    ensures 5.0 < Mul(GridSpacing(scale), scale) <= 50.0
  {
    var p := GridSpacing(scale);
    ScaledBounds(p, scale);
  }

  lemma ScaledBounds(p: real, scale: real)
    requires p > 0.0 && scale > 0.0
    requires p <= 50.0 / scale < 10.0 * p
    ensures 5.0 < Mul(p, scale) <= 50.0
  {
    var q := 50.0 / scale;
    assert q * scale == 50.0;
    MulMonotone(p, q, scale);
    MulStrict(q, 10.0 * p, scale);
    assert Mul(q, scale) == 50.0;
    assert Mul(p, scale) == p * scale;
    assert Mul(10.0 * p, scale) == 10.0 * (p * scale);
  }

  /** `Math.floor(min / spacing) * spacing`: the first gridline drawn, within
      one spacing at or below `min`. */
  function GridStart(min: real, spacing: real): (start: real)
    requires spacing > 0.0
    ensures min - spacing < start <= min
  {
    var n := Floor(min / spacing) as real;
    MultipleBelow(min, spacing, n);
    n * spacing
  }

  /** The multiple `n * spacing` for `n` the floor of `min / spacing` lies in
      (min - spacing, min]. */
  lemma MultipleBelow(min: real, spacing: real, n: real)
    requires spacing > 0.0
    requires n <= min / spacing < n + 1.0
    ensures min - spacing < n * spacing <= min
  {
    var q := min / spacing;
    assert q * spacing == min;
    MulMonotone(n, q, spacing);
    MulStrict(q - 1.0, n, spacing);
    assert Mul(q - 1.0, spacing) == min - spacing;
    assert Mul(q, spacing) == min;
    assert Mul(n, spacing) == n * spacing;
  }
}
