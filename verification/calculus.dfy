/** The graphing page's numerical calculus (Math.jsx): the central-difference
    derivative and the sign-change scan for local extrema. The expression
    evaluator is an abstract function answering `None` where the expression
    has no finite value. */
module Calculus {
  import opened Wrappers
  import opened Viewport
  import opened RealArith

  /** The difference step `h`. */
  const H := 0.0001

  /** The number of intervals the visible x-range is cut into. */
  const Samples := 500

  /** `(f(x + h) - f(x - h)) / (2h)`, or `None` if either value is missing. */
  function Derivative(f: real -> Option<real>, x: real): (d: Option<real>)
    ensures d.None? <==> f(x - H).None? || f(x + H).None?
    ensures d.Some? ==> d.value * (2.0 * H) == f(x + H).value - f(x - H).value
  {
    match (f(x - H), f(x + H))
    case (Some(y1), Some(y2)) => Some((y2 - y1) / (2.0 * H))
    case _ => None
  }

  /** The quadratic `a·t² + b·t + c`. */
  function Quad(a: real, b: real, c: real, t: real): real {
    a * t * t + b * t + c
  }

  /** The central difference is exact on quadratics: it returns `2ax + b`. */
  lemma DerivativeOfQuadratic(f: real -> Option<real>, a: real, b: real, c: real, x: real)
    requires forall t :: f(t) == Some(Quad(a, b, c, t))
    ensures Derivative(f, x) == Some(2.0 * a * x + b)
  {
    var lo, hi := x - H, x + H;
    assert f(lo) == Some(Quad(a, b, c, lo));
    assert f(hi) == Some(Quad(a, b, c, hi));
    QuadDifference(a, b, c, x);
    assert Derivative(f, x) == Some((Quad(a, b, c, hi) - Quad(a, b, c, lo)) / (2.0 * H));
  }

  /** The algebra behind `DerivativeOfQuadratic`. */
  lemma QuadDifference(a: real, b: real, c: real, x: real)
    ensures (Quad(a, b, c, x + H) - Quad(a, b, c, x - H)) / (2.0 * H) == 2.0 * a * x + b
  {
    var lo, hi := x - H, x + H;
    assert hi * hi - lo * lo == 4.0 * H * x;
    assert a * hi * hi - a * lo * lo == a * (hi * hi - lo * lo);
    var diff := Quad(a, b, c, hi) - Quad(a, b, c, lo);
    assert diff == a * (4.0 * H * x) + 2.0 * H * b;
    assert diff == (2.0 * H) * (2.0 * a * x + b);
  }

  datatype Kind = Max | Min

  datatype Critical = Critical(x: real, y: real, kind: Kind)

  /** The `k`-th sample, `minX + k * step`. */
  function SampleX(minX: real, step: real, k: int): real {
    minX + k as real * step
  }

  /** The loop `for (x = minX + step; x <= maxX; x += step)` with
      `maxX = minX + 500 * step` visits exactly the samples k = 1..500. */
  lemma LoopVisitsSamples(minX: real, step: real, k: int)
    requires step > 0.0
    ensures SampleX(minX, step, k) <= minX + Samples as real * step <==> k <= Samples
  {
    var n := Samples as real;
    if k <= Samples {
      MulMonotone(k as real, n, step);
    } else {
      MulStrict(n, k as real, step);
    }
    assert Mul(k as real, step) == k as real * step;
    assert Mul(n, step) == n * step;
  }

  /** What the scan emits at sample `k` (1 <= k <= 500): a point exactly when
      the derivatives at samples k-1 and k both exist with strictly opposite
      signs and f has a value at sample k; a maximum for + to -, else a minimum. */
  function CriticalAt(f: real -> Option<real>, minX: real, step: real, k: int): (r: Option<Critical>)
    ensures r.Some? <==>
      && Derivative(f, SampleX(minX, step, k - 1)).Some?
      && Derivative(f, SampleX(minX, step, k)).Some?
      && f(SampleX(minX, step, k)).Some?
      && var p, d := Derivative(f, SampleX(minX, step, k - 1)).value,
                     Derivative(f, SampleX(minX, step, k)).value;
         (p > 0.0 && d < 0.0) || (p < 0.0 && d > 0.0)
    ensures r.Some? ==>
      && r.value.x == SampleX(minX, step, k)
      && Some(r.value.y) == f(SampleX(minX, step, k))
      && (r.value.kind == Max <==> Derivative(f, SampleX(minX, step, k - 1)).value > 0.0)
  {
    var prev := Derivative(f, SampleX(minX, step, k - 1));
    var cur := Derivative(f, SampleX(minX, step, k));
    var x := SampleX(minX, step, k);
    if prev.Some? && cur.Some? then
      if (prev.value > 0.0 && cur.value < 0.0) || (prev.value < 0.0 && cur.value > 0.0) then
        match f(x)
        case Some(y) => Some(Critical(x, y, if prev.value > 0.0 then Max else Min))
        case None => None
      else None
    else None
  }

  /** A zero derivative at sample k never makes sample k or sample k+1 critical. */
  lemma ZeroDerivativeNeverTriggers(f: real -> Option<real>, minX: real, step: real, k: int)
    requires Derivative(f, SampleX(minX, step, k)) == Some(0.0)
    ensures CriticalAt(f, minX, step, k).None?
    ensures CriticalAt(f, minX, step, k + 1).None?
  {
    assert SampleX(minX, step, k + 1 - 1) == SampleX(minX, step, k);
  }

  /** The points the loop pushes for samples `k..Samples`, in order. */
  function ScanFrom(f: real -> Option<real>, minX: real, step: real, k: nat): (r: seq<Critical>)
    requires 1 <= k
    ensures |r| <= Samples + 1 - k || (k > Samples && r == [])
    ensures step > 0.0 ==> forall i :: 0 < i < |r| ==> r[i - 1].x < r[i].x
    ensures step > 0.0 ==> forall i :: 0 <= i < |r| ==> SampleX(minX, step, k) <= r[i].x
    decreases Samples + 1 - k
  {
    if k > Samples then []
    else
      var rest := ScanFrom(f, minX, step, k + 1);
      assert step > 0.0 ==> SampleX(minX, step, k) < SampleX(minX, step, k + 1);
      match CriticalAt(f, minX, step, k)
      case None => rest
      case Some(c) => [c] + rest
  }

  /** The scan from sample `k` emits exactly the critical samples from `k`
      to the last one. */
  lemma {:induction false} ScanMembers(f: real -> Option<real>, minX: real, step: real, k: nat)
    requires 1 <= k
    ensures forall c :: c in ScanFrom(f, minX, step, k) <==>
      exists j :: k <= j <= Samples && CriticalAt(f, minX, step, j) == Some(c)
    decreases Samples + 1 - k
  {
    if k <= Samples {
      ScanMembers(f, minX, step, k + 1);
      var rest, head := ScanFrom(f, minX, step, k + 1), CriticalAt(f, minX, step, k);
      assert ScanFrom(f, minX, step, k) == if head.Some? then [head.value] + rest else rest;
      forall c
        ensures c in ScanFrom(f, minX, step, k) <==>
          exists j :: k <= j <= Samples && CriticalAt(f, minX, step, j) == Some(c)
      {
        if c in rest {
          var j :| k + 1 <= j <= Samples && CriticalAt(f, minX, step, j) == Some(c);
        } else if head == Some(c) {
          assert k <= k <= Samples && CriticalAt(f, minX, step, k) == Some(c);
        }
      }
    }
  }

  /** The graph x at the canvas's left edge. */
  function LeftX(c: Canvas, v: View): real
    requires v.scale > 0.0
  {
    PixelToGraph(Some(c), v, 0.0, 0.0).x
  }

  /** One 500th of the visible x-range; positive for a canvas of positive width. */
  function SampleStep(c: Canvas, v: View): (step: real)
    requires v.scale > 0.0
    ensures c.width > 0.0 ==> step > 0.0
  {
    var maxX := PixelToGraph(Some(c), v, c.width, 0.0).x;
    assert maxX - LeftX(c, v) == c.width / v.scale;
    (maxX - LeftX(c, v)) / Samples as real
  }

  /** `findCriticalPoints`: no points without a canvas; otherwise the scan of
      the 500 samples across the visible x-range, left to right. */
  function CriticalPoints(f: real -> Option<real>, canvas: Option<Canvas>, v: View): (r: seq<Critical>)
    requires v.scale > 0.0
    requires canvas.Some? ==> canvas.value.width > 0.0
    ensures canvas.None? ==> r == []
    ensures canvas.Some? ==>
      var minX, step := LeftX(canvas.value, v), SampleStep(canvas.value, v);
      && (forall c :: c in r <==> exists k :: 1 <= k <= Samples && CriticalAt(f, minX, step, k) == Some(c))
      && (forall i :: 0 < i < |r| ==> r[i - 1].x < r[i].x)
  {
    match canvas
    case None => []
    case Some(c) =>
      ScanMembers(f, LeftX(c, v), SampleStep(c, v), 1);
      ScanFrom(f, LeftX(c, v), SampleStep(c, v), 1)
  }
}
