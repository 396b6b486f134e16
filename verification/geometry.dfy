/** The point objects of the geometry board (MathNew.jsx): snapping to the
    half-unit grid, the topmost-point hit test, dragging a point, and placing
    a new point with a click. */
module Geometry {
  import opened Wrappers
  import opened RealArith
  import opened Transcendental
  import opened Viewport
  import opened Palette

  /** The board's only object kind. `labelCode` is the UTF-16 code unit of the
      one-character label, and `colorIndex` indexes the ten-colour palette. */
  datatype GeoPoint = GeoPoint(id: int, x: real, y: real, labelCode: int, colorIndex: int, visible: bool)

  /** The hit-test radius in pixels when the caller gives none. */
  const DefaultTolerance := 10.0

  /** `r` lies on the half-unit snapping grid. */
  predicate IsHalfMultiple(r: real) {
    (2.0 * r).Floor as real == 2.0 * r
  }

  /** `Math.round(v / 0.5) * 0.5` when snapping is on, `v` otherwise.
      `Math.round` sends halves upwards, so the result is the grid value `r`
      with `r - 0.25 <= v < r + 0.25`. */
  function Snap(on: bool, v: real): (r: real)
    ensures !on ==> r == v
    ensures on ==> IsHalfMultiple(r) && r - 0.25 <= v < r + 0.25
    ensures Abs(r - v) <= 0.25
  {
    if !on then v else Floor(v / 0.5 + 0.5) as real * 0.5
  }

  /** The grid value a snapped coordinate lands on is the only one whose
      half-open window [h - 0.25, h + 0.25) holds the coordinate. */
  lemma SnapNearest(v: real, h: real)
    requires IsHalfMultiple(h)
    requires h - 0.25 <= v < h + 0.25
    ensures Snap(true, v) == h
  {
    var m := (2.0 * h).Floor;
    assert m as real <= v / 0.5 + 0.5 < m as real + 1.0;
    assert Floor(v / 0.5 + 0.5) == m;
  }

  /** Snapping a snapped value changes nothing. */
  lemma SnapIdempotent(on: bool, v: real)
    ensures Snap(on, Snap(on, v)) == Snap(on, v)
  {
    if on {
      var r := Snap(true, v);
      SnapNearest(r, r);
    }
  }

  /** The squared pixel distance between the pointer and a point's screen position. */
  function ScreenDist2(canvas: Option<Canvas>, v: View, o: GeoPoint, px: real, py: real): (d2: real)
    ensures d2 >= 0.0
  {
    var s := GraphToPixel(canvas, v, o.x, o.y);
    (s.x - px) * (s.x - px) + (s.y - py) * (s.y - py)
  }

  /** `distance(px, py, screen.x, screen.y) < tolerance` for a visible object. */
  predicate Hits(m: Fns, canvas: Option<Canvas>, v: View, o: GeoPoint, px: real, py: real, tolerance: real) {
    o.visible && m.sqrt(ScreenDist2(canvas, v, o, px, py)) < tolerance
  }

  /** The hit test over `objs[..n]`, scanning from the top (highest index) down. */
  function TopHit(m: Fns, canvas: Option<Canvas>, v: View, objs: seq<GeoPoint>, n: nat,
                  px: real, py: real, tolerance: real): (r: Option<nat>)
    requires n <= |objs|
    ensures r.Some? ==> r.value < n && Hits(m, canvas, v, objs[r.value], px, py, tolerance)
    ensures r.Some? ==> forall j :: r.value < j < n ==> !Hits(m, canvas, v, objs[j], px, py, tolerance)
    ensures r.None? <==> forall j :: 0 <= j < n ==> !Hits(m, canvas, v, objs[j], px, py, tolerance)
    decreases n
  {
    if n == 0 then None
    else if Hits(m, canvas, v, objs[n - 1], px, py, tolerance) then Some(n - 1)
    else TopHit(m, canvas, v, objs, n - 1, px, py, tolerance)
  }

  /** `getObjectAtPosition`: the index of the topmost visible point within
      `tolerance` pixels of the pointer, or `None`. */
  function ObjectAt(m: Fns, canvas: Option<Canvas>, v: View, objs: seq<GeoPoint>,
                    px: real, py: real, tolerance: real): (r: Option<nat>)
    ensures r.Some? ==> r.value < |objs| && Hits(m, canvas, v, objs[r.value], px, py, tolerance)
    ensures r.Some? ==> forall j :: r.value < j < |objs| ==> !Hits(m, canvas, v, objs[j], px, py, tolerance)
    ensures r.None? <==> forall j :: 0 <= j < |objs| ==> !Hits(m, canvas, v, objs[j], px, py, tolerance)
  {
    TopHit(m, canvas, v, objs, |objs|, px, py, tolerance)
  }

  /** With a genuine square root, "within the tolerance" is the squared
      screen distance being below the squared tolerance; a tolerance that
      is not positive hits nothing. */
  lemma HitsBySquaredDistance(m: Fns, canvas: Option<Canvas>, v: View, o: GeoPoint,
                              px: real, py: real, tolerance: real)
    requires SqrtLaw(m.sqrt)
    ensures Hits(m, canvas, v, o, px, py, tolerance) <==>
              o.visible && 0.0 < tolerance && ScreenDist2(canvas, v, o, px, py) < tolerance * tolerance
  {
    var d2 := ScreenDist2(canvas, v, o, px, py);
    if 0.0 < tolerance {
      SqrtBelow(m.sqrt, d2, tolerance);
    }
  }

  /** Dragging point `id` to the pointer: every object with that id moves to
      the snapped graph position under the pointer; nothing else changes. */
  function DragPoint(objs: seq<GeoPoint>, id: int, canvas: Option<Canvas>, v: View,
                     snapOn: bool, px: real, py: real): (r: seq<GeoPoint>)
    requires v.scale > 0.0
    ensures |r| == |objs|
    ensures forall i :: 0 <= i < |objs| && objs[i].id != id ==> r[i] == objs[i]
    ensures forall i :: 0 <= i < |objs| && objs[i].id == id ==>
      var g := PixelToGraph(canvas, v, px, py);
      && r[i].x == Snap(snapOn, g.x) && r[i].y == Snap(snapOn, g.y)
      && r[i] == objs[i].(x := r[i].x, y := r[i].y)
  {
    var g := PixelToGraph(canvas, v, px, py);
    seq(|objs|, i requires 0 <= i < |objs| =>
      if objs[i].id == id then objs[i].(x := Snap(snapOn, g.x), y := Snap(snapOn, g.y))
      else objs[i])
  }

  /** Dragging to the same pixel twice is the same as dragging once, and with
      snapping on the dragged point sits on the half-unit grid. */
  lemma DragSettles(objs: seq<GeoPoint>, id: int, canvas: Option<Canvas>, v: View,
                    snapOn: bool, px: real, py: real)
    requires v.scale > 0.0
    ensures var once := DragPoint(objs, id, canvas, v, snapOn, px, py);
            DragPoint(once, id, canvas, v, snapOn, px, py) == once
    ensures snapOn ==> forall i :: 0 <= i < |objs| && objs[i].id == id ==>
      var r := DragPoint(objs, id, canvas, v, snapOn, px, py)[i];
      IsHalfMultiple(r.x) && IsHalfMultiple(r.y)
  {
  }

  /** `String.fromCharCode(64 + id)`: the argument is reduced to a 16-bit code unit. */
  function LabelFor(id: int): (code: int)
    ensures 0 <= code < 0x1_0000
    ensures (64 + id - code) % 0x1_0000 == 0
  {
    (64 + id) % 0x1_0000
  }

  /** The first 26 ids are labelled 'A' to 'Z'. */
  lemma LabelsAreCapitals(id: int)
    requires 1 <= id <= 26
    ensures 'A' as int <= LabelFor(id) <= 'Z' as int
    ensures LabelFor(id) == 'A' as int + (id - 1)
  {
  }

  /** Number of point objects; every board object is a point. */
  function PointCount(objs: seq<GeoPoint>): nat
  {
    |objs|
  }

  /** A click in point mode: a visible point with id `id`, at the snapped graph
      position, labelled from its id, coloured by how many points exist. */
  function NewPoint(objs: seq<GeoPoint>, id: int, canvas: Option<Canvas>, v: View,
                    snapOn: bool, px: real, py: real): (p: GeoPoint)
    requires v.scale > 0.0
    ensures p.id == id && p.visible
    ensures p.labelCode == LabelFor(id)
    ensures p.colorIndex == ColorFor(PointCount(objs))
    ensures var g := PixelToGraph(canvas, v, px, py);
            p.x == Snap(snapOn, g.x) && p.y == Snap(snapOn, g.y)
  {
    var g := PixelToGraph(canvas, v, px, py);
    GeoPoint(id, Snap(snapOn, g.x), Snap(snapOn, g.y), LabelFor(id),
             ColorFor(PointCount(objs)), true)
  }
}
