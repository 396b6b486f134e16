/** The pannable, zoomable viewport shared by the two graphing pages
    (MathNew.jsx and Math.jsx): the affine maps between canvas pixels and
    graph coordinates, background panning, and the clamped zoom controls. */
module Viewport {
  import opened Wrappers
  import opened RealArith

  /** The graph point shown at the canvas centre, and pixels per graph unit. */
  datatype View = View(centerX: real, centerY: real, scale: real)

  /** The canvas element's size in pixels; `None` stands for a missing canvas. */
  datatype Canvas = Canvas(width: real, height: real)

  datatype Vec = Vec(x: real, y: real)

  /** Where a background drag started, and the view centre at that moment. */
  datatype DragStart = DragStart(px: real, py: real, centerX: real, centerY: real)

  /** The zoom bounds and the button zoom factor, which differ per page. */
  datatype ZoomLimits = ZoomLimits(minScale: real, maxScale: real, step: real)

  /** MathNew.jsx: scale in [5, 200], buttons zoom by 1.3. */
  const GeometryZoom := ZoomLimits(5.0, 200.0, 1.3)

  /** Math.jsx: scale in [1, 200], buttons zoom by 1.2. */
  const GraphZoom := ZoomLimits(1.0, 200.0, 1.2)

  /** Both pages start at, and reset to, the origin at 40 pixels per unit. */
  const InitialView := View(0.0, 0.0, 40.0)

  predicate ScaleInRange(v: View, limits: ZoomLimits) {
    limits.minScale <= v.scale <= limits.maxScale
  }

  /** Pixel to graph coordinates; y is flipped because pixel rows grow downwards.
      `pixelToGraph` returns (0, 0) when there is no canvas. */
  function PixelToGraph(canvas: Option<Canvas>, v: View, px: real, py: real): (g: Vec)
    requires v.scale > 0.0
    ensures canvas.None? ==> g == Vec(0.0, 0.0)
    ensures canvas.Some? ==>
      && (g.x - v.centerX) * v.scale == px - canvas.value.width / 2.0
      && (g.y - v.centerY) * v.scale == canvas.value.height / 2.0 - py
  {
    match canvas
    case None => Vec(0.0, 0.0)
    case Some(c) =>
      Vec((px - c.width / 2.0) / v.scale + v.centerX,
          -(py - c.height / 2.0) / v.scale + v.centerY)
  }

  /** Graph to pixel coordinates; the origin again when there is no canvas. */
  function GraphToPixel(canvas: Option<Canvas>, v: View, gx: real, gy: real): (p: Vec)
    ensures canvas.None? ==> p == Vec(0.0, 0.0)
    ensures canvas.Some? && v.scale > 0.0 ==>
      && (p.x - canvas.value.width / 2.0) / v.scale == gx - v.centerX
      && (canvas.value.height / 2.0 - p.y) / v.scale == gy - v.centerY
  {
    match canvas
    case None => Vec(0.0, 0.0)
    case Some(c) =>
      Vec((gx - v.centerX) * v.scale + c.width / 2.0,
          -(gy - v.centerY) * v.scale + c.height / 2.0)
  }

  /** Mapping a pixel to the graph and back returns the pixel. */
  lemma PixelRoundTrip(c: Canvas, v: View, px: real, py: real)
    requires v.scale > 0.0
    ensures var g := PixelToGraph(Some(c), v, px, py);
            GraphToPixel(Some(c), v, g.x, g.y) == Vec(px, py)
  {
  }

  /** Mapping a graph point to pixels and back returns the graph point. */
  lemma GraphRoundTrip(c: Canvas, v: View, gx: real, gy: real)
    requires v.scale > 0.0
    ensures var p := GraphToPixel(Some(c), v, gx, gy);
            PixelToGraph(Some(c), v, p.x, p.y) == Vec(gx, gy)
  {
  }

  /** Background drag: the centre moves against the pointer, scaled to graph
      units, relative to where the drag started. */
  function Pan(v: View, start: DragStart, px: real, py: real): (r: View)
    requires v.scale > 0.0
    ensures r.scale == v.scale
    ensures (start.centerX - r.centerX) * v.scale == px - start.px
    ensures (r.centerY - start.centerY) * v.scale == py - start.py
  {
    var dx := (px - start.px) / v.scale;
    var dy := -(py - start.py) / v.scale;
    v.(centerX := start.centerX - dx, centerY := start.centerY - dy)
  }

  /** Panning keeps the grabbed graph point under the pointer: the point that
      was under the press pixel in the view at press time is under the current
      pixel in the panned view. */
  lemma PanKeepsGrabbedPoint(c: Canvas, v: View, start: DragStart, px: real, py: real)
    requires v.scale > 0.0
    ensures PixelToGraph(Some(c), Pan(v, start, px, py), px, py)
         == PixelToGraph(Some(c), View(start.centerX, start.centerY, v.scale), start.px, start.py)
  {
  }

  /** Wheel zoom: out by 0.9 for a positive delta, in by 1.1 otherwise, clamped. */
  function Wheel(v: View, limits: ZoomLimits, deltaY: real): (r: View)
    requires limits.minScale <= limits.maxScale
    ensures ScaleInRange(r, limits)
    ensures r.centerX == v.centerX && r.centerY == v.centerY
    ensures ScaleInRange(v, limits) && v.scale > 0.0 ==>
      if deltaY > 0.0 then r.scale <= v.scale else r.scale >= v.scale
    ensures var s := v.scale * (if deltaY > 0.0 then 0.9 else 1.1);
      && (limits.minScale <= s <= limits.maxScale ==> r.scale == s)
      && (s < limits.minScale ==> r.scale == limits.minScale)
      && (s > limits.maxScale ==> r.scale == limits.maxScale)
  {
    var factor := if deltaY > 0.0 then 0.9 else 1.1;
    v.(scale := Clamp(v.scale * factor, limits.minScale, limits.maxScale))
  }

  /** The zoom-in button: multiply by the page's step, capped at the maximum. */
  function ZoomIn(v: View, limits: ZoomLimits): (r: View)
    requires limits.step > 1.0
    ensures r.centerX == v.centerX && r.centerY == v.centerY
    ensures r.scale <= limits.maxScale
    ensures ScaleInRange(v, limits) && limits.minScale > 0.0 ==>
      ScaleInRange(r, limits) && r.scale >= v.scale
    ensures v.scale * limits.step <= limits.maxScale ==> r.scale == v.scale * limits.step
    ensures v.scale * limits.step > limits.maxScale ==> r.scale == limits.maxScale
  {
    var grown := v.scale * limits.step;
    GrowByFactor(v.scale, limits.step);
    var capped := Min(limits.maxScale, grown);
    assert ScaleInRange(v, limits) && limits.minScale > 0.0 ==> capped >= v.scale;
    v.(scale := capped)
  }

  /** The zoom-out button: divide by the page's step, floored at the minimum. */
  function ZoomOut(v: View, limits: ZoomLimits): (r: View)
    requires limits.step > 1.0
    ensures r.centerX == v.centerX && r.centerY == v.centerY
    ensures r.scale >= limits.minScale
    ensures ScaleInRange(v, limits) && limits.minScale > 0.0 ==>
      ScaleInRange(r, limits) && r.scale <= v.scale
    ensures v.scale / limits.step >= limits.minScale ==> r.scale == v.scale / limits.step
    ensures v.scale / limits.step < limits.minScale ==> r.scale == limits.minScale
  {
    ShrinkByFactor(v.scale, limits.step);
    v.(scale := Max(limits.minScale, v.scale / limits.step))
  }

  /** The reset button: both pages return to the origin at scale 40. */
  function ResetView(): (r: View)
    ensures r.centerX == 0.0 && r.centerY == 0.0 && r.scale == 40.0
    ensures r == InitialView
    ensures ScaleInRange(r, GeometryZoom) && ScaleInRange(r, GraphZoom)
  {
    InitialView
  }

  /** Zooming out undoes a zoom in that the maximum did not cap. */
  lemma ZoomOutUndoesZoomIn(v: View, limits: ZoomLimits)
    requires limits.step > 1.0 && limits.minScale <= v.scale
    requires v.scale * limits.step <= limits.maxScale
    ensures ZoomOut(ZoomIn(v, limits), limits) == v
  {
    var grown := v.scale * limits.step;
    assert grown / limits.step == v.scale;
  }

  /** Zooming in undoes a zoom out that the minimum did not floor. */
  lemma ZoomInUndoesZoomOut(v: View, limits: ZoomLimits)
    requires limits.step > 1.0 && v.scale <= limits.maxScale
    requires v.scale / limits.step >= limits.minScale
    ensures ZoomIn(ZoomOut(v, limits), limits) == v
  {
    var shrunk := v.scale / limits.step;
    assert shrunk * limits.step == v.scale;
  }

  /** Every way the user can change the view. */
  datatype ViewOp =
    | WheelOp(deltaY: real)
    | ZoomInOp
    | ZoomOutOp
    | ResetOp
    | PanOp(start: DragStart, px: real, py: real)

  function Apply(v: View, limits: ZoomLimits, op: ViewOp): View
    requires limits.step > 1.0 && limits.minScale <= limits.maxScale
    requires v.scale > 0.0
  {
    match op
    case WheelOp(d) => Wheel(v, limits, d)
    case ZoomInOp => ZoomIn(v, limits)
    case ZoomOutOp => ZoomOut(v, limits)
    case ResetOp => ResetView()
    case PanOp(s, px, py) => Pan(v, s, px, py)
  }

  /** A session of view operations, applied left to right. The scale stays
      positive throughout because every step keeps it within the limits. */
  function ApplyAll(v: View, limits: ZoomLimits, ops: seq<ViewOp>): (r: View)
    requires limits == GeometryZoom || limits == GraphZoom
    requires ScaleInRange(v, limits)
    ensures ScaleInRange(r, limits)
    decreases |ops|
  {
    if |ops| == 0 then v
    else ApplyAll(Apply(v, limits, ops[0]), limits, ops[1..])
  }

  /** Starting from the initial view, no sequence of wheel, button, reset and
      pan operations takes either page's scale outside its bounds. */
  lemma {:induction false} SessionKeepsScale(limits: ZoomLimits, ops: seq<ViewOp>)
    requires limits == GeometryZoom || limits == GraphZoom
    ensures ScaleInRange(ApplyAll(InitialView, limits, ops), limits)
    ensures ApplyAll(InitialView, limits, ops).scale > 0.0
  {
  }
}
