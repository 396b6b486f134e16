/** The magnetic field page (MagneticField.jsx): the strength heuristics used
    to draw the field of a straight wire, a current loop and a solenoid, and
    the compass direction `getFieldAt` reports. These are the page's own
    rules of thumb, not Biot–Savart. */
module Magnetic {
  import opened RealArith
  import opened Transcendental

  /** Radius of the drawn current loop, in pixels. */
  const LoopRadius := 120.0

  /** Half the solenoid's drawn width (300 px), and a quarter of its drawn
      height (200 px): the band around the axis that counts as inside. */
  const SolenoidHalfWidth := 150.0
  const SolenoidHalfBand := 50.0

  /** `calculateStraightWireField`: nothing within one pixel of the wire,
      otherwise 0.5·|I| / |d|. */
  function WireStrength(current: real, distance: real): (b: real)
    ensures 0.0 <= b <= 0.5 * Abs(current)
    ensures Abs(distance) < 1.0 ==> b == 0.0
    ensures Abs(distance) >= 1.0 ==> b * Abs(distance) == 0.5 * Abs(current)
  {
    var d := Abs(distance);
    if d < 1.0 then 0.0
    else
      var b := Abs(current) * 0.5 / d;
      ShrinkByFactor(Abs(current) * 0.5, d);
      b
  }

  /** The wire's strength depends on neither the sign of the current nor the
      side of the wire, and fades with distance from one pixel outward. */
  lemma WireSymmetricAndFading(current: real, d1: real, d2: real)
    ensures WireStrength(-current, d1) == WireStrength(current, d1)
    ensures WireStrength(current, -d1) == WireStrength(current, d1)
    ensures 1.0 <= Abs(d1) <= Abs(d2) ==> WireStrength(current, d2) <= WireStrength(current, d1)
  {
    if 1.0 <= Abs(d1) <= Abs(d2) {
      var b1, b2 := WireStrength(current, d1), WireStrength(current, d2);
      assert Mul(b1, Abs(d1)) == Mul(b2, Abs(d2));
      MulMonotone(Abs(d1), Abs(d2), b2);
      assert Mul(Abs(d1), b2) == Mul(b2, Abs(d1));
      assert Mul(Abs(d2), b2) == Mul(b2, Abs(d2));
      MulLess(b1, b2, Abs(d1));
    }
  }

  /** `calculateLoopField`: nothing within one pixel of the centre, otherwise
      0.3·|I|·R / (r + R). */
  function LoopStrength(current: real, r: real): (b: real)
    ensures 0.0 <= b <= 0.3 * Abs(current)
    ensures r < 1.0 ==> b == 0.0
    ensures r >= 1.0 ==> b * (r + LoopRadius) == 0.3 * Abs(current) * LoopRadius
  {
    if r < 1.0 then 0.0
    else
      var top := Abs(current) * 0.3;
      var ratio := LoopRadius / (r + LoopRadius);
      assert 0.0 < ratio < 1.0;
      MulMonotone(ratio, 1.0, top);
      assert Mul(ratio, top) == top * ratio && Mul(1.0, top) == top;
      top * ratio
  }

  /** Away from the centre the loop's strength stays strictly below 0.3·|I|
      and falls strictly as r grows, whenever current flows. */
  lemma LoopFades(current: real, r1: real, r2: real)
    requires current != 0.0 && 1.0 <= r1 < r2
    ensures LoopStrength(current, r1) < 0.3 * Abs(current)
    ensures LoopStrength(current, r2) < LoopStrength(current, r1)
  {
    var b1, b2 := LoopStrength(current, r1), LoopStrength(current, r2);
    var top := 0.3 * Abs(current) * LoopRadius;
    assert Mul(b1, r1 + LoopRadius) == top;
    assert Mul(b2, r2 + LoopRadius) == top;
    assert b2 > 0.0;
    MulStrict(r1 + LoopRadius, r2 + LoopRadius, b2);
    assert Mul(r1 + LoopRadius, b2) == Mul(b2, r1 + LoopRadius);
    assert Mul(r2 + LoopRadius, b2) == Mul(b2, r2 + LoopRadius);
    MulLess(b2, b1, r1 + LoopRadius);
    MulStrict(LoopRadius, r1 + LoopRadius, 0.3 * Abs(current));
    assert Mul(LoopRadius, 0.3 * Abs(current)) == top;
    assert Mul(r1 + LoopRadius, 0.3 * Abs(current)) == Mul(0.3 * Abs(current), r1 + LoopRadius);
    MulLess(b1, 0.3 * Abs(current), r1 + LoopRadius);
  }

  /** The solenoid's inside: strictly within 150 px of the centre across and
      50 px of the axis up and down. */
  predicate InsideSolenoid(width: real, height: real, x: real, y: real) {
    && width / 2.0 - SolenoidHalfWidth < x < width / 2.0 + SolenoidHalfWidth
    && Abs(y - height / 2.0) < SolenoidHalfBand
  }

  /** The solenoid's strength rule: 0.3·|I| inside, 0.1·|I| outside. */
  function SolenoidStrength(current: real, width: real, height: real, x: real, y: real): (b: real)
    ensures b >= 0.0
    ensures b == 0.3 * Abs(current) || b == 0.1 * Abs(current)
  {
    if InsideSolenoid(width, height, x, y) then Abs(current) * 0.3 else Abs(current) * 0.1
  }

  /** The field inside the solenoid is three times the field outside, so never weaker. */
  lemma SolenoidStrongerInside(current: real, width: real, height: real,
                               xi: real, yi: real, xo: real, yo: real)
    requires InsideSolenoid(width, height, xi, yi)
    requires !InsideSolenoid(width, height, xo, yo)
    ensures SolenoidStrength(current, width, height, xi, yi)
         == 3.0 * SolenoidStrength(current, width, height, xo, yo)
    ensures SolenoidStrength(current, width, height, xi, yi)
         >= SolenoidStrength(current, width, height, xo, yo)
  {
  }

  /** `drawFieldPoint`'s normalised strength, `Math.min(strength, 1)`. */
  function Drawn(strength: real): (s: real)
    ensures s <= 1.0 && s <= strength
    ensures strength <= 1.0 ==> s == strength
  {
    Min(strength, 1.0)
  }

  /** "Turn Off Current" sets the current to 0, after which every field point
      of every configuration is drawn with zero strength. */
  lemma CurrentOffDrawsNothing(d: real, r: real, width: real, height: real, x: real, y: real)
    ensures Drawn(WireStrength(0.0, d)) == 0.0
    ensures Drawn(LoopStrength(0.0, r)) == 0.0
    ensures Drawn(SolenoidStrength(0.0, width, height, x, y)) == 0.0
  {
  }

  /** The straight wire's direction sign: +1 above the wire's far side when the
      current is positive, reversed otherwise, so no current counts as negative. */
  function WireDirection(current: real, y: real, wireY: real): (dir: real)
    ensures dir == 1.0 || dir == -1.0
    ensures dir == 1.0 <==> (current > 0.0 <==> y > wireY)
  {
    if current > 0.0 then (if y > wireY then 1.0 else -1.0)
    else (if y > wireY then -1.0 else 1.0)
  }

  /** Zero current gives the same directions as any negative current, and
      reversing a non-zero current reverses every direction. */
  lemma ZeroCurrentActsNegative(y: real, wireY: real, current: real)
    ensures current < 0.0 ==> WireDirection(0.0, y, wireY) == WireDirection(current, y, wireY)
    ensures current != 0.0 ==> WireDirection(-current, y, wireY) == -WireDirection(current, y, wireY)
  {
  }

  datatype WireType = Straight | Loop | Solenoid

  datatype Vec = Vec(x: real, y: real)

  /** The compass needle's reference point: `getFieldAt` fixes the wire at
      y = 300 and the loop's centre at (400, 300), whatever the canvas size. */
  const CompassWireY := 300.0
  const CompassCenterX := 400.0
  const CompassCenterY := 300.0

  /** The sign `getFieldAt` gives loop and solenoid fields: +1 only for positive current. */
  function Sign(current: real): (s: real)
    ensures s == 1.0 || s == -1.0
    ensures s == 1.0 <==> current > 0.0
  {
    if current > 0.0 then 1.0 else -1.0
  }

  /** The loop's compass direction at offset (dx, dy) from its centre:
      the unit vector at angle `atan2(dy, dx)` turned a quarter turn, then
      signed by the current. */
  function LoopCompass(m: Fns, current: real, dx: real, dy: real): (v: Vec) {
    var a := m.atan2(dy, dx);
    Vec(-m.sin(a) * Sign(current), m.cos(a) * Sign(current))
  }

  /** `getFieldAt`: the unit direction a compass at (x, y) points along. */
  function FieldAt(m: Fns, wire: WireType, current: real, x: real, y: real): (v: Vec)
    ensures wire == Straight ==>
      v == Vec(WireDirection(current, y, CompassWireY), 0.0)
    ensures wire == Loop ==> v == LoopCompass(m, current, x - CompassCenterX, y - CompassCenterY)
    ensures wire == Solenoid ==> v == Vec(0.0, Sign(current))
  {
    match wire
    case Straight => Vec(WireDirection(current, y, CompassWireY), 0.0)
    case Loop => LoopCompass(m, current, x - CompassCenterX, y - CompassCenterY)
    case Solenoid => Vec(0.0, Sign(current))
  }

  /** Every compass direction is a unit vector. */
  lemma CompassIsUnit(m: Fns, wire: WireType, current: real, x: real, y: real)
    requires TrigLaw(m)
    ensures var v := FieldAt(m, wire, current, x, y);
            v.x * v.x + v.y * v.y == 1.0
  {
    if wire == Loop {
      var a := m.atan2(y - CompassCenterY, x - CompassCenterX);
      var dir := Sign(current);
      var s, c := m.sin(a), m.cos(a);
      assert s * s + c * c == 1.0;
      assert (-s * dir) * (-s * dir) == s * s * (dir * dir);
      assert (c * dir) * (c * dir) == c * c * (dir * dir);
    }
  }

  /** Around the loop the compass lies along the circle through it: it is
      perpendicular to the offset from the loop's centre, and a quarter turn
      from the outward direction, counter-clockwise in the page's coordinates
      for positive current. */
  lemma LoopCompassIsTangent(m: Fns, current: real, dx: real, dy: real)
    requires Atan2Law(m)
    requires dx != 0.0 || dy != 0.0
    ensures var v := LoopCompass(m, current, dx, dy);
            v.x * dx + v.y * dy == 0.0
    ensures var v := LoopCompass(m, current, dx, dy);
            m.sqrt(dx * dx + dy * dy) * v.y * Sign(current) == dx
    ensures var v := LoopCompass(m, current, dx, dy);
            m.sqrt(dx * dx + dy * dy) * v.x * Sign(current) == -dy
  {
    var a := m.atan2(dy, dx);
    var r := m.sqrt(dx * dx + dy * dy);
    var s, c, dir := m.sin(a), m.cos(a), Sign(current);
    assert r * c == dx && r * s == dy;
    var v := LoopCompass(m, current, dx, dy);
    assert v == Vec(-s * dir, c * dir);
    assert v.x * (r * c) + v.y * (r * s) == r * dir * (c * s - s * c);
    assert dir * dir == 1.0;
    assert r * (c * dir) * dir == r * c * (dir * dir);
    assert r * (-s * dir) * dir == -(r * s) * (dir * dir);
  }
}
