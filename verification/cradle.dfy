/** Newton's cradle (NewtonsCradle.jsx): pendulums on a row of pivots. One
    frame swings every ball by a semi-implicit Euler step, then sweeps the
    neighbouring pairs left to right, resolving each touching, approaching
    pair either by handing the velocity down a resting run or by an elastic
    collision. Only angles and angular velocities ever change. */
module Cradle {
  import opened RealArith
  import opened Transcendental

  const BallRadius := 25.0
  const BallMass := 10.0
  const StringLength := 200.0
  /** Pivot spacing: one diameter plus a 2 px gap. */
  const Spacing := 52.0
  const Dt := 0.016
  /** Below this, an angle or a linear velocity counts as zero. */
  const Threshold := 0.01

  datatype Ball = Ball(angle: real, omega: real, x: real, mass: real, radius: real, length: real)

  /** Masses and string lengths are positive, as every ball the page creates has. */
  predicate WellFormed(bs: seq<Ball>) {
    forall i :: 0 <= i < |bs| ==> bs[i].mass > 0.0 && bs[i].length > 0.0
  }

  /** Only angles and angular velocities differ. */
  predicate SameRig(a: seq<Ball>, b: seq<Ball>) {
    && |a| == |b|
    && forall i :: 0 <= i < |a| ==>
         a[i].x == b[i].x && a[i].mass == b[i].mass && a[i].radius == b[i].radius && a[i].length == b[i].length
  }

  lemma SameRigKeepsWellFormed(a: seq<Ball>, b: seq<Ball>)
    requires SameRig(a, b) && WellFormed(a)
    ensures WellFormed(b)
  {
  }

  /** `initializeBalls`: `n` balls at rest, the first `pulled` of them raised
      to `pullAngle` degrees, pivots 52 px apart and centred on the canvas. */
  function InitBalls(m: Fns, width: real, n: nat, pulled: int, pullAngle: real): (bs: seq<Ball>)
    ensures |bs| == n && WellFormed(bs)
    ensures forall i :: 0 <= i < n ==>
      && bs[i].omega == 0.0
      && bs[i].angle == (if i < pulled then pullAngle * Pi / 180.0 else 0.0)
      && bs[i].mass == BallMass && bs[i].radius == BallRadius && bs[i].length == StringLength
    ensures forall i :: 0 < i < n ==> bs[i].x - bs[i - 1].x == Spacing
    ensures n > 0 ==> bs[0].x + bs[n - 1].x == width
  {
    var startX := width / 2.0 - (n as real - 1.0) * Spacing / 2.0;
    seq(n, i requires 0 <= i < n =>
      Ball(if i < pulled then pullAngle * Pi / 180.0 else 0.0, 0.0,
           startX + i as real * Spacing, BallMass, BallRadius, StringLength))
  }

  // ------------------------------------------------------------------- swing

  /** One semi-implicit Euler step of one pendulum: the angular velocity is
      updated first, and the angle advances by the new one. */
  function Swing(m: Fns, b: Ball, g: real, damping: real): (r: Ball)
    requires b.length > 0.0
    ensures r == b.(angle := r.angle, omega := r.omega)
    ensures r.omega - b.omega == (-(g / b.length) * m.sin(b.angle) - damping * b.omega) * Dt
    ensures r.angle - b.angle == r.omega * Dt
  {
    var accel := -(g / b.length) * m.sin(b.angle) - damping * b.omega;
    var omega := b.omega + accel * Dt;
    b.(omega := omega, angle := b.angle + omega * Dt)
  }

  /** A ball hanging still stays still. */
  lemma HangingStaysStill(m: Fns, b: Ball, g: real, damping: real)
    requires TrigLaw(m) && b.length > 0.0
    requires b.angle == 0.0 && b.omega == 0.0
    ensures Swing(m, b, g, damping) == b
  {
  }

  /** Without gravity or damping a ball coasts: its angular velocity is kept. */
  lemma CoastsFreely(m: Fns, b: Ball)
    requires b.length > 0.0
    ensures Swing(m, b, 0.0, 0.0).omega == b.omega
    ensures Swing(m, b, 0.0, 0.0).angle == b.angle + b.omega * Dt
  {
  }

  /** Every ball swings before any pair is looked at. */
  function SwingAll(m: Fns, bs: seq<Ball>, g: real, damping: real): (r: seq<Ball>)
    requires WellFormed(bs)
    ensures SameRig(bs, r)
    ensures forall i :: 0 <= i < |bs| ==> r[i] == Swing(m, bs[i], g, damping)
  {
    seq(|bs|, i requires 0 <= i < |bs| => Swing(m, bs[i], g, damping))
  }

  // ---------------------------------------------------------------- collision

  /** The ball's linear speed along its arc. */
  function Velocity(b: Ball): real {
    b.omega * b.length
  }

  /** Angle and linear velocity both within the threshold of zero. */
  predicate AtRest(b: Ball) {
    Abs(b.angle) < Threshold && Abs(Velocity(b)) < Threshold
  }

  /** The horizontal position of the bob. */
  function BobX(m: Fns, b: Ball): real {
    b.x + b.length * m.sin(b.angle)
  }

  /** The bobs are within a 2 px gap of touching. */
  predicate Touching(m: Fns, b1: Ball, b2: Ball) {
    Abs(BobX(m, b2) - BobX(m, b1)) <= b1.radius + b2.radius + 2.0
  }

  /** The left ball moves right faster and is further right in angle, or the
      mirror image. */
  predicate Approaching(b1: Ball, b2: Ball) {
    var rel := Velocity(b1) - Velocity(b2);
    (rel > Threshold && b1.angle > b2.angle) || (rel < -Threshold && b1.angle < b2.angle)
  }

  /** The index the transfer lands on: scanning from `j`, the first ball not
      at rest, or the last ball if the scan reaches it. */
  function LastMoving(bs: seq<Ball>, j: nat): (k: nat)
    requires j < |bs|
    ensures j <= k < |bs|
    ensures forall t :: j <= t < k ==> AtRest(bs[t])
    ensures k < |bs| - 1 ==> !AtRest(bs[k])
    decreases |bs| - j
  {
    if j < |bs| - 1 && AtRest(bs[j]) then LastMoving(bs, j + 1) else j
  }

  /** The transfer branch for pair `(i, i + 1)`: ball `k` takes ball `i`'s
      angular velocity, ball `i` stops at the bottom, and every ball strictly
      between them is set to rest; `k` keeps its angle. */
  function Transfer(bs: seq<Ball>, i: nat): (r: seq<Ball>)
    requires i + 1 < |bs|
    ensures SameRig(bs, r)
    ensures var k := LastMoving(bs, i + 1);
      && r[k] == bs[k].(omega := bs[i].omega)
      && r[i] == bs[i].(angle := 0.0, omega := 0.0)
      && (forall j :: i < j < k ==> r[j] == bs[j].(angle := 0.0, omega := 0.0))
      && (forall j :: 0 <= j < |bs| && (j < i || j > k) ==> r[j] == bs[j])
  {
    var k := LastMoving(bs, i + 1);
    seq(|bs|, j requires 0 <= j < |bs| =>
      if j == k then bs[k].(omega := bs[i].omega)
      else if i <= j < k then bs[j].(angle := 0.0, omega := 0.0)
      else bs[j])
  }

  /** The elastic collision's final linear velocities. */
  function ElasticVelocities(m1: real, v1: real, m2: real, v2: real): (r: (real, real))
    requires m1 + m2 > 0.0
  {
    (((m1 - m2) * v1 + 2.0 * m2 * v2) / (m1 + m2), ((m2 - m1) * v2 + 2.0 * m1 * v1) / (m1 + m2))
  }

  /** The elastic collision conserves momentum and kinetic energy. */
  lemma ElasticConserves(m1: real, v1: real, m2: real, v2: real)
    requires m1 > 0.0 && m2 > 0.0
    ensures var (w1, w2) := ElasticVelocities(m1, v1, m2, v2);
      && m1 * w1 + m2 * w2 == m1 * v1 + m2 * v2
      && m1 * w1 * w1 + m2 * w2 * w2 == m1 * v1 * v1 + m2 * v2 * v2
  {
    var total := m1 + m2;
    var t := (v1 - v2) / total;
    var (w1, w2) := ElasticVelocities(m1, v1, m2, v2);
    assert t * total == v1 - v2;
    assert w1 == v1 - 2.0 * m2 * t by {
      assert (m1 - m2) * v1 + 2.0 * m2 * v2 == total * v1 - 2.0 * m2 * (v1 - v2);
    }
    assert w2 == v2 + 2.0 * m1 * t by {
      assert (m2 - m1) * v2 + 2.0 * m1 * v1 == total * v2 + 2.0 * m1 * (v1 - v2);
    }
    var k := m1 * m2 * t;
    assert m1 * w1 * w1 == m1 * v1 * v1 - 4.0 * k * v1 + 4.0 * k * m2 * t;
    assert m2 * w2 * w2 == m2 * v2 * v2 + 4.0 * k * v2 + 4.0 * k * m1 * t;
    assert 4.0 * k * m2 * t + 4.0 * k * m1 * t == 4.0 * k * (t * total);
  }

  /** With equal masses the two velocities are exchanged. */
  lemma ElasticSwapsEqualMasses(mass: real, v1: real, v2: real)
    requires mass > 0.0
    ensures ElasticVelocities(mass, v1, mass, v2) == (v2, v1)
  {
    var total := mass + mass;
    var a := (mass - mass) * v1 + 2.0 * mass * v2;
    var b := (mass - mass) * v2 + 2.0 * mass * v1;
    assert a == total * v2 && b == total * v1;
    assert a / total == v2 && b / total == v1;
    assert ElasticVelocities(mass, v1, mass, v2).0 == a / total;
    assert ElasticVelocities(mass, v1, mass, v2).1 == b / total;
  }

  /** The elastic branch for pair `(i, i + 1)`: both balls take their new
      linear velocities, converted back to angular ones. */
  function Elastic(bs: seq<Ball>, i: nat): (r: seq<Ball>)
    requires i + 1 < |bs| && WellFormed(bs)
    ensures SameRig(bs, r)
    ensures forall j :: 0 <= j < |bs| && j != i && j != i + 1 ==> r[j] == bs[j]
    ensures r[i].angle == bs[i].angle && r[i + 1].angle == bs[i + 1].angle
    ensures ElasticVelocities(bs[i].mass, Velocity(bs[i]), bs[i + 1].mass, Velocity(bs[i + 1]))
            == (Velocity(r[i]), Velocity(r[i + 1]))
  {
    var b1, b2 := bs[i], bs[i + 1];
    var (w1, w2) := ElasticVelocities(b1.mass, Velocity(b1), b2.mass, Velocity(b2));
    assert Velocity(b1.(omega := w1 / b1.length)) == w1;
    assert Velocity(b2.(omega := w2 / b2.length)) == w2;
    bs[i := b1.(omega := w1 / b1.length)][i + 1 := b2.(omega := w2 / b2.length)]
  }

  /** One pair of the sweep. */
  function Resolve(m: Fns, bs: seq<Ball>, i: nat): (r: seq<Ball>)
    requires i + 1 < |bs| && WellFormed(bs)
    ensures SameRig(bs, r)
    ensures !(Touching(m, bs[i], bs[i + 1]) && Approaching(bs[i], bs[i + 1])) ==> r == bs
    ensures Touching(m, bs[i], bs[i + 1]) && Approaching(bs[i], bs[i + 1]) ==>
      r == if AtRest(bs[i + 1]) then Transfer(bs, i) else Elastic(bs, i)
    ensures forall j :: 0 <= j < i ==> r[j] == bs[j]
  {
    var b1, b2 := bs[i], bs[i + 1];
    if Touching(m, b1, b2) && Approaching(b1, b2) then
      if AtRest(b2) then Transfer(bs, i) else Elastic(bs, i)
    else bs
  }

  /** The elastic branch of a resolved pair conserves the pair's momentum and energy. */
  lemma ResolveConserves(m: Fns, bs: seq<Ball>, i: nat)
    requires i + 1 < |bs| && WellFormed(bs)
    requires Touching(m, bs[i], bs[i + 1]) && Approaching(bs[i], bs[i + 1]) && !AtRest(bs[i + 1])
    ensures var r := Resolve(m, bs, i);
      && Momentum(r[i..i + 2]) == Momentum(bs[i..i + 2])
      && Kinetic(r[i..i + 2]) == Kinetic(bs[i..i + 2])
  {
    var r := Resolve(m, bs, i);
    ElasticConserves(bs[i].mass, Velocity(bs[i]), bs[i + 1].mass, Velocity(bs[i + 1]));
    assert r[i..i + 2] == [r[i], r[i + 1]];
    assert bs[i..i + 2] == [bs[i], bs[i + 1]];
  }

  /** The sweep over the pairs from `i` on, left to right and in place: each
      pair sees the balls as the earlier pairs left them. The sweep never
      returns to a pair it has passed, so the balls before pair `i` are
      final by the time it gets there. */
  function SweepFrom(m: Fns, bs: seq<Ball>, i: nat): (r: seq<Ball>)
    requires WellFormed(bs)
    ensures SameRig(bs, r) && WellFormed(r)
    ensures forall j :: 0 <= j < i && j < |bs| ==> r[j] == bs[j]
    decreases |bs| - i
  {
    if i + 1 >= |bs| then bs
    else
      var next := Resolve(m, bs, i);
      SameRigKeepsWellFormed(bs, next);
      SweepFrom(m, next, i + 1)
  }

  /** One frame: swing every ball, then sweep every neighbouring pair. */
  function Frame(m: Fns, bs: seq<Ball>, g: real, damping: real): (r: seq<Ball>)
    requires WellFormed(bs)
    ensures SameRig(bs, r) && WellFormed(r)
  {
    var swung := SwingAll(m, bs, g, damping);
    SweepFrom(m, swung, 0)
  }

  // -------------------------------------------------------------------- stats

  /** `sum m * v`. */
  function Momentum(bs: seq<Ball>): real
    decreases |bs|
  {
    if |bs| == 0 then 0.0 else Momentum(bs[..|bs| - 1]) + bs[|bs| - 1].mass * Velocity(bs[|bs| - 1])
  }

  /** `sum m * v^2`, twice the kinetic energy. */
  function Kinetic(bs: seq<Ball>): real
    decreases |bs|
  {
    if |bs| == 0 then 0.0
    else Kinetic(bs[..|bs| - 1]) + bs[|bs| - 1].mass * Velocity(bs[|bs| - 1]) * Velocity(bs[|bs| - 1])
  }

  /** One ball's share of `updateStats`' total energy: `1/2 m v^2 + m g L (1 - cos angle)`.
      It is never negative under non-negative gravity, and it is zero for a
      ball hanging still. */
  function BallEnergy(m: Fns, b: Ball, g: real): (e: real)
    ensures TrigLaw(m) && b.mass > 0.0 && b.length > 0.0 && g >= 0.0 ==> e >= 0.0
    ensures m.cos(0.0) == 1.0 && b.angle == 0.0 && b.omega == 0.0 ==> e == 0.0
  {
    var v := Velocity(b);
    var c := 1.0 - m.cos(b.angle);
    var mgl := b.mass * g * b.length;
    assert TrigLaw(m) && b.mass > 0.0 && b.length > 0.0 && g >= 0.0 ==> mgl * c >= 0.0 && 0.5 * b.mass * (v * v) >= 0.0 by {
      if TrigLaw(m) && b.mass > 0.0 && b.length > 0.0 && g >= 0.0 {
        assert b.mass * g >= 0.0;
        assert c >= 0.0;
      }
    }
    assert 0.5 * b.mass * v * v == 0.5 * b.mass * (v * v);
    0.5 * b.mass * v * v + mgl * c
  }

  /** `updateStats`' total energy, summed over the balls. */
  function Energy(m: Fns, bs: seq<Ball>, g: real): (r: real)
    ensures TrigLaw(m) && WellFormed(bs) && g >= 0.0 ==> r >= 0.0
    ensures m.cos(0.0) == 1.0 && (forall i :: 0 <= i < |bs| ==> bs[i].angle == 0.0 && bs[i].omega == 0.0) ==> r == 0.0
    decreases |bs|
  {
    if |bs| == 0 then 0.0
    else
      var b := bs[|bs| - 1];
      Energy(m, bs[..|bs| - 1], g) + BallEnergy(m, b, g)
  }

  /** With non-negative gravity, total energy is never negative. */
  lemma EnergyNonNegative(m: Fns, bs: seq<Ball>, g: real)
    requires TrigLaw(m) && WellFormed(bs) && g >= 0.0
    ensures Energy(m, bs, g) >= 0.0
  {
  }

  /** The largest `|angle|` in degrees, starting from 0. */
  function MaxAngle(m: Fns, bs: seq<Ball>): (r: real)
    ensures r >= 0.0
    ensures forall i :: 0 <= i < |bs| ==> Abs(bs[i].angle * 180.0 / Pi) <= r
    ensures r == 0.0 || exists i :: 0 <= i < |bs| && r == Abs(bs[i].angle * 180.0 / Pi)
    decreases |bs|
  {
    if |bs| == 0 then 0.0
    else
      var rest := MaxAngle(m, bs[..|bs| - 1]);
      assert forall i :: 0 <= i < |bs| - 1 ==> bs[..|bs| - 1][i] == bs[i];
      Max(rest, Abs(bs[|bs| - 1].angle * 180.0 / Pi))
  }
}
