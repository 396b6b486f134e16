/** The fluid page's particle simulation (FluidDynamics.jsx): one frame is a
    density pass over the spatial hash, then a force pass that moves the
    particles one after another in list order, in place. */
module Fluid {
  import opened RealArith
  import opened Transcendental
  import opened SpatialHash

  const ParticleRadius := 3.0
  const TargetDensity := 2.5
  const PressureMultiplier := 0.5
  /** The share of the pressure force added to the velocity each frame. */
  const ForceGain := 0.1
  /** The factor a velocity component is multiplied by when it hits a wall. */
  const Restitution := -0.5

  datatype Kind = Water | Oil | Honey

  /** The per-frame velocity factor of each preset. */
  function Viscosity(k: Kind): (f: real)
    ensures 0.0 < f < 1.0
  {
    match k
    case Water => 0.98
    case Oil => 0.90
    case Honey => 0.70
  }

  /** Thicker presets damp harder. */
  lemma ViscosityOrder()
    ensures Viscosity(Honey) < Viscosity(Oil) < Viscosity(Water)
  {
  }

  datatype Particle = Particle(x: real, y: real, vx: real, vy: real,
                               density: real, pressure: real, kind: Kind)

  // ------------------------------------------------------------------ density

  function Dist2(p: Particle, q: Particle): real {
    (q.x - p.x) * (q.x - p.x) + (q.y - p.y) * (q.y - p.y)
  }

  function Dist(m: Fns, p: Particle, q: Particle): real {
    m.sqrt(Dist2(p, q))
  }

  /** One neighbour's share of the density, `(1 - dist / 20)^2` inside the
      smoothing radius and nothing outside it. */
  function Kernel(dist: real): real {
    if dist < CellSize then Mul(1.0 - dist / CellSize, 1.0 - dist / CellSize) else 0.0
  }

  /** A kernel term is in (0, 1] inside the radius, 1 at distance zero, and 0 outside. */
  lemma KernelRange(dist: real)
    requires 0.0 <= dist
    ensures dist < CellSize ==> 0.0 < Kernel(dist) <= 1.0
    ensures dist >= CellSize ==> Kernel(dist) == 0.0
    ensures dist == 0.0 ==> Kernel(dist) == 1.0
  {
    if dist < CellSize {
      var s := 1.0 - dist / CellSize;
      assert 0.0 < s <= 1.0;
      MulStrict(0.0, s, s);
      MulMonotone(s, 1.0, s);
      assert Mul(0.0, s) == 0.0 && Mul(1.0, s) == s;
    }
  }

  /** The weight particle `j` adds to particle `i`'s density. */
  function DensityWeight(m: Fns, ps: seq<Particle>, i: nat): nat -> real
    requires i < |ps|
  {
    (j: nat) => if j < |ps| then Kernel(Dist(m, ps[i], ps[j])) else 0.0
  }

  /** The start-of-frame cell of every particle. */
  function Cells(ps: seq<Particle>): (cells: seq<Cell>)
    ensures |cells| == |ps|
    ensures forall j :: 0 <= j < |ps| ==> cells[j] == CellOf(ps[j].x, ps[j].y)
  {
    seq(|ps|, j requires 0 <= j < |ps| => CellOf(ps[j].x, ps[j].y))
  }

  /** `calculateDensity` over the 3x3 gather of particle `i`'s cell. With a
      genuine square root it is the sum over all particles, which lies
      between 1 and the particle count. */
  function Density(m: Fns, ps: seq<Particle>, i: nat): (r: real)
    requires i < |ps|
    ensures SqrtLaw(m.sqrt) ==> r == TotalSum(|ps|, DensityWeight(m, ps, i))
    ensures SqrtLaw(m.sqrt) ==> 1.0 <= r <= |ps| as real
  {
    var cells := Cells(ps);
    GatheredDensity(m, ps, i);
    SumOver(Gather(BuildGrid(cells, |cells|), cells[i]), DensityWeight(m, ps, i))
  }

  /** The gathered density sum, compared with the brute-force one. */
  lemma GatheredDensity(m: Fns, ps: seq<Particle>, i: nat)
    requires i < |ps|
    ensures var cells := Cells(ps);
            var s := SumOver(Gather(BuildGrid(cells, |cells|), cells[i]), DensityWeight(m, ps, i));
      SqrtLaw(m.sqrt) ==> s == TotalSum(|ps|, DensityWeight(m, ps, i)) && 1.0 <= s <= |ps| as real
  {
    if SqrtLaw(m.sqrt) {
      var cells := Cells(ps);
      var w := DensityWeight(m, ps, i);
      GatherSum(cells, cells[i], w);
      forall j | 0 <= j < |ps| && !InBlock(cells[i], cells[j])
        ensures w(j) == 0.0
      {
        if Dist(m, ps[i], ps[j]) < CellSize {
          CloseOnBothAxes(m, ps[i], ps[j]);
          NearbyInBlock(ps[i].x, ps[i].y, ps[j].x, ps[j].y);
        }
      }
      BlockSumIsTotal(cells, cells[i], |ps|, w);
      WeightsInUnit(m, ps, i);
      SelfWeight(m, ps, i);
      TotalSumBounds(|ps|, w, i);
    }
  }

  /** Within the smoothing radius, the coordinates differ by less than a cell. */
  lemma CloseOnBothAxes(m: Fns, p: Particle, q: Particle)
    requires SqrtLaw(m.sqrt)
    requires Dist(m, p, q) < CellSize
    ensures -CellSize < q.x - p.x < CellSize && -CellSize < q.y - p.y < CellSize
  {
    var dx, dy := q.x - p.x, q.y - p.y;
    var sx, sy := dx * dx, dy * dy;
    assert 0.0 <= sx && 0.0 <= sy;
    assert Dist2(p, q) == sx + sy;
    SqrtBelow(m.sqrt, Dist2(p, q), CellSize);
    assert sx < CellSize * CellSize && sy < CellSize * CellSize;
    assert Abs(dx) * Abs(dx) == sx && Abs(dy) * Abs(dy) == sy;
    SquareLess(Abs(dx), CellSize);
    SquareLess(Abs(dy), CellSize);
  }

  /** The gathered density is the brute-force sum over every particle: a
      particle outside the 3x3 block is at least a radius away and adds nothing. */
  lemma DensityIsBruteForce(m: Fns, ps: seq<Particle>, i: nat)
    requires SqrtLaw(m.sqrt)
    requires i < |ps|
    ensures Density(m, ps, i) == TotalSum(|ps|, DensityWeight(m, ps, i))
  {
  }

  lemma WeightsInUnit(m: Fns, ps: seq<Particle>, i: nat)
    requires SqrtLaw(m.sqrt)
    requires i < |ps|
    ensures forall j :: 0 <= j < |ps| ==> 0.0 <= DensityWeight(m, ps, i)(j) <= 1.0
  {
    forall j | 0 <= j < |ps|
      ensures 0.0 <= DensityWeight(m, ps, i)(j) <= 1.0
    {
      KernelRange(Dist(m, ps[i], ps[j]));
    }
  }

  lemma SelfWeight(m: Fns, ps: seq<Particle>, i: nat)
    requires SqrtLaw(m.sqrt)
    requires i < |ps|
    ensures DensityWeight(m, ps, i)(i) == 1.0
  {
    assert Dist2(ps[i], ps[i]) == 0.0;
    KernelRange(0.0);
  }

  /** A particle always counts itself with weight 1, and no particle weighs
      more, so its density lies between 1 and the particle count. */
  lemma DensityBounds(m: Fns, ps: seq<Particle>, i: nat)
    requires SqrtLaw(m.sqrt)
    requires i < |ps|
    ensures 1.0 <= Density(m, ps, i) <= |ps| as real
  {
  }

  /** `calculatePressure`. */
  function Pressure(density: real): (p: real)
    ensures p < 0.0 <==> density < TargetDensity
    ensures p == 0.0 <==> density == TargetDensity
    ensures density == TargetDensity + p / PressureMultiplier
  {
    (density - TargetDensity) * PressureMultiplier
  }

  lemma PressureIncreasing(d1: real, d2: real)
    ensures d1 < d2 <==> Pressure(d1) < Pressure(d2)
  {
  }

  /** The density pass: every particle's density and pressure, from the
      positions at the start of the frame. */
  function DensityPass(m: Fns, ps: seq<Particle>): (r: seq<Particle>)
    ensures |r| == |ps|
    ensures forall i :: 0 <= i < |ps| ==>
      r[i] == ps[i].(density := Density(m, ps, i), pressure := Pressure(Density(m, ps, i)))
  {
    seq(|ps|, i requires 0 <= i < |ps| =>
      var d := Density(m, ps, i);
      ps[i].(density := d, pressure := Pressure(d)))
  }

  /** After the density pass every density is at least 1, so every pressure
      is at least (1 - 2.5) * 0.5. */
  lemma DensityPassBounds(m: Fns, ps: seq<Particle>)
    requires SqrtLaw(m.sqrt)
    ensures forall i :: 0 <= i < |ps| ==>
      && 1.0 <= DensityPass(m, ps)[i].density <= |ps| as real
      && -0.75 <= DensityPass(m, ps)[i].pressure
  {
    forall i | 0 <= i < |ps|
      ensures 1.0 <= Density(m, ps, i) <= |ps| as real
    {
      DensityBounds(m, ps, i);
    }
  }

  // -------------------------------------------------------------------- force

  datatype Force = Force(fx: real, fy: real)

  /** What neighbour `q` adds to the pressure force on `p`: nothing for the
      particle itself, a coincident neighbour, or one a radius or more away;
      otherwise `-(d / dist) * (p.pressure + q.pressure) / 2 * (1 - dist / 20)`
      on each axis, `d` being the neighbour's offset. */
  function Push(m: Fns, p: Particle, q: Particle, same: bool): (f: Force)
    ensures (same || Dist(m, p, q) == 0.0 || Dist(m, p, q) >= CellSize) ==> f == Force(0.0, 0.0)
  {
    var dist := Dist(m, p, q);
    if same || !(dist < CellSize && dist > 0.0) then Force(0.0, 0.0)
    else
      var influence := 1.0 - dist / CellSize;
      var grad := (p.pressure + q.pressure) / 2.0;
      Force(-((q.x - p.x) / dist) * grad * influence, -((q.y - p.y) / dist) * grad * influence)
  }

  /** Two distinct particles push each other with opposite forces. */
  lemma PushAntisymmetric(m: Fns, p: Particle, q: Particle)
    ensures Push(m, q, p, false) == Force(-Push(m, p, q, false).fx, -Push(m, p, q, false).fy)
  {
    assert Dist2(q, p) == Dist2(p, q);
    var d := Dist(m, p, q);
    assert Dist(m, q, p) == d;
    if d < CellSize && d > 0.0 {
      assert (p.pressure + q.pressure) / 2.0 == (q.pressure + p.pressure) / 2.0;
      NegOver(q.x - p.x, d);
      NegOver(q.y - p.y, d);
      assert p.x - q.x == -(q.x - p.x) && p.y - q.y == -(q.y - p.y);
    }
  }

  /** The x and y shares particle `j` adds to particle `k`'s force. */
  function PushX(m: Fns, ps: seq<Particle>, k: nat): nat -> real
    requires k < |ps|
  {
    (j: nat) => if j < |ps| then Push(m, ps[k], ps[j], j == k).fx else 0.0
  }

  function PushY(m: Fns, ps: seq<Particle>, k: nat): nat -> real
    requires k < |ps|
  {
    (j: nat) => if j < |ps| then Push(m, ps[k], ps[j], j == k).fy else 0.0
  }

  /** The pressure force on particle `k` from the candidates `cand`. */
  function ForceOn(m: Fns, ps: seq<Particle>, k: nat, cand: seq<nat>): Force
    requires k < |ps|
  {
    Force(SumOver(cand, PushX(m, ps, k)), SumOver(cand, PushY(m, ps, k)))
  }

  /** A particle with no other candidate strictly inside its radius feels no
      pressure force. */
  lemma IsolatedFeelsNothing(m: Fns, ps: seq<Particle>, k: nat, cand: seq<nat>)
    requires k < |ps|
    requires forall c :: 0 <= c < |cand| && cand[c] < |ps| && cand[c] != k ==>
      Dist(m, ps[k], ps[cand[c]]) == 0.0 || Dist(m, ps[k], ps[cand[c]]) >= CellSize
    ensures ForceOn(m, ps, k, cand) == Force(0.0, 0.0)
  {
    SumOverZero(cand, PushX(m, ps, k));
    SumOverZero(cand, PushY(m, ps, k));
  }

  // --------------------------------------------------------------- integrate

  datatype Axis = Axis(pos: real, vel: real)

  /** The two wall checks on one axis, low wall first, then high wall at
      `size - 3`; each hit pins the position and scales the velocity by -0.5. */
  function Bounce(a: Axis, size: real): (r: Axis)
    ensures ParticleRadius <= a.pos <= size - ParticleRadius ==> r == a
    ensures size >= 2.0 * ParticleRadius ==>
      && ParticleRadius <= r.pos <= size - ParticleRadius
      && (a.pos < ParticleRadius ==> r == Axis(ParticleRadius, Restitution * a.vel))
      && (a.pos > size - ParticleRadius ==> r == Axis(size - ParticleRadius, Restitution * a.vel))
    ensures size < 2.0 * ParticleRadius && a.pos < ParticleRadius ==>
      r == Axis(size - ParticleRadius, Restitution * Restitution * a.vel)
  {
    var low := if a.pos < ParticleRadius then Axis(ParticleRadius, a.vel * -0.5) else a;
    if low.pos > size - ParticleRadius then Axis(size - ParticleRadius, low.vel * -0.5) else low
  }

  /** A wall hit leaves the particle where a second check finds nothing to do. */
  lemma BounceSettles(a: Axis, size: real, vel: real)
    requires size >= 2.0 * ParticleRadius
    ensures Bounce(Axis(Bounce(a, size).pos, vel), size) == Axis(Bounce(a, size).pos, vel)
  {
  }

  /** One particle's update from its pressure force: velocity gains a tenth of
      the force, then gravity on y, then the preset's viscosity; the position
      advances by the new velocity; then the walls. */
  function Integrate(p: Particle, f: Force, gravity: real, width: real, height: real): (r: Particle)
    ensures r.density == p.density && r.pressure == p.pressure && r.kind == p.kind
    ensures width >= 2.0 * ParticleRadius ==> ParticleRadius <= r.x <= width - ParticleRadius
    ensures height >= 2.0 * ParticleRadius ==> ParticleRadius <= r.y <= height - ParticleRadius
    ensures var vx := (p.vx + f.fx * ForceGain) * Viscosity(p.kind);
            Bounce(Axis(p.x + vx, vx), width) == Axis(r.x, r.vx)
    ensures var vy := (p.vy + f.fy * ForceGain + gravity) * Viscosity(p.kind);
            Bounce(Axis(p.y + vy, vy), height) == Axis(r.y, r.vy)
  {
    var visc := Viscosity(p.kind);
    var vx := (p.vx + f.fx * ForceGain) * visc;
    var vy := (p.vy + f.fy * ForceGain + gravity) * visc;
    var ax := Bounce(Axis(p.x + vx, vx), width);
    var ay := Bounce(Axis(p.y + vy, vy), height);
    var r := p.(x := ax.pos, y := ay.pos, vx := ax.vel, vy := ay.vel);
    assert Axis(r.x, r.vx) == ax && Axis(r.y, r.vy) == ay;
    r
  }

  /** A particle at rest, with no force, no gravity and away from the walls, stays put. */
  lemma RestIsStill(p: Particle, width: real, height: real)
    requires p.vx == 0.0 && p.vy == 0.0
    requires ParticleRadius <= p.x <= width - ParticleRadius
    requires ParticleRadius <= p.y <= height - ParticleRadius
    ensures Integrate(p, Force(0.0, 0.0), 0.0, width, height) == p
  {
  }

  /** Away from the walls and with no force or gravity, each velocity
      component shrinks by exactly the viscosity factor. */
  lemma FreeMotionDamps(p: Particle, width: real, height: real)
    requires ParticleRadius <= p.x + p.vx * Viscosity(p.kind) <= width - ParticleRadius
    requires ParticleRadius <= p.y + p.vy * Viscosity(p.kind) <= height - ParticleRadius
    ensures var r := Integrate(p, Force(0.0, 0.0), 0.0, width, height);
            r.vx == p.vx * Viscosity(p.kind) && r.vy == p.vy * Viscosity(p.kind)
            && r.x == p.x + r.vx && r.y == p.y + r.vy
  {
  }

  // ------------------------------------------------------------- force pass

  /** The pressure force on particle `k` of the current list: its candidates
      come from the start-of-frame grid `g`, looked up by its current position,
      and the positions and pressures it reads are the current ones. */
  function PressureField(m: Fns, g: map<Cell, seq<nat>>): (seq<Particle>, nat) -> Force {
    (qs: seq<Particle>, k: nat) =>
      if k < |qs| then ForceOn(m, qs, k, Gather(g, CellOf(qs[k].x, qs[k].y))) else Force(0.0, 0.0)
  }

  /** Processing particle `k` in place: it alone changes, integrated under the
      force `field` computes on the current list. */
  function Move(ps: seq<Particle>, field: (seq<Particle>, nat) -> Force, gravity: real,
                width: real, height: real, k: nat): (r: seq<Particle>)
    requires k < |ps|
    ensures |r| == |ps|
    ensures forall j :: 0 <= j < |ps| && j != k ==> r[j] == ps[j]
    ensures r[k] == Integrate(ps[k], field(ps, k), gravity, width, height)
  {
    ps[k := Integrate(ps[k], field(ps, k), gravity, width, height)]
  }

  /** The list after the first `k` particles of the force pass have moved. */
  function Moved(ps: seq<Particle>, field: (seq<Particle>, nat) -> Force, gravity: real,
                 width: real, height: real, k: nat): (r: seq<Particle>)
    requires k <= |ps|
    ensures |r| == |ps|
    ensures forall j :: k <= j < |ps| ==> r[j] == ps[j]
    ensures forall j :: 0 <= j < |ps| ==>
      r[j].density == ps[j].density && r[j].pressure == ps[j].pressure && r[j].kind == ps[j].kind
    ensures width >= 2.0 * ParticleRadius ==>
      forall j :: 0 <= j < k ==> ParticleRadius <= r[j].x <= width - ParticleRadius
    ensures height >= 2.0 * ParticleRadius ==>
      forall j :: 0 <= j < k ==> ParticleRadius <= r[j].y <= height - ParticleRadius
    decreases k
  {
    if k == 0 then ps
    else Move(Moved(ps, field, gravity, width, height, k - 1), field, gravity, width, height, k - 1)
  }

  /** Once moved, a particle stays put for the rest of the pass. */
  lemma {:induction false} MovedStays(ps: seq<Particle>, field: (seq<Particle>, nat) -> Force, gravity: real,
                                      width: real, height: real, j: nat, k: nat)
    requires j < k <= |ps|
    ensures Moved(ps, field, gravity, width, height, k)[j] == Moved(ps, field, gravity, width, height, j + 1)[j]
    decreases k
  {
    if k > j + 1 {
      MovedStays(ps, field, gravity, width, height, j, k - 1);
    }
  }

  /** The in-place order of the pass: particle `k` is integrated from its
      start-of-frame state, under the force computed on a list in which every
      earlier particle already sits where the frame leaves it and every later
      one is still where the frame found it. */
  lemma SeesEarlierMoved(ps: seq<Particle>, field: (seq<Particle>, nat) -> Force, gravity: real,
                         width: real, height: real, k: nat)
    requires k < |ps|
    ensures var before := Moved(ps, field, gravity, width, height, k);
            var after := Moved(ps, field, gravity, width, height, |ps|);
            && after[k] == Integrate(ps[k], field(before, k), gravity, width, height)
            && (forall j :: 0 <= j < k ==> before[j] == after[j])
            && (forall j :: k <= j < |ps| ==> before[j] == ps[j])
  {
    var before := Moved(ps, field, gravity, width, height, k);
    var after := Moved(ps, field, gravity, width, height, |ps|);
    MovedStays(ps, field, gravity, width, height, k, |ps|);
    forall j | 0 <= j < k
      ensures before[j] == after[j]
    {
      MovedStays(ps, field, gravity, width, height, j, k);
      MovedStays(ps, field, gravity, width, height, j, |ps|);
    }
  }

  /** Particle `k` is looked up under the cell it was hashed under at the
      start of the frame, because it has not moved yet when it is processed. */
  lemma LooksUpStartCell(ps: seq<Particle>, field: (seq<Particle>, nat) -> Force, gravity: real,
                         width: real, height: real, k: nat)
    requires k < |ps|
    ensures var q := Moved(ps, field, gravity, width, height, k)[k];
            CellOf(q.x, q.y) == Cells(ps)[k]
  {
  }

  /** One animation frame without spawning: densities and pressures from the
      start positions, then the in-place force pass over the start-of-frame grid.
      A frame with the left button held is this frame applied after `Spawn`
      (see `Animate`). */
  function Frame(m: Fns, ps: seq<Particle>, gravity: real, width: real, height: real): (r: seq<Particle>)
    ensures |r| == |ps|
    ensures forall j :: 0 <= j < |ps| ==> r[j].kind == ps[j].kind
    ensures width >= 2.0 * ParticleRadius ==>
      forall j :: 0 <= j < |r| ==> ParticleRadius <= r[j].x <= width - ParticleRadius
    ensures height >= 2.0 * ParticleRadius ==>
      forall j :: 0 <= j < |r| ==> ParticleRadius <= r[j].y <= height - ParticleRadius
  {
    var dense := DensityPass(m, ps);
    var cells := Cells(dense);
    Moved(dense, PressureField(m, BuildGrid(cells, |cells|)), gravity, width, height, |dense|)
  }

  /** After a frame every particle carries the density its start-of-frame
      neighbourhood gave it, which is at least 1. */
  lemma FrameDensities(m: Fns, ps: seq<Particle>, gravity: real, width: real, height: real)
    requires SqrtLaw(m.sqrt)
    ensures forall j :: 0 <= j < |ps| ==>
      && Frame(m, ps, gravity, width, height)[j].density == TotalSum(|ps|, DensityWeight(m, ps, j))
      && 1.0 <= Frame(m, ps, gravity, width, height)[j].density
  {
    forall j | 0 <= j < |ps|
      ensures Density(m, ps, j) == TotalSum(|ps|, DensityWeight(m, ps, j))
      ensures 1.0 <= Density(m, ps, j)
    {
      DensityIsBruteForce(m, ps, j);
      DensityBounds(m, ps, j);
    }
  }

  // ---------------------------------------------------------------- spawning

  /** The four `Math.random()` results one spawned particle consumes, in the
      order they are drawn: angle, speed, x jitter, y jitter. */
  datatype Draw = Draw(angle: real, speed: real, jx: real, jy: real)

  predicate UnitDraw(d: Draw) {
    && 0.0 <= d.angle < 1.0 && 0.0 <= d.speed < 1.0
    && 0.0 <= d.jx < 1.0 && 0.0 <= d.jy < 1.0
  }

  /** One particle of a spawn burst at `(x, y)`. */
  function Spawned(m: Fns, x: real, y: real, kind: Kind, d: Draw): Particle {
    var angle := d.angle * Pi * 2.0;
    var speed := d.speed * 2.0;
    Particle(x + (d.jx - 0.5) * 10.0, y + (d.jy - 0.5) * 10.0,
             m.cos(angle) * speed, m.sin(angle) * speed, 0.0, 0.0, kind)
  }

  /** `spawnParticles`: one new particle per draw, appended in order. */
  function Spawn(m: Fns, ps: seq<Particle>, x: real, y: real, kind: Kind, draws: seq<Draw>): (r: seq<Particle>)
    ensures |r| == |ps| + |draws|
    ensures r[..|ps|] == ps
    ensures forall k :: 0 <= k < |draws| ==>
      var p := r[|ps| + k];
      p.density == 0.0 && p.pressure == 0.0 && p.kind == kind
      && p.x - x == (draws[k].jx - 0.5) * 10.0 && p.y - y == (draws[k].jy - 0.5) * 10.0
  {
    ps + seq(|draws|, k requires 0 <= k < |draws| => Spawned(m, x, y, kind, draws[k]))
  }

  /** A spawned particle lands within 5 px of the cursor on each axis and
      starts with speed below 2. */
  lemma SpawnedNearCursor(m: Fns, x: real, y: real, kind: Kind, d: Draw)
    requires TrigLaw(m) && UnitDraw(d)
    ensures var p := Spawned(m, x, y, kind, d);
      && -5.0 <= p.x - x < 5.0 && -5.0 <= p.y - y < 5.0
      && p.vx * p.vx + p.vy * p.vy == (d.speed * 2.0) * (d.speed * 2.0)
      && p.vx * p.vx + p.vy * p.vy < 4.0
  {
    var angle := d.angle * Pi * 2.0;
    var s := d.speed * 2.0;
    var c, sn := m.cos(angle), m.sin(angle);
    assert (c * s) * (c * s) + (sn * s) * (sn * s) == (c * c + sn * sn) * (s * s);
    SquareLess(s, 2.0);
  }

  /** `animate`: while the left button is held on a running simulation, a
      burst of three particles at the pointer, then one frame over the old
      and the new particles together. */
  function Animate(m: Fns, ps: seq<Particle>, spawning: bool, x: real, y: real, kind: Kind,
                   draws: seq<Draw>, gravity: real, width: real, height: real): (r: seq<Particle>)
    requires spawning ==> |draws| == 3
    ensures |r| == |ps| + (if spawning then 3 else 0)
    ensures KindsAfterBurst(ps, r, kind)
    ensures InsideBox(r, width, height)
  {
    var start := if spawning then Spawn(m, ps, x, y, kind, draws) else ps;
    BurstKinds(m, ps, x, y, kind, if spawning then draws else [], start);
    var r := Frame(m, start, gravity, width, height);
    KindsCarried(ps, start, r, kind);
    FrameInside(m, start, gravity, width, height);
    r
  }

  /** Every particle lies within a radius of the walls on each axis that is
      wide enough to hold one. */
  predicate InsideBox(ps: seq<Particle>, width: real, height: real) {
    && (width >= 2.0 * ParticleRadius ==>
          forall j :: 0 <= j < |ps| ==> ParticleRadius <= ps[j].x <= width - ParticleRadius)
    && (height >= 2.0 * ParticleRadius ==>
          forall j :: 0 <= j < |ps| ==> ParticleRadius <= ps[j].y <= height - ParticleRadius)
  }

  lemma FrameInside(m: Fns, ps: seq<Particle>, gravity: real, width: real, height: real)
    ensures InsideBox(Frame(m, ps, gravity, width, height), width, height)
  {
  }

  /** The old particles keep their presets, and the ones after them carry `kind`. */
  predicate KindsAfterBurst(ps: seq<Particle>, r: seq<Particle>, kind: Kind) {
    && |ps| <= |r|
    && (forall j :: 0 <= j < |ps| ==> r[j].kind == ps[j].kind)
    && (forall j :: |ps| <= j < |r| ==> r[j].kind == kind)
  }

  /** Presets carried index by index from `start` to `r`. */
  lemma KindsCarried(ps: seq<Particle>, start: seq<Particle>, r: seq<Particle>, kind: Kind)
    requires KindsAfterBurst(ps, start, kind) && |start| == |r|
    requires forall j :: 0 <= j < |start| ==> r[j].kind == start[j].kind
    ensures KindsAfterBurst(ps, r, kind)
  {
  }

  /** The particles of a spawn keep their presets, and the burst carries the chosen one. */
  lemma BurstKinds(m: Fns, ps: seq<Particle>, x: real, y: real, kind: Kind, draws: seq<Draw>,
                   start: seq<Particle>)
    requires start == Spawn(m, ps, x, y, kind, draws)
    ensures |start| == |ps| + |draws|
    ensures KindsAfterBurst(ps, start, kind)
  {
    forall j | 0 <= j < |ps|
      ensures start[j].kind == ps[j].kind
    {
      assert start[..|ps|][j] == start[j];
    }
    forall j | |ps| <= j < |start|
      ensures start[j].kind == kind
    {
      var k := j - |ps|;
      assert start[|ps| + k] == start[j];
    }
  }

  /** `reset`: the particle list is emptied. */
  function Reset(ps: seq<Particle>): (r: seq<Particle>)
    ensures r == []
  {
    []
  }

  /** Spawning after a reset leaves exactly the new burst. */
  lemma SpawnAfterReset(m: Fns, ps: seq<Particle>, x: real, y: real, kind: Kind, draws: seq<Draw>)
    ensures Spawn(m, Reset(ps), x, y, kind, draws) == seq(|draws|, k requires 0 <= k < |draws| => Spawned(m, x, y, kind, draws[k]))
  {
  }
}
