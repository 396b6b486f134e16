/** The hydraulic press page (PascalsLaw.jsx): the pressure, output force and
    mechanical advantage shown for the slider settings, and the piston
    animation that `applyPressure` runs frame by frame. */
module Pascal {
  import opened RealArith

  /** The sliders: small and large piston areas (cm²) and the applied force (N).
      Their ranges are 5..30, 10..200 and 20..100, so both areas are positive. */
  datatype Press = Press(smallArea: real, largeArea: real, force: real)

  /** `appliedForce / smallPistonArea`. */
  function Pressure(p: Press): (r: real)
    requires p.smallArea > 0.0
    ensures r * p.smallArea == p.force
  {
    p.force / p.smallArea
  }

  /** `pressure * largePistonArea`. */
  function OutputForce(p: Press): (r: real)
    requires p.smallArea > 0.0
    ensures r * p.smallArea == p.force * p.largeArea
  {
    var q := Pressure(p);
    assert q * p.largeArea * p.smallArea == (q * p.smallArea) * p.largeArea;
    q * p.largeArea
  }

  /** `largePistonArea / smallPistonArea`. */
  function Advantage(p: Press): (r: real)
    requires p.smallArea > 0.0
    ensures r * p.smallArea == p.largeArea
  {
    p.largeArea / p.smallArea
  }

  /** Pascal's principle as the page states it, F₁/A₁ = F₂/A₂: the output force
      spread over the large piston is the input pressure, and the output force
      is the input force times the mechanical advantage. */
  lemma TransmittedUndiminished(p: Press)
    requires p.smallArea > 0.0 && p.largeArea > 0.0
    ensures OutputForce(p) / p.largeArea == Pressure(p)
    ensures OutputForce(p) == Advantage(p) * p.force
  {
    var out, q, adv := OutputForce(p), Pressure(p), Advantage(p);
    assert out * p.smallArea == q * p.smallArea * p.largeArea;
    assert out == q * p.largeArea;
    assert adv * p.force * p.smallArea == p.largeArea * p.force;
  }

  /** A positive force is multiplied exactly when the large piston is the
      larger one, which is exactly when the advantage exceeds one. */
  lemma MultipliesIffLarger(p: Press)
    requires p.smallArea > 0.0 && p.force > 0.0
    ensures OutputForce(p) > p.force <==> p.largeArea > p.smallArea
    ensures p.largeArea > p.smallArea <==> Advantage(p) > 1.0
  {
    var out, adv := OutputForce(p), Advantage(p);
    assert Mul(out, p.smallArea) == Mul(p.largeArea, p.force);
    assert Mul(p.force, p.smallArea) == Mul(p.smallArea, p.force);
    MulLess(p.force, out, p.smallArea);
    MulLess(p.smallArea, p.largeArea, p.force);
    MulLess(1.0, adv, p.smallArea);
  }

  /** The piston travel `applyPressure` animates to, and its step per frame. */
  const MaxDisplacement := 50
  const Speed := 2

  /** One call of the inner `animate`: progress rises by the step and is
      capped at the full travel. */
  function Advance(progress: int): (r: int)
    ensures r <= MaxDisplacement
    ensures progress <= r
      || (progress > MaxDisplacement && r == MaxDisplacement)
  {
    if progress + Speed >= MaxDisplacement then MaxDisplacement else progress + Speed
  }

  /** The progress after the k-th call of `animate`; 0 before the first. */
  function Progress(k: nat): (r: int)
    ensures 0 <= r <= MaxDisplacement
  {
    if k == 0 then 0 else Advance(Progress(k - 1))
  }

  /** Progress after k frames is 2k, until it reaches the full travel of 50. */
  lemma {:induction false} ProgressClosedForm(k: nat)
    ensures Progress(k) == if Speed * k >= MaxDisplacement then MaxDisplacement else Speed * k
  {
    if k > 0 {
      ProgressClosedForm(k - 1);
    }
  }

  /** Whether `animate` runs a k-th time: the first call is made directly, and
      each later one is requested by a call that left progress below 50. */
  predicate Called(k: nat) {
    k >= 1 && (k == 1 || (Called(k - 1) && Progress(k - 1) < MaxDisplacement))
  }

  /** The animation runs exactly 25 frames, and the 25th is the only one that
      reaches the full travel (and so the only one that schedules the reset). */
  lemma {:induction false} TwentyFiveFrames(k: nat)
    ensures Called(k) <==> 1 <= k <= 25
    ensures Called(k) && Progress(k) == MaxDisplacement <==> k == 25
  {
    ProgressClosedForm(k);
    if k > 1 {
      TwentyFiveFrames(k - 1);
      ProgressClosedForm(k - 1);
    }
  }

  /** The pistons as drawn: their displacements and whether the animation runs. */
  datatype Pistons = Pistons(smallPos: real, largePos: real, animating: bool)

  /** What a call of `animate` shows for a progress value: the small piston
      at the progress, the large one at progress·(A₁/A₂), so the fluid volume
      pushed out of the small cylinder equals the volume the large one takes in. */
  function Shown(p: Press, progress: int): (r: Pistons)
    requires p.largeArea > 0.0
    ensures r.smallPos == progress as real && r.animating
    ensures r.largePos * p.largeArea == r.smallPos * p.smallArea
  {
    var ratio := p.smallArea / p.largeArea;
    assert ratio * p.largeArea == p.smallArea;
    assert progress as real * ratio * p.largeArea == progress as real * p.smallArea;
    Pistons(progress as real, progress as real * ratio, true)
  }

  /** A press with the larger output piston moves that piston less than the
      small one, in proportion to the areas. */
  lemma LargePistonMovesLess(p: Press, progress: int)
    requires 0.0 < p.smallArea < p.largeArea && progress > 0
    ensures 0.0 < Shown(p, progress).largePos < Shown(p, progress).smallPos
  {
    var s := Shown(p, progress);
    assert Mul(s.largePos, p.largeArea) == Mul(s.smallPos, p.smallArea);
    MulStrict(p.smallArea, p.largeArea, s.smallPos);
    assert Mul(s.smallPos, p.smallArea) == Mul(p.smallArea, s.smallPos);
    assert Mul(s.smallPos, p.largeArea) == Mul(p.largeArea, s.smallPos);
    if s.largePos >= s.smallPos {
      MulMonotone(s.smallPos, s.largePos, p.largeArea);
    }
    if s.largePos <= 0.0 {
      MulMonotone(s.largePos, 0.0, p.largeArea);
    }
  }

  /** `reset`: stop the animation and put both pistons back at rest. The
      timer the last frame schedules does the same 500 ms later. */
  function Reset(s: Pistons): (r: Pistons)
    ensures !r.animating
    ensures r.smallPos == 0.0 && r.largePos == 0.0
  {
    Pistons(0.0, 0.0, false)
  }
}
