/** The prism page (Prism.jsx): the seven-band dispersion table, the ray
    trace through the entry face and out of the exit face, and the offset
    that animates the incoming light. */
module Prism {
  import opened Wrappers
  import opened RealArith
  import opened Transcendental

  /** One colour band: its name, wavelength (nm) and the glass's index for it. */
  datatype Band = Band(name: string, lambda: int, n: real)

  /** The page's table, red to violet. */
  const Bands: seq<Band> := [
    Band("Red", 700, 1.513),
    Band("Orange", 620, 1.514),
    Band("Yellow", 580, 1.517),
    Band("Green", 550, 1.519),
    Band("Blue", 470, 1.528),
    Band("Indigo", 450, 1.532),
    Band("Violet", 400, 1.538)
  ]

  /** Normal dispersion: from red to violet the wavelength falls and the index
      rises, from 1.513 to 1.538, always above air's 1. */
  lemma NormalDispersion()
    ensures |Bands| == 7
    ensures Bands[0].n == 1.513 && Bands[6].n == 1.538
    ensures forall i, j :: 0 <= i < j < |Bands| ==>
      Bands[i].lambda > Bands[j].lambda && Bands[i].n < Bands[j].n
    ensures forall i :: 0 <= i < |Bands| ==> Bands[i].n > AirIndex
  {
    forall i, j | 0 <= i < j < |Bands|
      ensures Bands[i].lambda > Bands[j].lambda && Bands[i].n < Bands[j].n
    {
      assert Bands[i].lambda > Bands[i + 1].lambda && Bands[i].n < Bands[i + 1].n;
      if i + 1 < j {
        assert Bands[i + 1].lambda > Bands[j].lambda && Bands[i + 1].n < Bands[j].n by {
          assert Bands[j - 1].lambda > Bands[j].lambda && Bands[j - 1].n < Bands[j].n;
          assert forall k :: i + 1 <= k < j ==> Bands[k].lambda >= Bands[j - 1].lambda && Bands[k].n <= Bands[j - 1].n;
        }
      }
    }
  }

  const AirIndex := 1.0

  /** The exit face's normal, at 30 degrees. */
  const FaceNormal := Pi / 6.0

  function Radians(degrees: real): real {
    degrees * Pi / 180.0
  }

  /** Entry refraction from air: `(nAir / n) * Math.sin(theta1)`. */
  function EntrySine(m: Fns, degrees: real, n: real): (s: real)
    requires n > 0.0
    ensures s * n == m.sin(Radians(degrees))
  {
    var k := AirIndex / n;
    assert k * n == 1.0;
    k * m.sin(Radians(degrees))
  }

  /** Exit refraction into air, measured from the exit face's normal:
      `(n / nAir) * Math.sin(theta2 - PI/6)`. */
  function ExitSine(m: Fns, n: real, theta2: real): real {
    n / AirIndex * m.sin(theta2 - FaceNormal)
  }

  /** A traced ray: its angle inside the glass, and its exit angle when it
      leaves the second face. */
  datatype Trace = Trace(theta2: real, exit: Option<real>)

  /** `traceRay`: nothing when the entry sine's magnitude exceeds one (the
      early return); otherwise the inside angle `asin`, and an exit angle
      `PI/6 + asin(sinTheta3)` drawn only when `|sinTheta3| <= 1`. */
  function TraceRay(m: Fns, degrees: real, n: real): (t: Option<Trace>)
    requires n > 0.0
    ensures t.None? <==> Abs(EntrySine(m, degrees, n)) > 1.0
    ensures t.Some? ==> (t.value.exit.Some? <==> Abs(ExitSine(m, n, t.value.theta2)) <= 1.0)
  {
    var s2 := EntrySine(m, degrees, n);
    if Abs(s2) > 1.0 then None
    else
      var theta2 := m.asin(s2);
      var s3 := ExitSine(m, n, theta2);
      Some(Trace(theta2, if Abs(s3) <= 1.0 then Some(FaceNormal + m.asin(s3)) else None))
  }

  /** Every band's index exceeds one, so the entry sine's magnitude stays
      below one and the early return never fires. */
  lemma EntryNeverBlocked(m: Fns, degrees: real, i: int)
    requires TrigLaw(m) && 0 <= i < |Bands|
    ensures Abs(EntrySine(m, degrees, Bands[i].n)) < 1.0
    ensures TraceRay(m, degrees, Bands[i].n).Some?
  {
    NormalDispersion();
    EntryBelowOne(m, degrees, Bands[i].n);
  }

  /** Entering glass denser than air, the entry sine's magnitude stays below one. */
  lemma EntryBelowOne(m: Fns, degrees: real, n: real)
    requires TrigLaw(m) && n > 1.0
    ensures Abs(EntrySine(m, degrees, n)) < 1.0
  {
    var s := EntrySine(m, degrees, n);
    assert Mul(Abs(s), n) == Abs(m.sin(Radians(degrees)));
    MulLess(Abs(s), 1.0, n);
  }

  /** Both refractions obey Snell's law: n·sin θ₂ = sin θ₁ at the entry face,
      and sin(θ₃ - 30°) = n·sin(θ₂ - 30°) at the exit face. */
  lemma SnellAtBothFaces(m: Fns, degrees: real, n: real)
    requires TrigLaw(m) && AsinLaw(m) && n > 1.0
    ensures TraceRay(m, degrees, n).Some?
    ensures n * m.sin(TraceRay(m, degrees, n).value.theta2) == m.sin(Radians(degrees))
    ensures var t := TraceRay(m, degrees, n).value;
            t.exit.Some? ==> m.sin(t.exit.value - FaceNormal) == n * m.sin(t.theta2 - FaceNormal)
  {
    var s := EntrySine(m, degrees, n);
    EntryBelowOne(m, degrees, n);
    assert m.sin(m.asin(s)) == s;
  }

  /** Dispersion: for the same slanted ray, a band further toward violet has a
      smaller entry sine, so violet bends most and red least. */
  lemma VioletBendsMost(m: Fns, degrees: real, i: int, j: int)
    requires 0 <= i < j < |Bands| && m.sin(Radians(degrees)) != 0.0
    ensures Abs(EntrySine(m, degrees, Bands[j].n)) < Abs(EntrySine(m, degrees, Bands[i].n))
  {
    NormalDispersion();
    var ni, nj := Bands[i].n, Bands[j].n;
    var si, sj := Abs(EntrySine(m, degrees, ni)), Abs(EntrySine(m, degrees, nj));
    var t := Abs(m.sin(Radians(degrees)));
    assert Mul(si, ni) == t && Mul(sj, nj) == t;
    MulLess(0.0, si, ni);
    MulLess(ni, nj, si);
    assert Mul(ni, si) == Mul(si, ni) && Mul(nj, si) == Mul(si, nj);
    MulLess(sj, si, nj);
  }

  /** The rays drawn: one per band, at the chosen incident angle when the
      spectrum is shown, and head-on from the white beam otherwise. */
  function Rays(m: Fns, incident: real, showWavelengths: bool): (r: seq<Option<Trace>>)
    ensures |r| == |Bands|
    ensures forall i :: 0 <= i < |r| ==>
      r[i] == TraceRay(m, if showWavelengths then incident else 0.0, Bands[i].n)
  {
    NormalDispersion();
    seq(|Bands|, i requires 0 <= i < |Bands| =>
      TraceRay(m, if showWavelengths then incident else 0.0, Bands[i].n))
  }

  /** Every band's ray enters the prism, whatever the settings. */
  lemma EveryBandEnters(m: Fns, incident: real, showWavelengths: bool)
    requires TrigLaw(m)
    ensures forall i :: 0 <= i < |Bands| ==> Rays(m, incident, showWavelengths)[i].Some?
  {
    forall i | 0 <= i < |Bands|
      ensures Rays(m, incident, showWavelengths)[i].Some?
    {
      EntryNeverBlocked(m, if showWavelengths then incident else 0.0, i);
    }
  }

  /** One tick of the animation timer: `(prev + 2) % 360`. The offset starts
      at 0 and only this update changes it, so it is never negative and
      JavaScript's remainder agrees with Dafny's. */
  function NextOffset(prev: nat): (r: nat)
    ensures r < 360
  {
    (prev + 2) % 360
  }

  /** The offset after k ticks. */
  function OffsetAfter(k: nat): (r: nat)
    ensures r < 360
  {
    if k == 0 then 0 else NextOffset(OffsetAfter(k - 1))
  }

  /** Adding a full turn does not change a remainder modulo 360. */
  lemma FullTurn(x: int)
    ensures (x + 360) % 360 == x % 360
  {
  }

  /** A remainder modulo 360 is recovered from any quotient-remainder split. */
  lemma ModSplit(q: int, t: int)
    requires 0 <= t < 360
    ensures (360 * q + t) % 360 == t
  {
  }

  /** Wrapping before or after the step of 2 gives the same offset. */
  lemma WrapThenStep(p: int)
    ensures (p % 360 + 2) % 360 == (p + 2) % 360
  {
    var q, r := p / 360, p % 360;
    assert p + 2 == 360 * q + (r + 2);
    if r + 2 < 360 {
      ModSplit(q, r + 2);
      ModSplit(0, r + 2);
    } else {
      assert p + 2 == 360 * (q + 1) + (r + 2 - 360);
      ModSplit(q + 1, r + 2 - 360);
      ModSplit(1, r + 2 - 360);
    }
  }

  /** After k ticks the offset is 2k wrapped into [0, 360). */
  lemma {:induction false} OffsetClosedForm(k: nat)
    ensures OffsetAfter(k) == (2 * k) % 360
  {
    if k > 0 {
      OffsetClosedForm(k - 1);
      WrapThenStep(2 * (k - 1));
      assert 2 * (k - 1) + 2 == 2 * k;
    }
  }

  /** The animation repeats every 180 ticks. */
  lemma OffsetPeriodic(k: nat)
    ensures OffsetAfter(k + 180) == OffsetAfter(k)
  {
    OffsetClosedForm(k);
    OffsetClosedForm(k + 180);
    FullTurn(2 * k);
  }
}
