/** The refraction page (Refraction.jsx): Snell's law at a flat interface
    between two of four materials, with total internal reflection when the
    refracted ray's sine would exceed one. */
module Refraction {
  import opened RealArith
  import opened Transcendental

  datatype Material = Air | Water | Glass | Diamond

  /** The page's refractive indices. */
  function Index(mat: Material): (n: real)
    ensures n >= 1.0
  {
    match mat
    case Air => 1.00
    case Water => 1.33
    case Glass => 1.52
    case Diamond => 2.42
  }

  /** The materials in the order the menu lists them. */
  function Rank(mat: Material): (k: nat)
    ensures k < 4
  {
    match mat
    case Air => 0
    case Water => 1
    case Glass => 2
    case Diamond => 3
  }

  /** The menu lists the four materials, each at its own position, from
      optically thinnest to densest. */
  lemma DenserDownTheList(a: Material, b: Material)
    ensures Rank(a) < 4 && (Rank(a) == Rank(b) <==> a == b)
    ensures Rank(a) < Rank(b) <==> Index(a) < Index(b)
  {
  }

  /** The incident angle in radians, from the slider's degrees. */
  function Radians(degrees: real): real {
    degrees * Pi / 180.0
  }

  /** On the slider's range, 0..89 degrees, the incident angle's sine is
      non-negative, and positive away from zero. */
  lemma IncidentSine(m: Fns, degrees: real)
    requires TrigLaw(m) && 0.0 <= degrees <= 89.0
    ensures 0.0 <= m.sin(Radians(degrees))
    ensures 0.0 < degrees ==> 0.0 < m.sin(Radians(degrees))
  {
    if 0.0 < degrees {
      assert 0.0 < Radians(degrees) < Pi;
    }
  }

  /** `(n1 / n2) * Math.sin(theta1)`. */
  function SinRefracted(m: Fns, from: Material, into: Material, degrees: real): (s: real)
    ensures Index(into) * s == Index(from) * m.sin(Radians(degrees))
  {
    var n1, n2 := Index(from), Index(into);
    assert n1 / n2 * n2 == n1;
    n1 / n2 * m.sin(Radians(degrees))
  }

  /** What the page draws past the interface: the reflected ray, or the
      refracted ray at `theta2`. */
  datatype Outcome = Reflected | Refracted(theta2: real)

  /** Total internal reflection exactly when the sine exceeds one (strictly);
      otherwise the refraction angle `Math.asin` of it. */
  function Refract(m: Fns, from: Material, into: Material, degrees: real): (o: Outcome)
    ensures o.Reflected? <==> SinRefracted(m, from, into, degrees) > 1.0
  {
    var s := SinRefracted(m, from, into, degrees);
    if s > 1.0 then Reflected else Refracted(m.asin(s))
  }

  /** Total internal reflection happens exactly when n₁·sin θ₁ exceeds n₂,
      that is, past the critical angle. */
  lemma ReflectsPastCriticalAngle(m: Fns, from: Material, into: Material, degrees: real)
    ensures Refract(m, from, into, degrees).Reflected?
        <==> Index(from) * m.sin(Radians(degrees)) > Index(into)
  {
    var s, n2 := SinRefracted(m, from, into, degrees), Index(into);
    assert Mul(s, n2) == Index(from) * m.sin(Radians(degrees));
    assert Mul(1.0, n2) == n2;
    MulLess(1.0, s, n2);
  }

  /** On the slider's range the refracted angle obeys Snell's law,
      n₂·sin θ₂ = n₁·sin θ₁. */
  lemma Snell(m: Fns, from: Material, into: Material, degrees: real)
    requires TrigLaw(m) && AsinLaw(m) && 0.0 <= degrees <= 89.0
    requires Refract(m, from, into, degrees).Refracted?
    ensures Index(into) * m.sin(Refract(m, from, into, degrees).theta2)
         == Index(from) * m.sin(Radians(degrees))
  {
    var s := SinRefracted(m, from, into, degrees);
    IncidentSine(m, degrees);
    var n1, n2 := Index(from), Index(into);
    assert Mul(s, n2) == Mul(n1, m.sin(Radians(degrees)));
    MulMonotone(0.0, n1, m.sin(Radians(degrees)));
    assert Mul(n1, m.sin(Radians(degrees))) == Mul(m.sin(Radians(degrees)), n1);
    MulMonotone(0.0, m.sin(Radians(degrees)), n1);
    MulLess(s, 0.0, n2);
    assert -1.0 <= s <= 1.0;
  }

  /** Passing into an optically denser (or equal) material never reflects
      totally on the slider's range. */
  lemma NoReflectionIntoDenser(m: Fns, from: Material, into: Material, degrees: real)
    requires TrigLaw(m) && Index(from) <= Index(into)
    ensures Refract(m, from, into, degrees).Refracted?
  {
    var t := m.sin(Radians(degrees));
    ReflectsPastCriticalAngle(m, from, into, degrees);
    if t >= 0.0 {
      MulMonotone(Index(from), Index(into), t);
      MulMonotone(t, 1.0, Index(into));
      assert Mul(Index(into), t) == Mul(t, Index(into));
    } else {
      MulMonotone(t, 0.0, Index(from));
      assert Mul(t, Index(from)) == Index(from) * t;
    }
  }

  /** Between identical materials the ray goes straight on, and a ray along
      the normal stays on it. */
  lemma StraightThrough(m: Fns, mat: Material, from: Material, into: Material)
    requires TrigLaw(m)
    ensures forall degrees :: SinRefracted(m, mat, mat, degrees) == m.sin(Radians(degrees))
    ensures SinRefracted(m, from, into, 0.0) == 0.0
  {
    assert Radians(0.0) == 0.0;
  }

  /** Entering a denser material at a slanted angle, the ray bends toward
      the normal: its sine shrinks but stays positive. */
  lemma BendsTowardNormal(m: Fns, from: Material, into: Material, degrees: real)
    requires TrigLaw(m) && Index(from) < Index(into) && 0.0 < degrees <= 89.0
    ensures 0.0 < SinRefracted(m, from, into, degrees) < m.sin(Radians(degrees))
  {
    IncidentSine(m, degrees);
    var s, t := SinRefracted(m, from, into, degrees), m.sin(Radians(degrees));
    var n1, n2 := Index(from), Index(into);
    assert Mul(s, n2) == Mul(n1, t);
    MulLess(n1, n2, t);
    MulLess(0.0, n1, t);
    assert Mul(n1, t) == Mul(t, n1) && Mul(n2, t) == Mul(t, n2);
    MulLess(s, t, n2);
    MulLess(0.0, s, n2);
  }
}
