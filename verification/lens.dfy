/** The thin-lens page (LensSimulator.jsx): the signed focal length, the image
    distance from the lens equation, the magnification and image height, and
    how the page classifies and draws the image. An image at infinity (object
    at the focal point) is `None`. */
module Lens {
  import opened Wrappers
  import opened RealArith

  datatype LensType = Convex | Concave

  /** The controls: lens type, focal length (50..250 px), object distance
      (100..500 px) and object height (40..150 px). */
  datatype Setup = Setup(lens: LensType, focalLength: real, objectDistance: real, objectHeight: real)

  /** What the sliders guarantee and the divisions need. */
  predicate Valid(s: Setup) {
    s.focalLength > 0.0 && s.objectDistance > 0.0
  }

  /** `f`: positive for a converging lens, negative for a diverging one. */
  function SignedFocal(s: Setup): (f: real)
    ensures f == s.focalLength || f == -s.focalLength
    ensures s.focalLength > 0.0 ==> (f > 0.0 <==> s.lens == Convex)
  {
    if s.lens == Convex then s.focalLength else -s.focalLength
  }

  /** Two reciprocals agree exactly when the numbers do. */
  lemma ReciprocalInjective(a: real, b: real)
    requires a != 0.0 && b != 0.0
    ensures 1.0 / a == 1.0 / b <==> a == b
  {
    if 1.0 / a == 1.0 / b {
      assert a == a * (1.0 / b) * b;
    }
  }

  /** `1 / (1/f - 1/dₒ)`, or infinity when the denominator is zero. */
  function ImageDistance(s: Setup): (di: Option<real>)
    requires Valid(s)
    ensures di.None? <==> SignedFocal(s) == s.objectDistance
    ensures di.Some? ==> di.value != 0.0
  {
    var f := SignedFocal(s);
    var den := 1.0 / f - 1.0 / s.objectDistance;
    ReciprocalInjective(f, s.objectDistance);
    if den != 0.0 then Some(1.0 / den) else None
  }

  /** A finite image distance satisfies the lens equation 1/f = 1/dₒ + 1/dᵢ,
      and equals f·dₒ / (dₒ - f). */
  lemma LensEquation(s: Setup)
    requires Valid(s) && ImageDistance(s).Some?
    ensures 1.0 / SignedFocal(s) == 1.0 / s.objectDistance + 1.0 / ImageDistance(s).value
    ensures ImageDistance(s).value * (s.objectDistance - SignedFocal(s))
         == SignedFocal(s) * s.objectDistance
  {
    var f, o, di := SignedFocal(s), s.objectDistance, ImageDistance(s).value;
    var den := 1.0 / f - 1.0 / o;
    assert di == 1.0 / den;
    assert 1.0 / di == den;
    assert den * (f * o) == o - f;
    assert di * den == 1.0;
    assert di * (o - f) == di * den * (f * o);
  }

  /** `-dᵢ / dₒ`; infinite with the image distance. */
  function Magnification(s: Setup): (m: Option<real>)
    requires Valid(s)
    ensures m.Some? <==> ImageDistance(s).Some?
    ensures m.Some? ==> m.value * s.objectDistance == -ImageDistance(s).value
  {
    match ImageDistance(s)
    case Some(di) => Some(-di / s.objectDistance)
    case None => None
  }

  /** `magnification * objectHeight`: by similar triangles the image's height
      is to the object's as the image's distance is to the object's, with the
      sign flipped. */
  function ImageHeight(s: Setup): (h: Option<real>)
    requires Valid(s)
    ensures h.Some? <==> ImageDistance(s).Some?
    ensures h.Some? ==> h.value * s.objectDistance == -ImageDistance(s).value * s.objectHeight
  {
    match Magnification(s)
    case Some(m) =>
      assert m * s.objectHeight * s.objectDistance == (m * s.objectDistance) * s.objectHeight;
      Some(m * s.objectHeight)
    case None => None
  }

  datatype ImageType = Real | Virtual

  datatype Orientation = Upright | Inverted

  /** The panel's image type: virtual for a negative image distance, and
      "Real" otherwise, including at infinity, where `Infinity < 0` is false. */
  function TypeOf(s: Setup): (t: ImageType)
    requires Valid(s)
    ensures t == Virtual ==> ImageDistance(s).Some?
  {
    match ImageDistance(s)
    case Some(di) => if di < 0.0 then Virtual else Real
    case None => Real
  }

  /** Rays are traced only to a finite image. */
  predicate RaysDrawn(s: Setup, showRays: bool)
    requires Valid(s)
  {
    showRays && ImageDistance(s).Some?
  }

  /** The image arrow is drawn only when it is finite and within 600 px of the lens. */
  predicate ImageDrawn(s: Setup)
    requires Valid(s)
  {
    ImageDistance(s).Some? && Abs(ImageDistance(s).value) < 600.0
  }

  /** The label under a drawn image: its type, and upright for a positive height. */
  function Label(s: Setup): (l: Option<(ImageType, Orientation)>)
    requires Valid(s)
    ensures l.Some? <==> ImageDrawn(s)
    ensures l.Some? ==> l.value.0 == TypeOf(s)
  {
    if ImageDrawn(s) then
      Some((TypeOf(s), if ImageHeight(s).value > 0.0 then Upright else Inverted))
    else None
  }

  /** For an object of positive height, a finite image is upright exactly
      when it is virtual: the two labels always come as (Real, Inverted) or
      (Virtual, Upright). */
  lemma UprightIffVirtual(s: Setup)
    requires Valid(s) && s.objectHeight > 0.0 && ImageDistance(s).Some?
    ensures ImageHeight(s).value > 0.0 <==> TypeOf(s) == Virtual
  {
    var h, di := ImageHeight(s).value, ImageDistance(s).value;
    assert Mul(h, s.objectDistance) == Mul(-di, s.objectHeight);
    MulLess(0.0, h, s.objectDistance);
    MulLess(0.0, -di, s.objectHeight);
  }

  /** The page's defaults, a converging lens of f = 150 with the object at
      300: a real, inverted image at 300, the same size as the object. */
  lemma DefaultImage()
    ensures var s := Setup(Convex, 150.0, 300.0, 80.0);
      && ImageDistance(s) == Some(300.0)
      && Magnification(s) == Some(-1.0)
      && Label(s) == Some((Real, Inverted))
  {
    var s := Setup(Convex, 150.0, 300.0, 80.0);
    assert 1.0 / 150.0 - 1.0 / 300.0 == 1.0 / 300.0;
    assert ImageHeight(s) == Some(-80.0);
  }

  /** The same lens with the object at 100, inside the focal length: a
      virtual, upright image at -300, three times the object's size. */
  lemma MagnifyingGlass()
    ensures var s := Setup(Convex, 150.0, 100.0, 80.0);
      && ImageDistance(s) == Some(-300.0)
      && Magnification(s) == Some(3.0)
      && Label(s) == Some((Virtual, Upright))
  {
    var s := Setup(Convex, 150.0, 100.0, 80.0);
    assert 1.0 / 150.0 - 1.0 / 100.0 == -1.0 / 300.0;
    assert ImageHeight(s) == Some(240.0);
  }

  /** A converging lens forms a real image beyond its focal length and a
      virtual, magnified one inside it. */
  lemma ConvexImage(s: Setup)
    requires Valid(s) && s.lens == Convex && s.objectDistance != s.focalLength
    ensures s.objectDistance > s.focalLength ==> ImageDistance(s).value > 0.0
    ensures s.objectDistance < s.focalLength ==>
      ImageDistance(s).value < 0.0 && Magnification(s).value > 1.0
  {
    LensEquation(s);
    var f, o, di := s.focalLength, s.objectDistance, ImageDistance(s).value;
    assert Mul(di, o - f) == Mul(f, o);
    var fo := Mul(f, o);
    MulLess(0.0, f, o);
    if o > f {
      MulLess(0.0, di, o - f);
    } else {
      MulLess(di, 0.0, f - o);
      assert Mul(di, f - o) == -fo;
      // -di·(f - o) = f·o > o·(f - o), so -di > o.
      MulLess(f - o, f, o);
      assert Mul(f - o, o) == Mul(o, f - o);
      assert Mul(-di, f - o) == fo;
      MulLess(o, -di, f - o);
      var m := Magnification(s).value;
      assert Mul(m, o) == -di;
      MulLess(1.0, m, o);
    }
  }

  /** A diverging lens always forms a virtual, upright, diminished image,
      closer to the lens than its focal length, so the image is drawn. */
  lemma ConcaveImage(s: Setup)
    requires Valid(s) && s.lens == Concave && s.objectHeight > 0.0
    ensures ImageDistance(s).Some?
    ensures ImageDistance(s).value < 0.0
    ensures 0.0 < Magnification(s).value < 1.0
    ensures Abs(ImageDistance(s).value) < s.focalLength
    ensures s.focalLength <= 600.0 ==> Label(s) == Some((Virtual, Upright))
  {
    LensEquation(s);
    var f, o, di := s.focalLength, s.objectDistance, ImageDistance(s).value;
    // dᵢ·(dₒ + F) = -F·dₒ with F, dₒ > 0.
    assert Mul(-di, o + f) == Mul(f, o);
    MulLess(0.0, f, o);
    MulLess(0.0, -di, o + f);
    MulLess(o, o + f, f);
    assert Mul(o, f) == Mul(f, o);
    MulLess(-di, o, o + f);
    MulLess(f, o + f, o);
    MulLess(-di, f, o + f);
    var m := Magnification(s).value;
    assert Mul(m, o) == -di;
    MulLess(0.0, m, o);
    MulLess(m, 1.0, o);
    UprightIffVirtual(s);
  }
}
