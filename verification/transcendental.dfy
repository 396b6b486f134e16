/** The JavaScript `Math` functions the pages call, as uninterpreted functions.
    They are fields of `Fns`, so nothing about them is known beyond the laws a
    member asks for in its precondition. The laws are true of the real
    functions, so they cannot contradict each other. */
module Transcendental {

  datatype Fns = Fns(
    sin: real -> real,
    cos: real -> real,
    asin: real -> real,
    sqrt: real -> real,
    exp: real -> real,
    atan2: (real, real) -> real)

  /** `Math.PI`, the double nearest to pi, written out; it lies just below pi. */
  const Pi := 3.141592653589793

  /** `Math.sqrt` on non-negative arguments: the non-negative square root. */
  ghost predicate SqrtLaw(sqrt: real -> real) {
    && sqrt(0.0) == 0.0
    && (forall x :: 0.0 <= x ==> 0.0 <= sqrt(x) && sqrt(x) * sqrt(x) == x)
  }

  /** `Math.sin` and `Math.cos`: bounded, Pythagorean, positive sine on (0, pi). */
  ghost predicate TrigLaw(m: Fns) {
    && m.sin(0.0) == 0.0
    && m.cos(0.0) == 1.0
    && (forall t :: -1.0 <= m.sin(t) <= 1.0)
    && (forall t :: -1.0 <= m.cos(t) <= 1.0)
    && (forall t :: m.sin(t) * m.sin(t) + m.cos(t) * m.cos(t) == 1.0)
    && (forall t :: 0.0 < t < Pi ==> 0.0 < m.sin(t))
  }

  /** `Math.asin` on [-1, 1]: a right inverse of `sin`. */
  ghost predicate AsinLaw(m: Fns) {
    forall s :: -1.0 <= s <= 1.0 ==> m.sin(m.asin(s)) == s
  }

  /** `Math.exp`: positive, one at zero, strictly increasing. */
  ghost predicate ExpLaw(exp: real -> real) {
    && exp(0.0) == 1.0
    && (forall t :: 0.0 < exp(t))
    && (forall s, t :: s < t ==> exp(s) < exp(t))
  }

  /** `Math.atan2(dy, dx)` away from the origin: the angle whose cosine and
      sine are `dx` and `dy` over the distance `sqrt(dx² + dy²)`. */
  ghost predicate Atan2Law(m: Fns) {
    forall dy, dx :: dx != 0.0 || dy != 0.0 ==>
      && m.sqrt(dx * dx + dy * dy) * m.cos(m.atan2(dy, dx)) == dx
      && m.sqrt(dx * dx + dy * dy) * m.sin(m.atan2(dy, dx)) == dy
  }

  /** Squares of non-negative reals are ordered like the reals themselves. */
  lemma SquareLess(s: real, b: real)
    requires 0.0 <= s && 0.0 <= b
    ensures s < b <==> s * s < b * b
  {
    var p, q, r := s * s, s * b, b * b;
    if s < b {
      assert p <= q;
      assert q < r;
    } else {
      assert p >= q;
      assert q >= r;
    }
  }

  /** For a positive bound, comparing a square root is comparing squares. */
  lemma SqrtBelow(sqrt: real -> real, a: real, bound: real)
    requires SqrtLaw(sqrt)
    requires 0.0 <= a && 0.0 < bound
    ensures sqrt(a) < bound <==> a < bound * bound
  {
    SquareLess(sqrt(a), bound);
  }
}
