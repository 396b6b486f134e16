/** The electric field page (ElectricField.jsx): the field of a list of point
    charges by superposition, with charges too close to the probe left out,
    and the mouse and button handlers that edit the list. */
module Electric {
  import opened Wrappers
  import opened RealArith
  import opened Transcendental

  /** The page's Coulomb constant, and the distance within which a charge's
      contribution is dropped instead of blowing up. */
  const K := 0.01
  const Guard := 5.0

  /** A click within this distance of a charge grabs it. */
  const GrabRadius := 15.0

  datatype Charge = Charge(x: real, y: real, q: real, dragging: bool)

  datatype Vec = Vec(x: real, y: real)

  function Add(a: Vec, b: Vec): Vec {
    Vec(a.x + b.x, a.y + b.y)
  }

  /** The length of the offset (dx, dy). */
  function Radius(m: Fns, dx: real, dy: real): real {
    m.sqrt(dx * dx + dy * dy)
  }

  /** The distance from a charge to the point (x, y). */
  function Distance(m: Fns, c: Charge, x: real, y: real): real {
    Radius(m, x - c.x, y - c.y)
  }

  /** One charge's term of `calculateField`: k·q/r² along (dx/r, dy/r) when
      r > 5, and nothing otherwise. */
  function Contribution(m: Fns, c: Charge, x: real, y: real): (e: Vec)
    ensures Distance(m, c, x, y) <= Guard ==> e == Vec(0.0, 0.0)
    ensures var r := Distance(m, c, x, y);
      r > Guard ==> e.x * (r * r * r) == K * c.q * (x - c.x) && e.y * (r * r * r) == K * c.q * (y - c.y)
  {
    var dx, dy := x - c.x, y - c.y;
    var r := Distance(m, c, x, y);
    if r > Guard then
      var strength := K * c.q / (r * r);
      assert strength * (r * r) == K * c.q;
      assert strength * (dx / r) * (r * r * r) == strength * (r * r) * dx;
      assert strength * (dy / r) * (r * r * r) == strength * (r * r) * dy;
      Vec(strength * (dx / r), strength * (dy / r))
    else Vec(0.0, 0.0)
  }

  /** Beyond the guard a charge's term has the inverse-square magnitude k·|q|/r². */
  lemma InverseSquare(m: Fns, c: Charge, x: real, y: real)
    requires SqrtLaw(m.sqrt) && Distance(m, c, x, y) > Guard
    ensures var e, r := Contribution(m, c, x, y), Distance(m, c, x, y);
      (e.x * e.x + e.y * e.y) * (r * r) * (r * r) == (K * c.q) * (K * c.q)
  {
    ContributionCubed(m, c, x, y);
    RadiusSquared(m, x - c.x, y - c.y);
    ScaledSquares(Contribution(m, c, x, y), Distance(m, c, x, y), K * c.q, x - c.x, y - c.y);
  }

  /** `e`·r³ is kq times the offset (dx, dy). */
  predicate Cubed(e: Vec, r: real, kq: real, dx: real, dy: real) {
    e.x * (r * r * r) == kq * dx && e.y * (r * r * r) == kq * dy
  }

  lemma ContributionCubed(m: Fns, c: Charge, x: real, y: real)
    requires Distance(m, c, x, y) > Guard
    ensures Cubed(Contribution(m, c, x, y), Distance(m, c, x, y), K * c.q, x - c.x, y - c.y)
  {
  }

  lemma RadiusSquared(m: Fns, dx: real, dy: real)
    requires SqrtLaw(m.sqrt)
    ensures Radius(m, dx, dy) * Radius(m, dx, dy) == dx * dx + dy * dy
  {
    assert 0.0 <= dx * dx + dy * dy;
  }

  /** The algebra behind `InverseSquare`, the magnitude of the term
      `calculateField` adds (ElectricField.jsx:134-139): if (ex, ey)·r³ =
      kq·(dx, dy) and r² = dx² + dy², then (ex² + ey²)·r⁴ = kq². */
  lemma ScaledSquares(e: Vec, r: real, kq: real, dx: real, dy: real)
    requires r > 0.0 && r * r == dx * dx + dy * dy
    requires Cubed(e, r, kq, dx, dy)
    ensures (e.x * e.x + e.y * e.y) * (r * r) * (r * r) == kq * kq
  {
    var ex, ey := e.x, e.y;
    var r2 := r * r;
    var r3 := r2 * r;
    var sq := ex * ex + ey * ey;
    assert ex * r3 == kq * dx && ey * r3 == kq * dy;
    assert (ex * r3) * (ex * r3) == kq * kq * (dx * dx);
    assert (ey * r3) * (ey * r3) == kq * kq * (dy * dy);
    calc {
      sq * (r3 * r3);
      (ex * r3) * (ex * r3) + (ey * r3) * (ey * r3);
      kq * kq * (dx * dx) + kq * kq * (dy * dy);
      kq * kq * r2;
    }
    var lhs := sq * r2 * r2;
    assert lhs * r2 == sq * (r3 * r3);
    MulStrict(0.0, r, r);
    assert Mul(lhs, r2) == Mul(kq * kq, r2);
    MulLess(lhs, kq * kq, r2);
    MulLess(kq * kq, lhs, r2);
  }

  /** `calculateField`: the contributions added up in list order. No
      charges give no field and one charge gives its own term; how lists
      combine is `Superposition`. */
  function Field(m: Fns, cs: seq<Charge>, x: real, y: real): (r: Vec)
    ensures |cs| == 0 ==> r == Vec(0.0, 0.0)
    ensures |cs| == 1 ==> r == Contribution(m, cs[0], x, y)
    decreases |cs|
  {
    if |cs| == 0 then Vec(0.0, 0.0)
    else Add(Field(m, cs[..|cs| - 1], x, y), Contribution(m, cs[|cs| - 1], x, y))
  }

  /** Superposition: the field of two lists of charges together is the sum
      of their fields. */
  lemma {:induction false} Superposition(m: Fns, a: seq<Charge>, b: seq<Charge>, x: real, y: real)
    ensures Field(m, a + b, x, y) == Add(Field(m, a, x, y), Field(m, b, x, y))
    decreases |b|
  {
    if |b| == 0 {
      assert a + b == a;
    } else {
      var init := b[..|b| - 1];
      assert (a + b)[..|a + b| - 1] == a + init;
      assert (a + b)[|a + b| - 1] == b[|b| - 1];
      Superposition(m, a, init, x, y);
    }
  }

  /** Taking the i-th charge out of a list takes its term out of the field. */
  lemma TakeOut(m: Fns, b: seq<Charge>, i: int, x: real, y: real)
    requires 0 <= i < |b|
    ensures multiset(b[..i] + b[i + 1..]) == multiset(b) - multiset{b[i]}
    ensures Field(m, b, x, y) == Add(Field(m, b[..i] + b[i + 1..], x, y), Contribution(m, b[i], x, y))
  {
    var before, after, c := b[..i], b[i + 1..], b[i];
    assert b == before + [c] + after;
    assert multiset(b) == multiset(before) + multiset{c} + multiset(after);
    SplitField(m, before, c, after, x, y);
  }

  /** The field of `before + [c] + after` is the field without `c` plus
      `c`'s own term. */
  lemma SplitField(m: Fns, before: seq<Charge>, c: Charge, after: seq<Charge>, x: real, y: real)
    ensures Field(m, before + [c] + after, x, y)
         == Add(Field(m, before + after, x, y), Contribution(m, c, x, y))
  {
    var fb, fa, fc := Field(m, before, x, y), Field(m, after, x, y), Contribution(m, c, x, y);
    assert Field(m, [c], x, y) == fc;
    Superposition(m, before, [c], x, y);
    Superposition(m, before + [c], after, x, y);
    Superposition(m, before, after, x, y);
    assert Field(m, before + [c] + after, x, y) == Add(Add(fb, fc), fa);
    assert Field(m, before + after, x, y) == Add(fb, fa);
    AddSwap(fb, fc, fa);
  }

  lemma AddSwap(a: Vec, b: Vec, c: Vec)
    ensures Add(Add(a, b), c) == Add(Add(a, c), b)
  {
  }

  /** The field does not depend on the order of the charges. */
  lemma {:induction false} OrderIndependent(m: Fns, a: seq<Charge>, b: seq<Charge>, x: real, y: real)
    requires multiset(a) == multiset(b)
    ensures Field(m, a, x, y) == Field(m, b, x, y)
    decreases |a|
  {
    if |a| == 0 {
      assert |b| == |multiset(b)| == 0;
    } else {
      var c := a[|a| - 1];
      var init := a[..|a| - 1];
      assert a == init + [c];
      assert multiset(init) == multiset(a) - multiset{c};
      assert c in multiset(b);
      var i :| 0 <= i < |b| && b[i] == c;
      TakeOut(m, b, i, x, y);
      OrderIndependent(m, init, b[..i] + b[i + 1..], x, y);
    }
  }

  /** Every charge with its sign flipped. */
  function Negated(cs: seq<Charge>): (r: seq<Charge>)
    ensures |r| == |cs|
    ensures forall i :: 0 <= i < |cs| ==> r[i] == cs[i].(q := -cs[i].q)
  {
    seq(|cs|, i requires 0 <= i < |cs| => cs[i].(q := -cs[i].q))
  }

  /** Flipping one charge's sign flips its term. */
  lemma ContributionFlips(m: Fns, c: Charge, x: real, y: real)
    ensures Contribution(m, c.(q := -c.q), x, y)
         == Vec(-Contribution(m, c, x, y).x, -Contribution(m, c, x, y).y)
  {
    var r := Distance(m, c, x, y);
    assert Distance(m, c.(q := -c.q), x, y) == r;
    if r > Guard {
      var e, f := Contribution(m, c, x, y), Contribution(m, c.(q := -c.q), x, y);
      var r3 := r * r * r;
      assert r3 > 0.0;
      assert f.x * r3 == -(e.x * r3) && f.y * r3 == -(e.y * r3);
      assert (f.x + e.x) * r3 == 0.0 && (f.y + e.y) * r3 == 0.0;
    }
  }

  /** Flipping every charge's sign flips the field. */
  lemma {:induction false} NegatingFlipsField(m: Fns, cs: seq<Charge>, x: real, y: real)
    ensures Field(m, Negated(cs), x, y) == Vec(-Field(m, cs, x, y).x, -Field(m, cs, x, y).y)
    decreases |cs|
  {
    if |cs| > 0 {
      var n, ns := |cs|, Negated(cs);
      assert ns[..n - 1] == Negated(cs[..n - 1]);
      assert ns[n - 1] == cs[n - 1].(q := -cs[n - 1].q);
      NegatingFlipsField(m, cs[..n - 1], x, y);
      ContributionFlips(m, cs[n - 1], x, y);
      var rest, last := Field(m, cs[..n - 1], x, y), Contribution(m, cs[n - 1], x, y);
      assert Field(m, cs, x, y) == Add(rest, last);
      assert Field(m, ns, x, y) == Add(Vec(-rest.x, -rest.y), Vec(-last.x, -last.y));
    }
  }

  /** The page's state: the charges and the probe for the force arrow. */
  datatype Scene = Scene(charges: seq<Charge>, probe: Vec)

  /** The two charges the page starts with and resets to. */
  const DefaultCharges := [Charge(300.0, 300.0, 1.0, false), Charge(500.0, 300.0, -1.0, false)]

  /** The charge `findIndex` picks: the first within the grab radius. */
  function FindGrabbed(m: Fns, cs: seq<Charge>, x: real, y: real): (r: Option<nat>)
    ensures r.Some? ==> r.value < |cs| && Distance(m, cs[r.value], x, y) < GrabRadius
    ensures r.Some? ==> forall j :: 0 <= j < r.value ==> Distance(m, cs[j], x, y) >= GrabRadius
    ensures r.None? <==> forall j :: 0 <= j < |cs| ==> Distance(m, cs[j], x, y) >= GrabRadius
  {
    if |cs| == 0 then None
    else if Distance(m, cs[0], x, y) < GrabRadius then Some(0)
    else match FindGrabbed(m, cs[1..], x, y)
      case None => None
      case Some(i) => Some(i + 1)
  }

  /** `handleMouseDown`: flag the grabbed charge, if any, and move the probe
      there when the force arrow is shown. No charge moves. */
  function MouseDown(m: Fns, s: Scene, showForce: bool, x: real, y: real): (r: Scene)
    ensures r.probe == if showForce then Vec(x, y) else s.probe
    ensures r.charges == match FindGrabbed(m, s.charges, x, y)
      case Some(k) => s.charges[k := s.charges[k].(dragging := true)]
      case None => s.charges
  {
    var cs := match FindGrabbed(m, s.charges, x, y)
      case Some(k) => s.charges[k := s.charges[k].(dragging := true)]
      case None => s.charges;
    Scene(cs, if showForce then Vec(x, y) else s.probe)
  }

  predicate AnyDragging(cs: seq<Charge>) {
    exists i :: 0 <= i < |cs| && cs[i].dragging
  }

  /** `handleMouseMove`: every flagged charge jumps to the pointer, the rest
      stay; the probe follows while the button is held and the force arrow
      is shown. */
  function MouseMove(s: Scene, showForce: bool, buttons: int, x: real, y: real): (r: Scene)
    ensures |r.charges| == |s.charges|
    ensures forall i :: 0 <= i < |s.charges| ==>
      r.charges[i] == if s.charges[i].dragging then s.charges[i].(x := x, y := y) else s.charges[i]
    ensures r.probe == if showForce && buttons == 1 then Vec(x, y) else s.probe
  {
    var cs := if AnyDragging(s.charges) then
        seq(|s.charges|, i requires 0 <= i < |s.charges| =>
          if s.charges[i].dragging then s.charges[i].(x := x, y := y) else s.charges[i])
      else s.charges;
    Scene(cs, if showForce && buttons == 1 then Vec(x, y) else s.probe)
  }

  /** `handleMouseUp`: clear every flag, moving nothing. */
  function MouseUp(s: Scene): (r: Scene)
    ensures r.probe == s.probe && |r.charges| == |s.charges|
    ensures forall i :: 0 <= i < |s.charges| ==> r.charges[i] == s.charges[i].(dragging := false)
  {
    Scene(seq(|s.charges|, i requires 0 <= i < |s.charges| => s.charges[i].(dragging := false)), s.probe)
  }

  /** A whole drag: from a scene with nothing flagged, pressing on a charge,
      moving to (x2, y2) and releasing moves exactly that charge there and
      leaves nothing flagged; pressing beside every charge moves none. */
  lemma DragMovesOnlyGrabbed(m: Fns, s: Scene, showForce: bool, buttons: int,
                             x1: real, y1: real, x2: real, y2: real)
    requires forall i :: 0 <= i < |s.charges| ==> !s.charges[i].dragging
    ensures var r := MouseUp(MouseMove(MouseDown(m, s, showForce, x1, y1), showForce, buttons, x2, y2));
      r.charges == match FindGrabbed(m, s.charges, x1, y1)
        case Some(k) => s.charges[k := s.charges[k].(x := x2, y := y2)]
        case None => s.charges
  {
    var d := MouseDown(m, s, showForce, x1, y1);
    var r := MouseUp(MouseMove(d, showForce, buttons, x2, y2));
    match FindGrabbed(m, s.charges, x1, y1)
    case Some(k) =>
      assert r.charges == s.charges[k := s.charges[k].(x := x2, y := y2)];
    case None =>
      assert r.charges == s.charges;
  }

  /** `addCharge`: a new, unflagged charge at the canvas centre (400, 300). */
  function AddCharge(s: Scene, q: real): (r: Scene)
    ensures r.probe == s.probe
    ensures |r.charges| == |s.charges| + 1 && r.charges[..|s.charges|] == s.charges
    ensures r.charges[|s.charges|] == Charge(400.0, 300.0, q, false)
  {
    Scene(s.charges + [Charge(400.0, 300.0, q, false)], s.probe)
  }

  /** `removeLastCharge`: drop the last charge, if there is one. */
  function RemoveLast(s: Scene): (r: Scene)
    ensures r.probe == s.probe
    ensures |s.charges| == 0 ==> r == s
    ensures |s.charges| > 0 ==> r.charges + [s.charges[|s.charges| - 1]] == s.charges
  {
    if |s.charges| > 0 then s.(charges := s.charges[..|s.charges| - 1]) else s
  }

  /** Removing the last charge undoes adding one, and adding a charge adds
      exactly its own contribution to the field everywhere. */
  lemma AddThenRemove(m: Fns, s: Scene, q: real, x: real, y: real)
    ensures RemoveLast(AddCharge(s, q)) == s
    ensures Field(m, AddCharge(s, q).charges, x, y)
         == Add(Field(m, s.charges, x, y), Contribution(m, Charge(400.0, 300.0, q, false), x, y))
  {
    var c := Charge(400.0, 300.0, q, false);
    assert (s.charges + [c])[..|s.charges|] == s.charges;
  }

  /** `reset`: the two default charges and the probe back at (400, 200). */
  function Reset(s: Scene): (r: Scene)
    ensures r.charges == DefaultCharges && r.probe == Vec(400.0, 200.0)
  {
    Scene(DefaultCharges, Vec(400.0, 200.0))
  }

  /** At the reset probe, midway above the dipole, the field is horizontal and
      points from the positive charge toward the negative one. */
  lemma ResetProbeFieldIsHorizontal(m: Fns, s: Scene)
    requires SqrtLaw(m.sqrt)
    ensures var r := Reset(s);
      Field(m, r.charges, r.probe.x, r.probe.y).y == 0.0
      && Field(m, r.charges, r.probe.x, r.probe.y).x > 0.0
  {
    var pos, neg := DefaultCharges[0], DefaultCharges[1];
    var d := m.sqrt(20000.0);
    assert Distance(m, pos, 400.0, 200.0) == d;
    assert Distance(m, neg, 400.0, 200.0) == d;
    SqrtBelow(m.sqrt, 20000.0, Guard);
    assert d > Guard;
    var k := K / (d * d);
    var e1, e2 := Contribution(m, pos, 400.0, 200.0), Contribution(m, neg, 400.0, 200.0);
    assert e1 == Vec(k * (100.0 / d), k * (-100.0 / d));
    assert e2 == Vec(-k * (-100.0 / d), -k * (-100.0 / d));
    assert DefaultCharges[..1] == [pos] && [pos][..0] == [];
    assert k > 0.0 && 100.0 / d > 0.0;
  }
}
