/**
 What the coordinate formulas mean: given that the curve is a group under the Edwards
 addition law, add_p1p1 adds and dbl_p1p1 doubles.
 */
module Ge25519Group {
  import opened Ge25519
  import opened ModArith
  import F = Fe25519

  // ---- the curve and its group, as hypotheses ----

  ghost predicate OnCurve(x: int, y: int) {
    Eq(y * y - x * x, 1 + D * (x * x * (y * y)))
  }

  /** (x3, y3) is the sum of (x1, y1) and (x2, y2) by the Edwards addition law. */
  ghost predicate IsSum(x1: int, y1: int, x2: int, y2: int, x3: int, y3: int) {
    && Eq(x3 * (1 + D * (x1 * y1 * (x2 * y2))), x1 * y2 + x2 * y1)
    && Eq(y3 * (1 - D * (x1 * y1 * (x2 * y2))), y1 * y2 + x1 * x2)
  }

  /** A group, the curve point with given affine coordinates in it, and inverses in the field. */
  datatype Curve<!G> = Curve(zero: G, add: (G, G) -> G, at: (int, int) -> G, inv: int -> int)

  ghost predicate Assoc<G(!new)>(c: Curve<G>, a: G, b: G, d: G) {
    c.add(c.add(a, b), d) == c.add(a, c.add(b, d))
  }

  ghost predicate Commutes<G(!new)>(c: Curve<G>, a: G, b: G) {
    c.add(a, b) == c.add(b, a) && c.add(c.zero, a) == a
  }

  ghost predicate Inverts<G(!new)>(c: Curve<G>, a: int) {
    !Eq(a, 0) ==> Eq(a * c.inv(a), 1)
  }

  /** The addition law is complete and closed on the curve and is the group's addition. */
  ghost predicate Adds<G(!new)>(c: Curve<G>, x1: int, y1: int, x2: int, y2: int, x3: int, y3: int) {
    OnCurve(x1, y1) && OnCurve(x2, y2) ==>
      && !Eq(1 + D * (x1 * y1 * (x2 * y2)), 0) && !Eq(1 - D * (x1 * y1 * (x2 * y2)), 0)
      && (IsSum(x1, y1, x2, y2, x3, y3) ==> OnCurve(x3, y3) && c.at(x3, y3) == c.add(c.at(x1, y1), c.at(x2, y2)))
  }

  ghost predicate Lawful<G(!new)>(c: Curve<G>) {
    && (forall a, b, d :: Assoc(c, a, b, d))
    && (forall a, b :: Commutes(c, a, b))
    && (forall a :: Inverts(c, a))
    && (forall x1, y1, x2, y2, x3, y3 :: Adds(c, x1, y1, x2, y2, x3, y3))
    && c.at(0, 1) == c.zero
  }

  // ---- a field without zero divisors ----

  lemma Cancel<G(!new)>(c: Curve<G>, a: int, b: int, d: int)
    requires Lawful(c) && !Eq(a, 0) && Eq(a * b, a * d)
    ensures Eq(b, d)
  {
    assert Inverts(c, a);
    hide Eq, Lawful;
    var i := c.inv(a);
    EqRefl(i);
    EqMul(a * b, i, a * d, i);
    CancelOne(a, i, b);
    CancelOne(a, i, d);
    EqSym(a * b * i, b);
    EqTrans(b, a * b * i, a * d * i);
    EqTrans(b, a * d * i, d);
  }

  lemma CancelOne(a: int, i: int, b: int)
    requires Eq(a * i, 1)
    ensures Eq(a * b * i, b)
  {
    hide Eq;
    EqRefl(b);
    EqMul(a * i, b, 1, b);
    assert a * i * b == a * b * i;
  }

  lemma NonZero<G(!new)>(c: Curve<G>, a: int, b: int)
    requires Lawful(c) && !Eq(a, 0) && !Eq(b, 0)
    ensures !Eq(a * b, 0)
  {
    hide Eq, Lawful;
    if Eq(a * b, 0) {
      assert a * 0 == 0;
      Cancel(c, a, b, 0);
    }
  }

  lemma NonZeroEq(a: int, b: int)
    requires Eq(a, b) && !Eq(b, 0)
    ensures !Eq(a, 0)
  {
    hide Eq;
    if Eq(a, 0) {
      EqSym(a, b);
      EqTrans(b, a, 0);
    }
  }

  lemma TwoNonZero()
    ensures !Eq(2, 0)
  {
    CongIffSameResidue(2, 0, F.P);
  }

  lemma OneNonZero()
    ensures !Eq(1, 0)
  {
    CongIffSameResidue(1, 0, F.P);
  }

  // ---- points ----

  /** The projective coordinates stand for the affine point (x, y). */
  ghost predicate Affine(x: int, y: int, px: int, py: int, pz: int) {
    Eq(px, x * pz) && Eq(py, y * pz) && !Eq(pz, 0) && OnCurve(x, y)
  }

  /** p stands for the group element g. */
  ghost predicate Is<G(!new)>(c: Curve<G>, p: P3, g: G) {
    exists x, y :: Affine(x, y, V(p.x), V(p.y), V(p.z)) && c.at(x, y) == g
  }

  ghost predicate CompletedAt(x: int, y: int, px: int, py: int, pz: int, pt: int) {
    Eq(px, x * pz) && Eq(py, y * pt) && !Eq(pz, 0) && !Eq(pt, 0) && OnCurve(x, y)
  }

  ghost predicate IsCompleted<G(!new)>(c: Curve<G>, p: P1P1, g: G) {
    exists x, y :: CompletedAt(x, y, V(p.x), V(p.y), V(p.z), V(p.t)) && c.at(x, y) == g
  }

  /** The projective point of completed coordinates is the same group element. */
  lemma ToP2Is<G(!new)>(c: Curve<G>, p: P1P1, q: P3, g: G)
    requires Lawful(c) && IsCompleted(c, p, g)
    requires Eq(V(q.x), V(p.x) * V(p.t)) && Eq(V(q.y), V(p.y) * V(p.z)) && Eq(V(q.z), V(p.z) * V(p.t))
    ensures Is(c, q, g)
  {
    hide Eq, Lawful, V;
    var x, y :| CompletedAt(x, y, V(p.x), V(p.y), V(p.z), V(p.t)) && c.at(x, y) == g;
    Project(c, x, y, V(p.x), V(p.y), V(p.z), V(p.t), V(q.x), V(q.y), V(q.z));
  }

  lemma Project<G(!new)>(c: Curve<G>, x: int, y: int, px: int, py: int, pz: int, pt: int, qx: int, qy: int, qz: int)
    requires Lawful(c) && CompletedAt(x, y, px, py, pz, pt)
    requires Eq(qx, px * pt) && Eq(qy, py * pz) && Eq(qz, pz * pt)
    ensures Affine(x, y, qx, qy, qz)
  {
    hide Eq, Lawful, OnCurve;
    NonZero(c, pz, pt);
    NonZeroEq(qz, pz * pt);
    ScaledBy(qx, px, pt, x, pz, qz);
    assert pt * pz == pz * pt;
    ScaledBy(qy, py, pz, y, pt, qz);
  }

  /** q = p*t with p = x*z is x times z*t. */
  lemma ScaledBy(q: int, p: int, t: int, x: int, z: int, qz: int)
    requires Eq(q, p * t) && Eq(p, x * z) && Eq(qz, z * t)
    ensures Eq(q, x * qz)
  {
    hide Eq;
    EqRefl(t);
    EqMulTrans(q, p, t, x * z, t);
    EqRefl(x);
    EqSym(qz, z * t);
    EqMul(x, z * t, x, qz);
    assert x * z * t == x * (z * t);
    EqTrans(q, x * (z * t), x * qz);
  }

  // ---- addition ----

  /** T of an extended point with fresh T is x*y*Z. */
  lemma TOf<G(!new)>(c: Curve<G>, x: int, y: int, px: int, py: int, pz: int, pt: int)
    requires Lawful(c) && Affine(x, y, px, py, pz) && Eq(px * py, pz * pt)
    ensures Eq(pt, x * y * pz)
  {
    hide Eq, Lawful, OnCurve;
    EqMul(px, py, x * pz, y * pz);
    assert x * pz * (y * pz) == pz * (x * y * pz);
    EqSym(px * py, pz * pt);
    EqTrans(pz * pt, px * py, pz * (x * y * pz));
    Cancel(c, pz, pt, x * y * pz);
  }

  lemma Cross(px: int, py: int, x: int, y: int, z1: int, z2: int)
    requires Eq(px, x * z1) && Eq(py, y * z2)
    ensures Eq(px * py, z1 * z2 * (x * y))
  {
    hide Eq;
    EqMul(px, py, x * z1, y * z2);
    assert x * z1 * (y * z2) == z1 * z2 * (x * y);
  }

  /** The four completed coordinates of a sum, as multiples of 2*Z1*Z2. */
  lemma SumCoordinates(x1: int, y1: int, z1: int, t1: int, x2: int, y2: int, z2: int, t2: int,
                       px: int, py: int, qx: int, qy: int, rx: int, ry: int, rz: int, rt: int)
    requires Eq(px, x1 * z1) && Eq(py, y1 * z1) && Eq(t1, x1 * y1 * z1)
    requires Eq(qx, x2 * z2) && Eq(qy, y2 * z2) && Eq(t2, x2 * y2 * z2)
    requires Eq(rx, 2 * (px * qy + qx * py)) && Eq(ry, 2 * (py * qy + px * qx))
    requires Eq(rz, 2 * (z1 * z2 + D * (t1 * t2))) && Eq(rt, 2 * (z1 * z2 - D * (t1 * t2)))
    ensures var w, e := 2 * (z1 * z2), D * (x1 * y1 * (x2 * y2));
      && Eq(rx, w * (x1 * y2 + x2 * y1)) && Eq(ry, w * (y1 * y2 + x1 * x2))
      && Eq(rz, w * (1 + e)) && Eq(rt, w * (1 - e))
  {
    hide Eq;
    var z := z1 * z2;
    Cross(px, qy, x1, y2, z1, z2);
    Cross(qx, py, x2, y1, z2, z1);
    Cross(py, qy, y1, y2, z1, z2);
    Cross(px, qx, x1, x2, z1, z2);
    assert z2 * z1 == z;
    TwiceSum(rx, px * qy, qx * py, z, x1 * y2, x2 * y1);
    TwiceSum(ry, py * qy, px * qx, z, y1 * y2, x1 * x2);
    Cross(t1, t2, x1 * y1, x2 * y2, z1, z2);
    TwiceDenominators(rz, rt, z, t1 * t2, x1 * y1 * (x2 * y2));
  }

  lemma TwiceSum(r: int, a: int, b: int, z: int, u: int, v: int)
    requires Eq(r, 2 * (a + b)) && Eq(a, z * u) && Eq(b, z * v)
    ensures Eq(r, 2 * z * (u + v))
  {
    hide Eq;
    EqAdd(a, b, z * u, z * v);
    EqRefl(2);
    EqMulTrans(r, 2, a + b, 2, z * u + z * v);
    assert 2 * (z * u + z * v) == 2 * z * (u + v);
  }

  lemma TwiceDenominators(rz: int, rt: int, z: int, t: int, e: int)
    requires Eq(rz, 2 * (z + D * t)) && Eq(rt, 2 * (z - D * t)) && Eq(t, z * e)
    ensures Eq(rz, 2 * z * (1 + D * e)) && Eq(rt, 2 * z * (1 - D * e))
  {
    hide Eq;
    EqRefl(D);
    EqMul(D, t, D, z * e);
    EqRefl(z);
    EqRefl(2);
    EqAdd(z, D * t, z, D * (z * e));
    EqMulTrans(rz, 2, z + D * t, 2, z + D * (z * e));
    EqSub(z, D * t, z, D * (z * e));
    EqMulTrans(rt, 2, z - D * t, 2, z - D * (z * e));
    Scaled(z, e);
  }

  lemma Scaled(z: int, e: int)
    ensures 2 * (z + D * (z * e)) == 2 * z * (1 + D * e) && 2 * (z - D * (z * e)) == 2 * z * (1 - D * e)
  {
    assert D * (z * e) == z * (D * e);
  }

  /** n = w*u and m = w*(1+e), with x*(1+e) = u, make n = x*m. */
  lemma Quotient(x: int, u: int, f: int, w: int, n: int, m: int)
    requires Eq(x * f, u) && Eq(n, w * u) && Eq(m, w * f)
    ensures Eq(n, x * m)
  {
    hide Eq;
    EqRefl(w);
    EqSym(x * f, u);
    EqMul(w, u, w, x * f);
    EqTrans(n, w * u, w * (x * f));
    EqRefl(x);
    EqSym(m, w * f);
    EqMul(x, w * f, x, m);
    assert w * (x * f) == x * (w * f);
    EqTrans(n, x * (w * f), x * m);
  }

  /** u/f in the field */
  lemma Divide<G(!new)>(c: Curve<G>, u: int, f: int) returns (x: int)
    requires Lawful(c) && !Eq(f, 0)
    ensures Eq(x * f, u)
  {
    assert Inverts(c, f);
    hide Eq, Lawful;
    x := u * c.inv(f);
    EqRefl(u);
    EqMul(u, f * c.inv(f), u, 1);
    assert u * (f * c.inv(f)) == x * f;
  }

  /** Coordinates that are multiples of numerators and denominators of the addition law hold the sum. */
  lemma Completes<G(!new)>(c: Curve<G>, x1: int, y1: int, x2: int, y2: int, w: int, w1: int, rx: int, ry: int, rz: int, rt: int)
    returns (x3: int, y3: int)
    requires Lawful(c) && OnCurve(x1, y1) && OnCurve(x2, y2) && !Eq(w, 0) && !Eq(w1, 0)
    requires var e := D * (x1 * y1 * (x2 * y2));
      && Eq(rx, w * (x1 * y2 + x2 * y1)) && Eq(rz, w * (1 + e))
      && Eq(ry, w1 * (y1 * y2 + x1 * x2)) && Eq(rt, w1 * (1 - e))
    ensures CompletedAt(x3, y3, rx, ry, rz, rt) && c.at(x3, y3) == c.add(c.at(x1, y1), c.at(x2, y2))
  {
    hide Eq, Lawful, OnCurve;
    var e := D * (x1 * y1 * (x2 * y2));
    Complete(c, x1, y1, x2, y2);
    x3 := Fraction(c, x1 * y2 + x2 * y1, 1 + e, w, rx, rz);
    y3 := Fraction(c, y1 * y2 + x1 * x2, 1 - e, w1, ry, rt);
    AddsAt(c, x1, y1, x2, y2, x3, y3);
  }

  lemma Complete<G(!new)>(c: Curve<G>, x1: int, y1: int, x2: int, y2: int)
    requires Lawful(c) && OnCurve(x1, y1) && OnCurve(x2, y2)
    ensures !Eq(1 + D * (x1 * y1 * (x2 * y2)), 0) && !Eq(1 - D * (x1 * y1 * (x2 * y2)), 0)
  {
    assert Adds(c, x1, y1, x2, y2, 0, 0);
    hide Eq, Lawful, OnCurve;
  }

  /** The coordinates w*u and w*f hold the fraction u/f. */
  lemma Fraction<G(!new)>(c: Curve<G>, u: int, f: int, w: int, n: int, m: int) returns (x: int)
    requires Lawful(c) && !Eq(f, 0) && !Eq(w, 0) && Eq(n, w * u) && Eq(m, w * f)
    ensures Eq(x * f, u) && Eq(n, x * m) && !Eq(m, 0)
  {
    hide Eq, Lawful;
    x := Divide(c, u, f);
    Quotient(x, u, f, w, n, m);
    NonZero(c, w, f);
    NonZeroEq(m, w * f);
  }

  lemma MinusNonZero(w: int)
    requires !Eq(w, 0)
    ensures !Eq(-w, 0)
  {
    hide Eq;
    if Eq(-w, 0) {
      EqRefl(0);
      EqSub(0, -w, 0, 0);
    }
  }

  lemma AddsAt<G(!new)>(c: Curve<G>, x1: int, y1: int, x2: int, y2: int, x3: int, y3: int)
    requires Lawful(c) && OnCurve(x1, y1) && OnCurve(x2, y2)
    requires Eq(x3 * (1 + D * (x1 * y1 * (x2 * y2))), x1 * y2 + x2 * y1)
    requires Eq(y3 * (1 - D * (x1 * y1 * (x2 * y2))), y1 * y2 + x1 * x2)
    ensures OnCurve(x3, y3) && c.at(x3, y3) == c.add(c.at(x1, y1), c.at(x2, y2))
  {
    assert Adds(c, x1, y1, x2, y2, x3, y3);
    hide Eq, Lawful, OnCurve;
  }

  /** add_p1p1 adds, on points whose T is fresh. */
  lemma AddIs<G(!new)>(c: Curve<G>, p: P3, g: G, q: P3, h: G, r: P1P1)
    requires Lawful(c) && Is(c, p, g) && Is(c, q, h) && FreshT(p) && FreshT(q) && IsAdd(p, q, r)
    ensures IsCompleted(c, r, c.add(g, h))
  {
    hide Eq, Lawful, V, OnCurve;
    var x1, y1 :| Affine(x1, y1, V(p.x), V(p.y), V(p.z)) && c.at(x1, y1) == g;
    var x2, y2 :| Affine(x2, y2, V(q.x), V(q.y), V(q.z)) && c.at(x2, y2) == h;
    TOf(c, x1, y1, V(p.x), V(p.y), V(p.z), V(p.t));
    TOf(c, x2, y2, V(q.x), V(q.y), V(q.z), V(q.t));
    SumCoordinates(x1, y1, V(p.z), V(p.t), x2, y2, V(q.z), V(q.t), V(p.x), V(p.y), V(q.x), V(q.y),
                   V(r.x), V(r.y), V(r.z), V(r.t));
    TwoNonZero();
    NonZero(c, V(p.z), V(q.z));
    NonZero(c, 2, V(p.z) * V(q.z));
    var x3, y3 := Completes(c, x1, y1, x2, y2, 2 * (V(p.z) * V(q.z)), 2 * (V(p.z) * V(q.z)), V(r.x), V(r.y), V(r.z), V(r.t));
  }

  // ---- doubling ----

  lemma DoubleCoordinates(x: int, y: int, z: int, px: int, py: int, rx: int, ry: int, rz: int, rt: int)
    requires Eq(px, x * z) && Eq(py, y * z) && OnCurve(x, y)
    requires Eq(rx, 2 * (px * py)) && Eq(ry, -(px * px) - py * py)
    requires Eq(rz, py * py - px * px) && Eq(rt, py * py - px * px - 2 * (z * z))
    ensures var w, e := z * z, D * (x * y * (x * y));
      && Eq(rx, w * (x * y + x * y)) && Eq(rz, w * (1 + e))
      && Eq(ry, -w * (y * y + x * x)) && Eq(rt, -w * (1 - e))
  {
    var w, e := z * z, D * (x * y * (x * y));
    assert x * x * (y * y) == x * y * (x * y);
    assert Eq(y * y - x * x, 1 + e);
    hide Eq, OnCurve;
    Cross(px, py, x, y, z, z);
    Cross(px, px, x, x, z, z);
    Cross(py, py, y, y, z, z);
    TwiceProduct(rx, px * py, w, x * y);
    MinusSum(ry, px * px, py * py, w, x * x, y * y);
    CurveTerm(rz, rt, px * px, py * py, w, x * x, y * y, e);
  }

  lemma TwiceProduct(r: int, a: int, w: int, u: int)
    requires Eq(r, 2 * a) && Eq(a, w * u)
    ensures Eq(r, w * (u + u))
  {
    hide Eq;
    EqRefl(2);
    EqMulTrans(r, 2, a, 2, w * u);
    assert 2 * (w * u) == w * (u + u);
  }

  lemma MinusSum(r: int, a: int, b: int, w: int, u: int, v: int)
    requires Eq(r, -a - b) && Eq(a, w * u) && Eq(b, w * v)
    ensures Eq(r, -w * (v + u))
  {
    hide Eq;
    EqAdd(a, b, w * u, w * v);
    EqRefl(0);
    EqSub(0, a + b, 0, w * u + w * v);
    EqTrans(r, -a - b, 0 - (w * u + w * v));
    assert 0 - (w * u + w * v) == -w * (v + u);
  }

  lemma CurveTerm(rz: int, rt: int, a: int, b: int, w: int, u: int, v: int, e: int)
    requires Eq(rz, b - a) && Eq(rt, b - a - 2 * w) && Eq(a, w * u) && Eq(b, w * v) && Eq(v - u, 1 + e)
    ensures Eq(rz, w * (1 + e)) && Eq(rt, -w * (1 - e))
  {
    hide Eq;
    EqSub(b, a, w * v, w * u);
    assert w * v - w * u == w * (v - u);
    EqRefl(w);
    EqMul(w, v - u, w, 1 + e);
    EqTrans(b - a, w * (v - u), w * (1 + e));
    EqTrans(rz, b - a, w * (1 + e));
    EqRefl(2 * w);
    EqSub(b - a, 2 * w, w * (1 + e), 2 * w);
    EqTrans(rt, b - a - 2 * w, w * (1 + e) - 2 * w);
    assert w * (1 + e) - 2 * w == -w * (1 - e);
  }

  /** dbl_p1p1 doubles, whatever T is. */
  lemma DoubleIs<G(!new)>(c: Curve<G>, p: P3, g: G, r: P1P1)
    requires Lawful(c) && Is(c, p, g) && IsDouble(p, r)
    ensures IsCompleted(c, r, c.add(g, g))
  {
    hide Eq, Lawful, V, OnCurve;
    var x, y :| Affine(x, y, V(p.x), V(p.y), V(p.z)) && c.at(x, y) == g;
    DoubleCoordinates(x, y, V(p.z), V(p.x), V(p.y), V(r.x), V(r.y), V(r.z), V(r.t));
    NonZero(c, V(p.z), V(p.z));
    MinusNonZero(V(p.z) * V(p.z));
    var x3, y3 := Completes(c, x, y, x, y, V(p.z) * V(p.z), -(V(p.z) * V(p.z)), V(r.x), V(r.y), V(r.z), V(r.t));
  }

  lemma NeutralIs<G(!new)>(c: Curve<G>, p: P3)
    requires Lawful(c) && V(p.x) == 0 && V(p.y) == 1 && V(p.z) == 1
    ensures Is(c, p, c.zero)
  {
    OneNonZero();
    EqRefl(0);
    EqRefl(1);
    assert Affine(0, 1, 0, 1, 1);
  }

  // ---- mixed addition ----

  /** The affine point (x, y) in extended coordinates, with Z = 1 and T = x*y. */
  lemma AffineIs<G(!new)>(c: Curve<G>, q: P3)
    requires Lawful(c) && OnCurve(V(q.x), V(q.y)) && V(q.z) == 1 && Eq(V(q.t), V(q.x) * V(q.y))
    ensures Is(c, q, c.at(V(q.x), V(q.y))) && FreshT(q)
  {
    var x, y := V(q.x), V(q.y);
    OneNonZero();
    EqRefl(x);
    EqRefl(y);
    EqSym(V(q.t), x * y);
    hide Eq, V, OnCurve;
    assert x * 1 == x && y * 1 == y && 1 * V(q.t) == V(q.t);
    assert Affine(x, y, x, y, 1);
  }

  /** ge25519_mixadd2: adds a point in affine coordinates and leaves T fresh. */
  method MixAdd2<G(!new)>(ghost c: Curve<G>, r: P3, qx: Fe, qy: Fe, ghost k: G) returns (s: P3)
    requires Lawful(c) && Is(c, r, k) && FreshT(r) && OnCurve(V(qx), V(qy))
    ensures Is(c, s, c.add(k, c.at(V(qx), V(qy)))) && FreshT(s)
  {
    hide Eq, V, FreshT, Is, Lawful, OnCurve;
    ghost var x1, y1, z1, t1, x2, y2 := V(r.x), V(r.y), V(r.z), V(r.t), V(qx), V(qy);
    var qt := Mul(qx, qy);
    var a0 := Sub(r.y, r.x);
    var b0 := Add(r.y, r.x);
    var u1 := Sub(qy, qx);
    var u2 := Add(qy, qx);
    var a := Mul(a0, u1);
    EqMulTrans(V(a), V(a0), V(u1), y1 - x1, y2 - x2);
    var b := Mul(b0, u2);
    EqMulTrans(V(b), V(b0), V(u2), x1 + y1, x2 + y2);
    var e := Sub(b, a);
    var h := Add(b, a);
    var c0 := Mul(r.t, qt);
    var cc := Mul(c0, EC2D);
    Ec2dValue();
    EqMulTrans(V(cc), V(c0), V(EC2D), t1 * V(qt), 2 * D);
    var d := Add(r.z, r.z);
    var f := Sub(d, cc);
    var g := Add(d, cc);
    SumOfProducts(x1, y1, x2, y2, V(a), V(b), V(e), V(h));
    Denominators(z1, t1 * V(qt), V(cc), V(d), V(g), V(f));
    var x := Mul(e, f);
    var y := Mul(h, g);
    var z := Mul(g, f);
    var t := Mul(e, h);
    s := P3(x, y, z, t);
    ghost var q := P3(qx, qy, ONE, qt);
    OneValue();
    MixIs(c, r, k, q, P1P1(e, h, g, f), s);
    CompletedT(V(e), V(h), V(g), V(f), V(x), V(y), V(z), V(t));
    assert FreshT(s) by {
      FreshTIntro(s);
    }
  }

  lemma FreshTIntro(s: P3)
    requires Eq(V(s.x) * V(s.y), V(s.z) * V(s.t))
    ensures FreshT(s)
  {
  }

  lemma MixIs<G(!new)>(c: Curve<G>, r: P3, k: G, q: P3, p: P1P1, s: P3)
    requires Lawful(c) && Is(c, r, k) && FreshT(r) && OnCurve(V(q.x), V(q.y)) && V(q.z) == 1 && Eq(V(q.t), V(q.x) * V(q.y))
    requires Eq(V(p.x), 2 * (V(r.x) * V(q.y) + V(q.x) * V(r.y))) && Eq(V(p.y), 2 * (V(r.y) * V(q.y) + V(r.x) * V(q.x)))
    requires Eq(V(p.z), 2 * (V(r.z) + D * (V(r.t) * V(q.t)))) && Eq(V(p.t), 2 * (V(r.z) - D * (V(r.t) * V(q.t))))
    requires Eq(V(s.x), V(p.x) * V(p.t)) && Eq(V(s.y), V(p.y) * V(p.z)) && Eq(V(s.z), V(p.z) * V(p.t))
    ensures Is(c, s, c.add(k, c.at(V(q.x), V(q.y))))
  {
    hide Eq, V, FreshT, Is, Lawful, OnCurve;
    AffineIs(c, q);
    assert V(r.z) * 1 == V(r.z);
    AddIs(c, r, k, q, c.at(V(q.x), V(q.y)), p);
    ToP2Is(c, p, s, c.add(k, c.at(V(q.x), V(q.y))));
  }

  const ONE: Fe := [1] + seq(31, i => 0)

  lemma OneValue()
    ensures V(ONE) == 1
  {
    assert ONE[1..] == seq(31, i => 0);
    F.ValZero(ONE[1..]);
  }
}
