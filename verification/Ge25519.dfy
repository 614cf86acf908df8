/**
 Points on the twisted Edwards curve -x^2 + y^2 = 1 + d x^2 y^2 over the integers modulo
 2^255 - 19, in projective (X, Y, Z), extended (X, Y, Z, T) and completed coordinates.
 */
module Ge25519 {
  import opened Words
  import opened ModArith
  import F = Fe25519

  // ---- equality in the field ----

  ghost predicate Eq(a: int, b: int) {
    Cong(a, b, F.P)
  }

  lemma EqRefl(a: int)
    ensures Eq(a, a)
  {
    CongRefl(a, F.P);
  }

  lemma EqSym(a: int, b: int)
    requires Eq(a, b)
    ensures Eq(b, a)
  {
    CongSym(a, b, F.P);
  }

  lemma EqTrans(a: int, b: int, c: int)
    requires Eq(a, b) && Eq(b, c)
    ensures Eq(a, c)
  {
    CongTrans(a, b, c, F.P);
  }

  lemma EqAdd(a: int, b: int, c: int, d: int)
    requires Eq(a, c) && Eq(b, d)
    ensures Eq(a + b, c + d)
  {
    CongAdd(a, b, c, d, F.P);
  }

  lemma EqSub(a: int, b: int, c: int, d: int)
    requires Eq(a, c) && Eq(b, d)
    ensures Eq(a - b, c - d)
  {
    CongSub(a, b, c, d, F.P);
  }

  lemma EqMul(a: int, b: int, c: int, d: int)
    requires Eq(a, c) && Eq(b, d)
    ensures Eq(a * b, c * d)
  {
    CongMul(a, b, c, d, F.P);
  }

  // ---- field elements as structs ----

  /** 32 limbs within the bounds that the field operations keep. */
  type Fe = s: seq<u32> | |s| == 32 && (forall i :: 0 <= i < 32 ==> s[i] <= 255) && s[31] <= 128
    witness seq(32, i => 0)

  ghost function V(x: Fe): int {
    F.Val(x)
  }

  method Limbs(x: Fe) returns (a: array<u32>)
    ensures fresh(a) && a[..] == x
  {
    a := new u32[32](i requires 0 <= i < 32 => x[i]);
  }

  method Mul(x: Fe, y: Fe) returns (r: Fe)
    ensures Eq(V(r), V(x) * V(y))
  {
    var a := Limbs(x);
    var b := Limbs(y);
    F.Mul(a, a, b);
    r := a[..];
  }

  method Add(x: Fe, y: Fe) returns (r: Fe)
    ensures Eq(V(r), V(x) + V(y))
  {
    var a := Limbs(x);
    var b := Limbs(y);
    F.Add(a, a, b);
    r := a[..];
  }

  method Sub(x: Fe, y: Fe) returns (r: Fe)
    ensures Eq(V(r), V(x) - V(y))
  {
    var a := Limbs(x);
    var b := Limbs(y);
    F.Sub(a, a, b);
    r := a[..];
  }

  method Neg(x: Fe) returns (r: Fe)
    ensures Eq(V(r), -V(x))
  {
    var a := Limbs(x);
    F.Neg(a, a);
    r := a[..];
  }

  // ---- constants ----

  /** d = -121665/121666 */
  const D: int := 37095705934669439343138083508754565189542113879843219016388785533085940283555

  const EC2D_0: seq<u8> := [0x59, 0xF1, 0xB2, 0x26, 0x94, 0x9B, 0xD6, 0xEB]
  const EC2D_1: seq<u8> := [0x56, 0xB1, 0x83, 0x82, 0x9A, 0x14, 0xE0, 0x00]
  const EC2D_2: seq<u8> := [0x30, 0xD1, 0xF3, 0xEE, 0xF2, 0x80, 0x8E, 0x19]
  const EC2D_3: seq<u8> := [0xE7, 0xFC, 0xDF, 0x56, 0xDC, 0xD9, 0x06, 0x24]

  /** The limbs of 2d. */
  const EC2D: Fe := EC2D_0 + EC2D_1 + EC2D_2 + EC2D_3

  lemma DIsTheQuotient()
    ensures Eq(121666 * D, -121665)
  {
    CongIntro(121666 * D, -121665, (121666 * D + 121665) / F.P, F.P);
  }

  lemma Val4(a: int, b: int, c: int, d: int, s: seq<int>)
    ensures F.Val([a, b, c, d] + s) == a + 0x100 * b + 0x1_0000 * c + 0x100_0000 * d + 0x1_0000_0000 * F.Val(s)
  {
    ValCons(d, s);
    ValCons(c, [d] + s);
    ValCons(b, [c] + ([d] + s));
    ValCons(a, [b] + ([c] + ([d] + s)));
    assert [a] + ([b] + ([c] + ([d] + s))) == [a, b, c, d] + s;
  }

  lemma ValCons(a: int, s: seq<int>)
    ensures F.Val([a] + s) == a + 256 * F.Val(s)
  {
    assert ([a] + s)[1..] == s;
  }

  lemma Val8(s: seq<int>)
    requires |s| == 8
    ensures F.Val(s) == s[0] + 0x100 * s[1] + 0x1_0000 * s[2] + 0x100_0000 * s[3]
      + 0x1_0000_0000 * (s[4] + 0x100 * s[5] + 0x1_0000 * s[6] + 0x100_0000 * s[7])
  {
    Val4(s[4], s[5], s[6], s[7], []);
    Val4(s[0], s[1], s[2], s[3], s[4..]);
    assert [s[4], s[5], s[6], s[7]] + [] == s[4..];
    assert [s[0], s[1], s[2], s[3]] + s[4..] == s;
  }

  lemma Ec2dChunks()
    ensures F.Val(EC2D_0) == 0xEBD69B9426B2F159 && F.Val(EC2D_1) == 0x00E0149A8283B156
    ensures F.Val(EC2D_2) == 0x198E80F2EEF3D130 && F.Val(EC2D_3) == 0x2406D9DC56DFFCE7
  {
    Val8(EC2D_0);
    Val8(EC2D_1);
    Val8(EC2D_2);
    Val8(EC2D_3);
  }

  /** The limbs of the constant hold 2d. */
  lemma Ec2dValue()
    ensures Eq(V(EC2D), 2 * D)
  {
    Ec2dChunks();
    Chunks(EC2D_0, EC2D_1, EC2D_2, EC2D_3);
    var v := 0x2406D9DC56DFFCE7198E80F2EEF3D13000E0149A8283B156EBD69B9426B2F159;
    assert V(EC2D) == v;
    assert v == 2 * D - F.P;
    CongIntro(v, 2 * D, -1, F.P);
  }

  lemma Chunks(a: seq<int>, b: seq<int>, c: seq<int>, d: seq<int>)
    requires |a| == |b| == |c| == 8
    ensures var w := 0x1_0000_0000_0000_0000;
      F.Val(a + b + c + d) == F.Val(a) + w * (F.Val(b) + w * (F.Val(c) + w * F.Val(d)))
  {
    hide F.Val;
    assert a + b + c + d == a + (b + (c + d));
    Chunk(a, b + (c + d));
    Chunk(b, c + d);
    Chunk(c, d);
  }

  lemma Chunk(a: seq<int>, b: seq<int>)
    requires |a| == 8
    ensures F.Val(a + b) == F.Val(a) + 0x1_0000_0000_0000_0000 * F.Val(b)
  {
    F.ValConcat(a, b);
    assert F.Base(8) == 0x1_0000_0000_0000_0000;
  }

  // ---- points ----

  /** Extended coordinates: x = X/Z, y = Y/Z and, unless stale, X*Y = Z*T. */
  datatype P3 = P3(x: Fe, y: Fe, z: Fe, t: Fe)

  /** Completed coordinates: x = X/Z, y = Y/T. */
  datatype P1P1 = P1P1(x: Fe, y: Fe, z: Fe, t: Fe)

  ghost predicate FreshT(p: P3) {
    Eq(V(p.x) * V(p.y), V(p.z) * V(p.t))
  }

  /** p1p1_to_p2, written over the first three coordinates of r: T stays what it was. */
  method P1P1ToP2(r: P3, p: P1P1) returns (q: P3)
    ensures Eq(V(q.x), V(p.x) * V(p.t)) && Eq(V(q.y), V(p.y) * V(p.z)) && Eq(V(q.z), V(p.z) * V(p.t))
    ensures q.t == r.t
  {
    var x := Mul(p.x, p.t);
    var y := Mul(p.y, p.z);
    var z := Mul(p.z, p.t);
    q := P3(x, y, z, r.t);
  }

  /** p1p1_to_p3: T is right whatever it was before. */
  method P1P1ToP3(r: P3, p: P1P1) returns (q: P3)
    ensures Eq(V(q.x), V(p.x) * V(p.t)) && Eq(V(q.y), V(p.y) * V(p.z)) && Eq(V(q.z), V(p.z) * V(p.t))
    ensures FreshT(q)
  {
    hide Eq, V;
    q := P1P1ToP2(r, p);
    var t := Mul(p.x, p.y);
    q := q.(t := t);
    CompletedT(V(p.x), V(p.y), V(p.z), V(p.t), V(q.x), V(q.y), V(q.z), V(q.t));
  }

  lemma CompletedT(a: int, b: int, c: int, d: int, x: int, y: int, z: int, t: int)
    requires Eq(x, a * d) && Eq(y, b * c) && Eq(z, c * d) && Eq(t, a * b)
    ensures Eq(x * y, z * t)
  {
    hide Eq;
    EqMul(x, y, a * d, b * c);
    EqMul(z, t, c * d, a * b);
    assert (a * d) * (b * c) == (c * d) * (a * b);
    EqSym(z * t, (c * d) * (a * b));
    EqTrans(x * y, (a * d) * (b * c), z * t);
  }

  /** The sum of two extended points in completed coordinates. */
  ghost predicate IsAdd(p: P3, q: P3, r: P1P1) {
    var x1, y1, z1, t1 := V(p.x), V(p.y), V(p.z), V(p.t);
    var x2, y2, z2, t2 := V(q.x), V(q.y), V(q.z), V(q.t);
    && Eq(V(r.x), 2 * (x1 * y2 + x2 * y1)) && Eq(V(r.y), 2 * (y1 * y2 + x1 * x2))
    && Eq(V(r.z), 2 * (z1 * z2 + D * (t1 * t2))) && Eq(V(r.t), 2 * (z1 * z2 - D * (t1 * t2)))
  }

  lemma SumOfProducts(x1: int, y1: int, x2: int, y2: int, a: int, b: int, rx: int, ry: int)
    requires Eq(a, (y1 - x1) * (y2 - x2)) && Eq(b, (x1 + y1) * (x2 + y2)) && Eq(rx, b - a) && Eq(ry, b + a)
    ensures Eq(rx, 2 * (x1 * y2 + x2 * y1)) && Eq(ry, 2 * (y1 * y2 + x1 * x2))
  {
    hide Eq;
    var a0, b0 := (y1 - x1) * (y2 - x2), (x1 + y1) * (x2 + y2);
    EqSub(b, a, b0, a0);
    EqTrans(rx, b - a, b0 - a0);
    assert b0 - a0 == 2 * (x1 * y2 + x2 * y1);
    EqAdd(b, a, b0, a0);
    EqTrans(ry, b + a, b0 + a0);
    assert b0 + a0 == 2 * (y1 * y2 + x1 * x2);
  }

  lemma Denominators(z: int, t: int, c: int, d: int, rz: int, rt: int)
    requires Eq(c, t * (2 * D)) && Eq(d, z + z) && Eq(rt, d - c) && Eq(rz, d + c)
    ensures Eq(rz, 2 * (z + D * t)) && Eq(rt, 2 * (z - D * t))
  {
    hide Eq;
    EqSub(d, c, z + z, t * (2 * D));
    EqTrans(rt, d - c, z + z - t * (2 * D));
    EqAdd(d, c, z + z, t * (2 * D));
    EqTrans(rz, d + c, z + z + t * (2 * D));
    assert z + z - t * (2 * D) == 2 * (z - D * t) && z + z + t * (2 * D) == 2 * (z + D * t);
  }

  /** A product of an inner result with another element. */
  lemma EqMulTrans(r: int, a: int, b: int, a0: int, b0: int)
    requires Eq(r, a * b) && Eq(a, a0) && Eq(b, b0)
    ensures Eq(r, a0 * b0)
  {
    hide Eq;
    EqMul(a, b, a0, b0);
    EqTrans(r, a * b, a0 * b0);
  }

  lemma Twice(r: int, a: int, a0: int)
    requires Eq(r, a + a) && Eq(a, a0)
    ensures Eq(r, a0 + a0)
  {
    hide Eq;
    EqAdd(a, a, a0, a0);
    EqTrans(r, a + a, a0 + a0);
  }

  /** add_p1p1 reads T of both points, so it must be fresh. */
  method AddP1P1(p: P3, q: P3) returns (r: P1P1)
    requires FreshT(p) && FreshT(q)
    ensures IsAdd(p, q, r)
  {
    hide Eq, V, FreshT;
    ghost var x1, y1, z1, t1 := V(p.x), V(p.y), V(p.z), V(p.t);
    ghost var x2, y2, z2, t2 := V(q.x), V(q.y), V(q.z), V(q.t);
    var a0 := Sub(p.y, p.x);
    var t := Sub(q.y, q.x);
    var a := Mul(a0, t);
    EqMulTrans(V(a), V(a0), V(t), y1 - x1, y2 - x2);
    var b0 := Add(p.x, p.y);
    t := Add(q.x, q.y);
    var b := Mul(b0, t);
    EqMulTrans(V(b), V(b0), V(t), x1 + y1, x2 + y2);
    var c0 := Mul(p.t, q.t);
    var c := Mul(c0, EC2D);
    Ec2dValue();
    EqMulTrans(V(c), V(c0), V(EC2D), t1 * t2, 2 * D);
    var d0 := Mul(p.z, q.z);
    var d := Add(d0, d0);
    Twice(V(d), V(d0), z1 * z2);
    var rx := Sub(b, a);
    var rt := Sub(d, c);
    var rz := Add(d, c);
    var ry := Add(b, a);
    SumOfProducts(x1, y1, x2, y2, V(a), V(b), V(rx), V(ry));
    Denominators(z1 * z2, t1 * t2, V(c), V(d), V(rz), V(rt));
    r := P1P1(rx, ry, rz, rt);
  }

  /** The double of a projective point in completed coordinates. */
  ghost predicate IsDouble(p: P3, r: P1P1) {
    var x, y, z := V(p.x), V(p.y), V(p.z);
    && Eq(V(r.x), 2 * (x * y)) && Eq(V(r.y), -(x * x) - y * y)
    && Eq(V(r.z), y * y - x * x) && Eq(V(r.t), y * y - x * x - 2 * (z * z))
  }

  lemma CrossTerm(x: int, y: int, s: int, s2: int, a: int, b: int, r0: int, r: int)
    requires Eq(s, x + y) && Eq(s2, s * s) && Eq(a, x * x) && Eq(b, y * y) && Eq(r0, s2 - a) && Eq(r, r0 - b)
    ensures Eq(r, 2 * (x * y))
  {
    hide Eq;
    EqMulTrans(s2, s, s, x + y, x + y);
    EqSub(s2, a, (x + y) * (x + y), x * x);
    EqTrans(r0, s2 - a, (x + y) * (x + y) - x * x);
    EqSub(r0, b, (x + y) * (x + y) - x * x, y * y);
    EqTrans(r, r0 - b, (x + y) * (x + y) - x * x - y * y);
    assert (x + y) * (x + y) - x * x - y * y == 2 * (x * y);
  }

  lemma DoubleDenominators(xx: int, yy: int, zz: int, a: int, b: int, c0: int, c: int, d: int, rz: int, rt: int, ry: int)
    requires Eq(a, xx) && Eq(b, yy) && Eq(c0, zz) && Eq(c, c0 + c0) && Eq(d, -a)
    requires Eq(rz, d + b) && Eq(rt, rz - c) && Eq(ry, d - b)
    ensures Eq(rz, yy - xx) && Eq(rt, yy - xx - 2 * zz) && Eq(ry, -xx - yy)
  {
    hide Eq;
    EqRefl(0);
    EqSub(0, a, 0, xx);
    EqTrans(d, -a, -xx);
    EqAdd(d, b, -xx, yy);
    EqTrans(rz, d + b, yy - xx);
    EqAdd(c0, c0, zz, zz);
    EqTrans(c, c0 + c0, zz + zz);
    EqSub(rz, c, yy - xx, zz + zz);
    EqTrans(rt, rz - c, yy - xx - 2 * zz);
    EqSub(d, b, -xx, yy);
    EqTrans(ry, d - b, -xx - yy);
  }

  /** dbl_p1p1 does not read T. */
  method DblP1P1(p: P3) returns (r: P1P1)
    ensures IsDouble(p, r)
  {
    hide Eq, V;
    ghost var x, y, z := V(p.x), V(p.y), V(p.z);
    var a := Mul(p.x, p.x);
    var b := Mul(p.y, p.y);
    var c0 := Mul(p.z, p.z);
    var c := Add(c0, c0);
    var d := Neg(a);
    var s := Add(p.x, p.y);
    var s2 := Mul(s, s);
    var r0 := Sub(s2, a);
    var rx := Sub(r0, b);
    CrossTerm(x, y, V(s), V(s2), V(a), V(b), V(r0), V(rx));
    var rz := Add(d, b);
    var rt := Sub(rz, c);
    var ry := Sub(d, b);
    DoubleDenominators(x * x, y * y, z * z, V(a), V(b), V(c0), V(c), V(d), V(rz), V(rt), V(ry));
    r := P1P1(rx, ry, rz, rt);
  }

  /** setneutral */
  method Neutral() returns (r: P3)
    ensures V(r.x) == 0 && V(r.y) == 1 && V(r.z) == 1 && FreshT(r)
  {
    var zero: Fe := seq(32, i => 0);
    var one: Fe := [1] + seq(31, i => 0);
    F.ValZero(zero);
    assert one[1..] == seq(31, i => 0);
    F.ValZero(one[1..]);
    r := P3(zero, one, one, zero);
    EqRefl(0);
  }
}
