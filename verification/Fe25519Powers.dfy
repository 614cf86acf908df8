/**
 The two exponentiation chains: inversion by x^(p-2) and the power x^((p-5)/8) used for
 square roots. Exponents are tracked through every squaring loop.
 */
module Fe25519Powers {
  import opened Words
  import opened Bits
  import opened ModArith
  import opened Fe25519

  /** The limbs s hold a byte-limbed representative of x^e. */
  ghost predicate IsPow(s: seq<int>, x: int, e: nat) {
    |s| == 32 && Limbs(s, 255) && Cong(Val(s), Pow(x, e), P)
  }

  lemma IsPowOne(s: seq<int>)
    requires |s| == 32 && Limbs(s, 255)
    ensures IsPow(s, Val(s), 1)
  {
    assert Pow(Val(s), 1) == Val(s) * Pow(Val(s), 0);
    CongRefl(Val(s), P);
  }

  /** Multiplying powers adds exponents. */
  method MulPow(r: array<u32>, a: array<u32>, b: array<u32>, ghost x: int, ghost i: nat, ghost j: nat)
    requires r.Length == a.Length == b.Length == 32
    requires IsPow(a[..], x, i) && IsPow(b[..], x, j)
    modifies r
    ensures IsPow(r[..], x, i + j)
  {
    ghost var u, v := Val(a[..]), Val(b[..]);
    Mul(r, a, b);
    CongMul(u, v, Pow(x, i), Pow(x, j), P);
    PowAdd(x, i, j);
    CongTrans(Val(r[..]), u * v, Pow(x, i + j), P);
  }

  method SquarePow(r: array<u32>, a: array<u32>, ghost x: int, ghost i: nat)
    requires r.Length == a.Length == 32 && IsPow(a[..], x, i)
    modifies r
    ensures IsPow(r[..], x, 2 * i)
  {
    MulPow(r, a, a, x, i, i);
  }

  /** n squarings of z, n even, alternating between ta and tb. */
  method SquareAlternating(ta: array<u32>, tb: array<u32>, z: array<u32>, n: nat, ghost x: int, ghost i: nat)
    requires ta.Length == tb.Length == z.Length == 32 && ta != tb && n >= 2 && n % 2 == 0
    requires IsPow(z[..], x, i)
    modifies ta, tb
    ensures IsPow(tb[..], x, Shl(i, n))
  {
    hide IsPow;
    assert Shl(i, 0) == i && Shl(i, 1) == 2 * i && Shl(i, 2) == 4 * i;
    SquarePow(ta, z, x, i);
    SquarePow(tb, ta, x, 2 * i);
    var k := 2;
    while k < n
      invariant 2 <= k <= n && k % 2 == 0
      invariant IsPow(tb[..], x, Shl(i, k))
    {
      SquarePow(ta, tb, x, Shl(i, k));
      SquarePow(tb, ta, x, Shl(i, k + 1));
      k := k + 2;
    }
  }

  /** n squarings of z in the one buffer t. */
  method SquareInPlace(t: array<u32>, z: array<u32>, n: nat, ghost x: int, ghost i: nat)
    requires t.Length == z.Length == 32 && n >= 1
    requires IsPow(z[..], x, i)
    modifies t
    ensures IsPow(t[..], x, Shl(i, n))
  {
    hide IsPow;
    SquarePow(t, z, x, i);
    for k := 1 to n
      invariant IsPow(t[..], x, Shl(i, k))
    {
      SquarePow(t, t, x, Shl(i, k));
    }
  }

  /** From z = x^(2^a - 1) and w = x^(2^n - 1) to r = x^(2^(a+n) - 1). */
  method Extend(r: array<u32>, ta: array<u32>, tb: array<u32>, z: array<u32>, w: array<u32>, n: nat,
                ghost x: int, ghost a: nat)
    requires r.Length == ta.Length == tb.Length == z.Length == w.Length == 32
    requires ta != tb && w != ta && w != tb && n >= 2 && n % 2 == 0
    requires IsPow(z[..], x, Power(a) - 1) && IsPow(w[..], x, Power(n) - 1)
    modifies r, ta, tb
    ensures IsPow(r[..], x, Power(a + n) - 1)
  {
    hide IsPow;
    SquareAlternating(ta, tb, z, n, x, Power(a) - 1);
    ShlOnes(a, n);
    MulPow(r, tb, w, x, Shl(Power(a) - 1, n), Power(n) - 1);
  }

  method ExtendInPlace(r: array<u32>, t: array<u32>, z: array<u32>, w: array<u32>, n: nat,
                       ghost x: int, ghost a: nat)
    requires r.Length == t.Length == z.Length == w.Length == 32 && w != t && n >= 1
    requires IsPow(z[..], x, Power(a) - 1) && IsPow(w[..], x, Power(n) - 1)
    modifies r, t
    ensures IsPow(r[..], x, Power(a + n) - 1)
  {
    hide IsPow;
    SquareInPlace(t, z, n, x, Power(a) - 1);
    ShlOnes(a, n);
    MulPow(r, t, w, x, Shl(Power(a) - 1, n), Power(n) - 1);
  }

  lemma {:induction false} ShlOnes(a: nat, n: nat)
    ensures Shl(Power(a) - 1, n) == Power(a + n) - Power(n)
  {
    if n > 0 {
      ShlOnes(a, n - 1);
      assert Power(a + n) == 2 * Power(a + n - 1);
    }
  }

  /** The powers x^2, x^9, x^11 and x^31 that both chains start from. */
  method FirstPowers(z2: array<u32>, z9: array<u32>, z11: array<u32>, z31: array<u32>,
                     t0: array<u32>, t1: array<u32>, x: array<u32>, ghost v: int)
    requires z2.Length == z9.Length == z11.Length == z31.Length == t0.Length == t1.Length == x.Length == 32
    requires z2 != z9 && z2 != z11 && z9 != z11 && z31 != z11 && t0 != z9 && t0 != z11 && t0 != z2
    requires x !in {z2, z9, z11, z31, t0, t1} && t1 != z2 && t1 != t0
    requires IsPow(x[..], v, 1)
    modifies z2, z9, z11, z31, t0, t1
    ensures IsPow(z11[..], v, 11) && IsPow(z31[..], v, 31)
  {
    hide IsPow;
    SquarePow(z2, x, v, 1);
    SquarePow(t1, z2, v, 2);
    SquarePow(t0, t1, v, 4);
    MulPow(z9, t0, x, v, 8, 1);
    MulPow(z11, z9, z2, v, 9, 2);
    SquarePow(t0, z11, v, 11);
    MulPow(z31, t0, z9, v, 22, 9);
  }

  /** Five squarings, alternating; the result is in ta. */
  method SquareFive(ta: array<u32>, tb: array<u32>, z: array<u32>, ghost x: int, ghost i: nat)
    requires ta.Length == tb.Length == z.Length == 32 && ta != tb
    requires IsPow(z[..], x, i)
    modifies ta, tb
    ensures IsPow(ta[..], x, 32 * i)
  {
    hide IsPow;
    SquarePow(ta, z, x, i);
    SquarePow(tb, ta, x, 2 * i);
    SquarePow(ta, tb, x, 4 * i);
    SquarePow(tb, ta, x, 8 * i);
    SquarePow(ta, tb, x, 16 * i);
  }

  lemma PowerChain(n: nat)
    ensures Power(n + 2) == 4 * Power(n) && Power(n + 5) == 32 * Power(n)
    ensures Power(5) == 32
  {
    assert Power(n + 2) == 4 * Power(n);
    assert Power(n + 4) == 4 * Power(n + 2);
    assert Power(n + 5) == 2 * Power(n + 4);
    assert Power(2) == 4;
    assert Power(4) == 16;
  }

  /** From x^(2^10 - 1) to x^(2^250 - 1), left in t0. */
  method ToPow250(z10: array<u32>, t0: array<u32>, t1: array<u32>, ghost x: int)
    requires z10.Length == t0.Length == t1.Length == 32 && z10 != t0 && z10 != t1 && t0 != t1
    requires IsPow(z10[..], x, Power(10) - 1)
    modifies t0, t1
    ensures IsPow(t0[..], x, Power(250) - 1)
  {
    hide *;
    var z20, z50, z100 := new u32[32], new u32[32], new u32[32];
    Extend(z20, t0, t1, z10, z10, 10, x, 10);
    Extend(t0, t0, t1, z20, z20, 20, x, 20);
    Extend(z50, t1, t0, t0, z10, 10, x, 40);
    Extend(z100, t0, t1, z50, z50, 50, x, 50);
    Extend(t1, t1, t0, z100, z100, 100, x, 100);
    Extend(t0, t0, t1, t1, z50, 50, x, 200);
  }

  /** x^(2^255 - 21), that is x^(p - 2). */
  method Invert(r: array<u32>, x: array<u32>)
    requires r.Length == x.Length == 32 && Limbs(x[..], 255)
    modifies r
    ensures Limbs(r[..], 255)
    ensures Cong(Val(r[..]), Pow(old(Val(x[..])), Power(255) - 21), P)
  {
    hide *;
    ghost var v := Val(x[..]);
    IsPowOne(x[..]);
    var z2, z9, z11, z5, z10 := new u32[32], new u32[32], new u32[32], new u32[32], new u32[32];
    var t0, t1 := new u32[32], new u32[32];
    FirstPowers(z2, z9, z11, z5, t0, t1, x, v);
    SquareFive(t0, t1, z5, v, 31);
    MulPow(z10, t0, z5, v, 32 * 31, 31);
    PowerChain(5);
    ToPow250(z10, t0, t1, v);
    SquareFive(t1, t0, t0, v, Power(250) - 1);
    PowerChain(250);
    MulPow(r, t1, z11, v, 32 * (Power(250) - 1), 11);
  }

  /** x^(2^252 - 3), that is x^((p - 5) / 8). */
  method Pow2523(r: array<u32>, x: array<u32>)
    requires r.Length == x.Length == 32 && Limbs(x[..], 255)
    modifies r
    ensures Limbs(r[..], 255)
    ensures Cong(Val(r[..]), Pow(old(Val(x[..])), Power(252) - 3), P)
  {
    hide *;
    ghost var v := Val(x[..]);
    IsPowOne(x[..]);
    var z2, z9, z11, z5, t := new u32[32], new u32[32], new u32[32], new u32[32], new u32[32];
    SquarePow(z2, x, v, 1);
    SquarePow(t, z2, v, 2);
    SquarePow(t, t, v, 4);
    MulPow(z9, t, x, v, 8, 1);
    MulPow(z11, z9, z2, v, 9, 2);
    SquarePow(t, z11, v, 11);
    MulPow(z5, t, z9, v, 22, 9);
    PowerChain(0);
    ToPow250InPlace(z5, t, v);
    SquarePow(t, t, v, Power(250) - 1);
    SquarePow(t, t, v, 2 * (Power(250) - 1));
    PowerChain(250);
    MulPow(r, t, x, v, 4 * (Power(250) - 1), 1);
  }

  /** From x^(2^5 - 1) to x^(2^250 - 1), left in t. */
  method ToPow250InPlace(z5: array<u32>, t: array<u32>, ghost x: int)
    requires z5.Length == t.Length == 32 && z5 != t
    requires IsPow(z5[..], x, Power(5) - 1)
    modifies t
    ensures IsPow(t[..], x, Power(250) - 1)
  {
    hide *;
    var z10, z20, z50, z100 := new u32[32], new u32[32], new u32[32], new u32[32];
    ExtendInPlace(z10, t, z5, z5, 5, x, 5);
    ExtendInPlace(z20, t, z10, z10, 10, x, 10);
    ExtendInPlace(t, t, z20, z20, 20, x, 20);
    ExtendInPlace(z50, t, t, z10, 10, x, 40);
    ExtendInPlace(z100, t, z50, z50, 50, x, 50);
    ExtendInPlace(t, t, z100, z100, 100, x, 100);
    ExtendInPlace(t, t, t, z50, 50, x, 200);
  }

  // ---- inversion ----

  lemma {:induction false} PowerBase(n: nat)
    ensures Power(8 * n) == Base(n)
  {
    if n > 0 {
      PowerBase(n - 1);
      PowerAdd(8 * n - 8, 8);
      assert Power(4) == 16;
      assert Power(8) == 256;
    }
  }

  lemma PowerOf255()
    ensures Power(255) == TOP
  {
    PowerBase(31);
    Base31();
    PowerChain(248);
    assert Power(255) == 4 * Power(253);
  }

  /** Where Fermat's little theorem holds, the result of `Invert` is the inverse. */
  lemma InvertIsInverse(x: int, inverse: int)
    requires Cong(inverse, Pow(x, Power(255) - 21), P)
    requires Cong(Pow(x, Power(255) - 20), 1, P)
    ensures Cong(x * inverse, 1, P)
    ensures Power(255) - 20 == P - 1
  {
    var e := Power(255) - 21;
    PowerOf255();
    assert Pow(x, e + 1) == x * Pow(x, e);
    CongRefl(x, P);
    CongMul(x, inverse, x, Pow(x, e), P);
    CongTrans(x * inverse, Pow(x, e + 1), 1, P);
  }
}
