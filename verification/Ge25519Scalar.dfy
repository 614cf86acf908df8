/** Double-scalar multiplication with a table of sixteen sums and interleaved base-4 digits. */
module Ge25519Scalar {
  import opened Words
  import opened Ge25519
  import opened Ge25519Group
  import F = Fe25519

  // ---- multiples in the group ----

  ghost function Times<G(!new)>(c: Curve<G>, n: nat, g: G): G {
    if n == 0 then c.zero else c.add(Times(c, n - 1, g), g)
  }

  /** m*g + n*h */
  ghost function Combo<G(!new)>(c: Curve<G>, m: nat, g: G, n: nat, h: G): G {
    c.add(Times(c, m, g), Times(c, n, h))
  }

  lemma Zero<G(!new)>(c: Curve<G>, a: G)
    requires Lawful(c)
    ensures c.add(c.zero, a) == a && c.add(a, c.zero) == a
  {
    assert Commutes(c, c.zero, a) && Commutes(c, a, c.zero);
  }

  lemma Swap<G(!new)>(c: Curve<G>, a: G, b: G, d: G, e: G)
    requires Lawful(c)
    ensures c.add(c.add(a, b), c.add(d, e)) == c.add(c.add(a, d), c.add(b, e))
  {
    assert Assoc(c, a, b, c.add(d, e)) && Assoc(c, b, d, e) && Commutes(c, b, d) && Assoc(c, d, b, e) && Assoc(c, a, d, c.add(b, e));
    hide Lawful;
  }

  lemma {:induction false} TimesAdd<G(!new)>(c: Curve<G>, m: nat, n: nat, g: G)
    requires Lawful(c)
    ensures Times(c, m + n, g) == c.add(Times(c, m, g), Times(c, n, g))
  {
    if n == 0 {
      Zero(c, Times(c, m, g));
    } else {
      TimesAdd(c, m, n - 1, g);
      assert Assoc(c, Times(c, m, g), Times(c, n - 1, g), g);
    }
  }

  lemma ComboAdd<G(!new)>(c: Curve<G>, m: nat, n: nat, m1: nat, n1: nat, g: G, h: G)
    requires Lawful(c)
    ensures c.add(Combo(c, m, g, n, h), Combo(c, m1, g, n1, h)) == Combo(c, m + m1, g, n + n1, h)
  {
    hide Lawful, Times;
    TimesAdd(c, m, m1, g);
    TimesAdd(c, n, n1, h);
    Swap(c, Times(c, m, g), Times(c, n, h), Times(c, m1, g), Times(c, n1, h));
  }

  lemma ComboOne<G(!new)>(c: Curve<G>, g: G, h: G)
    requires Lawful(c)
    ensures Combo(c, 0, g, 0, h) == c.zero && Combo(c, 1, g, 0, h) == g && Combo(c, 0, g, 1, h) == h
  {
    Zero(c, c.zero);
    Zero(c, g);
    Zero(c, h);
    assert Times(c, 1, g) == c.add(Times(c, 0, g), g) && Times(c, 1, h) == c.add(Times(c, 0, h), h);
  }

  // ---- digits ----

  function Num4(ds: seq<nat>): nat {
    if ds == [] then 0 else ds[0] + 4 * Num4(ds[1..])
  }

  function Digit(v: nat, j: nat): nat {
    if j == 0 then v % 4 else Digit(v / 4, j - 1)
  }

  /** The 127 base-4 digits of a scalar; the two top bits of the last limb are not used. */
  function Digits(s: seq<u8>): (ds: seq<nat>)
    requires |s| == 32
    ensures |ds| == 127
  {
    seq(127, j requires 0 <= j < 127 => Digit(s[j / 4], j % 4))
  }

  lemma Digit4(v: nat)
    ensures Digit(v, 0) == v % 4 && Digit(v, 1) == v / 4 % 4 && Digit(v, 2) == v / 16 % 4 && Digit(v, 3) == v / 64 % 4
  {
    assert Digit(v, 1) == Digit(v / 4, 0);
    assert Digit(v, 2) == Digit(v / 4, 1) == Digit(v / 4 / 4, 0);
    assert Digit(v / 4, 2) == Digit(v / 4 / 4, 1) == Digit(v / 4 / 4 / 4, 0);
    assert v / 4 / 4 == v / 16 && v / 4 / 4 / 4 == v / 64;
  }

  lemma Quarters(v: nat)
    requires v < 256
    ensures v == v % 4 + 4 * (v / 4 % 4) + 16 * (v / 16 % 4) + 64 * (v / 64 % 4)
    ensures v % 64 == v % 4 + 4 * (v / 4 % 4) + 16 * (v / 16 % 4)
  {
    var a := v / 4;
    var b := a / 4;
    var d := b / 4;
    assert b == v / 16 && d == v / 64;
    assert v == v % 4 + 4 * a && a == a % 4 + 4 * b && b == b % 4 + 4 * d && d < 4;
    assert v == 64 * d + (v % 4 + 4 * (a % 4) + 16 * (b % 4));
  }

  lemma Num4Cons(ds: seq<nat>, i: nat)
    requires i < |ds|
    ensures Num4(ds[i..]) == ds[i] + 4 * Num4(ds[i + 1..])
  {
    assert ds[i..][1..] == ds[i + 1..];
  }

  /** The first digits of limb i. */
  lemma LimbDigits(s: seq<u8>, i: nat)
    requires |s| == 32 && i <= 31
    ensures Num4(Digits(s)[4 * i..]) == s[i] % 64 + 64 * Num4(Digits(s)[4 * i + 3..])
  {
    var ds := Digits(s);
    Digit4(s[i]);
    Quarters(s[i]);
    Num4Cons(ds, 4 * i);
    Num4Cons(ds, 4 * i + 1);
    Num4Cons(ds, 4 * i + 2);
    assert ds[4 * i] == Digit(s[i], 0) && ds[4 * i + 1] == Digit(s[i], 1) && ds[4 * i + 2] == Digit(s[i], 2);
  }

  /** The digits from limb i on make up the limbs from i on. */
  lemma {:induction false} DigitsValue(s: seq<u8>, t: seq<int>, i: nat)
    requires |s| == 32 && i <= 31 && t == s[31 := s[31] % 64]
    ensures Num4(Digits(s)[4 * i..]) == F.Val(t[i..])
    decreases 31 - i
  {
    hide Digits, Num4, Digit;
    LimbDigits(s, i);
    var ds := Digits(s);
    if i < 31 {
      DigitsValue(s, t, i + 1);
      LastDigit(s, i);
      assert t[i..][1..] == t[i + 1..];
      assert t[i] == s[i];
    } else {
      assert ds[127..] == [];
      Num4Nil();
      assert t[31..] == [s[31] % 64];
    }
  }

  lemma Num4Nil()
    ensures Num4([]) == 0
  {
  }

  lemma LastDigit(s: seq<u8>, i: nat)
    requires |s| == 32 && i < 31
    ensures s[i] % 64 + 64 * Num4(Digits(s)[4 * i + 3..]) == s[i] as int + 256 * Num4(Digits(s)[4 * i + 4..])
  {
    var ds := Digits(s);
    Digit4(s[i]);
    Quarters(s[i]);
    Num4Cons(ds, 4 * i + 3);
    assert ds[4 * i + 3] == Digit(s[i], 3);
  }

  ghost function ScalarOf(s: seq<u8>): nat {
    F.ValBound(s, 255);
    F.Val(s)
  }

  /** A scalar below 2^254 is the number its digits make up. */
  lemma ScalarValue(s: seq<u8>)
    requires |s| == 32
    ensures s[31] < 64 ==> Num4(Digits(s)) == ScalarOf(s)
  {
    DigitsValue(s, s[31 := s[31] % 64], 0);
    assert Digits(s)[0..] == Digits(s);
    if s[31] < 64 {
      assert s[31 := s[31] % 64][0..] == s;
    }
  }

  // ---- the interleaving ----

  lemma And3(x: nat)
    ensures And(x, 3) == x % 4
  {
    if x != 0 {
      assert And(x, 3) == (if x % 2 == 1 then 1 else 0) + 2 * And(x / 2, 1);
      assert And(x / 2, 1) == x / 2 % 2;
    }
  }

  lemma XorHigh(a: nat, b: nat)
    requires a < 4
    ensures Xor(a, 4 * b) == a + 4 * b
  {
    if a != 0 || b != 0 {
      assert Xor(a, 4 * b) == a % 2 + 2 * Xor(a / 2, 2 * b);
      if a / 2 != 0 || b != 0 {
        assert Xor(a / 2, 2 * b) == a / 2 + 2 * Xor(0, b);
        XorZero(b);
      }
    }
  }

  /** Two digits of each scalar: (v1 & 3) ^ ((v2 & 3) << 2) */
  method Pair(v1: nat, v2: nat) returns (r: nat)
    ensures r == v1 % 4 + 4 * (v2 % 4)
  {
    r := Xor(And(v1, 3), And(v2, 3) * 4);
    And3(v1);
    And3(v2);
    XorHigh(v1 % 4, v2 % 4);
  }

  /** The first n entries hold the digits of both scalars. */
  ghost predicate Interleaved(b: seq<nat>, s1: seq<u8>, s2: seq<u8>, n: nat)
    requires |s1| == |s2| == 32 && n <= |b| <= 127
  {
    forall j :: 0 <= j < n ==> b[j] == Digits(s1)[j] + 4 * Digits(s2)[j]
  }

  lemma PairDigits(s1: seq<u8>, s2: seq<u8>, i: nat, k: nat)
    requires |s1| == |s2| == 32 && i < 32 && k < 4 && 4 * i + k < 127
    ensures Digits(s1)[4 * i + k] == Digit(s1[i], k) && Digits(s2)[4 * i + k] == Digit(s2[i], k)
  {
  }

  /** One more entry. */
  method Put(b: array<nat>, s1: seq<u8>, s2: seq<u8>, i: nat, k: nat, v1: nat, v2: nat)
    requires |s1| == |s2| == 32 && b.Length == 127 && i < 32 && k < 4 && 4 * i + k < 127
    requires Interleaved(b[..], s1, s2, 4 * i + k) && v1 % 4 == Digit(s1[i], k) && v2 % 4 == Digit(s2[i], k)
    modifies b
    ensures Interleaved(b[..], s1, s2, 4 * i + k + 1)
  {
    hide Digits;
    PairDigits(s1, s2, i, k);
    b[4 * i + k] := Pair(v1, v2);
  }

  /** Three digits of limb i. */
  method PutThree(b: array<nat>, s1: seq<u8>, s2: seq<u8>, i: nat)
    requires |s1| == |s2| == 32 && b.Length == 127 && i < 32 && Interleaved(b[..], s1, s2, 4 * i)
    modifies b
    ensures Interleaved(b[..], s1, s2, 4 * i + 3)
  {
    hide Interleaved, Digit;
    Digit4(s1[i]);
    Digit4(s2[i]);
    Put(b, s1, s2, i, 0, s1[i], s2[i]);
    Put(b, s1, s2, i, 1, s1[i] / 4, s2[i] / 4);
    Put(b, s1, s2, i, 2, s1[i] / 16, s2[i] / 16);
  }

  /** sc25519_2interleave2 */
  method Interleave(s1: seq<u8>, s2: seq<u8>) returns (b: array<nat>)
    requires |s1| == |s2| == 32
    ensures fresh(b) && b.Length == 127 && Interleaved(b[..], s1, s2, 127)
  {
    b := new nat[127];
    hide Digit, Digits;
    for i := 0 to 31
      invariant Interleaved(b[..], s1, s2, 4 * i)
    {
      hide Interleaved;
      PutThree(b, s1, s2, i);
      Digit4(s1[i]);
      Digit4(s2[i]);
      Put(b, s1, s2, i, 3, s1[i] / 64, s2[i] / 64);
    }
    PutThree(b, s1, s2, 31);
  }

  // ---- the table ----

  /** Entry i of the table: (i mod 4)*g + (i div 4)*h, with fresh T. */
  ghost predicate Entry<G(!new)>(c: Curve<G>, p: P3, i: nat, g: G, h: G) {
    Is(c, p, Combo(c, i % 4, g, i / 4, h)) && FreshT(p)
  }

  method AddEntries<G(!new)>(ghost c: Curve<G>, p: P3, ghost i: nat, q: P3, ghost j: nat, ghost g: G, ghost h: G) returns (r: P3)
    requires Lawful(c) && Entry(c, p, i, g, h) && Entry(c, q, j, g, h)
    requires i % 4 + j % 4 < 4
    ensures Entry(c, r, i + j, g, h)
  {
    hide Lawful, Is, FreshT, IsCompleted, Eq, V, Combo, IsAdd;
    var t := AddP1P1(p, q);
    AddIs(c, p, Combo(c, i % 4, g, i / 4, h), q, Combo(c, j % 4, g, j / 4, h), t);
    ComboAdd(c, i % 4, i / 4, j % 4, j / 4, g, h);
    r := P1P1ToP3(p, t);
    ToP2Is(c, t, r, Combo(c, i % 4 + j % 4, g, i / 4 + j / 4, h));
    assert (i + j) % 4 == i % 4 + j % 4 && (i + j) / 4 == i / 4 + j / 4;
  }

  method DoubleEntry<G(!new)>(ghost c: Curve<G>, p: P3, ghost i: nat, ghost g: G, ghost h: G) returns (r: P3)
    requires Lawful(c) && Entry(c, p, i, g, h) && i % 4 < 2
    ensures Entry(c, r, 2 * i, g, h)
  {
    hide Lawful, Is, FreshT, IsCompleted, Eq, V, Combo, IsDouble;
    var t := DblP1P1(p);
    DoubleIs(c, p, Combo(c, i % 4, g, i / 4, h), t);
    ComboAdd(c, i % 4, i / 4, i % 4, i / 4, g, h);
    r := P1P1ToP3(p, t);
    ToP2Is(c, t, r, Combo(c, i % 4 + i % 4, g, i / 4 + i / 4, h));
    assert (2 * i) % 4 == i % 4 + i % 4 && (2 * i) / 4 == i / 4 + i / 4;
  }

  lemma FirstEntries<G(!new)>(c: Curve<G>, p: P3, p1: P3, g: G, p2: P3, h: G)
    requires Lawful(c) && Is(c, p, c.zero) && FreshT(p) && Is(c, p1, g) && FreshT(p1) && Is(c, p2, h) && FreshT(p2)
    ensures Entry(c, p, 0, g, h) && Entry(c, p1, 1, g, h) && Entry(c, p2, 4, g, h)
  {
    ComboOne(c, g, h);
  }

  ghost predicate Table<G(!new)>(c: Curve<G>, pre: seq<P3>, g: G, h: G) {
    forall i :: 0 <= i < |pre| ==> Entry(c, pre[i], i, g, h)
  }

  method PushSum<G(!new)>(ghost c: Curve<G>, pre: seq<P3>, i: nat, j: nat, ghost g: G, ghost h: G) returns (next: seq<P3>)
    requires Lawful(c) && Table(c, pre, g, h) && 0 < i && 0 < j && i + j == |pre| && i % 4 + j % 4 < 4
    ensures Table(c, next, g, h) && |next| == |pre| + 1 && next[..|pre|] == pre
  {
    hide Entry, Lawful;
    var e := AddEntries(c, pre[i], i, pre[j], j, g, h);
    next := pre + [e];
  }

  method PushDouble<G(!new)>(ghost c: Curve<G>, pre: seq<P3>, i: nat, ghost g: G, ghost h: G) returns (next: seq<P3>)
    requires Lawful(c) && Table(c, pre, g, h) && 0 < i && 2 * i == |pre| && i % 4 < 2
    ensures Table(c, next, g, h) && |next| == |pre| + 1
  {
    hide Entry, Lawful;
    var e := DoubleEntry(c, pre[i], i, g, h);
    next := pre + [e];
  }

  /** The table of sums, in the order of the source. */
  method Precompute<G(!new)>(ghost c: Curve<G>, p1: P3, p2: P3, ghost g: G, ghost h: G) returns (pre: seq<P3>)
    requires Lawful(c) && Is(c, p1, g) && FreshT(p1) && Is(c, p2, h) && FreshT(p2)
    ensures |pre| == 16 && Table(c, pre, g, h)
  {
    hide Entry, Lawful, Is, FreshT, V, Eq;
    var e0 := Neutral();
    NeutralIs(c, e0);
    FirstEntries(c, e0, p1, g, p2, h);
    pre := [e0, p1];
    pre := PushDouble(c, pre, 1, g, h);
    pre := PushSum(c, pre, 1, 2, g, h);
    pre := pre + [p2];
    hide Table;
    pre := PushSum(c, pre, 1, 4, g, h);
    pre := PushSum(c, pre, 2, 4, g, h);
    pre := PushSum(c, pre, 3, 4, g, h);
    pre := PushDouble(c, pre, 4, g, h);
    pre := PushSum(c, pre, 1, 8, g, h);
    pre := PushDouble(c, pre, 5, g, h);
    pre := PushSum(c, pre, 3, 8, g, h);
    pre := PushSum(c, pre, 4, 8, g, h);
    pre := PushSum(c, pre, 1, 12, g, h);
    pre := PushSum(c, pre, 2, 12, g, h);
    pre := PushSum(c, pre, 3, 12, g, h);
  }

  // ---- the loop ----

  /** Two doublings, leaving T stale in between, and the digit's table entry. */
  method Digit4Step<G(!new)>(ghost c: Curve<G>, r: P3, pre: seq<P3>, b: nat, ghost m: nat, ghost n: nat, ghost g: G, ghost h: G)
    returns (q: P3, t: P1P1)
    requires Lawful(c) && Is(c, r, Combo(c, m, g, n, h)) && b < 16
    requires |pre| == 16 && Table(c, pre, g, h)
    ensures IsCompleted(c, t, Combo(c, 4 * m + b % 4, g, 4 * n + b / 4, h))
  {
    hide Lawful, Is, FreshT, IsCompleted, Eq, V, Combo, IsDouble, IsAdd;
    t := DblP1P1(r);
    DoubleIs(c, r, Combo(c, m, g, n, h), t);
    ComboAdd(c, m, n, m, n, g, h);
    q := P1P1ToP2(r, t);
    ToP2Is(c, t, q, Combo(c, m + m, g, n + n, h));
    t := DblP1P1(q);
    DoubleIs(c, q, Combo(c, m + m, g, n + n, h), t);
    ComboAdd(c, m + m, n + n, m + m, n + n, g, h);
    assert m + m + (m + m) == 4 * m && n + n + (n + n) == 4 * n;
    if b != 0 {
      q := P1P1ToP3(q, t);
      ToP2Is(c, t, q, Combo(c, 4 * m, g, 4 * n, h));
      assert Entry(c, pre[b], b, g, h);
      t := AddP1P1(q, pre[b]);
      AddIs(c, q, Combo(c, 4 * m, g, 4 * n, h), pre[b], Combo(c, b % 4, g, b / 4, h), t);
      ComboAdd(c, 4 * m, 4 * n, b % 4, b / 4, g, h);
    }
  }

  lemma DigitBound(v: nat, j: nat)
    ensures Digit(v, j) < 4
  {
  }

  lemma EntryDigits(b: seq<nat>, s1: seq<u8>, s2: seq<u8>, i: nat)
    requires |s1| == |s2| == 32 && |b| == 127 && Interleaved(b, s1, s2, 127) && i < 127
    ensures b[i] < 16 && b[i] % 4 == Digits(s1)[i] && b[i] / 4 == Digits(s2)[i]
  {
    DigitBound(s1[i / 4], i % 4);
    DigitBound(s2[i / 4], i % 4);
  }

  /** ge25519_double_scalarmult_vartime: the result is n1*g + n2*h for the numbers the digits make up. */
  method DoubleScalarMult<G(!new)>(ghost c: Curve<G>, p1: P3, s1: seq<u8>, p2: P3, s2: seq<u8>, ghost g: G, ghost h: G) returns (r: P3)
    requires |s1| == |s2| == 32
    requires Lawful(c) && Is(c, p1, g) && FreshT(p1) && Is(c, p2, h) && FreshT(p2)
    ensures FreshT(r) && Is(c, r, Combo(c, Num4(Digits(s1)), g, Num4(Digits(s2)), h))
    ensures s1[31] < 64 && s2[31] < 64 ==> Is(c, r, Combo(c, ScalarOf(s1), g, ScalarOf(s2), h))
  {
    hide Lawful, Is, FreshT, IsCompleted, Eq, V, Combo, Digits, Digit, Num4, Interleaved;
    var pre := Precompute(c, p1, p2, g, h);
    var b := Interleave(s1, s2);
    ghost var bs, d1, d2 := b[..], Digits(s1), Digits(s2);
    EntryDigits(bs, s1, s2, 126);
    r := pre[b[126]];
    Top(d1);
    Top(d2);
    for i := 126 downto 0
      invariant b[..] == bs
      invariant Is(c, r, Combo(c, Num4(d1[i..]), g, Num4(d2[i..]), h))
      invariant i == 0 ==> FreshT(r)
    {
      EntryDigits(bs, s1, s2, i);
      Num4Cons(d1, i);
      Num4Cons(d2, i);
      var q, t := Digit4Step(c, r, pre, b[i], Num4(d1[i + 1..]), Num4(d2[i + 1..]), g, h);
      if i != 0 {
        r := P1P1ToP2(q, t);
      } else {
        r := P1P1ToP3(q, t);
      }
      ToP2Is(c, t, r, Combo(c, Num4(d1[i..]), g, Num4(d2[i..]), h));
    }
    assert d1[0..] == d1 && d2[0..] == d2;
    ScalarValue(s1);
    ScalarValue(s2);
  }

  lemma Top(ds: seq<nat>)
    requires |ds| == 127
    ensures Num4(ds[126..]) == ds[126]
  {
    assert ds[126..] == [ds[126]];
  }
}
