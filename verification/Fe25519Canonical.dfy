/**
 The canonical representative: freezing, packing, unpacking and the comparisons built on
 freezing. A field element is frozen correctly exactly when its value is below 2^255.
 */
module Fe25519Canonical {
  import opened Words
  import opened ModArith
  import opened Fe25519

  /** 1 if the arguments are equal, 0 otherwise; for 16-bit arguments. */
  function Equal(a: u32, b: u32): (r: u32)
    requires a < 0x1_0000 && b < 0x1_0000
    ensures r == if a == b then 1 else 0
  {
    XorZeroIffEqual(a, b);
    PowerValues();
    XorBound(a, b, 16);
    Wrap32(Xor(a, b) - 1) / 0x8000_0000
  }

  /** 1 if a >= b, 0 otherwise; for 16-bit arguments. */
  function Ge(a: u32, b: u32): (r: u32)
    requires a < 0x1_0000 && b < 0x1_0000
    ensures r == if a >= b then 1 else 0
  {
    assert Xor(1, 1) == 0 && Xor(0, 1) == 1;
    Xor(Wrap32(a - b) / 0x8000_0000, 1)
  }

  // ---- when the value lies between p and 2^255 ----

  /** The limb pattern that `Freeze` looks for. */
  ghost predicate AboveP(s: seq<int>)
    requires |s| == 32
  {
    s[31] == 127 && (forall k :: 1 <= k < 31 ==> s[k] == 255) && s[0] >= 237
  }

  lemma {:induction false} AllOnes(s: seq<int>)
    requires Limbs(s, 255) && Val(s) >= Base(|s|) - 1
    ensures forall k :: 0 <= k < |s| ==> s[k] == 255
  {
    if s != [] {
      ValBound(s[1..], 255);
      AllOnes(s[1..]);
      ValOnes(s[1..]);
      assert forall k :: 1 <= k < |s| ==> s[k] == s[1..][k - 1];
    }
  }

  lemma AbovePBounds(s: seq<int>)
    requires |s| == 32 && Limbs(s, 255) && AboveP(s)
    ensures P <= Val(s) < TOP
  {
    ValPLimbs();
    SetBottom(PLimbs(), s[0]);
    assert s == PLimbs()[0 := s[0]];
  }

  lemma BoundsAboveP(s: seq<int>)
    requires |s| == 32 && Limbs(s, 255) && P <= Val(s) < TOP
    ensures AboveP(s)
  {
    TopLimb(s);
    var low, mid := s[..31], s[1..31];
    assert s == low + [127];
    assert Val(low) == Val(s) - 127 * WTOP by {
      ValConcat(low, [127]);
      Base31();
      assert Val([127]) == 127;
    }
    assert low[1..] == mid;
    ValBound(mid, 255);
    assert Base(31) == 256 * Base(30) && Base(31) == WTOP by { Base31(); }
    AllOnes(mid);
    ValOnes(mid);
    assert forall k :: 1 <= k < 31 ==> s[k] == mid[k - 1];
  }

  // ---- freezing ----

  /** The value that freezing leaves. */
  function Frozen(v: int): int {
    if P <= v < TOP then v - P else v
  }

  /** Freezing yields the residue exactly on values below 2^255. */
  lemma FrozenIsResidueIff(v: int)
    requires 0 <= v < 2 * TOP
    ensures Frozen(v) == v % P <==> v < TOP
  {
    if v < P {
      DivModUnique(v, 0, v, P);
    } else if v < TOP {
      DivModUnique(v, 1, v - P, P);
    }
  }

  /** All ones if the limbs show a value in [p, 2^255), zero otherwise; no branch on a limb. */
  method FreezeMask(r: array<u32>) returns (m: u32)
    requires r.Length == 32 && Limbs(r[..], 255)
    ensures m == if AboveP(r[..]) then 0xffff_ffff else 0
  {
    assert forall k :: 0 <= k < 32 ==> r[k] <= 255;
    m := Equal(r[31], 127);
    for i := 31 downto 1
      invariant m == if r[31] == 127 && (forall k :: i <= k < 31 ==> r[k] == 255) then 1 else 0
    {
      m := And(m, Equal(r[i], 255));
    }
    m := And(m, Ge(r[0], 237));
    m := Wrap32(-(m as int));
  }

  /** The mask applied to the three limb values of p. */
  method MaskedLimbs(m: u32) returns (top: u32, middle: u32, bottom: u32)
    requires m == 0 || m == 0xffff_ffff
    ensures top == Masked(m, 31) && middle == Masked(m, 1) && bottom == Masked(m, 0)
  {
    MaskFacts(m);
    top, middle, bottom := And(m, 127), And(m, 255), And(m, 237);
  }

  /** Subtracts p where the mask is set. */
  method SubtractMasked(r: array<u32>, m: u32)
    requires r.Length == 32 && Limbs(r[..], 255)
    requires m == if AboveP(r[..]) then 0xffff_ffff else 0
    modifies r
    ensures Limbs(r[..], 255) && r[31] <= old(r[31])
    ensures Val(r[..]) == old(Val(r[..])) - (if m != 0 then P else 0)
  {
    ghost var s := r[..];
    var top, middle, bottom := MaskedLimbs(m);
    r[31] := Wrap32(r[31] - top);
    for i := 31 downto 1
      invariant r[0] == s[0] && r[31] as int == s[31] as int - Masked(m, 31)
      invariant forall k :: 1 <= k < i ==> r[k] == s[k]
      invariant forall k :: i <= k < 31 ==> r[k] as int == s[k] as int - Masked(m, k)
    {
      r[i] := Wrap32(r[i] - middle);
    }
    r[0] := Wrap32(r[0] - bottom);
    MaskedDifference(s, m, r[..]);
  }

  ghost function Masked(m: u32, k: nat): int {
    if m != 0 then PLimb(k) else 0
  }

  lemma MaskedDifference(s: seq<int>, m: u32, s': seq<int>)
    requires |s| == |s'| == 32
    requires forall k :: 0 <= k < 32 ==> s'[k] == s[k] - Masked(m, k)
    ensures Val(s') == Val(s) - (if m != 0 then P else 0)
  {
    if m != 0 {
      ValLinear(s, PLimbs(), s', -1);
      ValPLimbs();
    } else {
      assert s' == s;
    }
  }

  lemma MaskFacts(m: u32)
    requires m == 0 || m == 0xffff_ffff
    ensures forall x :: 0 <= x <= 255 ==> And(m, x) == if m == 0 then 0 else x
  {
    PowerValues();
    forall x | 0 <= x <= 255
      ensures And(m, x) == if m == 0 then 0 else x
    {
      AndOnes(x, 32);
    }
  }

  /** Freezing in place. */
  method Freeze(r: array<u32>)
    requires r.Length == 32 && Limbs(r[..], 255)
    modifies r
    ensures Limbs(r[..], 255) && r[31] <= old(r[31])
    ensures Val(r[..]) == Frozen(old(Val(r[..])))
  {
    if AboveP(r[..]) {
      AbovePBounds(r[..]);
    } else if P <= Val(r[..]) < TOP {
      BoundsAboveP(r[..]);
    }
    var m := FreezeMask(r);
    SubtractMasked(r, m);
  }

  // ---- bytes in and out ----

  method Copy(x: array<u32>) returns (t: array<u32>)
    ensures fresh(t) && t[..] == x[..]
  {
    t := new u32[x.Length];
    for i := 0 to x.Length
      invariant forall k :: 0 <= k < i ==> t[k] == x[k]
    {
      t[i] := x[i];
    }
  }

  /** Reads 32 little-endian bytes and drops the top bit. */
  method Unpack(r: array<u32>, x: seq<u32>)
    requires r.Length == 32 && |x| == 32 && Limbs(x, 255)
    modifies r
    ensures Limbs(r[..], 255) && r[31] <= 127
    ensures Val(r[..]) == Val(x) % TOP && Val(r[..]) < TOP
  {
    for i := 0 to 32
      invariant forall k :: 0 <= k < i ==> r[k] == x[k]
    {
      r[i] := x[i];
    }
    assert r[..] == x;
    r[31] := r[31] % 128;
    TopBitDropped(x, r[..]);
  }

  lemma TopBitDropped(s: seq<int>, s': seq<int>)
    requires |s| == 32 && Limbs(s, 255) && s' == s[31 := s[31] % 128]
    ensures Val(s') == Val(s) % TOP && Val(s') < TOP
  {
    SetTop(s, s[31] % 128);
    TopLimb(s');
    DivModUnique(Val(s), s[31] / 128, Val(s'), TOP);
  }

  /** Writes the frozen limbs as bytes. */
  method Pack(x: array<u32>) returns (r: seq<u32>)
    requires x.Length == 32 && Limbs(x[..], 255)
    ensures |r| == 32 && Limbs(r, 255)
    ensures Val(r) == Frozen(Val(x[..]))
  {
    var y := Copy(x);
    Freeze(y);
    r := y[..];
  }

  /** Packing a value below 2^255 and unpacking it again yields the least residue. */
  method PackThenUnpack(r: array<u32>, x: array<u32>)
    requires r.Length == x.Length == 32 && Limbs(x[..], 255) && Val(x[..]) < TOP
    modifies r
    ensures Val(r[..]) == old(Val(x[..])) % P
    ensures Cong(Val(r[..]), old(Val(x[..])), P)
  {
    ValBound(x[..], 255);
    FrozenIsResidueIff(Val(x[..]));
    CongIffSameResidue(Val(x[..]) % P, Val(x[..]), P);
    ghost var v := Val(x[..]);
    var bytes := Pack(x);
    Unpack(r, bytes);
    ResidueFacts(v);
  }

  lemma ResidueFacts(v: int)
    ensures 0 <= v % P < P && (v % P) % TOP == v % P && Cong(v % P, v, P)
  {
    DivModUnique(v % P, 0, v % P, TOP);
    DivModUnique(v % P, 0, v % P, P);
    CongIffSameResidue(v % P, v, P);
  }

  // ---- comparison ----

  lemma {:induction false} ValInjective(a: seq<int>, b: seq<int>)
    requires |a| == |b| && Limbs(a, 255) && Limbs(b, 255) && Val(a) == Val(b)
    ensures a == b
  {
    if a != [] {
      DivModUnique(Val(a), Val(a[1..]), a[0], 256);
      DivModUnique(Val(b), Val(b[1..]), b[0], 256);
      ValInjective(a[1..], b[1..]);
      assert a == [a[0]] + a[1..] && b == [b[0]] + b[1..];
    }
  }

  /** 1 exactly if the two frozen values agree. */
  method IsEqVartime(x: array<u32>, y: array<u32>) returns (eq: u32)
    requires x.Length == y.Length == 32 && Limbs(x[..], 255) && Limbs(y[..], 255)
    ensures eq == if Frozen(Val(x[..])) == Frozen(Val(y[..])) then 1 else 0
    ensures Val(x[..]) < TOP && Val(y[..]) < TOP ==> (eq == 1 <==> Cong(Val(x[..]), Val(y[..]), P))
  {
    FrozenDecidesBelowTop(x[..], y[..]);
    var t1 := Copy(x);
    var t2 := Copy(y);
    Freeze(t1);
    Freeze(t2);
    eq := SameLimbs(t1, t2);
    if Val(t1[..]) == Val(t2[..]) {
      ValInjective(t1[..], t2[..]);
    }
  }

  method SameLimbs(a: array<u32>, b: array<u32>) returns (eq: u32)
    requires a.Length == b.Length == 32
    ensures eq == if a[..] == b[..] then 1 else 0
  {
    for i := 0 to 32
      invariant forall k :: 0 <= k < i ==> a[k] == b[k]
    {
      if a[i] != b[i] {
        assert a[..][i] != b[..][i];
        return 0;
      }
    }
    return 1;
  }

  lemma FrozenDecides(v: int, w: int)
    requires 0 <= v < TOP && 0 <= w < TOP
    ensures Frozen(v) == Frozen(w) <==> Cong(v, w, P)
  {
    FrozenIsResidueIff(v);
    FrozenIsResidueIff(w);
    CongIffSameResidue(v, w, P);
  }

  lemma FrozenDecidesBelowTop(x: seq<int>, y: seq<int>)
    requires Limbs(x, 255) && Limbs(y, 255)
    ensures Val(x) < TOP && Val(y) < TOP ==> (Frozen(Val(x)) == Frozen(Val(y)) <==> Cong(Val(x), Val(y), P))
  {
    ValBound(x, 255);
    ValBound(y, 255);
    if Val(x) < TOP && Val(y) < TOP {
      FrozenDecides(Val(x), Val(y));
    }
  }

  /** Against all operands below 2^255 the comparison is right exactly if x is below 2^255 too. */
  lemma ComparisonExactIff(v: int)
    requires 0 <= v < 2 * TOP
    ensures (forall w :: 0 <= w < TOP ==> (Frozen(v) == Frozen(w) <==> Cong(v, w, P))) <==> v < TOP
  {
    if v < TOP {
      forall w | 0 <= w < TOP
        ensures Frozen(v) == Frozen(w) <==> Cong(v, w, P)
      {
        FrozenDecides(v, w);
      }
    } else {
      var w := v % P;
      ResidueFacts(v);
      CongSym(w, v, P);
      assert Cong(v, w, P) && Frozen(v) != Frozen(w);
    }
  }

  // ---- multiplication may leave 2^255 standing ----

  /** A number below 256 as an element: its one non-zero limb is limb 0. */
  ghost function Scalar(c: int): (s: seq<int>)
    ensures |s| == 32 && s[0] == c && forall k :: 1 <= k < 32 ==> s[k] == 0
  {
    seq(32, k => if k == 0 then c else 0)
  }

  lemma {:induction false} ScalarColumn(x: seq<int>, c: int, n: nat, k: nat)
    requires n <= |x|
    ensures Column(x, Scalar(c), n, k) == if k < n then x[k] * c else 0
  {
    if n > 0 {
      ScalarColumn(x, c, n - 1, k);
    }
  }

  /** Multiplying by a number below 256 scales the limbs and then makes two passes. */
  lemma MulByScalar(x: seq<int>, c: int)
    requires |x| == 32
    ensures MulValue(x, Scalar(c)) == Fold(c * Val(x) - c * x[31] / 128 * P)
  {
    var r := FoldedColumns(Columns(x, Scalar(c), 32));
    forall k | 0 <= k < 63
      ensures Columns(x, Scalar(c), 32)[k] == if k < 32 then x[k] * c else 0
    {
      ScalarColumn(x, c, 32, k);
    }
    ValScaled(x, c, r);
    assert AfterPasses(r, 2) == Fold(AfterPasses(r, 1));
  }

  lemma {:induction false} ValScaled(x: seq<int>, c: int, r: seq<int>)
    requires |x| == |r| && forall k :: 0 <= k < |x| ==> r[k] == x[k] * c
    ensures Val(r) == c * Val(x)
  {
    if x != [] {
      ValScaled(x[1..], c, r[1..]);
      Distribute(c, x[0], Val(x[1..]));
    }
  }

  /** The limbs of 96 * 2^248 - 14. */
  ghost function NearTop(): (s: seq<int>)
    ensures |s| == 32 && Limbs(s, 255)
  {
    seq(32, k => if k == 0 then 242 else if k == 31 then 95 else 255)
  }

  lemma NearTopValue()
    ensures Val(NearTop()) == 96 * WTOP - 14
  {
    var ones: seq<int> := seq(32, k => 255);
    ValOnes(ones);
    Base31();
    SetTop(ones, 95);
    SetBottom(ones[31 := 95], 242);
    assert NearTop() == ones[31 := 95][0 := 242];
  }

  /**
   Two operands below 2^255 whose product is left at 2^255 + 14: freezing it, hence packing
   it or comparing it, does not yield its residue.
   */
  lemma MulCanExceedTop()
    ensures Val(NearTop()) < TOP && Val(Scalar(132)) < TOP
    ensures MulValue(NearTop(), Scalar(132)) == TOP + 14
    ensures Frozen(TOP + 14) != (TOP + 14) % P
  {
    var x := NearTop();
    NearTopValue();
    MulByScalar(x, 132);
    assert 132 * x[31] / 128 == 97;
    assert 132 * Val(x) - 97 * P == 2 * TOP - 5;
    DivModUnique(2 * TOP - 5, 1, TOP - 5, TOP);
    ValScalar(132);
    FrozenIsResidueIff(TOP + 14);
  }

  lemma ValScalar(c: int)
    ensures Val(Scalar(c)) == c
  {
    ValZero(Scalar(c)[1..]);
  }
}
