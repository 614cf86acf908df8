/**
 Field elements modulo 2^255 - 19 as 32 radix-256 limbs held in 32-bit words, with lazy
 carries. Every word operation wraps at 2^32; the contracts show that none ever does.
 */
module Fe25519 {
  import opened Words
  import opened ModArith

  /** 2^255 */
  const TOP: int := 0x8000000000000000000000000000000000000000000000000000000000000000
  /** The modulus, 2^255 - 19. */
  const P: int := 0x7fffffffffffffffffffffffffffffffffffffffffffffffffffffffffffffed
  /** 256^31, the weight of the top limb. */
  const WTOP: int := 0x100000000000000000000000000000000000000000000000000000000000000

  // ---- values of limb sequences ----

  /** 256^n */
  function Base(n: nat): (b: int)
    ensures b > 0
  {
    if n == 0 then 1 else 256 * Base(n - 1)
  }

  /** The number whose radix-256 digits, least significant first, are `s`. */
  function Val(s: seq<int>): int {
    if s == [] then 0 else s[0] + 256 * Val(s[1..])
  }

  ghost predicate Limbs(s: seq<int>, bound: int) {
    forall i :: 0 <= i < |s| ==> 0 <= s[i] <= bound
  }

  lemma {:induction false} BaseAdd(a: nat, b: nat)
    ensures Base(a + b) == Base(a) * Base(b)
  {
    if a > 0 {
      BaseAdd(a - 1, b);
      assert Base(a + b) == 256 * Base(a - 1 + b);
    }
  }

  lemma Base31()
    ensures Base(31) == WTOP
    ensures Base(32) == 2 * TOP
  {
    assert Base(8) == 0x1_0000_0000_0000_0000;
    BaseAdd(8, 8);
    BaseAdd(16, 8);
    BaseAdd(24, 7);
    assert Base(7) == 0x100_0000_0000_0000;
  }

  lemma {:induction false} ValUpdate(s: seq<int>, i: nat, x: int)
    requires i < |s|
    ensures Val(s[i := x]) == Val(s) + (x - s[i]) * Base(i)
  {
    if i == 0 {
      assert s[0 := x][1..] == s[1..];
    } else {
      ValUpdate(s[1..], i - 1, x);
      assert s[i := x][1..] == s[1..][i - 1 := x];
      assert 256 * ((x - s[i]) * Base(i - 1)) == (x - s[i]) * Base(i);
    }
  }

  lemma {:induction false} ValConcat(a: seq<int>, b: seq<int>)
    ensures Val(a + b) == Val(a) + Base(|a|) * Val(b)
  {
    if a == [] {
      assert a + b == b;
    } else {
      ValConcat(a[1..], b);
      assert (a + b)[1..] == a[1..] + b;
      assert 256 * (Base(|a| - 1) * Val(b)) == Base(|a|) * Val(b);
    }
  }

  lemma ValSnoc(s: seq<int>, i: nat)
    requires i < |s|
    ensures Val(s[..i + 1]) == Val(s[..i]) + Base(i) * s[i]
  {
    assert s[..i + 1] == s[..i] + [s[i]];
    ValConcat(s[..i], [s[i]]);
    assert Val([s[i]]) == s[i];
  }

  lemma {:induction false} ValZero(s: seq<int>)
    requires forall i :: 0 <= i < |s| ==> s[i] == 0
    ensures Val(s) == 0
  {
    if s != [] {
      ValZero(s[1..]);
    }
  }

  lemma {:induction false} ValLinear(a: seq<int>, b: seq<int>, c: seq<int>, k: int)
    requires |a| == |b| == |c|
    requires forall i :: 0 <= i < |a| ==> c[i] == a[i] + k * b[i]
    ensures Val(c) == Val(a) + k * Val(b)
  {
    if a != [] {
      ValLinear(a[1..], b[1..], c[1..], k);
      assert k * (256 * Val(b[1..])) == 256 * (k * Val(b[1..]));
    }
  }

  /** Limbs bounded by `bound` have a value bounded by `bound` times the repunit. */
  lemma {:induction false} ValBound(s: seq<int>, bound: nat)
    requires Limbs(s, bound)
    ensures 0 <= Val(s)
    ensures 255 * Val(s) <= bound * (Base(|s|) - 1)
  {
    if s != [] {
      ValBound(s[1..], bound);
      assert bound * (Base(|s|) - 1) == 256 * (bound * (Base(|s| - 1) - 1)) + 255 * bound;
    }
  }

  /** With byte-sized low limbs the top limb is the quotient of the value by 256^31. */
  lemma TopLimb(s: seq<int>)
    requires |s| == 32 && Limbs(s[..31], 255)
    ensures s[31] * WTOP <= Val(s) < (s[31] + 1) * WTOP
  {
    Base31();
    assert s == s[..31] + [s[31]];
    ValConcat(s[..31], [s[31]]);
    ValBound(s[..31], 255);
    assert Val([s[31]]) == s[31];
  }

  // ---- lazy carries ----

  function Times19(a: u32): (r: u32)
    ensures a <= 0x800_0000 ==> r == 19 * a
  {
    Wrap32(16 * a + 2 * a + a)
  }

  function Times38(a: u32): (r: u32)
    ensures a <= 0x400_0000 ==> r == 38 * a
  {
    Wrap32(32 * a + 4 * a + 2 * a)
  }

  /** The largest limb for which no carry chain can wrap. */
  const WIDE: u32 := 0x8000_0000

  /** Moves the part of limb i above one byte into limb i + 1. */
  method Carry(r: array<u32>, i: nat)
    requires r.Length == 32 && i < 31 && r[i] <= WIDE + 0x2000_0000 && r[i + 1] <= WIDE
    modifies r
    ensures r[i] <= 255 && r[i + 1] <= old(r[i + 1]) + 0x100_0000
    ensures forall k :: 0 <= k < 32 && k != i && k != i + 1 ==> r[k] == old(r[k])
    ensures Val(r[..]) == old(Val(r[..]))
  {
    var t := r[i] / 256;
    r[i + 1] := Wrap32(r[i + 1] + t);
    r[i] := r[i] % 256;
    CarryKeepsValue(old(r[..]), i, r[..]);
  }

  /** Moves the bits from 2^255 up to the bottom, as 19 times their value. */
  method FoldTopBits(r: array<u32>)
    requires r.Length == 32 && Limbs(r[..], WIDE)
    modifies r
    ensures r[0] <= WIDE + 0x2000_0000 && r[31] <= 127
    ensures forall k :: 0 < k < 31 ==> r[k] == old(r[k])
    ensures Val(r[..]) == old(Val(r[..])) - old(r[31]) / 128 * P
  {
    ghost var s := r[..];
    var t := r[31] / 128;
    r[31] := r[31] % 128;
    t := Times19(t);
    r[0] := Wrap32(r[0] + t);
    assert r[..] == s[31 := s[31] % 128][0 := s[0] + 19 * (s[31] / 128)];
    FoldTop(s, r[..]);
  }

  /** One pass of the reduction loops. */
  method ReduceRound(r: array<u32>)
    requires r.Length == 32 && Limbs(r[..], WIDE)
    modifies r
    ensures Limbs(r[..], WIDE) && Limbs(r[..31], 255)
    ensures Val(r[..]) == old(Val(r[..])) - old(r[31]) / 128 * P
  {
    FoldTopBits(r);
    for i := 0 to 31
      invariant forall k :: 0 <= k < i ==> r[k] <= 255
      invariant r[i] <= (if i == 31 then 127 + 0x100_0000 else WIDE + 0x2000_0000)
      invariant forall k :: i < k < 31 ==> r[k] <= WIDE
      invariant i < 31 ==> r[31] <= 127
      invariant Val(r[..]) == old(Val(r[..])) - old(r[31]) / 128 * P
    {
      Carry(r, i);
    }
  }

  lemma SetBottom(s: seq<int>, x: int)
    requires s != []
    ensures Val(s[0 := x]) == Val(s) + x - s[0]
  {
    assert s[0 := x][1..] == s[1..];
  }

  lemma SetTop(s: seq<int>, x: int)
    requires |s| == 32
    ensures Val(s[31 := x]) == Val(s) + (x - s[31]) * WTOP
  {
    ValUpdate(s, 31, x);
    Base31();
  }

  lemma FoldTop(s: seq<int>, s': seq<int>)
    requires |s| == 32 && s[31] >= 0
    requires s' == s[31 := s[31] % 128][0 := s[0] + 19 * (s[31] / 128)]
    ensures Val(s') == Val(s) - s[31] / 128 * P
  {
    SetTop(s, s[31] % 128);
    SetBottom(s[31 := s[31] % 128], s[0] + 19 * (s[31] / 128));
  }

  /** A carry moves value between neighbours. */
  lemma {:induction false} CarryKeepsValue(s: seq<int>, i: nat, s': seq<int>)
    requires i + 1 < |s|
    requires s' == s[i + 1 := s[i + 1] + s[i] / 256][i := s[i] % 256]
    ensures Val(s') == Val(s)
  {
    if i == 0 {
      assert s'[1..][1..] == s[1..][1..];
    } else {
      CarryKeepsValue(s[1..], i - 1, s'[1..]);
    }
  }

  /** From wide limbs, one pass brings the top limb below 2^24. */
  lemma FirstPass(s: seq<int>, s': seq<int>)
    requires |s| == 32 && Limbs(s, WIDE)
    requires Val(s') == Val(s) - s[31] / 128 * P
    ensures Val(s') < 0x80_8100 * WTOP
  {
    assert s == s[..31] + [s[31]];
    ValConcat(s[..31], [s[31]]);
    assert Val([s[31]]) == s[31];
    ValBound(s[..31], WIDE);
    Base31();
  }

  /** From byte limbs, a pass maps the value v to v % 2^255 + 19 * (v / 2^255). */
  lemma LaterPass(s: seq<int>, s': seq<int>)
    requires |s| == |s'| == 32 && Limbs(s[..31], 255) && 0 <= s[31]
    requires Val(s') == Val(s) - s[31] / 128 * P
    ensures Val(s') == Fold(Val(s))
  {
    TopLimb(s);
    DivModUnique(Val(s), s[31] / 128, Val(s) - s[31] / 128 * TOP, TOP);
  }

  /** One pass as a map on values, once the low limbs are bytes. */
  function Fold(v: int): int {
    v % TOP + 19 * (v / TOP)
  }

  lemma PassFacts(s: seq<int>, s': seq<int>)
    requires |s| == |s'| == 32 && Limbs(s, WIDE) && Limbs(s', WIDE) && Limbs(s'[..31], 255)
    requires Val(s') == Val(s) - s[31] / 128 * P
    ensures Cong(Val(s'), Val(s), P)
    ensures 0 <= Val(s') < 0x80_8100 * WTOP
    ensures Limbs(s[..31], 255) ==> Val(s') == Fold(Val(s))
  {
    CongIntro(Val(s'), Val(s), -(s[31] / 128), P);
    FirstPass(s, s');
    if Limbs(s[..31], 255) {
      LaterPass(s, s');
    }
    ValBound(s', WIDE);
  }

  /** What bounds the value after `rep` passes. */
  function PassBound(rep: nat): int {
    if rep == 1 then 0x80_8100 * WTOP else if rep == 2 then TOP + 0x20_0000 else TOP
  }

  lemma NextPassBound(v: int, rep: nat)
    requires rep >= 1 && 0 <= v < PassBound(rep)
    ensures 0 <= Fold(v) < PassBound(rep + 1)
  {
    if rep > 1 && v >= TOP {
      DivModUnique(v, 1, v - TOP, TOP);
    }
  }

  /** The value after n passes over the limbs s. */
  ghost function AfterPasses(s: seq<int>, n: nat): int
    requires |s| == 32
  {
    if n == 0 then Val(s) else if n == 1 then Val(s) - s[31] / 128 * P else Fold(AfterPasses(s, n - 1))
  }

  /** Two passes: the top limb may still be 128. */
  method ReduceMul(r: array<u32>)
    requires r.Length == 32 && Limbs(r[..], WIDE)
    modifies r
    ensures Limbs(r[..], 255) && r[31] <= 128
    ensures Cong(Val(r[..]), old(Val(r[..])), P)
    ensures Val(r[..]) == AfterPasses(old(r[..]), 2)
  {
    ReducePasses(r, 2);
    TopLimb(r[..]);
  }

  /** Four passes: the value is below 2^255. */
  method ReduceAddSub(r: array<u32>)
    requires r.Length == 32 && Limbs(r[..], WIDE)
    modifies r
    ensures Limbs(r[..], 255) && r[31] <= 127
    ensures 0 <= Val(r[..]) < TOP
    ensures Cong(Val(r[..]), old(Val(r[..])), P)
  {
    ReducePasses(r, 4);
    TopLimb(r[..]);
  }

  method ReducePasses(r: array<u32>, n: nat)
    requires r.Length == 32 && Limbs(r[..], WIDE) && n > 0
    modifies r
    ensures Limbs(r[..], WIDE) && Limbs(r[..31], 255)
    ensures 0 <= Val(r[..]) < PassBound(n)
    ensures Cong(Val(r[..]), old(Val(r[..])), P)
    ensures Val(r[..]) == AfterPasses(old(r[..]), n)
  {
    ghost var s0 := r[..];
    CongRefl(Val(s0), P);
    for rep := 0 to n
      invariant PassState(s0, r[..], rep)
    {
      NextPass(r, s0, rep);
    }
  }

  method NextPass(r: array<u32>, ghost s0: seq<int>, ghost rep: nat)
    requires r.Length == 32 && PassState(s0, r[..], rep)
    modifies r
    ensures PassState(s0, r[..], rep + 1)
  {
    ghost var s := r[..];
    ReduceRound(r);
    PassStep(s0, s, r[..], rep);
  }

  /** How limbs s relate to the limbs s0 they were `rep` passes ago. */
  ghost predicate PassState(s0: seq<int>, s: seq<int>, rep: nat) {
    && |s0| == |s| == 32 && Limbs(s, WIDE)
    && Cong(Val(s), Val(s0), P)
    && Val(s) == AfterPasses(s0, rep)
    && if rep == 0 then s == s0 else Limbs(s[..31], 255) && 0 <= Val(s) < PassBound(rep)
  }

  lemma PassStep(s0: seq<int>, s: seq<int>, s': seq<int>, rep: nat)
    requires PassState(s0, s, rep) && |s'| == 32 && Limbs(s', WIDE) && Limbs(s'[..31], 255)
    requires Val(s') == Val(s) - s[31] / 128 * P
    ensures PassState(s0, s', rep + 1)
  {
    PassFacts(s, s');
    CongTrans(Val(s'), Val(s), Val(s0), P);
    if rep > 0 {
      NextPassBound(Val(s), rep);
    }
  }

  // ---- the modulus as limbs ----

  /** The limbs of 2^255 - 19. */
  function PLimb(i: nat): u32 {
    if i == 0 then 237 else if i == 31 then 127 else 255
  }

  function PLimbs(): (s: seq<u32>)
    ensures |s| == 32 && forall i :: 0 <= i < 32 ==> s[i] == PLimb(i)
  {
    seq(32, i requires 0 <= i < 32 => PLimb(i))
  }

  lemma {:induction false} ValOnes(s: seq<int>)
    requires forall i :: 0 <= i < |s| ==> s[i] == 255
    ensures Val(s) == Base(|s|) - 1
  {
    if s != [] {
      ValOnes(s[1..]);
    }
  }

  lemma ValPLimbs()
    ensures Val(PLimbs()) == P
  {
    var ones: seq<int> := seq(32, i => 255);
    ValOnes(ones);
    Base31();
    SetTop(ones, 127);
    SetBottom(ones[31 := 127], 237);
    assert PLimbs() == ones[31 := 127][0 := 237];
  }

  // ---- addition and subtraction ----

  /** Addition of byte-limbed elements; `r` may be `x` or `y`. */
  method Add(r: array<u32>, x: array<u32>, y: array<u32>)
    requires r.Length == x.Length == y.Length == 32
    requires Limbs(x[..], 255) && Limbs(y[..], 255)
    modifies r
    ensures Limbs(r[..], 255) && r[31] <= 127 && 0 <= Val(r[..]) < TOP
    ensures Cong(Val(r[..]), old(Val(x[..])) + old(Val(y[..])), P)
  {
    for i := 0 to 32
      invariant forall k :: 0 <= k < i ==> r[k] == old(x[k]) + old(y[k])
      invariant forall k :: i <= k < 32 ==> x[k] == old(x[k]) && y[k] == old(y[k])
    {
      r[i] := Wrap32(x[i] + y[i]);
    }
    ValLinear(old(x[..]), old(y[..]), r[..], 1);
    ReduceAddSub(r);
  }

  /** Adds twice the modulus, limb by limb. */
  method PlusTwoP(x: array<u32>) returns (t: array<u32>)
    requires x.Length == 32 && Limbs(x[..], 255)
    ensures fresh(t) && t.Length == 32
    ensures forall k :: 0 <= k < 32 ==> t[k] as int == x[k] as int + 2 * PLimb(k) as int
  {
    t := new u32[32];
    t[0] := Wrap32(x[0] + 0x1da);
    t[31] := Wrap32(x[31] + 0xfe);
    for i := 1 to 31
      invariant t[0] as int == x[0] as int + 0x1da && t[31] as int == x[31] as int + 0xfe
      invariant forall k :: 1 <= k < i ==> t[k] as int == x[k] as int + 0x1fe
    {
      t[i] := Wrap32(x[i] + 0x1fe);
    }
  }

  /** Subtraction: 2p is added limb by limb first, so that no limb goes below zero. */
  method Sub(r: array<u32>, x: array<u32>, y: array<u32>)
    requires r.Length == x.Length == y.Length == 32
    requires Limbs(x[..], 255) && Limbs(y[..], 255) && y[31] <= x[31] + 254
    modifies r
    ensures Limbs(r[..], 255) && r[31] <= 127 && 0 <= Val(r[..]) < TOP
    ensures Cong(Val(r[..]), old(Val(x[..])) - old(Val(y[..])), P)
  {
    var t := PlusTwoP(x);
    for i := 0 to 32
      modifies r
      invariant forall k :: 0 <= k < 32 ==> t[k] as int == old(x[k]) as int + 2 * PLimb(k) as int
      invariant forall k :: 0 <= k < i ==> r[k] as int == t[k] as int - old(y[k]) as int
      invariant forall k :: i <= k < 32 ==> y[k] == old(y[k])
    {
      r[i] := Wrap32(t[i] - y[i]);
    }
    ghost var d := Val(r[..]);
    DifferenceValue(old(x[..]), old(y[..]), t[..], r[..]);
    ReduceAddSub(r);
    CongTrans(Val(r[..]), d, old(Val(x[..])) - old(Val(y[..])), P);
  }

  lemma DifferenceValue(x: seq<int>, y: seq<int>, t: seq<int>, d: seq<int>)
    requires |x| == |y| == |t| == |d| == 32
    requires forall k :: 0 <= k < 32 ==> t[k] == x[k] + 2 * PLimb(k) && d[k] == t[k] - y[k]
    ensures Cong(Val(d), Val(x) - Val(y), P)
  {
    PlusTwiceP(x, PLimbs(), t);
    ValLinear(t, y, d, -1);
    CongIntro(Val(d), Val(x) - Val(y), 2, P);
  }

  lemma PlusTwiceP(x: seq<int>, p: seq<int>, t: seq<int>)
    requires |x| == |p| == |t| == 32 && p == PLimbs()
    requires forall k :: 0 <= k < 32 ==> t[k] == x[k] + 2 * p[k]
    ensures Val(t) == Val(x) + 2 * P
  {
    ValLinear(x, p, t, 2);
    ValPLimbs();
  }

  method SetZero(r: array<u32>)
    requires r.Length == 32
    modifies r
    ensures Limbs(r[..], 0) && Val(r[..]) == 0
  {
    for i := 0 to 32
      invariant forall k :: 0 <= k < i ==> r[k] == 0
    {
      r[i] := 0;
    }
    ValZero(r[..]);
  }

  /** Negation; works on a copy because `r` may be `x`. */
  method Neg(r: array<u32>, x: array<u32>)
    requires r.Length == x.Length == 32 && Limbs(x[..], 255) && x[31] <= 254
    modifies r
    ensures Limbs(r[..], 255) && r[31] <= 127 && 0 <= Val(r[..]) < TOP
    ensures Cong(Val(r[..]), -old(Val(x[..])), P)
  {
    var t := new u32[32];
    for i := 0 to 32
      modifies t
      invariant forall k :: 0 <= k < i ==> t[k] == x[k]
    {
      t[i] := x[i];
    }
    assert t[..] == old(x[..]);
    SetZero(r);
    assert t[..] == old(x[..]);
    Sub(r, r, t);
  }

  // ---- multiplication ----

  /** What row x has added so far to the column j positions above its own. */
  ghost function RowTerm(x: int, y: seq<int>, j: int, done: nat): int
    requires done <= |y|
  {
    if 0 <= j < done then x * y[j] else 0
  }

  /** Column k of the product of the first n limbs of x with y. */
  ghost function Column(x: seq<int>, y: seq<int>, n: nat, k: nat): int
    requires n <= |x|
  {
    if n == 0 then 0 else Column(x, y, n - 1, k) + RowTerm(x[n - 1], y, k - (n - 1), |y|)
  }

  /** The column sums that the first n rows leave in a 63-word accumulator. */
  ghost function Columns(x: seq<int>, y: seq<int>, n: nat): (t: seq<int>)
    requires n <= |x|
    ensures |t| == 63 && forall k :: 0 <= k < 63 ==> t[k] == Column(x, y, n, k)
  {
    seq(63, k requires 0 <= k < 63 => Column(x, y, n, k))
  }

  lemma ProductBound(a: int, b: int)
    requires 0 <= a <= 255 && 0 <= b <= 255
    ensures 0 <= a * b <= 65025
  {
    assert a * b + (255 - a) * b == 255 * b;
  }

  lemma {:induction false} ColumnBound(x: seq<int>, y: seq<int>, n: nat, k: nat)
    requires n <= |x| && Limbs(x, 255) && Limbs(y, 255)
    ensures 0 <= Column(x, y, n, k) <= 65025 * n
  {
    if n > 0 {
      ColumnBound(x, y, n - 1, k);
      if 0 <= k - (n - 1) < |y| {
        ProductBound(x[n - 1], y[k - (n - 1)]);
      }
    }
  }

  /** The columns stand for the product. */
  lemma {:induction false} ColumnsValue(x: seq<int>, y: seq<int>, n: nat)
    requires n <= |x| == |y| == 32
    ensures Val(Columns(x, y, n)) == Val(x[..n]) * Val(y)
  {
    if n == 0 {
      ValZero(Columns(x, y, 0));
    } else {
      ColumnsValue(x, y, n - 1);
      RowValue(Columns(x, y, n - 1), n - 1, x[n - 1], y, Columns(x, y, n));
      FinishRow(x, n - 1, y);
    }
  }

  /** The 63 column sums of the schoolbook product. */
  method Schoolbook(x: array<u32>, y: array<u32>) returns (t: array<u32>)
    requires x.Length == y.Length == 32
    requires Limbs(x[..], 255) && Limbs(y[..], 255)
    ensures fresh(t) && t[..] == Columns(x[..], y[..], 32)
  {
    t := new u32[63];
    for i := 0 to 63
      invariant forall k :: 0 <= k < i ==> t[k] == 0
    {
      t[i] := 0;
    }
    ghost var xs, ys := x[..], y[..];
    for i := 0 to 32
      invariant forall k :: 0 <= k < 63 ==> t[k] == Column(xs, ys, i, k)
    {
      for j := 0 to 32
        invariant forall k :: 0 <= k < 63 ==> t[k] == Column(xs, ys, i, k) + RowTerm(xs[i], ys, k - i, j)
      {
        ProductBound(xs[i], ys[j]);
        ColumnBound(xs, ys, i, i + j);
        t[i + j] := Wrap32(t[i + j] + Wrap32(x[i] * y[j]));
      }
    }
  }

  /** A finished row i adds x * 256^i * y. */
  lemma {:induction false} RowValue(s: seq<int>, i: nat, x: int, y: seq<int>, s': seq<int>)
    requires |s| == |s'| && i + |y| <= |s|
    requires forall k :: 0 <= k < |s| ==> s'[k] == s[k] + RowTerm(x, y, k - i, |y|)
    ensures Val(s') == Val(s) + Base(i) * (x * Val(y))
  {
    if i == 0 {
      LowRowValue(s, x, y, s');
    } else {
      RowValue(s[1..], i - 1, x, y, s'[1..]);
      Scale256(Base(i - 1), x * Val(y));
    }
  }

  lemma {:induction false} LowRowValue(s: seq<int>, x: int, y: seq<int>, s': seq<int>)
    requires |s| == |s'| && |y| <= |s|
    requires forall k :: 0 <= k < |s| ==> s'[k] == s[k] + RowTerm(x, y, k, |y|)
    ensures Val(s') == Val(s) + x * Val(y)
  {
    if y == [] {
      assert s' == s;
    } else {
      LowRowValue(s[1..], x, y[1..], s'[1..]);
      Distribute(x, y[0], Val(y[1..]));
    }
  }

  lemma Scale256(b: int, c: int)
    ensures 256 * (b * c) == (256 * b) * c
  {
  }

  lemma Distribute(x: int, a: int, b: int)
    ensures x * (a + 256 * b) == x * a + 256 * (x * b)
  {
  }

  lemma FinishRow(x: seq<int>, i: nat, y: seq<int>)
    requires i < |x|
    ensures Val(x[..i + 1]) * Val(y) == Val(x[..i]) * Val(y) + Base(i) * (x[i] * Val(y))
  {
    ValSnoc(x, i);
    var a, b, v := Val(x[..i]), Base(i), Val(y);
    assert (a + b * x[i]) * v == a * v + b * (x[i] * v);
  }

  /** Columns 32..62 folded onto 0..30, times 38. */
  ghost function FoldedColumns(t: seq<int>): (r: seq<int>)
    requires |t| == 63
    ensures |r| == 32 && r[31] == t[31] && forall k :: 0 <= k < 31 ==> r[k] == t[k] + 38 * t[k + 32]
  {
    seq(32, k requires 0 <= k < 32 => if k == 31 then t[31] else t[k] + 38 * t[k + 32])
  }

  /** 2^256 = 38 modulo p. */
  lemma FoldHighColumns(t: seq<int>)
    requires |t| == 63
    ensures Val(FoldedColumns(t)) == Val(t) - 2 * P * Val(t[32..])
  {
    var lo, hi := t[..32], t[32..];
    assert t == lo + hi;
    ConcatAt32(lo, hi);
    AppendZero(hi);
    ValLinear(lo, hi + [0], FoldedColumns(t), 38);
  }

  lemma ConcatAt32(lo: seq<int>, hi: seq<int>)
    requires |lo| == 32
    ensures Val(lo + hi) == Val(lo) + 2 * TOP * Val(hi)
  {
    ValConcat(lo, hi);
    Base31();
  }

  lemma AppendZero(s: seq<int>)
    ensures Val(s + [0]) == Val(s)
  {
    ValConcat(s, [0]);
    assert Val([0]) == 0;
  }

  method FoldColumns(r: array<u32>, t: array<u32>)
    requires r.Length == 32 && t.Length == 63 && r != t
    requires forall k :: 0 <= k < 63 ==> t[k] <= 2080800
    modifies r
    ensures Limbs(r[..], WIDE)
    ensures r[..] == FoldedColumns(t[..])
  {
    for i := 32 to 63
      invariant forall k :: 0 <= k < i - 32 ==> r[k] as int == t[k] as int + 38 * t[k + 32] as int
      invariant forall k :: 0 <= k < i - 32 ==> r[k] <= WIDE
    {
      r[i - 32] := Wrap32(t[i - 32] + Times38(t[i]));
    }
    r[31] := t[31];
  }

  /** The exact value that `Mul` computes. */
  ghost function MulValue(x: seq<int>, y: seq<int>): int
    requires |x| == |y| == 32
  {
    AfterPasses(FoldedColumns(Columns(x, y, 32)), 2)
  }

  /** Multiplication; `r` may be `x` or `y`. */
  method Mul(r: array<u32>, x: array<u32>, y: array<u32>)
    requires r.Length == x.Length == y.Length == 32
    requires Limbs(x[..], 255) && Limbs(y[..], 255)
    modifies r
    ensures Limbs(r[..], 255) && r[31] <= 128
    ensures Cong(Val(r[..]), old(Val(x[..])) * old(Val(y[..])), P)
    ensures Val(r[..]) == MulValue(old(x[..]), old(y[..]))
  {
    ghost var xs, ys := x[..], y[..];
    var t := Schoolbook(x, y);
    forall k | 0 <= k < 63
      ensures t[k] <= 2080800
    {
      assert t[k] == t[..][k];
      ColumnBound(xs, ys, 32, k);
    }
    FoldColumns(r, t);
    ghost var folded := Val(r[..]);
    ProductResidue(xs, ys);
    ReduceMul(r);
    CongTrans(Val(r[..]), folded, Val(xs) * Val(ys), P);
  }

  lemma ProductResidue(x: seq<int>, y: seq<int>)
    requires |x| == |y| == 32
    ensures Cong(Val(FoldedColumns(Columns(x, y, 32))), Val(x) * Val(y), P)
  {
    var t := Columns(x, y, 32);
    ColumnsValue(x, y, 32);
    assert x[..32] == x;
    FoldHighColumns(t);
    CongIntro(Val(FoldedColumns(t)), Val(t), -2 * Val(t[32..]), P);
  }
}
