/**
 A growable bit set over 32-bit words. `top` is an upper bound on the highest word in use,
 brought down lazily; `Contents` is the set of naturals that the words stand for.
 */
module Bitmap {
  import opened Words
  import opened Bits

  /** BITMAP_MAX: 2^24 */
  const MAX := 0x100_0000

  // ---- words as sets ----

  ghost predicate InWords(d: seq<u32>, n: nat) {
    n / 32 < |d| && Bit(d[n / 32], n % 32)
  }

  ghost function SetOf(d: seq<u32>): (r: set<nat>)
    ensures forall n :: n in r <==> InWords(d, n)
  {
    set n: nat | n < 32 * |d| && InWords(d, n)
  }

  /** Changing one word as a set: what a bitwise operation does there, nothing elsewhere. */
  lemma UpdateWord(d: seq<u32>, w: nat, x: u32, n: nat)
    requires w < |d|
    ensures InWords(d[w := x], n) <==> if n / 32 == w then Bit(x, n % 32) else InWords(d, n)
  {
  }

  /** 1 << k */
  function Mask(k: nat): u32
    requires k < 32
  {
    ShlBound(1, 1, k);
    PowerMonotone(k + 1, 32);
    PowerValues();
    Shl(1, k)
  }

  lemma Power31()
    ensures Power(31) == 0x8000_0000 && Power(32) == 0x1_0000_0000 && Power(8) == 256
  {
    PowerValues();
    assert Power(4) == 16;
    assert Power(8) == 256;
    assert Power(32) == 2 * Power(31);
  }

  lemma {:induction false} PowerMonotone(a: nat, b: nat)
    requires a <= b
    ensures Power(a) <= Power(b)
  {
    if a < b {
      PowerMonotone(a, b - 1);
    }
  }

  /** d[w] |= 1 << k adds one element. */
  lemma OrAddsElement(d: seq<u32>, n: nat)
    requires n / 32 < |d|
    ensures Or(d[n / 32], Mask(n % 32)) < 0x1_0000_0000
    ensures SetOf(d[n / 32 := Or(d[n / 32], Mask(n % 32))]) == SetOf(d) + {n}
  {
    var w, k := n / 32, n % 32;
    var x := Or(d[w], Mask(k));
    hide Bit, Or, Shl, Power;
    Power31();
    OrBound(d[w], Mask(k), 32);
    forall m: nat
      ensures m in SetOf(d[w := x]) <==> m in SetOf(d) + {n}
    {
      UpdateWord(d, w, x, m);
      BitOr(d[w], Mask(k), m % 32);
      BitOfOne(k, m % 32);
    }
  }

  /** d[w] &= ~(1 << k) removes one element. */
  lemma AndRemovesElement(d: seq<u32>, n: nat)
    requires n / 32 < |d|
    ensures SetOf(d[n / 32 := And(d[n / 32], 0xffff_ffff - Mask(n % 32))]) == SetOf(d) - {n}
  {
    var w, k := n / 32, n % 32;
    var x := And(d[w], 0xffff_ffff - Mask(k));
    hide Bit, And, Shl, Power;
    Power31();
    forall m: nat
      ensures m in SetOf(d[w := x]) <==> m in SetOf(d) - {n}
    {
      UpdateWord(d, w, x, m);
      BitAnd(d[w], 0xffff_ffff - Mask(k), m % 32);
      BitComplement(Mask(k), 32, m % 32);
      BitOfOne(k, m % 32);
    }
  }

  // ---- byte strings as sets, big-endian ----

  ghost predicate InString(s: seq<u8>, n: nat) {
    n / 8 < |s| && Bit(s[|s| - 1 - n / 8], n % 8)
  }

  ghost function StringSet(s: seq<u8>): (r: set<nat>)
    ensures forall n :: n in r <==> InString(s, n)
  {
    set n: nat | n < 8 * |s| && InString(s, n)
  }

  // ---- the bitmap ----

  class BitMap {
    var d: array<u32>
    var top: nat

    /** The words above `top` are zero. */
    ghost predicate Valid()
      reads this, d
    {
      top < d.Length && forall i :: top < i < d.Length ==> d[i] == 0
    }

    ghost function Contents(): set<nat>
      reads this, d
    {
      SetOf(d[..])
    }

    constructor ()
      ensures Valid() && fresh(d) && Contents() == {}
    {
      d := new u32[1](i => 0);
      top := 0;
      new;
      NoBits(d[..]);
    }

    method Zero()
      requires Valid()
      modifies this, d
      ensures Valid() && d == old(d) && top == 0 && Contents() == {}
    {
      for i := 0 to d.Length
        invariant d == old(d)
        invariant forall k :: 0 <= k < i ==> d[k] == 0
      {
        d[i] := 0;
      }
      top := 0;
      NoBits(d[..]);
    }

    /** n is any 32-bit number. */
    method TestBit(n: nat) returns (b: bool)
      requires Valid()
      ensures b <==> n in Contents()
    {
      if n / 32 > top {
        if n / 32 < d.Length {
          BitZero(n % 32);
        }
        return false;
      }
      var w := Shr(d[n / 32], n % 32);
      BitShr(d[n / 32], n % 32, 0);
      assert Bit(w, 0) == (w % 2 == 1);
      return And(w, 1) == 1;
    }

    /** Makes room for bit n; `memory` says whether an allocation, if needed, succeeds. */
    method Reserve(n: nat, memory: bool) returns (ok: bool)
      requires Valid()
      modifies this
      ensures Valid() && top == old(top) && Contents() == old(Contents())
      ensures ok <==> n <= 0x100_0000 && (n / 32 < old(d.Length) || memory)
      ensures ok ==> n / 32 < d.Length
      ensures d == old(d) || fresh(d)
    {
      if n > MAX {
        return false;
      }
      var nlen := n / 32 + 1;
      if d.Length < nlen {
        if !memory {
          return false;
        }
        var tmp := new u32[nlen];
        for i := 0 to nlen
          modifies tmp
          invariant forall k :: 0 <= k < i ==> tmp[k] == if k < d.Length then d[k] else 0
        {
          tmp[i] := if i < d.Length then d[i] else 0;
        }
        ZeroExtension(d[..], tmp[..]);
        d := tmp;
      }
      return true;
    }

    method SetBit(n: nat, memory: bool) returns (ok: bool)
      requires Valid()
      modifies this, d
      ensures Valid()
      ensures ok <==> n <= 0x100_0000 && (n / 32 < old(d.Length) || memory)
      ensures Contents() == if ok then old(Contents()) + {n} else old(Contents())
    {
      ok := Reserve(n, memory);
      if !ok {
        return;
      }
      var offset := n / 32;
      if offset > top {
        top := offset;
      }
      OrAddsElement(d[..], n);
      ghost var s := d[..];
      d[offset] := Or(d[offset], Mask(n % 32));
      assert d[..] == s[offset := Or(s[offset], Mask(n % 32))];
    }

    /** Brings `top` down to the highest non-zero word, or to word 0. */
    method Retop()
      requires Valid()
      modifies this`top
      ensures Valid() && top <= old(top) && (top == 0 || d[top] != 0)
      ensures Contents() == old(Contents())
    {
      while top > 0 && d[top] == 0
        invariant Valid() && top <= old(top)
      {
        top := top - 1;
      }
    }

    method ClearBit(n: nat)
      requires Valid()
      modifies this, d
      ensures Valid() && d == old(d)
      ensures Contents() == if n <= 0x100_0000 then old(Contents()) - {n} else old(Contents())
    {
      if n > MAX {
        return;
      }
      var offset := n / 32;
      if offset > top {
        if offset < d.Length {
          BitZero(n % 32);
        }
        return;
      }
      AndRemovesElement(d[..], n);
      ghost var s := d[..];
      d[offset] := And(d[offset], 0xffff_ffff - Mask(n % 32));
      assert d[..] == s[offset := And(s[offset], 0xffff_ffff - Mask(n % 32))];
      Retop();
    }

    /** One more than the largest element, or 0. */
    method NBits() returns (bits: nat)
      requires Valid()
      modifies this`top
      ensures Valid() && Contents() == old(Contents())
      ensures IsNBits(Contents(), bits) && bits <= 32 * (top + 1)
    {
      Retop();
      if top == 0 && d[0] == 0 {
        NoBits(d[..]);
        return 0;
      }
      var k := LeadingZeros(d[top]);
      bits := (top + 1) * 32 - k;
      HighestBit(d[..], top, k);
    }

    /** Shifts left until the top bit is set. */
    static method LeadingZeros(x: u32) returns (k: nat)
      requires x > 0
      ensures k <= 31 && 0x8000_0000 <= Shl(x, k) < 0x1_0000_0000
    {
      var w := x;
      k := 0;
      while And(w, 0x8000_0000) == 0
        invariant k <= 31 && w == Shl(x, k)
        decreases 31 - k
      {
        hide And;
        TopBitTest(w);
        ShiftLimit(x, k);
        w := Wrap32(2 * w);
        k := k + 1;
      }
      TopBitTest(w);
    }

    method NBytes() returns (n: nat)
      requires Valid()
      modifies this`top
      ensures Valid() && Contents() == old(Contents())
      ensures exists bits: nat :: IsNBits(Contents(), bits) && n == (bits + 7) / 8 && bits <= 32 * (top + 1)
    {
      var bits := NBits();
      n := (bits + 7) / 8;
    }

    /** Writes the set big-endian into the first bytes of p, if l bytes are enough. */
    method ToString(p: array<u8>, l: nat) returns (ok: bool, need: nat)
      requires Valid() && l <= p.Length
      modifies this`top, p
      ensures Valid() && Contents() == old(Contents())
      ensures ok <==> need <= l
      ensures exists bits: nat :: IsNBits(Contents(), bits) && need == (bits + 7) / 8
      ensures ok ==> StringSet(p[..need]) == Contents() && (need > 0 ==> p[0] != 0)
      ensures forall i :: (if ok then need else 0) <= i < p.Length ==> p[i] == old(p[i])
    {
      need := NBytes();
      ghost var bits: nat :| IsNBits(Contents(), bits) && need == (bits + 7) / 8 && bits <= 32 * (top + 1);
      if l < need {
        return false, need;
      }
      hide Written, SetOf, InWords, IsNBits;
      for i := 0 to top + 1
        invariant Written(p[..], d[..], need, 4 * i)
        invariant forall r :: need <= r < p.Length ==> p[r] == old(p[r])
        modifies p
      {
        hide Written, SetOf, InWords, IsNBits;
        WriteWord(p, need, i);
      }
      ok := true;
      FinishString(p[..], d[..], need, 4 * (top + 1), bits);
    }

    /** Puts the bytes of word i, as far as they are needed, from the low end up. */
    method WriteWord(p: array<u8>, need: nat, i: nat)
      requires need <= p.Length && i < d.Length && Written(p[..], d[..], need, 4 * i)
      modifies p
      ensures Written(p[..], d[..], need, 4 * i + 4)
      ensures forall r :: need <= r < p.Length ==> p[r] == old(p[r])
    {
      for j := 0 to 4
        invariant Written(p[..], d[..], need, 4 * i + j)
        invariant forall r :: need <= r < p.Length ==> p[r] == old(p[r])
      {
        var k := 4 * i + j;
        if k >= need {
          continue;
        }
        assert ByteOf(d[..], k) == LowByte(d[i], j);
        hide LowByte;
        p[need - 1 - k] := LowByte(d[i], j);
      }
    }

    /** Reads a big-endian string. */
    method FromString(s: seq<u8>, memory: bool) returns (ok: bool)
      requires Valid()
      modifies this, d
      ensures Valid()
      ensures ok <==> |s| <= 0x20_0000 && (8 * |s| / 32 < old(d.Length) || memory)
      ensures Contents() == if ok then StringSet(s) else old(Contents())
    {
      var l := |s|;
      if l > MAX / 8 {
        return false;
      }
      ok := Reserve(l * 8, memory);
      if !ok {
        return;
      }
      Zero();
      StartReading(d[..], s);
      if l == 0 {
        return;
      }
      top := (l + 3) / 4 - 1;
      var offset: int := top;
      var shift := (l + 3) % 4 * 8;
      ghost var a := d;
      for i := 0 to l
        invariant d == a && top < d.Length && top == (l + 3) / 4 - 1
        invariant i < l ==> offset == (l - 1 - i) / 4 && shift == 8 * ((l - 1 - i) % 4)
        invariant forall w :: top < w < d.Length ==> d[w] == 0
        invariant ReadSoFar(d[..], s, i)
      {
        hide ReadSoFar, Or, Shl;
        ghost var e := d[..];
        OrByte(e, s, i);
        d[offset] := Or(d[offset], Shl(s[i], shift));
        assert d[..] == e[offset := Or(e[offset], Shl(s[i], shift))];
        if shift == 0 {
          offset := offset - 1;
          shift := 24;
        } else {
          shift := shift - 8;
        }
      }
      Retop();
      assert d[..] == a[..];
    }
  }

  // ---- the number of bits ----

  ghost predicate IsNBits(s: set<nat>, bits: nat) {
    if bits == 0 then s == {} else bits - 1 in s && forall n :: n in s ==> n < bits
  }

  /** w & 0x80000000 */
  lemma TopBitTest(w: u32)
    ensures And(w, 0x8000_0000) != 0 <==> w >= 0x8000_0000
  {
    Power31();
    var x := And(w, 0x8000_0000);
    if w >= 0x8000_0000 {
      TopBit(w, 31);
      TopBit(0x8000_0000, 31);
      BitAnd(w, 0x8000_0000, 31);
      BitZero(31);
    } else if x != 0 {
      var i := SomeBit(x, 32);
      BitAnd(w, 0x8000_0000, i);
      TopBitOnly(i);
      BitBeyond(w, 31, 31);
    }
  }

  lemma TopBitOnly(i: nat)
    ensures Bit(0x8000_0000, i) <==> i == 31
  {
    Power31();
    BitComplement(0x7fff_ffff, 32, i);
    BitComplement(0, 31, i);
    BitZero(i);
  }

  /** A word shifted k places without reaching the top bit can be shifted again. */
  lemma ShiftLimit(x: u32, k: nat)
    requires x > 0 && k <= 31 && Shl(x, k) < 0x8000_0000
    ensures k < 31
  {
    if k == 31 {
      AtLeastPower(x, 31);
      Power31();
    }
  }

  lemma {:induction false} AtLeastPower(x: nat, k: nat)
    requires x > 0
    ensures Shl(x, k) >= Power(k)
  {
    if k > 0 {
      AtLeastPower(x, k - 1);
    }
  }

  /** If the top word shifted left by k reaches its top bit, its highest bit is 31 - k. */
  lemma HighestBit(d: seq<u32>, top: nat, k: nat)
    requires top < |d| && k <= 31 && 0x8000_0000 <= Shl(d[top], k) < 0x1_0000_0000
    requires forall i :: top < i < |d| ==> d[i] == 0
    ensures IsNBits(SetOf(d), 32 * (top + 1) - k)
  {
    hide Bit, Shl;
    var x, m := d[top], 31 - k;
    assert Bit(x, m) by {
      Power31();
      TopBit(Shl(x, k), 31);
      BitShl(x, k, 31);
    }
    assert InWords(d, 32 * top + m);
    forall n | n in SetOf(d)
      ensures n < 32 * top + m + 1
    {
      BitZero(n % 32);
      if n / 32 == top {
        BelowTop(x, k, n % 32);
      }
    }
  }

  lemma BelowTop(x: nat, k: nat, i: nat)
    requires Shl(x, k) < 0x1_0000_0000 && Bit(x, i)
    ensures i + k < 32
  {
    BitShl(x, k, i + k);
    if i + k >= 32 {
      Power31();
      BitBeyond(Shl(x, k), 32, i + k);
    }
  }

  // ---- bytes of words ----

  /** (w >> 8j) & 0xff */
  function LowByte(w: u32, j: nat): (b: u8) {
    And(Shr(w, 8 * j), 0xff)
  }

  ghost function ByteOf(d: seq<u32>, q: nat): u8 {
    if q / 4 < |d| then LowByte(d[q / 4], q % 4) else 0
  }

  lemma LowByteBits(w: u32, j: nat, i: nat)
    requires i < 8
    ensures Bit(LowByte(w, j), i) <==> Bit(w, 8 * j + i)
  {
    Power31();
    BitAnd(Shr(w, 8 * j), 0xff, i);
    BitComplement(0, 8, i);
    BitZero(i);
    BitShr(w, 8 * j, i);
  }

  lemma ByteOfBits(d: seq<u32>, n: nat)
    ensures Bit(ByteOf(d, n / 8), n % 8) <==> InWords(d, n)
  {
    assert n / 8 / 4 == n / 32 && 8 * (n / 8 % 4) + n % 8 == n % 32;
    if n / 32 < |d| {
      LowByteBits(d[n / 32], n / 8 % 4, n % 8);
    } else {
      BitZero(n % 8);
    }
  }

  /** The low bytes of the words, reversed, are the set as a string without leading zeros. */
  lemma StringOfWords(d: seq<u32>, s: seq<u8>, bits: nat)
    requires IsNBits(SetOf(d), bits) && |s| == (bits + 7) / 8
    requires forall q :: 0 <= q < |s| ==> s[|s| - 1 - q] == ByteOf(d, q)
    ensures StringSet(s) == SetOf(d) && (s != [] ==> s[0] != 0)
  {
    forall n: nat
      ensures n in StringSet(s) <==> n in SetOf(d)
    {
      ByteOfBits(d, n);
      if n / 8 < |s| {
        assert s[|s| - 1 - n / 8] == ByteOf(d, n / 8);
      }
    }
    if s != [] {
      ByteOfBits(d, bits - 1);
      assert (bits - 1) / 8 == |s| - 1;
      assert s[|s| - 1 - (|s| - 1)] == ByteOf(d, |s| - 1);
      BitZero((bits - 1) % 8);
    }
  }

  /** The first k bytes from the low end have been put in place. */
  ghost predicate Written(p: seq<u8>, d: seq<u32>, need: nat, k: nat) {
    need <= |p| && forall q :: 0 <= q < k && q < need ==> p[need - 1 - q] == ByteOf(d, q)
  }

  lemma FinishString(p: seq<u8>, d: seq<u32>, need: nat, k: nat, bits: nat)
    requires Written(p, d, need, k) && need <= k && IsNBits(SetOf(d), bits) && need == (bits + 7) / 8
    ensures StringSet(p[..need]) == SetOf(d) && (need > 0 ==> p[0] != 0)
  {
    var s := p[..need];
    forall q | 0 <= q < need
      ensures s[need - 1 - q] == ByteOf(d, q)
    {
      assert s[need - 1 - q] == p[need - 1 - q];
    }
    StringOfWords(d, s, bits);
  }

  /** The words hold the bits of the first i bytes of the string. */
  ghost predicate ReadSoFar(d: seq<u32>, s: seq<u8>, i: nat) {
    forall n: nat :: n in SetOf(d) <==> n in StringSet(s) && n / 8 >= |s| - i
  }

  lemma StartReading(d: seq<u32>, s: seq<u8>)
    requires SetOf(d) == {}
    ensures ReadSoFar(d, s, 0)
    ensures s == [] ==> StringSet(s) == {}
  {
  }

  /** Byte i of the string, or-ed into its word, adds its bits. */
  lemma OrByte(d: seq<u32>, s: seq<u8>, i: nat)
    requires i < |s| && (|s| - 1 - i) / 4 < |d| && ReadSoFar(d, s, i)
    ensures var o, shift := (|s| - 1 - i) / 4, 8 * ((|s| - 1 - i) % 4);
      && Or(d[o], Shl(s[i], shift)) < 0x1_0000_0000
      && ReadSoFar(d[o := Or(d[o], Shl(s[i], shift))], s, i + 1)
  {
    var q := |s| - 1 - i;
    var o, shift := q / 4, 8 * (q % 4);
    ByteShift(s[i], q % 4);
    Power31();
    OrBound(d[o], Shl(s[i], shift), 32);
    var x: u32 := Or(d[o], Shl(s[i], shift));
    forall n: nat
      ensures n in SetOf(d[o := x]) <==> n in StringSet(s) && n / 8 >= q
    {
      OrByteBit(d, s, i, x, n);
    }
  }

  lemma OrByteBit(d: seq<u32>, s: seq<u8>, i: nat, x: u32, n: nat)
    requires i < |s| && (|s| - 1 - i) / 4 < |d| && ReadSoFar(d, s, i)
    requires x == Or(d[(|s| - 1 - i) / 4], Shl(s[i], 8 * ((|s| - 1 - i) % 4)))
    ensures InWords(d[(|s| - 1 - i) / 4 := x], n) <==> InString(s, n) && n / 8 >= |s| - 1 - i
  {
    var q := |s| - 1 - i;
    var o, shift := q / 4, 8 * (q % 4);
    assert n in SetOf(d) <==> n in StringSet(s) && n / 8 >= q + 1;
    UpdateWord(d, o, x, n);
    BitOr(d[o], Shl(s[i], shift), n % 32);
    BitShl(s[i], shift, n % 32);
    OrByteAt(s, i, q, n);
    hide Or, Shl, Bit;
  }

  lemma ByteShift(b: u8, j: nat)
    requires j < 4
    ensures Shl(b, 8 * j) < 0x1_0000_0000
  {
    Power31();
    ShlBound(b, 8, 8 * j);
    PowerMonotone(8 + 8 * j, 32);
  }

  /** Which bits of the string the shifted byte i holds. */
  lemma OrByteAt(s: seq<u8>, i: nat, q: nat, n: nat)
    requires i < |s| && q == |s| - 1 - i
    ensures n / 8 == q <==> n / 32 == q / 4 && 0 <= n % 32 - 8 * (q % 4) < 8
    ensures n / 8 == q ==> n % 8 == n % 32 - 8 * (q % 4) && (InString(s, n) <==> Bit(s[i], n % 8))
    ensures n / 32 == q / 4 && n % 32 - 8 * (q % 4) >= 8 ==> !Bit(s[i], n % 32 - 8 * (q % 4))
  {
    if n / 32 == q / 4 && n % 32 - 8 * (q % 4) >= 8 {
      Power31();
      BitBeyond(s[i], 8, n % 32 - 8 * (q % 4));
    }
  }

  lemma NoBits(d: seq<u32>)
    requires forall i :: 0 <= i < |d| ==> d[i] == 0
    ensures SetOf(d) == {}
  {
    forall n: nat
      ensures n !in SetOf(d)
    {
      BitZero(n % 32);
    }
  }

  lemma ZeroExtension(d: seq<u32>, e: seq<u32>)
    requires |d| <= |e| && forall k :: 0 <= k < |e| ==> e[k] == if k < |d| then d[k] else 0
    ensures SetOf(e) == SetOf(d)
  {
    forall n: nat
      ensures n in SetOf(e) <==> n in SetOf(d)
    {
      BitZero(n % 32);
    }
  }

  // ---- round trips ----

  /** A string without its leading zero bytes. */
  function Stripped(s: seq<u8>): seq<u8> {
    if s != [] && s[0] == 0 then Stripped(s[1..]) else s
  }

  lemma {:induction false} StrippedSet(s: seq<u8>)
    ensures StringSet(Stripped(s)) == StringSet(s) && (Stripped(s) != [] ==> Stripped(s)[0] != 0)
  {
    if s != [] && s[0] == 0 {
      StrippedSet(s[1..]);
      forall n: nat
        ensures n in StringSet(s[1..]) <==> n in StringSet(s)
      {
        BitZero(n % 8);
      }
    }
  }

  /** The leading byte decides how long a string without leading zeros is. */
  lemma LongerHasMore(a: seq<u8>, b: seq<u8>)
    requires |a| > |b| && a[0] != 0
    ensures StringSet(a) != StringSet(b)
  {
    Power31();
    var i := SomeBit(a[0], 8);
    var n := 8 * (|a| - 1) + i;
    assert n in StringSet(a) && n !in StringSet(b);
  }

  /** Strings without leading zeros are determined by their sets. */
  lemma SameSetSameString(a: seq<u8>, b: seq<u8>)
    requires StringSet(a) == StringSet(b)
    requires (a != [] ==> a[0] != 0) && (b != [] ==> b[0] != 0)
    ensures a == b
  {
    if |a| > |b| {
      LongerHasMore(a, b);
    } else if |b| > |a| {
      LongerHasMore(b, a);
    } else {
      forall k | 0 <= k < |a|
        ensures a[k] == b[k]
      {
        SameByte(a, b, k);
      }
    }
  }

  lemma SameByte(a: seq<u8>, b: seq<u8>, k: nat)
    requires StringSet(a) == StringSet(b) && |a| == |b| && k < |a|
    ensures a[k] == b[k]
  {
    var x, y, q := a[k], b[k], |a| - 1 - k;
    forall i: nat | i < 8
      ensures Bit(x, i) <==> Bit(y, i)
    {
      assert 8 * q + i in StringSet(a) <==> 8 * q + i in StringSet(b);
    }
    Power31();
    SameBits(x, y, 8);
  }

  /** Writing out what was read from s gives s without its leading zeros. */
  lemma StringRoundTrip(s: seq<u8>, out: seq<u8>)
    requires StringSet(out) == StringSet(s) && (out != [] ==> out[0] != 0)
    ensures out == Stripped(s)
  {
    StrippedSet(s);
    SameSetSameString(out, Stripped(s));
  }

  /** A set's string is short enough to be read back exactly if the set is below 2^24. */
  lemma ReadableIff(contents: set<nat>, bits: nat)
    requires IsNBits(contents, bits)
    ensures (bits + 7) / 8 <= 0x20_0000 <==> forall n :: n in contents ==> n < 0x100_0000
  {
    if bits > 0x100_0000 {
      assert bits - 1 in contents;
    }
  }

  /** to_string, then from_string into another bitmap: the identity on sets below 2^24, and an error otherwise. */
  method SetRoundTrip(b: BitMap, c: BitMap, p: array<u8>) returns (ok: bool)
    requires b.Valid() && c.Valid() && b != c && b.d != c.d
    requires forall bits: nat :: IsNBits(b.Contents(), bits) ==> (bits + 7) / 8 <= p.Length
    modifies b, c, c.d, p
    ensures b.Valid() && c.Valid() && b.Contents() == old(b.Contents())
    ensures ok <==> forall n :: n in old(b.Contents()) ==> n < 0x100_0000
    ensures ok ==> c.Contents() == old(b.Contents())
  {
    ghost var contents := b.Contents();
    var need;
    ok, need := b.ToString(p, p.Length);
    ghost var bits: nat :| IsNBits(contents, bits) && need == (bits + 7) / 8;
    ReadableIff(contents, bits);
    ok := c.FromString(p[..need], true);
  }

  /** from_string, then to_string: exactly the leading zero bytes are gone. */
  method BytesRoundTrip(b: BitMap, s: seq<u8>, p: array<u8>) returns (ok: bool, need: nat)
    requires b.Valid() && |s| <= 0x20_0000 && p.Length >= |s|
    modifies b, b.d, p
    ensures b.Valid() && ok && need <= p.Length && p[..need] == Stripped(s)
  {
    ok := b.FromString(s, true);
    ghost var contents := b.Contents();
    ok, need := b.ToString(p, p.Length);
    ghost var bits: nat :| IsNBits(contents, bits) && need == (bits + 7) / 8;
    NoLonger(s, bits);
    StringRoundTrip(s, p[..need]);
  }

  lemma NoLonger(s: seq<u8>, bits: nat)
    requires IsNBits(StringSet(s), bits)
    ensures (bits + 7) / 8 <= |s|
  {
  }
}
