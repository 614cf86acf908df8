/**
 What fixes the definitions taken from FIPS 180-4: the functions bit by bit, the initial value by
 square roots, a round and the schedule by the example "abc".
 */
module Sha512Bits {
  import opened Sha512Spec

  /** Bit i of a word; arithmetic on i is modulo 64. */
  predicate Bit(x: word, i: bv6) {
    (x >> i) & 1 == 1
  }

  lemma BitOfXor(x: word, y: word, i: bv6)
    ensures Bit(x ^ y, i) <==> Bit(x, i) != Bit(y, i)
  {
  }

  lemma BitXor(x: word, y: word, i: bv6)
    ensures Bit(Xor(x, y), i) <==> Bit(x, i) != Bit(y, i)
  {
    hide Bit;
    BitOfXor(x, y, i);
  }

  lemma BitAnd(x: word, y: word, i: bv6)
    ensures Bit(And(x, y), i) <==> Bit(x, i) && Bit(y, i)
  {
  }

  lemma BitNot(x: word, i: bv6)
    ensures Bit(Not(x), i) <==> !Bit(x, i)
  {
  }

  // ---- rotations and shifts ----

  lemma BitRotr1(x: word, i: bv6)
    ensures Bit(Rotr(x, 1), i) <==> Bit(x, i + 1)
  {
    assert Rotr(x, 1) == ((x >> 1) | (x << 63));
    hide Rotr;
  }

  lemma BitRotr8(x: word, i: bv6)
    ensures Bit(Rotr(x, 8), i) <==> Bit(x, i + 8)
  {
    assert Rotr(x, 8) == ((x >> 8) | (x << 56));
    hide Rotr;
  }

  lemma BitRotr14(x: word, i: bv6)
    ensures Bit(Rotr(x, 14), i) <==> Bit(x, i + 14)
  {
    assert Rotr(x, 14) == ((x >> 14) | (x << 50));
    hide Rotr;
  }

  lemma BitRotr18(x: word, i: bv6)
    ensures Bit(Rotr(x, 18), i) <==> Bit(x, i + 18)
  {
    assert Rotr(x, 18) == ((x >> 18) | (x << 46));
    hide Rotr;
  }

  lemma BitRotr19(x: word, i: bv6)
    ensures Bit(Rotr(x, 19), i) <==> Bit(x, i + 19)
  {
    assert Rotr(x, 19) == ((x >> 19) | (x << 45));
    hide Rotr;
  }

  lemma BitRotr28(x: word, i: bv6)
    ensures Bit(Rotr(x, 28), i) <==> Bit(x, i + 28)
  {
    assert Rotr(x, 28) == ((x >> 28) | (x << 36));
    hide Rotr;
  }

  lemma BitRotr34(x: word, i: bv6)
    ensures Bit(Rotr(x, 34), i) <==> Bit(x, i + 34)
  {
    assert Rotr(x, 34) == ((x >> 34) | (x << 30));
    hide Rotr;
  }

  lemma BitRotr39(x: word, i: bv6)
    ensures Bit(Rotr(x, 39), i) <==> Bit(x, i + 39)
  {
    assert Rotr(x, 39) == ((x >> 39) | (x << 25));
    hide Rotr;
  }

  lemma BitRotr41(x: word, i: bv6)
    ensures Bit(Rotr(x, 41), i) <==> Bit(x, i + 41)
  {
    assert Rotr(x, 41) == ((x >> 41) | (x << 23));
    hide Rotr;
  }

  lemma BitRotr61(x: word, i: bv6)
    ensures Bit(Rotr(x, 61), i) <==> Bit(x, i + 61)
  {
    assert Rotr(x, 61) == ((x >> 61) | (x << 3));
    hide Rotr;
  }

  lemma BitOfShr6(x: word, i: bv6)
    ensures Bit(x >> 6, i) <==> i < 58 && Bit(x, i + 6)
  {
  }

  lemma BitShr6(x: word, i: bv6)
    ensures Bit(Shr(x, 6), i) <==> i < 58 && Bit(x, i + 6)
  {
    hide Bit;
    BitOfShr6(x, i);
    assert Shr(x, 6) == x >> 6;
  }

  lemma BitOfShr7(x: word, i: bv6)
    ensures Bit(x >> 7, i) <==> i < 57 && Bit(x, i + 7)
  {
  }

  lemma BitShr7(x: word, i: bv6)
    ensures Bit(Shr(x, 7), i) <==> i < 57 && Bit(x, i + 7)
  {
    hide Bit;
    BitOfShr7(x, i);
    assert Shr(x, 7) == x >> 7;
  }

  // ---- section 4.1.3 ----

  /** Where x has a one the bit of y, else that of z. */
  lemma ChBits(x: word, y: word, z: word, i: bv6)
    ensures Bit(Ch(x, y, z), i) <==> if Bit(x, i) then Bit(y, i) else Bit(z, i)
  {
    hide Bit, Xor, And, Not, Rotr, Shr;
    BitXor(And(x, y), And(Not(x), z), i);
    BitAnd(x, y, i);
    BitAnd(Not(x), z, i);
    BitNot(x, i);
  }

  /** The bit that at least two of the three have. */
  lemma MajBits(x: word, y: word, z: word, i: bv6)
    ensures Bit(Maj(x, y, z), i) <==> (Bit(x, i) && Bit(y, i)) || (Bit(x, i) && Bit(z, i)) || (Bit(y, i) && Bit(z, i))
  {
    hide Bit, Xor, And, Not, Rotr, Shr;
    BitXor(Xor(And(x, y), And(x, z)), And(y, z), i);
    BitXor(And(x, y), And(x, z), i);
    BitAnd(x, y, i);
    BitAnd(x, z, i);
    BitAnd(y, z, i);
  }

  predicate Parity(a: bool, b: bool, c: bool) {
    (a != b) != c
  }

  lemma BitXor3(x: word, y: word, z: word, i: bv6)
    ensures Bit(Xor(Xor(x, y), z), i) <==> Parity(Bit(x, i), Bit(y, i), Bit(z, i))
  {
    hide Bit, Xor;
    BitXor(Xor(x, y), z, i);
    BitXor(x, y, i);
  }

  lemma BigSigma0Bits(x: word, i: bv6)
    ensures Bit(BigSigma0(x), i) <==> Parity(Bit(x, i + 28), Bit(x, i + 34), Bit(x, i + 39))
  {
    hide Bit, Xor, And, Not, Rotr, Shr;
    BitXor3(Rotr(x, 28), Rotr(x, 34), Rotr(x, 39), i);
    BitRotr28(x, i);
    BitRotr34(x, i);
    BitRotr39(x, i);
  }

  lemma BigSigma1Bits(x: word, i: bv6)
    ensures Bit(BigSigma1(x), i) <==> Parity(Bit(x, i + 14), Bit(x, i + 18), Bit(x, i + 41))
  {
    hide Bit, Xor, And, Not, Rotr, Shr;
    BitXor3(Rotr(x, 14), Rotr(x, 18), Rotr(x, 41), i);
    BitRotr14(x, i);
    BitRotr18(x, i);
    BitRotr41(x, i);
  }

  lemma Sigma0Bits(x: word, i: bv6)
    ensures Bit(Sigma0(x), i) <==> Parity(Bit(x, i + 1), Bit(x, i + 8), i < 57 && Bit(x, i + 7))
  {
    hide Bit, Xor, And, Not, Rotr, Shr;
    BitXor3(Rotr(x, 1), Rotr(x, 8), Shr(x, 7), i);
    BitRotr1(x, i);
    BitRotr8(x, i);
    BitShr7(x, i);
  }

  lemma Sigma1Bits(x: word, i: bv6)
    ensures Bit(Sigma1(x), i) <==> Parity(Bit(x, i + 19), Bit(x, i + 61), i < 58 && Bit(x, i + 6))
  {
    hide Bit, Xor, And, Not, Rotr, Shr;
    BitXor3(Rotr(x, 19), Rotr(x, 61), Shr(x, 6), i);
    BitRotr19(x, i);
    BitRotr61(x, i);
    BitShr6(x, i);
  }

  // ---- section 5.3.5 ----

  function SquareFloor(p: nat): nat {
    if p < 4 then 1 else if p < 9 then 2 else if p < 16 then 3 else 4
  }

  /** k is the first 64 bits of the fractional part of the square root of p. */
  predicate IsSquareRoot(p: nat, k: int) {
    var n := SquareFloor(p) * 0x1_0000_0000_0000_0000 + k;
    n * n <= p * 0x1_0000_0000_0000_0000_0000_0000_0000_0000 < (n + 1) * (n + 1)
  }

  lemma SquareRoots()
    ensures IsSquareRoot(2, 0x6a09e667f3bcc908) && IsSquareRoot(3, 0xbb67ae8584caa73b)
    ensures IsSquareRoot(5, 0x3c6ef372fe94f82b) && IsSquareRoot(7, 0xa54ff53a5f1d36f1)
    ensures IsSquareRoot(11, 0x510e527fade682d1) && IsSquareRoot(13, 0x9b05688c2b3e6c1f)
    ensures IsSquareRoot(17, 0x1f83d9abfb41bd6b) && IsSquareRoot(19, 0x5be0cd19137e2179)
  {
  }

  /** The words of the initial hash value are what the standard derives them from. */
  lemma InitialWords()
    ensures IsSquareRoot(2, INITIAL.a as int) && IsSquareRoot(3, INITIAL.b as int)
    ensures IsSquareRoot(5, INITIAL.c as int) && IsSquareRoot(7, INITIAL.d as int)
    ensures IsSquareRoot(11, INITIAL.e as int) && IsSquareRoot(13, INITIAL.f as int)
    ensures IsSquareRoot(17, INITIAL.g as int) && IsSquareRoot(19, INITIAL.h as int)
  {
    hide IsSquareRoot;
    SquareRoots();
  }

  // ---- one round and the schedule on the message "abc" ----

  function RawBig0(x: word): word { Xor(Xor((x >> 28) | (x << 36), (x >> 34) | (x << 30)), (x >> 39) | (x << 25)) }

  function RawBig1(x: word): word { Xor(Xor((x >> 14) | (x << 50), (x >> 18) | (x << 46)), (x >> 41) | (x << 23)) }

  function RawSmall0(x: word): word { Xor(Xor((x >> 1) | (x << 63), (x >> 8) | (x << 56)), x >> 7) }

  function RawSmall1(x: word): word { Xor(Xor((x >> 19) | (x << 45), (x >> 61) | (x << 3)), x >> 6) }

  lemma RawBig0Is(x: word)
    ensures BigSigma0(x) == RawBig0(x)
  {
    hide Xor;
    assert Rotr(x, 28) == ((x >> 28) | (x << 36));
    assert Rotr(x, 34) == ((x >> 34) | (x << 30));
    assert Rotr(x, 39) == ((x >> 39) | (x << 25));
  }

  lemma RawBig1Is(x: word)
    ensures BigSigma1(x) == RawBig1(x)
  {
    hide Xor;
    assert Rotr(x, 14) == ((x >> 14) | (x << 50));
    assert Rotr(x, 18) == ((x >> 18) | (x << 46));
    assert Rotr(x, 41) == ((x >> 41) | (x << 23));
  }

  lemma RawSmall0Is(x: word)
    ensures Sigma0(x) == RawSmall0(x)
  {
    hide Xor;
    assert Rotr(x, 1) == ((x >> 1) | (x << 63));
    assert Rotr(x, 8) == ((x >> 8) | (x << 56));
    assert Shr(x, 7) == x >> 7;
  }

  lemma RawSmall1Is(x: word)
    ensures Sigma1(x) == RawSmall1(x)
  {
    hide Xor;
    assert Rotr(x, 19) == ((x >> 19) | (x << 45));
    assert Rotr(x, 61) == ((x >> 61) | (x << 3));
    assert Shr(x, 6) == x >> 6;
  }

  function RawRound(s: State, k: word, w: word): State {
    var t1 := Add(Add(Add(Add(s.h, RawBig1(s.e)), Ch(s.e, s.f, s.g)), k), w);
    var t2 := Add(RawBig0(s.a), Maj(s.a, s.b, s.c));
    State(Add(t1, t2), s.a, s.b, s.c, Add(s.d, t1), s.e, s.f, s.g)
  }

  lemma RawRoundIs(s: State, k: word, w: word)
    ensures Round(s, k, w) == RawRound(s, k, w)
  {
    hide Add, Ch, Maj, RawBig0, RawBig1, BigSigma0, BigSigma1;
    RawBig0Is(s.a);
    RawBig1Is(s.e);
  }

  lemma RawFirstRound()
    ensures RawRound(INITIAL, 0x428a2f98d728ae22, 0x6162638000000000) ==
      State(0xf6afceb8bcfcddf5, 0x6a09e667f3bcc908, 0xbb67ae8584caa73b, 0x3c6ef372fe94f82b,
            0x58cb02347ab51f91, 0x510e527fade682d1, 0x9b05688c2b3e6c1f, 0x1f83d9abfb41bd6b)
  {
  }

  /** The working variables after the first round, as published with the standard. */
  lemma FirstRound()
    ensures Round(INITIAL, 0x428a2f98d728ae22, 0x6162638000000000) ==
      State(0xf6afceb8bcfcddf5, 0x6a09e667f3bcc908, 0xbb67ae8584caa73b, 0x3c6ef372fe94f82b,
            0x58cb02347ab51f91, 0x510e527fade682d1, 0x9b05688c2b3e6c1f, 0x1f83d9abfb41bd6b)
  {
    hide Round, RawRound;
    RawRoundIs(INITIAL, 0x428a2f98d728ae22, 0x6162638000000000);
    RawFirstRound();
  }

  function RawNext(w2: word, w7: word, w15: word, w16: word): word {
    Add(Add(Add(RawSmall1(w2), w7), RawSmall0(w15)), w16)
  }

  lemma RawNextIs(w2: word, w7: word, w15: word, w16: word)
    ensures Next(w2, w7, w15, w16) == RawNext(w2, w7, w15, w16)
  {
    hide Add, RawSmall0, RawSmall1, Sigma0, Sigma1;
    RawSmall1Is(w2);
    RawSmall0Is(w15);
  }

  lemma NextIs(b: seq<byte>, t: nat, w2: word, w7: word, w15: word, w16: word, r: word)
    requires |b| == 128 && t >= 16 && RawNext(w2, w7, w15, w16) == r
    requires W(b, t - 2) == w2 && W(b, t - 7) == w7 && W(b, t - 15) == w15 && W(b, t - 16) == w16
    ensures W(b, t) == r
  {
    hide RawNext, Next;
    RawNextIs(w2, w7, w15, w16);
  }

  /** The one block of the padded message: text, a one bit, zeros, and the length 24. */
  predicate IsAbcBlock(b: seq<byte>) {
    && |b| == 128 && b[0] == 0x61 && b[1] == 0x62 && b[2] == 0x63 && b[3] == 0x80 && b[127] == 0x18
    && forall i :: 4 <= i < 127 ==> b[i] == 0
  }

  lemma PaddedAbc()
    ensures IsAbcBlock(Pad([0x61, 0x62, 0x63]))
  {
    assert Zeros(3) == 108;
    LengthAbc();
    hide LengthField;
  }

  lemma LengthAbc()
    ensures LengthField(Size(3)) == [0, 0, 0, 0, 0, 0, 0, 0, 0, 0, 0, 0, 0, 0, 0, 0x18]
  {
    assert Size(3) == 3;
    assert (3 as bv64 as bv128) << 3 == 24;
  }

  lemma OuterWords(b: seq<byte>)
    requires IsAbcBlock(b)
    ensures |b| == 128 && W(b, 0) == 0x6162638000000000 && W(b, 15) == 0x18
  {
  }

  lemma InnerWord(b: seq<byte>, t: nat)
    requires IsAbcBlock(b) && 1 <= t <= 14
    ensures W(b, t) == 0
  {
  }

  /** The first sixteen words that the schedule computes for it. */
  lemma AbcSchedule(b: seq<byte>)
    requires IsAbcBlock(b)
    ensures W(b, 16) == 0x6162638000000000 && W(b, 17) == 0x00030000000000c0 && W(b, 18) == 0x0a9699a24c700003 && W(b, 19) == 0x00000c0060000603
    ensures W(b, 20) == 0x549ef62639858996 && W(b, 21) == 0x00c0003300003c00 && W(b, 22) == 0x1497007a8a0e9dbc && W(b, 23) == 0x62e56500cc0780f0
    ensures W(b, 24) == 0x7760dd475a538797 && W(b, 25) == 0xf1554b711c1c0003 && W(b, 26) == 0xca2993a4345d9ff2 && W(b, 27) == 0x5e0e66b5c783dd32
    ensures W(b, 28) == 0xe25a625d00494b62 && W(b, 29) == 0x9f44486fb1e4fbd2 && W(b, 30) == 0xb31b8c2b06085f2f && W(b, 31) == 0x0e987660934142f6
  {
    hide W, IsAbcBlock;
    OuterWords(b);
    forall t | 1 <= t <= 14
      ensures W(b, t) == 0
    {
      InnerWord(b, t);
    }
    NextIs(b, 16, 0x0000000000000000, 0x0000000000000000, 0x0000000000000000, 0x6162638000000000, 0x6162638000000000);
    NextIs(b, 17, 0x0000000000000018, 0x0000000000000000, 0x0000000000000000, 0x0000000000000000, 0x00030000000000c0);
    NextIs(b, 18, 0x6162638000000000, 0x0000000000000000, 0x0000000000000000, 0x0000000000000000, 0x0a9699a24c700003);
    NextIs(b, 19, 0x00030000000000c0, 0x0000000000000000, 0x0000000000000000, 0x0000000000000000, 0x00000c0060000603);
    NextIs(b, 20, 0x0a9699a24c700003, 0x0000000000000000, 0x0000000000000000, 0x0000000000000000, 0x549ef62639858996);
    NextIs(b, 21, 0x00000c0060000603, 0x0000000000000000, 0x0000000000000000, 0x0000000000000000, 0x00c0003300003c00);
    NextIs(b, 22, 0x549ef62639858996, 0x0000000000000018, 0x0000000000000000, 0x0000000000000000, 0x1497007a8a0e9dbc);
    NextIs(b, 23, 0x00c0003300003c00, 0x6162638000000000, 0x0000000000000000, 0x0000000000000000, 0x62e56500cc0780f0);
    NextIs(b, 24, 0x1497007a8a0e9dbc, 0x00030000000000c0, 0x0000000000000000, 0x0000000000000000, 0x7760dd475a538797);
    NextIs(b, 25, 0x62e56500cc0780f0, 0x0a9699a24c700003, 0x0000000000000000, 0x0000000000000000, 0xf1554b711c1c0003);
    NextIs(b, 26, 0x7760dd475a538797, 0x00000c0060000603, 0x0000000000000000, 0x0000000000000000, 0xca2993a4345d9ff2);
    NextIs(b, 27, 0xf1554b711c1c0003, 0x549ef62639858996, 0x0000000000000000, 0x0000000000000000, 0x5e0e66b5c783dd32);
    NextIs(b, 28, 0xca2993a4345d9ff2, 0x00c0003300003c00, 0x0000000000000000, 0x0000000000000000, 0xe25a625d00494b62);
    NextIs(b, 29, 0x5e0e66b5c783dd32, 0x1497007a8a0e9dbc, 0x0000000000000000, 0x0000000000000000, 0x9f44486fb1e4fbd2);
    NextIs(b, 30, 0xe25a625d00494b62, 0x62e56500cc0780f0, 0x0000000000000018, 0x0000000000000000, 0xb31b8c2b06085f2f);
    NextIs(b, 31, 0x9f44486fb1e4fbd2, 0x7760dd475a538797, 0x6162638000000000, 0x0000000000000018, 0x0e987660934142f6);
  }
}
