/** SHA-512 as FIPS 180-4 defines it: sections 4.1.3, 4.2.3, 5.1.2, 5.3.5 and 6.4. */
module Sha512Spec {
  type byte = bv8
  type word = bv64

  // ---- section 4.1.3: functions ----

  function Rotr(x: word, n: nat): word
    requires 0 < n < 64
  {
    (x >> n) | (x << (64 - n))
  }

  function Add(x: word, y: word): word { x + y }

  function Xor(x: word, y: word): word { x ^ y }

  function And(x: word, y: word): word { x & y }

  function Not(x: word): word { !x }

  function Shr(x: word, n: nat): word
    requires 0 < n < 64
  {
    x >> n
  }

  function Ch(x: word, y: word, z: word): word { Xor(And(x, y), And(Not(x), z)) }

  function Maj(x: word, y: word, z: word): word { Xor(Xor(And(x, y), And(x, z)), And(y, z)) }

  function BigSigma0(x: word): word { Xor(Xor(Rotr(x, 28), Rotr(x, 34)), Rotr(x, 39)) }

  function BigSigma1(x: word): word { Xor(Xor(Rotr(x, 14), Rotr(x, 18)), Rotr(x, 41)) }

  function Sigma0(x: word): word { Xor(Xor(Rotr(x, 1), Rotr(x, 8)), Shr(x, 7)) }

  function Sigma1(x: word): word { Xor(Xor(Rotr(x, 19), Rotr(x, 61)), Shr(x, 6)) }

  // ---- section 4.2.3: constants ----

  type u64 = x: int | 0 <= x < 0x1_0000_0000_0000_0000

  /** The round constants, eight to a row. */
  function ConstantRow(j: nat): (r: seq<u64>)
    ensures |r| == 8
  {
    match j
    case 0 => [0x428a2f98d728ae22, 0x7137449123ef65cd, 0xb5c0fbcfec4d3b2f, 0xe9b5dba58189dbbc,
                0x3956c25bf348b538, 0x59f111f1b605d019, 0x923f82a4af194f9b, 0xab1c5ed5da6d8118]
    case 1 => [0xd807aa98a3030242, 0x12835b0145706fbe, 0x243185be4ee4b28c, 0x550c7dc3d5ffb4e2,
                0x72be5d74f27b896f, 0x80deb1fe3b1696b1, 0x9bdc06a725c71235, 0xc19bf174cf692694]
    case 2 => [0xe49b69c19ef14ad2, 0xefbe4786384f25e3, 0x0fc19dc68b8cd5b5, 0x240ca1cc77ac9c65,
                0x2de92c6f592b0275, 0x4a7484aa6ea6e483, 0x5cb0a9dcbd41fbd4, 0x76f988da831153b5]
    case 3 => [0x983e5152ee66dfab, 0xa831c66d2db43210, 0xb00327c898fb213f, 0xbf597fc7beef0ee4,
                0xc6e00bf33da88fc2, 0xd5a79147930aa725, 0x06ca6351e003826f, 0x142929670a0e6e70]
    case 4 => [0x27b70a8546d22ffc, 0x2e1b21385c26c926, 0x4d2c6dfc5ac42aed, 0x53380d139d95b3df,
                0x650a73548baf63de, 0x766a0abb3c77b2a8, 0x81c2c92e47edaee6, 0x92722c851482353b]
    case 5 => [0xa2bfe8a14cf10364, 0xa81a664bbc423001, 0xc24b8b70d0f89791, 0xc76c51a30654be30,
                0xd192e819d6ef5218, 0xd69906245565a910, 0xf40e35855771202a, 0x106aa07032bbd1b8]
    case 6 => [0x19a4c116b8d2d0c8, 0x1e376c085141ab53, 0x2748774cdf8eeb99, 0x34b0bcb5e19b48a8,
                0x391c0cb3c5c95a63, 0x4ed8aa4ae3418acb, 0x5b9cca4f7763e373, 0x682e6ff3d6b2b8a3]
    case 7 => [0x748f82ee5defb2fc, 0x78a5636f43172f60, 0x84c87814a1f0ab72, 0x8cc702081a6439ec,
                0x90befffa23631e28, 0xa4506cebde82bde9, 0xbef9a3f7b2c67915, 0xc67178f2e372532b]
    case 8 => [0xca273eceea26619c, 0xd186b8c721c0c207, 0xeada7dd6cde0eb1e, 0xf57d4f7fee6ed178,
                0x06f067aa72176fba, 0x0a637dc5a2c898a6, 0x113f9804bef90dae, 0x1b710b35131c471b]
    case _ => [0x28db77f523047d84, 0x32caab7b40c72493, 0x3c9ebe0a15c9bebc, 0x431d67c49c100d4c,
                0x4cc5d4becb3e42b6, 0x597f299cfc657e2a, 0x5fcb6fab3ad6faec, 0x6c44198c4a475817]
  }

  function K(t: nat): word
    requires t < 80
  {
    ConstantRow(t / 8)[t % 8] as word
  }

  /** The first eighty primes, eight to a row. */
  function PrimeRow(j: nat): (r: seq<nat>)
    ensures |r| == 8
  {
    match j
    case 0 => [2, 3, 5, 7, 11, 13, 17, 19]
    case 1 => [23, 29, 31, 37, 41, 43, 47, 53]
    case 2 => [59, 61, 67, 71, 73, 79, 83, 89]
    case 3 => [97, 101, 103, 107, 109, 113, 127, 131]
    case 4 => [137, 139, 149, 151, 157, 163, 167, 173]
    case 5 => [179, 181, 191, 193, 197, 199, 211, 223]
    case 6 => [227, 229, 233, 239, 241, 251, 257, 263]
    case 7 => [269, 271, 277, 281, 283, 293, 307, 311]
    case 8 => [313, 317, 331, 337, 347, 349, 353, 359]
    case _ => [367, 373, 379, 383, 389, 397, 401, 409]
  }

  /** The integer part of the cube root of the primes in question. */
  function RootFloor(p: nat): nat {
    if p < 8 then 1 else if p < 27 then 2 else if p < 64 then 3 else if p < 125 then 4
    else if p < 216 then 5 else if p < 343 then 6 else 7
  }

  /** k is the first 64 bits of the fractional part of the cube root of p. */
  predicate IsCubeRoot(p: nat, k: int) {
    var n := RootFloor(p) * 0x1_0000_0000_0000_0000 + k;
    n * n * n <= p * 0x1_0000_0000_0000_0000_0000_0000_0000_0000_0000_0000_0000_0000 < (n + 1) * (n + 1) * (n + 1)
  }

  /** The constants are what the standard derives them from. */
  lemma RoundConstants(j: nat, i: nat)
    requires j < 10 && i < 8
    ensures IsCubeRoot(PrimeRow(j)[i], ConstantRow(j)[i])
  {
    hide IsCubeRoot;
    match j
    case 0 => Roots0();
    case 1 => Roots1();
    case 2 => Roots2();
    case 3 => Roots3();
    case 4 => Roots4();
    case 5 => Roots5();
    case 6 => Roots6();
    case 7 => Roots7();
    case 8 => Roots8();
    case _ => Roots9();
  }

  lemma Roots0()
    ensures IsCubeRoot(2, 0x428a2f98d728ae22)
    ensures IsCubeRoot(3, 0x7137449123ef65cd)
    ensures IsCubeRoot(5, 0xb5c0fbcfec4d3b2f)
    ensures IsCubeRoot(7, 0xe9b5dba58189dbbc)
    ensures IsCubeRoot(11, 0x3956c25bf348b538)
    ensures IsCubeRoot(13, 0x59f111f1b605d019)
    ensures IsCubeRoot(17, 0x923f82a4af194f9b)
    ensures IsCubeRoot(19, 0xab1c5ed5da6d8118)
  {
  }

  lemma Roots1()
    ensures IsCubeRoot(23, 0xd807aa98a3030242)
    ensures IsCubeRoot(29, 0x12835b0145706fbe)
    ensures IsCubeRoot(31, 0x243185be4ee4b28c)
    ensures IsCubeRoot(37, 0x550c7dc3d5ffb4e2)
    ensures IsCubeRoot(41, 0x72be5d74f27b896f)
    ensures IsCubeRoot(43, 0x80deb1fe3b1696b1)
    ensures IsCubeRoot(47, 0x9bdc06a725c71235)
    ensures IsCubeRoot(53, 0xc19bf174cf692694)
  {
  }

  lemma Roots2()
    ensures IsCubeRoot(59, 0xe49b69c19ef14ad2)
    ensures IsCubeRoot(61, 0xefbe4786384f25e3)
    ensures IsCubeRoot(67, 0x0fc19dc68b8cd5b5)
    ensures IsCubeRoot(71, 0x240ca1cc77ac9c65)
    ensures IsCubeRoot(73, 0x2de92c6f592b0275)
    ensures IsCubeRoot(79, 0x4a7484aa6ea6e483)
    ensures IsCubeRoot(83, 0x5cb0a9dcbd41fbd4)
    ensures IsCubeRoot(89, 0x76f988da831153b5)
  {
  }

  lemma Roots3()
    ensures IsCubeRoot(97, 0x983e5152ee66dfab)
    ensures IsCubeRoot(101, 0xa831c66d2db43210)
    ensures IsCubeRoot(103, 0xb00327c898fb213f)
    ensures IsCubeRoot(107, 0xbf597fc7beef0ee4)
    ensures IsCubeRoot(109, 0xc6e00bf33da88fc2)
    ensures IsCubeRoot(113, 0xd5a79147930aa725)
    ensures IsCubeRoot(127, 0x06ca6351e003826f)
    ensures IsCubeRoot(131, 0x142929670a0e6e70)
  {
  }

  lemma Roots4()
    ensures IsCubeRoot(137, 0x27b70a8546d22ffc)
    ensures IsCubeRoot(139, 0x2e1b21385c26c926)
    ensures IsCubeRoot(149, 0x4d2c6dfc5ac42aed)
    ensures IsCubeRoot(151, 0x53380d139d95b3df)
    ensures IsCubeRoot(157, 0x650a73548baf63de)
    ensures IsCubeRoot(163, 0x766a0abb3c77b2a8)
    ensures IsCubeRoot(167, 0x81c2c92e47edaee6)
    ensures IsCubeRoot(173, 0x92722c851482353b)
  {
  }

  lemma Roots5()
    ensures IsCubeRoot(179, 0xa2bfe8a14cf10364)
    ensures IsCubeRoot(181, 0xa81a664bbc423001)
    ensures IsCubeRoot(191, 0xc24b8b70d0f89791)
    ensures IsCubeRoot(193, 0xc76c51a30654be30)
    ensures IsCubeRoot(197, 0xd192e819d6ef5218)
    ensures IsCubeRoot(199, 0xd69906245565a910)
    ensures IsCubeRoot(211, 0xf40e35855771202a)
    ensures IsCubeRoot(223, 0x106aa07032bbd1b8)
  {
  }

  lemma Roots6()
    ensures IsCubeRoot(227, 0x19a4c116b8d2d0c8)
    ensures IsCubeRoot(229, 0x1e376c085141ab53)
    ensures IsCubeRoot(233, 0x2748774cdf8eeb99)
    ensures IsCubeRoot(239, 0x34b0bcb5e19b48a8)
    ensures IsCubeRoot(241, 0x391c0cb3c5c95a63)
    ensures IsCubeRoot(251, 0x4ed8aa4ae3418acb)
    ensures IsCubeRoot(257, 0x5b9cca4f7763e373)
    ensures IsCubeRoot(263, 0x682e6ff3d6b2b8a3)
  {
  }

  lemma Roots7()
    ensures IsCubeRoot(269, 0x748f82ee5defb2fc)
    ensures IsCubeRoot(271, 0x78a5636f43172f60)
    ensures IsCubeRoot(277, 0x84c87814a1f0ab72)
    ensures IsCubeRoot(281, 0x8cc702081a6439ec)
    ensures IsCubeRoot(283, 0x90befffa23631e28)
    ensures IsCubeRoot(293, 0xa4506cebde82bde9)
    ensures IsCubeRoot(307, 0xbef9a3f7b2c67915)
    ensures IsCubeRoot(311, 0xc67178f2e372532b)
  {
  }

  lemma Roots8()
    ensures IsCubeRoot(313, 0xca273eceea26619c)
    ensures IsCubeRoot(317, 0xd186b8c721c0c207)
    ensures IsCubeRoot(331, 0xeada7dd6cde0eb1e)
    ensures IsCubeRoot(337, 0xf57d4f7fee6ed178)
    ensures IsCubeRoot(347, 0x06f067aa72176fba)
    ensures IsCubeRoot(349, 0x0a637dc5a2c898a6)
    ensures IsCubeRoot(353, 0x113f9804bef90dae)
    ensures IsCubeRoot(359, 0x1b710b35131c471b)
  {
  }

  lemma Roots9()
    ensures IsCubeRoot(367, 0x28db77f523047d84)
    ensures IsCubeRoot(373, 0x32caab7b40c72493)
    ensures IsCubeRoot(379, 0x3c9ebe0a15c9bebc)
    ensures IsCubeRoot(383, 0x431d67c49c100d4c)
    ensures IsCubeRoot(389, 0x4cc5d4becb3e42b6)
    ensures IsCubeRoot(397, 0x597f299cfc657e2a)
    ensures IsCubeRoot(401, 0x5fcb6fab3ad6faec)
    ensures IsCubeRoot(409, 0x6c44198c4a475817)
  {
  }

  // ---- section 6.4.2: one block ----

  datatype State = State(a: word, b: word, c: word, d: word, e: word, f: word, g: word, h: word)

  /** Eight bytes, most significant first. */
  function Load(x: seq<byte>, i: nat): word
    requires i + 8 <= |x|
  {
    (x[i + 7] as word) | ((x[i + 6] as word) << 8) | ((x[i + 5] as word) << 16) | ((x[i + 4] as word) << 24)
    | ((x[i + 3] as word) << 32) | ((x[i + 2] as word) << 40) | ((x[i + 1] as word) << 48) | ((x[i] as word) << 56)
  }

  function Next(w2: word, w7: word, w15: word, w16: word): word {
    Add(Add(Add(Sigma1(w2), w7), Sigma0(w15)), w16)
  }

  /** The message schedule. */
  function W(block: seq<byte>, t: nat): word
    requires |block| == 128
  {
    if t < 16 then Load(block, 8 * t)
    else Next(W(block, t - 2), W(block, t - 7), W(block, t - 15), W(block, t - 16))
  }

  function Round(s: State, k: word, w: word): State {
    var t1 := Add(Add(Add(Add(s.h, BigSigma1(s.e)), Ch(s.e, s.f, s.g)), k), w);
    var t2 := Add(BigSigma0(s.a), Maj(s.a, s.b, s.c));
    State(Add(t1, t2), s.a, s.b, s.c, Add(s.d, t1), s.e, s.f, s.g)
  }

  function Rounds(s: State, block: seq<byte>, t: nat): State
    requires |block| == 128 && t <= 80
  {
    if t == 0 then s else Round(Rounds(s, block, t - 1), K(t - 1), W(block, t - 1))
  }

  function Plus(s: State, r: State): State {
    State(Add(s.a, r.a), Add(s.b, r.b), Add(s.c, r.c), Add(s.d, r.d), Add(s.e, r.e), Add(s.f, r.f), Add(s.g, r.g), Add(s.h, r.h))
  }

  function Compress(s: State, block: seq<byte>): State
    requires |block| == 128
  {
    Plus(Rounds(s, block, 80), s)
  }

  /** Block after block; bytes after the last full block are not read. */
  function Fold(s: State, x: seq<byte>): State
    decreases |x|
  {
    if |x| < 128 then s else Fold(Compress(s, x[..128]), x[128..])
  }

  // ---- section 5.1.2: padding ----

  /** The length in bits of n bytes as a 128-bit number, most significant byte first. */
  function LengthField(n: bv64): (f: seq<byte>)
    ensures |f| == 16
  {
    var l: bv128 := (n as bv128) << 3;
    [((l >> 120) & 0xff) as byte, ((l >> 112) & 0xff) as byte, ((l >> 104) & 0xff) as byte, ((l >> 96) & 0xff) as byte,
     ((l >> 88) & 0xff) as byte, ((l >> 80) & 0xff) as byte, ((l >> 72) & 0xff) as byte, ((l >> 64) & 0xff) as byte,
     ((l >> 56) & 0xff) as byte, ((l >> 48) & 0xff) as byte, ((l >> 40) & 0xff) as byte, ((l >> 32) & 0xff) as byte,
     ((l >> 24) & 0xff) as byte, ((l >> 16) & 0xff) as byte, ((l >> 8) & 0xff) as byte, (l & 0xff) as byte]
  }

  /** The fewest zero bytes that make message, one-bit, zeros and length field whole blocks. */
  function Zeros(n: nat): (z: nat)
    ensures (n + 1 + z + 16) % 128 == 0 && z < 128
  {
    (128 - (n + 17) % 128) % 128
  }

  function Size(n: nat): bv64
    requires n < 0x1_0000_0000_0000_0000
  {
    n as bv64
  }

  function Pad(m: seq<byte>): (p: seq<byte>)
    requires |m| < 0x1_0000_0000_0000_0000
    ensures |p| % 128 == 0
  {
    m + [0x80] + seq(Zeros(|m|), i => 0 as byte) + LengthField(Size(|m|))
  }

  // ---- section 5.3.5 and 6.4: the hash ----

  const INITIAL: State := State(
    0x6a09e667f3bcc908, 0xbb67ae8584caa73b, 0x3c6ef372fe94f82b, 0xa54ff53a5f1d36f1,
    0x510e527fade682d1, 0x9b05688c2b3e6c1f, 0x1f83d9abfb41bd6b, 0x5be0cd19137e2179)

  /** The bytes of a word, most significant first. */
  function Store(u: word): (x: seq<byte>)
    ensures |x| == 8
  {
    [((u >> 56) & 0xff) as byte, ((u >> 48) & 0xff) as byte, ((u >> 40) & 0xff) as byte, ((u >> 32) & 0xff) as byte,
     ((u >> 24) & 0xff) as byte, ((u >> 16) & 0xff) as byte, ((u >> 8) & 0xff) as byte, (u & 0xff) as byte]
  }

  function Words(s: State): seq<word> {
    [s.a, s.b, s.c, s.d, s.e, s.f, s.g, s.h]
  }

  function Bytes(ws: seq<word>): (x: seq<byte>)
    ensures |x| == 8 * |ws|
  {
    if ws == [] then [] else Store(ws[0]) + Bytes(ws[1..])
  }

  function Sha512(m: seq<byte>): seq<byte>
    requires |m| < 0x1_0000_0000_0000_0000
  {
    Bytes(Words(Fold(INITIAL, Pad(m))))
  }
}
