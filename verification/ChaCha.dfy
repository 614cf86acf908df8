/** The ChaCha20 stream cipher: an in-place block loop against XOR with a keystream. */
module ChaCha {
  import opened Words

  /** The sixteen words of a ChaCha state. */
  type State = s: seq<u32> | |s| == 16 witness seq(16, i => 0)

  // ---- words ----

  function Plus(v: u32, w: u32): u32 {
    Wrap32(v as int + w as int)
  }

  function XorWord(v: u32, w: u32): u32 {
    PowerValues();
    XorBound(v, w, 32);
    Xor(v, w)
  }

  /** Rotation to the left by 16, 12, 8 or 7. */
  function Rotl(v: u32, n: nat): u32
    requires n == 16 || n == 12 || n == 8 || n == 7
  {
    if n == 16 then v % 0x1_0000 * 0x1_0000 + v / 0x1_0000
    else if n == 12 then v % 0x10_0000 * 0x1000 + v / 0x10_0000
    else if n == 8 then v % 0x100_0000 * 0x100 + v / 0x100_0000
    else v % 0x200_0000 * 0x80 + v / 0x200_0000
  }

  /** Four bytes, least significant first. */
  function Load(p: Bytes, i: nat): u32
    requires i + 4 <= |p|
  {
    p[i] as int + 0x100 * p[i + 1] as int + 0x1_0000 * p[i + 2] as int + 0x100_0000 * p[i + 3] as int
  }

  function Store(v: u32): (b: Bytes)
    ensures |b| == 4
  {
    [v % 0x100, v / 0x100 % 0x100, v / 0x1_0000 % 0x100, v / 0x100_0000]
  }

  function StoreAll(ws: seq<u32>): (b: Bytes)
    ensures |b| == 4 * |ws|
  {
    if ws == [] then [] else Store(ws[0]) + StoreAll(ws[1..])
  }

  // ---- the block function ----

  function QuarterRound(x: State, a: nat, b: nat, c: nat, d: nat): State
    requires a < 16 && b < 16 && c < 16 && d < 16
  {
    var x := x[a := Plus(x[a], x[b])];
    var x := x[d := Rotl(XorWord(x[d], x[a]), 16)];
    var x := x[c := Plus(x[c], x[d])];
    var x := x[b := Rotl(XorWord(x[b], x[c]), 12)];
    var x := x[a := Plus(x[a], x[b])];
    var x := x[d := Rotl(XorWord(x[d], x[a]), 8)];
    var x := x[c := Plus(x[c], x[d])];
    x[b := Rotl(XorWord(x[b], x[c]), 7)]
  }

  /** A column round and a diagonal round. */
  function DoubleRound(x: State): State {
    var x := QuarterRound(x, 0, 4, 8, 12);
    var x := QuarterRound(x, 1, 5, 9, 13);
    var x := QuarterRound(x, 2, 6, 10, 14);
    var x := QuarterRound(x, 3, 7, 11, 15);
    var x := QuarterRound(x, 0, 5, 10, 15);
    var x := QuarterRound(x, 1, 6, 11, 12);
    var x := QuarterRound(x, 2, 7, 8, 13);
    QuarterRound(x, 3, 4, 9, 14)
  }

  function DoubleRounds(x: State, n: nat): State {
    if n == 0 then x else DoubleRound(DoubleRounds(x, n - 1))
  }

  function Sum(x: State, j: State): State {
    seq(16, i requires 0 <= i < 16 => Plus(x[i], j[i]))
  }

  /** The 64 keystream bytes of a state. */
  function Block(j: State): (b: Bytes)
    ensures |b| == 64
  {
    StoreAll(Sum(DoubleRounds(j, 10), j))
  }

  // ---- the counter ----

  const COUNTERS: int := 0x1_0000_0000_0000_0000

  /** The 64-bit block counter, in words 12 and 13. */
  function Counter(j: State): int {
    j[12] as int + 0x1_0000_0000 * j[13] as int
  }

  function WithCounter(j: State, n: int): State
    requires 0 <= n < COUNTERS
  {
    j[12 := n % 0x1_0000_0000][13 := n / 0x1_0000_0000]
  }

  /** What the block loop does to words 12 and 13. */
  function Advance(j: State): State {
    var low := Plus(j[12], 1);
    if low == 0 then j[12 := low][13 := Plus(j[13], 1)] else j[12 := low]
  }

  lemma AdvanceCounts(j: State)
    ensures Advance(j) == WithCounter(j, (Counter(j) + 1) % COUNTERS)
  {
  }

  lemma CounterSet(j: State, n: int)
    requires 0 <= n < COUNTERS
    ensures Counter(WithCounter(j, n)) == n
    ensures forall m :: 0 <= m < COUNTERS ==> WithCounter(WithCounter(j, n), m) == WithCounter(j, m)
  {
  }

  /** The state n blocks on. */
  function Later(j: State, n: nat): State {
    if n == 0 then j else Advance(Later(j, n - 1))
  }

  /** n blocks on the counter has gone up by n, modulo 2^64, and nothing else has changed. */
  lemma {:induction false} LaterCounts(j: State, n: nat)
    ensures Later(j, n) == WithCounter(j, (Counter(j) + n) % COUNTERS)
  {
    hide Advance;
    if n == 0 {
      CounterRange(j);
    } else {
      LaterCounts(j, n - 1);
      var c := (Counter(j) + (n - 1)) % COUNTERS;
      AdvanceCounts(Later(j, n - 1));
      CounterSet(j, c);
      ModNext(Counter(j) + (n - 1));
    }
  }

  lemma ModNext(a: int)
    ensures (a % COUNTERS + 1) % COUNTERS == (a + 1) % COUNTERS
  {
  }

  lemma CounterRange(j: State)
    ensures 0 <= Counter(j) < COUNTERS && WithCounter(j, Counter(j)) == j
  {
  }

  lemma {:induction false} LaterLater(j: State, m: nat, n: nat)
    ensures Later(Later(j, m), n) == Later(j, m + n)
  {
    hide Advance;
    if n > 0 {
      LaterLater(j, m, n - 1);
    }
  }

  // ---- XOR ----

  function XorByte(a: u8, b: u8): u8 {
    PowerValues();
    XorBound(a, b, 8);
    Xor(a, b)
  }

  function XorBytes(a: Bytes, b: Bytes): (r: Bytes)
    requires |a| == |b|
    ensures |r| == |a|
  {
    seq(|a|, i requires 0 <= i < |a| => XorByte(a[i], b[i]))
  }

  lemma {:induction false} XorTwice(a: nat, b: nat)
    ensures Xor(a, Xor(a, b)) == b
  {
    XorStep(a, b);
    hide Xor;
    var x := Xor(a, b);
    var h := Xor(a / 2, b / 2);
    XorStep(a, x);
    if a == 0 && b == 0 {
      XorZeroIffEqual(0, 0);
    } else {
      XorTwice(a / 2, b / 2);
      assert x == (a % 2 + b % 2) % 2 + 2 * h;
      Halves(h, (a % 2 + b % 2) % 2);
    }
  }

  lemma Halves(h: nat, r: nat)
    requires r < 2
    ensures (r + 2 * h) / 2 == h && (r + 2 * h) % 2 == r
  {
  }

  lemma XorStep(a: nat, b: nat)
    ensures Xor(a, b) == (a % 2 + b % 2) % 2 + 2 * Xor(a / 2, b / 2)
  {
  }

  /** XOR works on low and high parts separately. */
  lemma {:induction false} XorParts(a: nat, b: nat, c: nat, d: nat, n: nat)
    requires a < Power(n) && b < Power(n)
    ensures Xor(a + Power(n) * c, b + Power(n) * d) == Xor(a, b) + Power(n) * Xor(c, d)
  {
    hide Xor, Power;
    PowerStep(n);
    if n == 0 {
      XorZeroIffEqual(0, 0);
    } else {
      var p := Power(n - 1);
      HalfBound(a, p);
      HalfBound(b, p);
      XorParts(a / 2, b / 2, c, d, n - 1);
      Twice(p, c);
      Twice(p, d);
      Twice(p, Xor(c, d));
      XorJoin(a, b, p * c, p * d, p * Xor(c, d));
    }
  }

  lemma PowerStep(n: nat)
    ensures Power(n) == if n == 0 then 1 else 2 * Power(n - 1)
  {
  }

  lemma HalfBound(a: nat, p: nat)
    requires a < 2 * p
    ensures a / 2 < p
  {
  }

  lemma Twice(p: nat, c: nat)
    ensures 2 * p * c == 2 * (p * c) && p * c >= 0
  {
  }

  lemma XorJoin(a: nat, b: nat, u: nat, v: nat, w: nat)
    requires Xor(a / 2 + u, b / 2 + v) == Xor(a / 2, b / 2) + w
    ensures Xor(a + 2 * u, b + 2 * v) == Xor(a, b) + 2 * w
  {
    hide Xor;
    XorStep(a, b);
    XorStep(a + 2 * u, b + 2 * v);
    assert (a + 2 * u) / 2 == a / 2 + u && (b + 2 * v) / 2 == b / 2 + v;
  }

  // ---- the stream ----

  /** Encryption and decryption: XOR with the keystream from the state on. */
  function Stream(j: State, m: Bytes): (c: Bytes)
    ensures |c| == |m|
    decreases |m|
  {
    if |m| <= 64 then XorBytes(m, Block(j)[..|m|])
    else XorBytes(m[..64], Block(j)) + Stream(Advance(j), m[64..])
  }

  /** Byte i of the keystream: in block i/64 from the counter on. */
  function KeyByte(j: State, i: nat): u8 {
    Block(Later(j, i / 64))[i % 64]
  }

  lemma {:induction false} StreamAt(j: State, m: Bytes, i: nat)
    requires i < |m|
    ensures Stream(j, m)[i] == XorByte(m[i], KeyByte(j, i))
    decreases |m|
  {
    hide Block, Advance, XorByte;
    if i < 64 {
      assert i / 64 == 0 && i % 64 == i;
    } else {
      StreamAt(Advance(j), m[64..], i - 64);
      assert (i - 64) / 64 == i / 64 - 1 && (i - 64) % 64 == i % 64;
      LaterLater(j, 1, i / 64 - 1);
      assert Later(j, 1) == Advance(Later(j, 0));
    }
  }

  /** The keystream byte comes from the block whose counter is the starting counter plus i/64. */
  lemma KeyByteCounter(j: State, i: nat)
    ensures KeyByte(j, i) == Block(WithCounter(j, (Counter(j) + i / 64) % COUNTERS))[i % 64]
  {
    hide Block, WithCounter, Counter, Later;
    LaterCounts(j, i / 64);
  }

  /** Applying the cipher twice gives the message back. */
  lemma StreamTwice(j: State, m: Bytes)
    ensures Stream(j, Stream(j, m)) == m
  {
    var c := Stream(j, m);
    forall i | 0 <= i < |m|
      ensures Stream(j, c)[i] == m[i]
    {
      StreamAt(j, m, i);
      StreamAt(j, c, i);
      XorByteTwice(m[i], KeyByte(j, i));
    }
  }

  lemma XorByteTwice(a: u8, k: u8)
    ensures XorByte(XorByte(a, k), k) == a
  {
    XorComm(a, k);
    XorComm(Xor(a, k), k);
    XorTwice(k, a);
  }

  lemma {:induction false} XorComm(a: nat, b: nat)
    ensures Xor(a, b) == Xor(b, a)
  {
    if a != 0 || b != 0 {
      XorComm(a / 2, b / 2);
    }
  }

  /** Encrypting in pieces of whole blocks is encrypting at once. */
  lemma {:induction false} StreamSplit(j: State, a: Bytes, b: Bytes)
    requires |a| % 64 == 0
    ensures Stream(j, a + b) == Stream(j, a) + Stream(Later(j, |a| / 64), b)
  {
    hide Block, Advance, XorByte, Stream;
    var n := |a| / 64;
    forall i | 0 <= i < |a + b|
      ensures Stream(j, a + b)[i] == (Stream(j, a) + Stream(Later(j, n), b))[i]
    {
      StreamAt(j, a + b, i);
      if i < |a| {
        StreamAt(j, a, i);
      } else {
        StreamAt(Later(j, n), b, i - |a|);
        assert i == (i - |a|) + 64 * n;
        assert i / 64 == n + (i - |a|) / 64 && i % 64 == (i - |a|) % 64;
        LaterLater(j, n, (i - |a|) / 64);
      }
    }
  }
}
