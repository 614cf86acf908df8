/** The SHA-512 of the repository: a rolling 16-word schedule, and padding in a scratch buffer. */
module Sha512 {
  import opened Sha512Spec

  // ---- bytes and words ----

  lemma LoadStore(u: word)
    ensures Load(Store(u), 0) == u
  {
  }

  function StateOf(x: seq<byte>): State
    requires |x| == 64
  {
    State(Load(x, 0), Load(x, 8), Load(x, 16), Load(x, 24), Load(x, 32), Load(x, 40), Load(x, 48), Load(x, 56))
  }

  lemma LoadShift(x: seq<byte>, y: seq<byte>, i: nat)
    requires i + 8 <= |y|
    ensures Load(x + y, |x| + i) == Load(y, i)
  {
  }

  lemma LoadPrefix(x: seq<byte>, y: seq<byte>)
    requires |x| >= 8
    ensures Load(x + y, 0) == Load(x, 0)
  {
  }

  /** Storing words and loading one of them gives it back. */
  lemma {:induction false} LoadBytes(ws: seq<word>, i: nat)
    requires i < |ws|
    ensures Load(Bytes(ws), 8 * i) == ws[i]
  {
    hide Load, Store;
    if i == 0 {
      LoadStore(ws[0]);
      LoadPrefix(Store(ws[0]), Bytes(ws[1..]));
    } else {
      LoadBytes(ws[1..], i - 1);
      LoadShift(Store(ws[0]), Bytes(ws[1..]), 8 * (i - 1));
    }
  }

  lemma StateRoundTrip(s: State)
    ensures StateOf(Bytes(Words(s))) == s
  {
    hide Load, Bytes;
    var ws := Words(s);
    LoadBytes(ws, 0);
    LoadBytes(ws, 1);
    LoadBytes(ws, 2);
    LoadBytes(ws, 3);
    LoadBytes(ws, 4);
    LoadBytes(ws, 5);
    LoadBytes(ws, 6);
    LoadBytes(ws, 7);
  }

  // ---- the rolling schedule ----

  /** Places before i hold schedule words of the next sixteen, the others those of group j. */
  ghost predicate Window(w: seq<word>, block: seq<byte>, j: nat, i: nat)
    requires |w| == 16 && |block| == 128
  {
    forall m :: 0 <= m < 16 ==> w[m] == W(block, Number(j, i, m))
  }

  function Number(j: nat, i: nat, m: nat): nat {
    16 * j + m + if m < i then 16 else 0
  }

  lemma NextWord(w: seq<word>, block: seq<byte>, j: nat, i0: nat, i14: nat, i9: nat, i1: nat)
    requires |w| == 16 && |block| == 128 && i0 < 16 && Window(w, block, j, i0)
    requires i14 == (i0 + 14) % 16 && i9 == (i0 + 9) % 16 && i1 == (i0 + 1) % 16
    ensures Next(w[i14], w[i9], w[i1], w[i0]) == W(block, 16 * j + 16 + i0)
  {
    hide Next, Load;
    var t := 16 * j + 16 + i0;
    assert Number(j, i0, i14) == t - 2 && Number(j, i0, i9) == t - 7 && Number(j, i0, i1) == t - 15 && Number(j, i0, i0) == t - 16;
    hide Window;
    WindowAt(w, block, j, i0, i14);
    WindowAt(w, block, j, i0, i9);
    WindowAt(w, block, j, i0, i1);
    WindowAt(w, block, j, i0, i0);
  }

  lemma WindowAt(w: seq<word>, block: seq<byte>, j: nat, i: nat, m: nat)
    requires |w| == 16 && |block| == 128 && m < 16 && Window(w, block, j, i)
    ensures w[m] == W(block, Number(j, i, m))
  {
  }

  lemma WindowMoves(w: seq<word>, block: seq<byte>, j: nat, i: nat, x: word)
    requires |w| == 16 && |block| == 128 && i < 16 && Window(w, block, j, i) && x == W(block, 16 * j + 16 + i)
    ensures Window(w[i := x], block, j, i + 1)
  {
    hide W;
  }

  lemma WindowTurns(w: seq<word>, block: seq<byte>, j: nat)
    requires |w| == 16 && |block| == 128 && Window(w, block, j, 16)
    ensures Window(w, block, j + 1, 0)
  {
    hide W;
  }

  /** The macro M: the next schedule word replaces the oldest. */
  method M(w: array<word>, i0: nat, i14: nat, i9: nat, i1: nat, ghost block: seq<byte>, ghost j: nat)
    requires w.Length == 16 && |block| == 128 && i0 < 16 && Window(w[..], block, j, i0)
    requires i14 == (i0 + 14) % 16 && i9 == (i0 + 9) % 16 && i1 == (i0 + 1) % 16
    modifies w
    ensures Window(w[..], block, j, i0 + 1)
  {
    hide *;
    ghost var v := w[..];
    NextWord(v, block, j, i0, i14, i9, i1);
    w[i0] := Next(w[i14], w[i9], w[i1], w[i0]);
    WindowMoves(v, block, j, i0, w[i0]);
    assert w[..] == v[i0 := w[i0]];
  }

  /** The macro EXPAND */
  method Expand(w: array<word>, ghost block: seq<byte>, ghost j: nat)
    requires w.Length == 16 && |block| == 128 && Window(w[..], block, j, 0)
    modifies w
    ensures Window(w[..], block, j + 1, 0)
  {
    hide *;
    M(w, 0, 14, 9, 1, block, j);
    M(w, 1, 15, 10, 2, block, j);
    M(w, 2, 0, 11, 3, block, j);
    M(w, 3, 1, 12, 4, block, j);
    M(w, 4, 2, 13, 5, block, j);
    M(w, 5, 3, 14, 6, block, j);
    M(w, 6, 4, 15, 7, block, j);
    M(w, 7, 5, 0, 8, block, j);
    M(w, 8, 6, 1, 9, block, j);
    M(w, 9, 7, 2, 10, block, j);
    M(w, 10, 8, 3, 11, block, j);
    M(w, 11, 9, 4, 12, block, j);
    M(w, 12, 10, 5, 13, block, j);
    M(w, 13, 11, 6, 14, block, j);
    M(w, 14, 12, 7, 15, block, j);
    M(w, 15, 13, 8, 0, block, j);
    WindowTurns(w[..], block, j);
  }

  // ---- rounds ----

  /** The macro F: round t with its schedule word. */
  method F(s: State, w: word, t: nat, ghost s0: State, ghost block: seq<byte>) returns (r: State)
    requires |block| == 128 && t < 80 && w == W(block, t) && s == Rounds(s0, block, t)
    ensures r == Rounds(s0, block, t + 1)
  {
    hide *;
    var t1 := Add(Add(Add(Add(s.h, BigSigma1(s.e)), Ch(s.e, s.f, s.g)), K(t)), w);
    var t2 := Add(BigSigma0(s.a), Maj(s.a, s.b, s.c));
    r := State(Add(t1, t2), s.a, s.b, s.c, Add(s.d, t1), s.e, s.f, s.g);
    RoundIs(s, K(t), w, t1, t2);
    RoundsNext(s0, block, t);
  }

  lemma RoundIs(s: State, k: word, w: word, t1: word, t2: word)
    requires t1 == Add(Add(Add(Add(s.h, BigSigma1(s.e)), Ch(s.e, s.f, s.g)), k), w)
    requires t2 == Add(BigSigma0(s.a), Maj(s.a, s.b, s.c))
    ensures Round(s, k, w) == State(Add(t1, t2), s.a, s.b, s.c, Add(s.d, t1), s.e, s.f, s.g)
  {
    hide BigSigma0, BigSigma1, Ch, Maj, Add;
  }

  lemma RoundsNext(s0: State, block: seq<byte>, t: nat)
    requires |block| == 128 && t < 80
    ensures Rounds(s0, block, t + 1) == Round(Rounds(s0, block, t), K(t), W(block, t))
  {
    hide Round, K, W;
  }

  lemma FourWords(w: seq<word>, block: seq<byte>, j: nat, i: nat, t: nat)
    requires |w| == 16 && |block| == 128 && i + 4 <= 16 && t == 16 * j + i && Window(w, block, j, 0)
    ensures w[i] == W(block, t) && w[i + 1] == W(block, t + 1) && w[i + 2] == W(block, t + 2) && w[i + 3] == W(block, t + 3)
  {
    hide W;
  }

  method FourRounds(s: State, w0: word, w1: word, w2: word, w3: word, t: nat, ghost s0: State, ghost block: seq<byte>) returns (r: State)
    requires |block| == 128 && t + 4 <= 80 && s == Rounds(s0, block, t)
    requires w0 == W(block, t) && w1 == W(block, t + 1) && w2 == W(block, t + 2) && w3 == W(block, t + 3)
    ensures r == Rounds(s0, block, t + 4)
  {
    hide *;
    r := F(s, w0, t, s0, block);
    r := F(r, w1, t + 1, s0, block);
    r := F(r, w2, t + 2, s0, block);
    r := F(r, w3, t + 3, s0, block);
  }

  /** Rounds with the words in places i to i + 7. */
  method EightRounds(s: State, w: array<word>, j: nat, i: nat, ghost s0: State, ghost block: seq<byte>) returns (r: State)
    requires w.Length == 16 && |block| == 128 && j < 5 && i + 8 <= 16 && Window(w[..], block, j, 0)
    requires s == Rounds(s0, block, 16 * j + i)
    ensures r == Rounds(s0, block, 16 * j + i + 8)
  {
    hide *;
    var t := 16 * j + i;
    FourWords(w[..], block, j, i, t);
    r := FourRounds(s, w[i], w[i + 1], w[i + 2], w[i + 3], t, s0, block);
    FourWords(w[..], block, j, i + 4, t + 4);
    r := FourRounds(r, w[i + 4], w[i + 5], w[i + 6], w[i + 7], t + 4, s0, block);
  }

  /** The sixteen rounds between two expansions. */
  method Sixteen(s: State, w: array<word>, j: nat, ghost s0: State, ghost block: seq<byte>) returns (r: State)
    requires w.Length == 16 && |block| == 128 && j < 5 && Window(w[..], block, j, 0)
    requires s == Rounds(s0, block, 16 * j)
    ensures r == Rounds(s0, block, 16 * j + 16)
  {
    hide *;
    r := EightRounds(s, w, j, 0, s0, block);
    r := EightRounds(r, w, j, 8, s0, block);
  }

  lemma FirstWindow(w: seq<word>, block: seq<byte>)
    requires |w| == 16 && |block| == 128 && forall i :: 0 <= i < 16 ==> w[i] == Load(block, 8 * i)
    ensures Window(w, block, 0, 0)
  {
    hide Load;
  }

  /** The body of the block loop. */
  method Block(s: State, block: seq<byte>) returns (r: State)
    requires |block| == 128
    ensures r == Compress(s, block)
  {
    hide *;
    var w := new word[16](i requires 0 <= i < 16 => Load(block, 8 * i));
    FirstWindow(w[..], block);
    RoundsStart(s, block);
    r := Sixteen(s, w, 0, s, block);
    Expand(w, block, 0);
    r := Sixteen(r, w, 1, s, block);
    Expand(w, block, 1);
    r := Sixteen(r, w, 2, s, block);
    Expand(w, block, 2);
    r := Sixteen(r, w, 3, s, block);
    Expand(w, block, 3);
    r := Sixteen(r, w, 4, s, block);
    CompressIs(s, block, r);
    r := Plus(r, s);
  }

  lemma CompressIs(s: State, block: seq<byte>, r: State)
    requires |block| == 128 && r == Rounds(s, block, 80)
    ensures Compress(s, block) == Plus(r, s)
  {
    hide Rounds, Plus;
  }

  lemma RoundsStart(s: State, block: seq<byte>)
    requires |block| == 128
    ensures Rounds(s, block, 0) == s
  {
  }

  // ---- blocks ----

  /** A final piece shorter than a block is not read. */
  lemma {:induction false} FoldConcat(s: State, x: seq<byte>, y: seq<byte>)
    requires |x| % 128 == 0
    ensures Fold(s, x + y) == Fold(Fold(s, x), y)
    decreases |x|
  {
    hide Compress;
    if |x| < 128 {
      assert x + y == y;
    } else {
      assert (x + y)[..128] == x[..128] && (x + y)[128..] == x[128..] + y;
      FoldConcat(Compress(s, x[..128]), x[128..], y);
    }
  }

  lemma FoldStep(s: State, x: seq<byte>, i: nat)
    requires i + 128 <= |x|
    ensures Fold(s, x[i..]) == Fold(Compress(s, x[i..i + 128]), x[i + 128..])
  {
    hide Compress;
    assert x[i..][..128] == x[i..i + 128] && x[i..][128..] == x[i + 128..];
  }

  lemma FoldShort(s: State, x: seq<byte>)
    requires |x| < 128
    ensures Fold(s, x) == s
  {
  }

  /** crypto_hashblocks_sha512 */
  method HashBlocks(statebytes: array<byte>, input: seq<byte>) returns (left: nat)
    requires statebytes.Length == 64
    modifies statebytes
    ensures statebytes[..] == Bytes(Words(Fold(StateOf(old(statebytes[..])), input)))
    ensures left == |input| % 128
  {
    hide *;
    ghost var s0 := StateOf(statebytes[..]);
    var state := StateOf(statebytes[..]);
    var i := 0;
    assert input[0..] == input;
    while |input| - i >= 128
      invariant 0 <= i <= |input| && i % 128 == 0
      invariant Fold(state, input[i..]) == Fold(s0, input)
      invariant statebytes[..] == old(statebytes[..])
    {
      FoldStep(state, input, i);
      state := Block(state, input[i..i + 128]);
      i := i + 128;
    }
    FoldShort(state, input[i..]);
    StoreState(statebytes, state);
    left := |input| - i;
  }

  method StoreState(statebytes: array<byte>, state: State)
    requires statebytes.Length == 64
    modifies statebytes
    ensures statebytes[..] == Bytes(Words(state))
  {
    hide Bytes;
    var out := Bytes(Words(state));
    CopyBytes(statebytes, out);
    assert statebytes[..] == out;
  }

  /** Copies all of x to the beginning of a. */
  method CopyBytes(a: array<byte>, x: seq<byte>)
    requires |x| <= a.Length
    modifies a
    ensures a[..|x|] == x && a[|x|..] == old(a[|x|..])
  {
    for k := 0 to |x|
      invariant forall m :: 0 <= m < k ==> a[m] == x[m]
      invariant forall m :: k <= m < a.Length ==> a[m] == old(a[m])
    {
      a[k] := x[k];
    }
  }

  // ---- padding ----

  const IV: seq<byte> :=
    [0x6a, 0x09, 0xe6, 0x67, 0xf3, 0xbc, 0xc9, 0x08] + (
    [0xbb, 0x67, 0xae, 0x85, 0x84, 0xca, 0xa7, 0x3b] + (
    [0x3c, 0x6e, 0xf3, 0x72, 0xfe, 0x94, 0xf8, 0x2b] + (
    [0xa5, 0x4f, 0xf5, 0x3a, 0x5f, 0x1d, 0x36, 0xf1] + (
    [0x51, 0x0e, 0x52, 0x7f, 0xad, 0xe6, 0x82, 0xd1] + (
    [0x9b, 0x05, 0x68, 0x8c, 0x2b, 0x3e, 0x6c, 0x1f] + (
    [0x1f, 0x83, 0xd9, 0xab, 0xfb, 0x41, 0xbd, 0x6b] + (
    [0x5b, 0xe0, 0xcd, 0x19, 0x13, 0x7e, 0x21, 0x79] + [])))))))

  lemma Initials()
    ensures Store(0x6a09e667f3bcc908) == [0x6a, 0x09, 0xe6, 0x67, 0xf3, 0xbc, 0xc9, 0x08]
    ensures Store(0xbb67ae8584caa73b) == [0xbb, 0x67, 0xae, 0x85, 0x84, 0xca, 0xa7, 0x3b]
    ensures Store(0x3c6ef372fe94f82b) == [0x3c, 0x6e, 0xf3, 0x72, 0xfe, 0x94, 0xf8, 0x2b]
    ensures Store(0xa54ff53a5f1d36f1) == [0xa5, 0x4f, 0xf5, 0x3a, 0x5f, 0x1d, 0x36, 0xf1]
    ensures Store(0x510e527fade682d1) == [0x51, 0x0e, 0x52, 0x7f, 0xad, 0xe6, 0x82, 0xd1]
    ensures Store(0x9b05688c2b3e6c1f) == [0x9b, 0x05, 0x68, 0x8c, 0x2b, 0x3e, 0x6c, 0x1f]
    ensures Store(0x1f83d9abfb41bd6b) == [0x1f, 0x83, 0xd9, 0xab, 0xfb, 0x41, 0xbd, 0x6b]
    ensures Store(0x5be0cd19137e2179) == [0x5b, 0xe0, 0xcd, 0x19, 0x13, 0x7e, 0x21, 0x79]
  {
  }

  /** The initial bytes are the initial hash value of the standard. */
  lemma IvValue()
    ensures |IV| == 64 && StateOf(IV) == INITIAL
  {
    hide Bytes, StateOf, Words;
    IvBytes();
    StateRoundTrip(INITIAL);
  }

  lemma IvBytes()
    ensures IV == Bytes(Words(INITIAL))
  {
    Initials();
    hide Store;
    var ws := Words(INITIAL);
    BytesTail(ws, 0);
    BytesTail(ws, 1);
    BytesTail(ws, 2);
    BytesTail(ws, 3);
    BytesTail(ws, 4);
    BytesTail(ws, 5);
    BytesTail(ws, 6);
    BytesTail(ws, 7);
    assert ws[8..] == [] && ws[0..] == ws;
    hide Bytes;
    assert Bytes(ws[8..]) == [] by {
      NoBytes();
    }
  }

  lemma NoBytes()
    ensures Bytes([]) == []
  {
  }

  lemma BytesTail(ws: seq<word>, i: nat)
    requires i < |ws|
    ensures Bytes(ws[i..]) == Store(ws[i]) + Bytes(ws[i + 1..])
  {
    assert ws[i..][1..] == ws[i + 1..];
  }

  /** The length of the full blocks. */
  function Full(n: nat): (f: nat)
    ensures f <= n && f % 128 == 0 && n - f == n % 128
  {
    n - n % 128
  }

  /** The last block or two: the rest of the message and what follows it. */
  function Tail(rest: seq<byte>, n: bv64): (t: seq<byte>)
    requires |rest| < 128
    ensures |t| == if |rest| < 112 then 128 else 256
  {
    rest + [0x80] + seq((if |rest| < 112 then 128 else 256) - 17 - |rest|, i => 0 as byte) + LengthField(n)
  }

  /** The padding of the standard is the full blocks followed by this tail. */
  lemma PadIsTail(m: seq<byte>)
    requires |m| < 0x1_0000_0000_0000_0000
    ensures var full := Full(|m|); Pad(m) == m[..full] + Tail(m[full..], Size(|m|))
  {
    var full := Full(|m|);
    var rest := m[full..];
    assert Zeros(|m|) == (if |rest| < 112 then 128 else 256) - 17 - |rest| by {
      ZerosValue(|m|);
    }
    hide LengthField, Zeros;
    assert m == m[..full] + rest;
  }

  lemma ZerosValue(n: nat)
    ensures Zeros(n) == (if n % 128 < 112 then 128 else 256) - 17 - n % 128
  {
    assert (n + 17) % 128 == (n % 128 + 17) % 128;
  }

  /** The nine length bytes of the source. */
  function Shifted(n: bv64, k: nat): byte
    requires k < 9
  {
    match k
    case 0 => ((n >> 61) & 0xff) as byte
    case 1 => ((n >> 53) & 0xff) as byte
    case 2 => ((n >> 45) & 0xff) as byte
    case 3 => ((n >> 37) & 0xff) as byte
    case 4 => ((n >> 29) & 0xff) as byte
    case 5 => ((n >> 21) & 0xff) as byte
    case 6 => ((n >> 13) & 0xff) as byte
    case 7 => ((n >> 5) & 0xff) as byte
    case _ => ((n << 3) & 0xff) as byte
  }

  /** After seven zeros they are the length field. */
  lemma LengthBytes(n: bv64)
    ensures LengthField(n) == [0, 0, 0, 0, 0, 0, 0] +
      [Shifted(n, 0), Shifted(n, 1), Shifted(n, 2), Shifted(n, 3), Shifted(n, 4),
       Shifted(n, 5), Shifted(n, 6), Shifted(n, 7), Shifted(n, 8)]
  {
  }

  // ---- the hash ----

  /** Writes the nine length bytes after seven bytes that are zero. */
  method PutLength(padded: array<byte>, at: nat, n: bv64)
    requires at + 16 <= padded.Length && forall k :: at <= k < at + 7 ==> padded[k] == 0
    modifies padded
    ensures padded[at..at + 16] == LengthField(n)
    ensures padded[..at] == old(padded[..at]) && padded[at + 16..] == old(padded[at + 16..])
  {
    hide LengthField, Shifted;
    LengthBytes(n);
    padded[at + 7] := Shifted(n, 0);
    padded[at + 8] := Shifted(n, 1);
    padded[at + 9] := Shifted(n, 2);
    padded[at + 10] := Shifted(n, 3);
    padded[at + 11] := Shifted(n, 4);
    padded[at + 12] := Shifted(n, 5);
    padded[at + 13] := Shifted(n, 6);
    padded[at + 14] := Shifted(n, 7);
    padded[at + 15] := Shifted(n, 8);
  }

  /** The scratch buffer: rest of the message, one-bit, zeros, length. */
  method FillTail(padded: array<byte>, rest: seq<byte>, n: bv64, size: nat)
    requires padded.Length == 256 && |rest| < 128 && size == if |rest| < 112 then 128 else 256
    modifies padded
    ensures padded[..size] == Tail(rest, n)
  {
    hide LengthField;
    CopyBytes(padded, rest);
    padded[|rest|] := 0x80;
    for i := |rest| + 1 to size - 9
      invariant padded[..|rest|] == rest && padded[|rest|] == 0x80
      invariant forall k :: |rest| < k < i ==> padded[k] == 0
    {
      padded[i] := 0;
    }
    ghost var front := rest + [0x80] + seq(size - 17 - |rest|, i => 0 as byte);
    assert padded[..size - 16] == front;
    PutLength(padded, size - 16, n);
    assert padded[..size] == padded[..size - 16] + padded[size - 16..size];
  }

  /** Full blocks, then the tail, make the padded message. */
  lemma FoldPadded(m: seq<byte>)
    requires |m| < 0x1_0000_0000_0000_0000
    ensures var full := Full(|m|);
      Fold(INITIAL, Pad(m)) == Fold(Fold(INITIAL, m), Tail(m[full..], Size(|m|)))
  {
    hide *;
    PadIsTail(m);
    var x, rest := m[..Full(|m|)], m[Full(|m|)..];
    assert x + rest == m;
    FoldSplit(INITIAL, x, rest, Tail(rest, Size(|m|)));
  }

  /** Hashing a message that ends within a block and then a tail is hashing full blocks and tail. */
  lemma FoldSplit(s: State, x: seq<byte>, rest: seq<byte>, tail: seq<byte>)
    requires |x| % 128 == 0 && |rest| < 128
    ensures Fold(Fold(s, x + rest), tail) == Fold(s, x + tail)
  {
    hide Fold;
    FoldConcat(s, x, rest);
    FoldShort(Fold(s, x), rest);
    FoldConcat(s, x, tail);
  }

  /** crypto_hash_sha512 is SHA-512, for every message whose length fits the length argument. */
  method Hash(input: seq<byte>) returns (out: array<byte>)
    requires |input| < 0x1_0000_0000_0000_0000
    ensures out[..] == Sha512Spec.Sha512(input)
  {
    hide Tail, Pad, Fold, Bytes, Words, StateOf, Size, Full;
    var h := new byte[64];
    CopyBytes(h, IV);
    assert h[..] == IV;
    IvValue();
    var left := HashBlocks(h, input);
    StateRoundTrip(Fold(INITIAL, input));
    var full := Full(|input|);
    var padded := new byte[256];
    var size := if left < 112 then 128 else 256;
    FillTail(padded, input[full..], Size(|input|), size);
    var rest := HashBlocks(h, padded[..size]);
    FoldPadded(input);
    out := new byte[64];
    CopyBytes(out, h[..]);
  }
}
