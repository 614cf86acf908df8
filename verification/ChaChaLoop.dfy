/** The ChaCha context and its in-place block loop, against the keystream definition. */
module ChaChaLoop {
  import opened Options
  import opened Words
  import opened ChaCha

  // ---- XOR of words and of bytes ----

  lemma StoreDigits(a: u8, b: u8, c: u8, d: u8, v: u32)
    requires v as int == a as int + 0x100 * (b as int + 0x100 * (c as int + 0x100 * d as int))
    ensures Store(v) == [a, b, c, d]
  {
    var n := b as int + 0x100 * (c as int + 0x100 * d as int);
    assert v % 0x100 == a && v / 0x100 == n;
    assert n % 0x100 == b && n / 0x100 == c as int + 0x100 * d as int;
    assert v / 0x1_0000 == n / 0x100 && v / 0x100_0000 == n / 0x1_0000;
  }

  lemma DigitsStore(v: u32)
    ensures var s := Store(v);
      v as int == s[0] as int + 0x100 * (s[1] as int + 0x100 * (s[2] as int + 0x100 * s[3] as int))
  {
    assert v as int == v % 0x100 + 0x100 * (v / 0x100);
    assert v / 0x1_0000 == v / 0x100 / 0x100 && v / 0x100_0000 == v / 0x100 / 0x100 / 0x100;
  }

  lemma Xor4(a: Bytes, b: Bytes, x: nat, y: nat)
    requires |a| == |b| == 4
    requires x == a[0] as int + 0x100 * (a[1] as int + 0x100 * (a[2] as int + 0x100 * a[3] as int))
    requires y == b[0] as int + 0x100 * (b[1] as int + 0x100 * (b[2] as int + 0x100 * b[3] as int))
    ensures Xor(x, y) == XorByte(a[0], b[0]) as int + 0x100 * (XorByte(a[1], b[1]) as int
      + 0x100 * (XorByte(a[2], b[2]) as int + 0x100 * XorByte(a[3], b[3]) as int))
  {
    PowerValues();
    hide Xor, Power;
    XorParts(a[2], b[2], a[3], b[3], 8);
    XorParts(a[1], b[1], a[2] as int + 0x100 * a[3] as int, b[2] as int + 0x100 * b[3] as int, 8);
    XorParts(a[0], b[0], a[1] as int + 0x100 * (a[2] as int + 0x100 * a[3] as int),
             b[1] as int + 0x100 * (b[2] as int + 0x100 * b[3] as int), 8);
  }

  /** XOR of a keystream word with four message bytes, stored, is XOR byte by byte. */
  lemma XorStored(w: u32, p: Bytes, i: nat)
    requires i + 4 <= |p|
    ensures Store(XorWord(w, Load(p, i))) == XorBytes(p[i..i + 4], Store(w))
  {
    var b, s := p[i..i + 4], Store(w);
    DigitsStore(w);
    Xor4(b, s, Load(p, i), w);
    XorComm(w, Load(p, i));
    hide Xor, XorByte, Store;
    StoreDigits(XorByte(b[0], s[0]), XorByte(b[1], s[1]), XorByte(b[2], s[2]), XorByte(b[3], s[3]), XorWord(w, Load(p, i)));
  }

  /** The same for all words of a block. */
  function XorWords(ws: seq<u32>, p: Bytes): (r: seq<u32>)
    requires |p| == 4 * |ws|
    ensures |r| == |ws|
  {
    if ws == [] then [] else [XorWord(ws[0], Load(p, 0))] + XorWords(ws[1..], p[4..])
  }

  lemma XorConcat(a: Bytes, b: Bytes, c: Bytes, d: Bytes)
    requires |a| == |c| && |b| == |d|
    ensures XorBytes(a + b, c + d) == XorBytes(a, c) + XorBytes(b, d)
  {
    hide XorByte;
  }

  lemma {:induction false} XorStoredAll(ws: seq<u32>, p: Bytes)
    requires |p| == 4 * |ws|
    ensures StoreAll(XorWords(ws, p)) == XorBytes(p, StoreAll(ws))
  {
    hide XorWord, XorByte, Store, Load;
    if ws != [] {
      XorStoredAll(ws[1..], p[4..]);
      XorStored(ws[0], p, 0);
      XorConcat(p[0..4], p[4..], Store(ws[0]), StoreAll(ws[1..]));
      assert p == p[0..4] + p[4..];
      var r := XorWords(ws, p);
      assert r[0] == XorWord(ws[0], Load(p, 0)) && r[1..] == XorWords(ws[1..], p[4..]);
    }
  }

  // ---- the context ----

  class Context {
    var input: State

    constructor ()
    {
      input := seq(16, i => 0);
    }

    /** chacha_keysetup with kbits 256, or 128 otherwise */
    method KeySetup(k: Bytes, kbits: nat)
      requires |k| >= (if kbits == 256 then 32 else 16)
      modifies this
      ensures input == KeyState(k, kbits) + old(input[12..])
    {
      var second := if kbits == 256 then 16 else 0;
      var constants := if kbits == 256 then SIGMA else TAU;
      input := input[4 := Load(k, 0)][5 := Load(k, 4)][6 := Load(k, 8)][7 := Load(k, 12)];
      input := input[8 := Load(k, second)][9 := Load(k, second + 4)][10 := Load(k, second + 8)][11 := Load(k, second + 12)];
      input := input[0 := Load(constants, 0)][1 := Load(constants, 4)][2 := Load(constants, 8)][3 := Load(constants, 12)];
    }

    /** chacha_ivsetup */
    method IvSetup(iv: Bytes, counter: Option<Bytes>)
      requires |iv| == 8 && (counter.Some? ==> |counter.value| == 8)
      modifies this
      ensures input == IvState(old(input), iv, if counter.None? then ZERO else counter.value)
    {
      hide Load;
      LoadZero();
      input := input[12 := if counter.None? then 0 else Load(counter.value, 0)];
      input := input[13 := if counter.None? then 0 else Load(counter.value, 4)];
      input := input[14 := Load(iv, 0)];
      input := input[15 := Load(iv, 4)];
    }

    /** chacha_encrypt_bytes; source and target may be the same buffer. */
    method EncryptBytes(m: array<u8>, mo: nat, c: array<u8>, co: nat, bytes: nat)
      requires mo + bytes <= m.Length && co + bytes <= c.Length
      requires m == c ==> mo == co
      modifies this, c
      ensures c[co..co + bytes] == Stream(old(input), old(m[mo..mo + bytes]))
      ensures c[..co] == old(c[..co]) && c[co + bytes..] == old(c[co + bytes..])
      ensures input == Later(old(input), (bytes + 63) / 64)
    {
      hide *;
      ghost var j0, cs, msg := input, c[..], m[mo..mo + bytes];
      LaterNone(j0);
      if bytes == 0 {
        StreamNone(j0, msg);
        return;
      }
      var j := input;
      var p, left := 0, bytes;
      ghost var done: Bytes := [];
      Nothing(cs, msg, j0, co);
      while left > 64
        invariant p + left == bytes && left > 0 && input == j0
        invariant Done(c[..], m[mo + p..mo + bytes], cs, msg, done, j0, j, co, p)
      {
        j, done := OneBlock(m, mo, c, co, p, bytes, j, j0, cs, msg, done);
        p, left := p + 64, left - 64;
      }
      DoneMeans(c[..], m[mo + p..mo + bytes], cs, msg, done, j0, j, co, p);
      LastBlock(m, mo + p, c, co + p, left, j);
      Finished(c[..], cs, msg, done, j0, j, co, p);
      LaterNext(j0, p);
      LaterKeeps(j0, (p + 64) / 64);
      j := Advance(j);
      input := input[12 := j[12]][13 := j[13]];
    }
  }

  /** After p bytes: what is written, what is still to be read, and the state of the cipher. */
  ghost predicate Done(c: Bytes, rest: Bytes, cs: Bytes, msg: Bytes, done: Bytes, j0: State, j: State, co: nat, p: nat) {
    && |done| == p <= |msg| && p % 64 == 0 && co + |msg| <= |cs|
    && j == Later(j0, p / 64) && done + Stream(j, msg[p..]) == Stream(j0, msg)
    && c == cs[..co] + done + cs[co + p..] && rest == msg[p..]
  }

  lemma DoneMeans(c: Bytes, rest: Bytes, cs: Bytes, msg: Bytes, done: Bytes, j0: State, j: State, co: nat, p: nat)
    requires Done(c, rest, cs, msg, done, j0, j, co, p)
    ensures |done| == p <= |msg| && p % 64 == 0 && co + |msg| <= |cs| && j == Later(j0, p / 64)
    ensures done + Stream(j, msg[p..]) == Stream(j0, msg) && c == cs[..co] + done + cs[co + p..] && rest == msg[p..]
  {
  }

  lemma Nothing(cs: Bytes, msg: Bytes, j0: State, co: nat)
    requires co + |msg| <= |cs|
    ensures Done(cs, msg, cs, msg, [], j0, j0, co, 0)
  {
    hide Stream;
    assert msg[0..] == msg;
  }

  /** One full block of the loop. */
  method OneBlock(m: array<u8>, mo: nat, c: array<u8>, co: nat, p: nat, bytes: nat, j: State,
                  ghost j0: State, ghost cs: Bytes, ghost msg: Bytes, ghost done: Bytes) returns (j1: State, ghost done1: Bytes)
    requires mo + bytes <= m.Length && co + bytes <= c.Length && |msg| == bytes && p + 64 < bytes && (m == c ==> mo == co)
    requires Done(c[..], m[mo + p..mo + bytes], cs, msg, done, j0, j, co, p)
    modifies c
    ensures Done(c[..], m[mo + p + 64..mo + bytes], cs, msg, done1, j0, j1, co, p + 64)
  {
    hide *;
    ghost var before, rest := c[..], m[mo + p..mo + bytes];
    var out := CopyBlock(m, mo + p, c, co + p, bytes - p, j);
    j1, done1 := Advance(j), done + out;
    NextDone(before, c[..], rest, cs, msg, done, j0, j, co, p, out);
  }

  /** Reads a block at one offset and writes it, encrypted, at the other; what follows in the source stays. */
  method CopyBlock(m: array<u8>, mo: nat, c: array<u8>, co: nat, n: nat, j: State) returns (out: Bytes)
    requires 64 <= n && mo + n <= m.Length && co + n <= c.Length && (m == c ==> mo == co)
    modifies c
    ensures out == XorBytes(old(m[mo..mo + n])[..64], Block(j)) && |out| == 64
    ensures c[..] == old(c[..])[..co] + out + old(c[..])[co + 64..]
    ensures m[mo + 64..mo + n] == old(m[mo..mo + n])[64..]
  {
    hide *;
    ghost var before := c[..];
    var block := m[mo..mo + 64];
    assert block == m[mo..mo + n][..64];
    BlockLength(block, j);
    out := CryptBlock(j, block);
    Put(c, co, out);
    if m == c {
      Beyond(before, c[..], co, n);
    }
  }

  lemma NextDone(before: Bytes, c: Bytes, rest: Bytes, cs: Bytes, msg: Bytes, done: Bytes, j0: State, j: State, co: nat, p: nat, out: Bytes)
    requires Done(before, rest, cs, msg, done, j0, j, co, p) && p + 64 < |msg| == p + |rest| && |out| == 64
    requires out == XorBytes(rest[..64], Block(j)) && co + p + 64 <= |before| && c == before[..co + p] + out + before[co + p + 64..]
    ensures Done(c, rest[64..], cs, msg, done + out, j0, Advance(j), co, p + 64)
  {
    hide *;
    DoneMeans(before, rest, cs, msg, done, j0, j, co, p);
    assert rest[64..] == msg[p + 64..] && rest[..64] == msg[p..p + 64];
    Placed(cs, done, before, out, co, p);
    LaterNext(j0, p);
    StreamGoesOn(msg, done, out, j0, j, p);
    DoneIntro(c, rest[64..], cs, msg, done + out, j0, Advance(j), co, p + 64);
  }

  lemma StreamGoesOn(msg: Bytes, done: Bytes, out: Bytes, j0: State, j: State, p: nat)
    requires p + 64 < |msg| && out == XorBytes(msg[p..p + 64], Block(j)) && done + Stream(j, msg[p..]) == Stream(j0, msg)
    ensures done + out + Stream(Advance(j), msg[p + 64..]) == Stream(j0, msg)
  {
    hide *;
    FullBlock(j, msg, p, msg[p..p + 64]);
    assert done + (out + Stream(Advance(j), msg[p + 64..])) == done + out + Stream(Advance(j), msg[p + 64..]);
  }

  lemma DoneIntro(c: Bytes, rest: Bytes, cs: Bytes, msg: Bytes, done: Bytes, j0: State, j: State, co: nat, p: nat)
    requires |done| == p <= |msg| && p % 64 == 0 && co + |msg| <= |cs| && j == Later(j0, p / 64)
    requires done + Stream(j, msg[p..]) == Stream(j0, msg) && c == cs[..co] + done + cs[co + p..] && rest == msg[p..]
    ensures Done(c, rest, cs, msg, done, j0, j, co, p)
  {
  }

  lemma BlockLength(block: Bytes, j: State)
    requires |block| == 64
    ensures |XorBytes(block, Block(j))| == 64
  {
  }

  /** The last block completes the stream. */
  lemma Finished(c: Bytes, cs: Bytes, msg: Bytes, done: Bytes, j0: State, j: State, co: nat, p: nat)
    requires |done| == p <= |msg| && co + |msg| <= |cs| == |c| && done + Stream(j, msg[p..]) == Stream(j0, msg)
    requires c[co + p..co + |msg|] == Stream(j, msg[p..]) && c[..co + p] == (cs[..co] + done + cs[co + p..])[..co + p]
    requires c[co + |msg|..] == (cs[..co] + done + cs[co + p..])[co + |msg|..]
    ensures c[co..co + |msg|] == Stream(j0, msg) && c[..co] == cs[..co] && c[co + |msg|..] == cs[co + |msg|..]
  {
    hide *;
    assert c[co..co + p] == done;
    assert c[co..co + |msg|] == c[co..co + p] + c[co + p..co + |msg|];
  }

  const SIGMA: Bytes := [101, 120, 112, 97, 110, 100, 32, 51, 50, 45, 98, 121, 116, 101, 32, 107]
  const TAU: Bytes := [101, 120, 112, 97, 110, 100, 32, 49, 54, 45, 98, 121, 116, 101, 32, 107]
  const ZERO: Bytes := [0, 0, 0, 0, 0, 0, 0, 0]

  /** Words 0 to 11: constants and key; a 128-bit key is used twice. */
  function KeyState(k: Bytes, kbits: nat): (s: seq<u32>)
    requires |k| >= (if kbits == 256 then 32 else 16)
    ensures |s| == 12
  {
    var c := if kbits == 256 then SIGMA else TAU;
    var h := if kbits == 256 then 16 else 0;
    [Load(c, 0), Load(c, 4), Load(c, 8), Load(c, 12), Load(k, 0), Load(k, 4), Load(k, 8), Load(k, 12),
     Load(k, h), Load(k, h + 4), Load(k, h + 8), Load(k, h + 12)]
  }

  /** Words 12 to 15: counter and nonce. */
  function IvState(j: State, iv: Bytes, counter: Bytes): State
    requires |iv| == 8 && |counter| == 8
  {
    j[12 := Load(counter, 0)][13 := Load(counter, 4)][14 := Load(iv, 0)][15 := Load(iv, 4)]
  }

  /** Writing the next block keeps the layout: old prefix, blocks done, old suffix. */
  lemma Placed(cs: Bytes, done: Bytes, before: Bytes, out: Bytes, co: nat, p: nat)
    requires co + p + |out| <= |cs| && |done| == p && before == cs[..co] + done + cs[co + p..]
    ensures before[..co + p] + out + before[co + p + |out|..] == cs[..co] + (done + out) + cs[co + p + |out|..]
  {
  }

  /** What lies beyond the block just written is unchanged. */
  lemma Beyond(before: Bytes, after: Bytes, at: nat, n: nat)
    requires at + n <= |before| == |after| && 64 <= n && after[at + 64..] == before[at + 64..]
    ensures after[at + 64..at + n] == before[at..at + n][64..]
  {
  }

  lemma LoadZero()
    ensures Load(ZERO, 0) == 0 && Load(ZERO, 4) == 0
  {
  }

  lemma LaterNone(j: State)
    ensures Later(j, 0) == j
  {
  }

  lemma LaterNext(j: State, p: nat)
    requires p % 64 == 0
    ensures Later(j, (p + 64) / 64) == Advance(Later(j, p / 64))
  {
    hide Advance;
    assert (p + 64) / 64 == p / 64 + 1;
  }

  /** Only words 12 and 13 change from block to block. */
  lemma LaterKeeps(j: State, n: nat)
    ensures j[12 := Later(j, n)[12]][13 := Later(j, n)[13]] == Later(j, n)
  {
    LaterCounts(j, n);
    hide Later;
  }

  lemma StreamNone(j: State, m: Bytes)
    requires m == []
    ensures Stream(j, m) == []
  {
  }

  lemma StreamFirst(j: State, m: Bytes)
    requires |m| > 64
    ensures Stream(j, m) == XorBytes(m[..64], Block(j)) + Stream(Advance(j), m[64..])
  {
  }

  lemma FullBlock(j: State, msg: Bytes, p: nat, block: Bytes)
    requires p + 64 < |msg| && block == msg[p..p + 64]
    ensures Stream(j, msg[p..]) == XorBytes(block, Block(j)) + Stream(Advance(j), msg[p + 64..])
  {
    hide *;
    StreamFirst(j, msg[p..]);
    assert msg[p..][..64] == block && msg[p..][64..] == msg[p + 64..];
  }

  /** The rounds, the final addition and the XOR of one block. */
  method CryptBlock(j: State, block: Bytes) returns (out: Bytes)
    requires |block| == 64
    ensures out == XorBytes(block, Block(j))
  {
    hide DoubleRound, Plus, XorWord, XorByte, Store, XorWords;
    var x := j;
    var i := 20;
    while i > 0
      invariant 0 <= i <= 20 && i % 2 == 0
      invariant x == DoubleRounds(j, (20 - i) / 2)
    {
      x := DoubleRound(x);
      i := i - 2;
    }
    var s := Sum(x, j);
    XorStoredAll(s, block);
    out := StoreAll(XorWords(s, block));
  }

  method Put(c: array<u8>, at: nat, x: Bytes)
    requires at + |x| <= c.Length
    modifies c
    ensures c[..] == old(c[..at]) + x + old(c[at + |x|..])
    ensures c[at..at + |x|] == x && c[..at] == old(c[..at]) && c[at + |x|..] == old(c[at + |x|..])
  {
    for k := 0 to |x|
      invariant forall n :: 0 <= n < k ==> c[at + n] == x[n]
      invariant forall n :: 0 <= n < c.Length && !(at <= n < at + k) ==> c[n] == old(c[n])
    {
      c[at + k] := x[k];
    }
  }

  /** Bytes of the scratch block after the message do not matter. */
  lemma ShortStream(j: State, m: Bytes, block: Bytes)
    requires |m| <= 64 && |block| == 64 && block[..|m|] == m
    ensures XorBytes(block, Block(j))[..|m|] == Stream(j, m)
  {
    hide Block, XorByte;
  }

  /** The last block: through a scratch buffer if it is not full. */
  method LastBlock(m: array<u8>, mo: nat, c: array<u8>, co: nat, left: nat, j: State)
    requires mo + left <= m.Length && co + left <= c.Length && 0 < left <= 64
    modifies c
    ensures c[co..co + left] == Stream(j, old(m[mo..mo + left]))
    ensures c[..co] == old(c[..co]) && c[co + left..] == old(c[co + left..])
  {
    hide Block, XorByte, XorBytes, Stream;
    var msg := m[mo..mo + left];
    var tmp := new u8[64];
    if left < 64 {
      Put(tmp, 0, msg);
      var out := CryptBlock(j, tmp[..]);
      ShortStream(j, msg, tmp[..]);
      Put(tmp, 0, out);
      Put(c, co, tmp[..left]);
    } else {
      var out := CryptBlock(j, msg);
      ShortStream(j, msg, msg);
      assert out[..left] == out;
      Put(c, co, out);
    }
  }
}
