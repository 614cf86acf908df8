/**
 The chacha20-poly1305 packet cipher. Poly1305 is any function from message and key to
 sixteen bytes.
 */
module ChachaPoly {
  import opened Options
  import opened Words
  import opened ChaCha
  import opened ChaChaLoop

  const TAGLEN := 16
  const ONE: Bytes := [1, 0, 0, 0, 0, 0, 0, 0]

  type Key = s: seq<u32> | |s| == 12 witness seq(12, i => 0)

  type Mac = (Bytes, Bytes) -> Bytes

  ghost predicate IsMac(poly: Mac) {
    forall m, k :: |poly(m, k)| == TAGLEN
  }

  // ---- packets ----

  /** The sequence number as eight bytes, most significant first. */
  function SeqBuf(n: u32): (b: Bytes)
    ensures |b| == 8
  {
    [0, 0, 0, 0, n / 0x100_0000, n / 0x1_0000 % 0x100, n / 0x100 % 0x100, n % 0x100]
  }

  function Start(k: Key, iv: Bytes, counter: Bytes): State
    requires |iv| == 8 && |counter| == 8
  {
    k + [Load(counter, 0), Load(counter, 4), Load(iv, 0), Load(iv, 4)]
  }

  lemma IvStart(j: State, iv: Bytes, counter: Bytes)
    requires |iv| == 8 && |counter| == 8
    ensures IvState(j, iv, counter) == Start(j[..12], iv, counter)
  {
    hide Load;
  }

  /** The Poly1305 key of a packet: keystream block 0 of the main key. */
  function PolyKey(k: Key, n: u32): (b: Bytes)
    ensures |b| == 32
  {
    Stream(Start(k, SeqBuf(n), ZERO), seq(32, i => 0))
  }

  function HeaderStream(k: Key, n: u32, x: Bytes): (r: Bytes)
    ensures |r| == |x|
  {
    Stream(Start(k, SeqBuf(n), ZERO), x)
  }

  function PayloadStream(k: Key, n: u32, x: Bytes): (r: Bytes)
    ensures |r| == |x|
  {
    Stream(Start(k, SeqBuf(n), ONE), x)
  }

  /** Header under the header key from block 0, payload under the main key from block 1. */
  function Body(main: Key, header: Key, n: u32, x: Bytes, aadlen: nat): (r: Bytes)
    requires aadlen <= |x|
    ensures |r| == |x|
  {
    HeaderStream(header, n, x[..aadlen]) + PayloadStream(main, n, x[aadlen..])
  }

  function Seal(poly: Mac, main: Key, header: Key, n: u32, x: Bytes, aadlen: nat): Bytes
    requires aadlen <= |x|
  {
    var b := Body(main, header, n, x, aadlen);
    b + poly(b, PolyKey(main, n))
  }

  /** The packet if its tag is right. */
  function Open(poly: Mac, main: Key, header: Key, n: u32, y: Bytes, aadlen: nat): Option<Bytes>
    requires aadlen + TAGLEN <= |y|
  {
    var x := y[..|y| - TAGLEN];
    if poly(x, PolyKey(main, n)) != y[|y| - TAGLEN..] then None else Some(Body(main, header, n, x, aadlen))
  }

  // ---- what they promise ----

  lemma BodyTwice(main: Key, header: Key, n: u32, x: Bytes, aadlen: nat)
    requires aadlen <= |x|
    ensures Body(main, header, n, Body(main, header, n, x, aadlen), aadlen) == x
  {
    hide Stream, Start, SeqBuf;
    StreamTwice(Start(header, SeqBuf(n), ZERO), x[..aadlen]);
    StreamTwice(Start(main, SeqBuf(n), ONE), x[aadlen..]);
    var b := Body(main, header, n, x, aadlen);
    assert b[..aadlen] == HeaderStream(header, n, x[..aadlen]) && b[aadlen..] == PayloadStream(main, n, x[aadlen..]);
  }

  /** Decryption undoes encryption. */
  lemma OpenSeal(poly: Mac, main: Key, header: Key, n: u32, x: Bytes, aadlen: nat)
    requires IsMac(poly) && aadlen <= |x|
    ensures |Seal(poly, main, header, n, x, aadlen)| == |x| + TAGLEN
    ensures Open(poly, main, header, n, Seal(poly, main, header, n, x, aadlen), aadlen) == Some(x)
  {
    hide Body, PolyKey;
    BodyTwice(main, header, n, x, aadlen);
    var b := Body(main, header, n, x, aadlen);
    var y := Seal(poly, main, header, n, x, aadlen);
    assert y[..|x|] == b && y[|x|..] == poly(b, PolyKey(main, n));
  }

  /** A packet is accepted exactly if it is the encryption of something, and that is what comes out. */
  lemma OpenIff(poly: Mac, main: Key, header: Key, n: u32, y: Bytes, x: Bytes, aadlen: nat)
    requires IsMac(poly) && aadlen <= |x| && aadlen + TAGLEN <= |y|
    ensures Open(poly, main, header, n, y, aadlen) == Some(x) <==> y == Seal(poly, main, header, n, x, aadlen)
  {
    if y == Seal(poly, main, header, n, x, aadlen) {
      OpenSeal(poly, main, header, n, x, aadlen);
    }
    if Open(poly, main, header, n, y, aadlen) == Some(x) {
      var c := y[..|y| - TAGLEN];
      BodyTwice(main, header, n, c, aadlen);
      hide Body, PolyKey;
      assert y == c + y[|y| - TAGLEN..];
    }
  }

  /** The length read from the first four bytes alone is that of the decrypted packet. */
  lemma LengthAgrees(main: Key, header: Key, n: u32, y: Bytes, aadlen: nat)
    requires 4 <= aadlen <= |y|
    ensures U32At(HeaderStream(header, n, y[..4])) == U32At(Body(main, header, n, y, aadlen))
  {
    hide Stream, KeyByte, XorByte, Start;
    var j := Start(header, SeqBuf(n), ZERO);
    forall i | 0 <= i < 4
      ensures HeaderStream(header, n, y[..4])[i] == Body(main, header, n, y, aadlen)[i]
    {
      StreamAt(j, y[..4], i);
      StreamAt(j, y[..aadlen], i);
    }
  }

  /** Byte i of the payload uses block 1 + i/64, so never block 0, from which the tag key comes. */
  lemma PayloadBlocks(k: Key, n: u32, x: Bytes, i: nat)
    requires i < |x| && |x| <= 0x1_0000_0000
    ensures var j := Start(k, SeqBuf(n), ZERO);
      && Counter(j) == 0
      && PayloadStream(k, n, x)[i] == XorByte(x[i], Block(WithCounter(j, 1 + i / 64))[i % 64])
      && WithCounter(j, 1 + i / 64) != j
  {
    hide Block, XorByte;
    var j, j1 := Start(k, SeqBuf(n), ZERO), Start(k, SeqBuf(n), ONE);
    CountersStart(k, n);
    StreamAt(j1, x, i);
    KeyByteCounter(j1, i);
    assert i / 64 < 0x1_0000_0000;
    assert (1 + i / 64) % COUNTERS == 1 + i / 64;
    CounterSet(j, 1);
    CounterSet(j, 1 + i / 64);
  }

  lemma CountersStart(k: Key, n: u32)
    ensures var j := Start(k, SeqBuf(n), ZERO); Counter(j) == 0 && Start(k, SeqBuf(n), ONE) == WithCounter(j, 1)
  {
    LoadZero();
    assert Load(ONE, 0) == 1 && Load(ONE, 4) == 0;
    hide SeqBuf, Load;
  }

  /** The tag key is block 0. */
  lemma PolyKeyBlock(k: Key, n: u32, i: nat)
    requires i < 32
    ensures PolyKey(k, n)[i] == Block(Start(k, SeqBuf(n), ZERO))[i]
  {
    hide Block, Start, SeqBuf;
    var j := Start(k, SeqBuf(n), ZERO);
    StreamAt(j, seq(32, i => 0), i);
    assert i / 64 == 0 && i % 64 == i;
    LaterNone(j);
    XorZero(Block(j)[i]);
  }

  /** The tag key of a packet, as a part of the keystream. */
  function TagBlock(k: Key, n: u32): (b: Bytes)
    ensures |b| == 32
  {
    Block(Start(k, SeqBuf(n), ZERO))[..32]
  }

  lemma PolyKeyIs(k: Key, n: u32)
    ensures PolyKey(k, n) == TagBlock(k, n)
  {
    hide Block, Start, SeqBuf, PolyKey;
    forall i | 0 <= i < 32
      ensures PolyKey(k, n)[i] == TagBlock(k, n)[i]
    {
      PolyKeyBlock(k, n, i);
    }
  }

  /** The nonce is the sequence number, so packets of different numbers use different keystreams. */
  lemma NonceIsNumber(n: u32)
    ensures SeqBuf(n)[..4] == [0, 0, 0, 0] && U32At(SeqBuf(n)[4..]) == n
  {
    var b := SeqBuf(n);
    assert b[4..] == [b[4], b[5], b[6], b[7]];
    Digits256(n);
  }

  lemma Digits256(n: u32)
    ensures n / 0x100_0000 * 0x100_0000 + n / 0x1_0000 % 0x100 * 0x1_0000 + n / 0x100 % 0x100 * 0x100 + n % 0x100 == n
  {
    assert n / 0x100 / 0x100 == n / 0x1_0000 && n / 0x1_0000 / 0x100 == n / 0x100_0000;
  }

  /**
   The tag is over everything before it, the header included: of two packets with the same tag,
   if one is accepted the other is exactly if the tag function agrees on the two.
   */
  lemma TagCoversAll(poly: Mac, main: Key, header: Key, n: u32, y: Bytes, z: Bytes, aadlen: nat)
    requires IsMac(poly) && aadlen + TAGLEN <= |y| && aadlen + TAGLEN <= |z|
    requires y[|y| - TAGLEN..] == z[|z| - TAGLEN..] && Open(poly, main, header, n, y, aadlen).Some?
    ensures Open(poly, main, header, n, z, aadlen).Some? <==>
      poly(z[..|z| - TAGLEN], TagBlock(main, n)) == poly(y[..|y| - TAGLEN], TagBlock(main, n))
  {
    hide Body, PolyKey, TagBlock;
    PolyKeyIs(main, n);
  }

  /** Byte i before the tag: block i/64 of the header key in the header, block 1 + (i - aadlen)/64 of the main key after it. */
  lemma BodyAt(main: Key, header: Key, n: u32, x: Bytes, aadlen: nat, i: nat)
    requires aadlen <= |x| <= 0x1_0000_0000 && i < |x|
    ensures var h, m := Start(header, SeqBuf(n), ZERO), Start(main, SeqBuf(n), ZERO);
      Body(main, header, n, x, aadlen)[i] ==
        if i < aadlen then XorByte(x[i], Block(WithCounter(h, i / 64))[i % 64])
        else XorByte(x[i], Block(WithCounter(m, 1 + (i - aadlen) / 64))[(i - aadlen) % 64])
  {
    hide Block, XorByte, Start, SeqBuf;
    if i < aadlen {
      HeaderBlocks(header, n, x[..aadlen], i);
    } else {
      PayloadBlocks(main, n, x[aadlen..], i - aadlen);
    }
  }

  lemma HeaderBlocks(k: Key, n: u32, x: Bytes, i: nat)
    requires i < |x| && |x| <= 0x1_0000_0000
    ensures HeaderStream(k, n, x)[i] == XorByte(x[i], Block(WithCounter(Start(k, SeqBuf(n), ZERO), i / 64))[i % 64])
  {
    hide Block, XorByte;
    var j := Start(k, SeqBuf(n), ZERO);
    CountersStart(k, n);
    StreamAt(j, x, i);
    KeyByteCounter(j, i);
    assert i / 64 < 0x1_0000_0000;
    assert (i / 64) % COUNTERS == i / 64;
  }

  // ---- the cipher context ----

  class PacketCipher {
    const main: Context
    const header: Context
    const poly: Mac

    constructor (key: Bytes, poly: Mac)
      requires |key| == 64
      ensures fresh(main) && fresh(header) && main != header && this.poly == poly
      ensures main.input[..12] == KeyState(key, 256) && header.input[..12] == KeyState(key[32..], 256)
    {
      this.poly := poly;
      main := new Context();
      header := new Context();
      new;
      main.KeySetup(key, 256);
      header.KeySetup(key[32..], 256);
    }

    /** The tag key of the packet; the main context has used block 0 afterwards. */
    method TagKey(n: u32) returns (polyKey: Bytes)
      modifies main
      ensures polyKey == PolyKey(old(main.input[..12]), n) && main.input[..12] == old(main.input[..12])
    {
      hide Stream, Load, SeqBuf;
      var buf := new u8[32](i => 0);
      assert buf[0..32] == seq(32, i => 0);
      IvStart(main.input, SeqBuf(n), ZERO);
      main.IvSetup(SeqBuf(n), None);
      ghost var j := main.input;
      main.EncryptBytes(buf, 0, buf, 0, 32);
      LaterKeeps(j, 1);
      polyKey := buf[..];
    }

    /** Header and payload. */
    method CryptBody(n: u32, dest: array<u8>, src: array<u8>, len: nat, aadlen: nat)
      requires main != header && aadlen + len <= src.Length && aadlen + len <= dest.Length
      modifies main, header, dest
      ensures dest[..aadlen + len] == Body(old(main.input[..12]), old(header.input[..12]), n, old(src[..aadlen + len]), aadlen)
      ensures dest[aadlen + len..] == old(dest[aadlen + len..])
      ensures main.input[..12] == old(main.input[..12]) && header.input[..12] == old(header.input[..12])
    {
      hide Body, Stream, Start, SeqBuf, Load;
      ghost var x, d := src[..aadlen + len], dest[..];
      if aadlen > 0 {
        assert src[0..aadlen] == x[..aadlen];
        CryptPart(header, n, None, dest, src, 0, aadlen);
      }
      ghost var front := dest[..aadlen];
      assert aadlen > 0 ==> front == dest[0..aadlen];
      assert src[aadlen..aadlen + len] == x[aadlen..];
      CryptPart(main, n, Some(ONE), dest, src, aadlen, len);
      ghost var out := dest[..aadlen + len];
      assert out[..aadlen] == front && out[aadlen..] == dest[aadlen..aadlen + len];
      BodyIs(out, x, aadlen, old(main.input[..12]), old(header.input[..12]), n);
    }

    /** chachapoly_crypt */
    method Crypt(n: u32, dest: array<u8>, src: array<u8>, len: nat, aadlen: nat, encrypt: bool) returns (ok: bool)
      requires IsMac(poly) && main != header
      requires aadlen + len + (if encrypt then 0 else TAGLEN) <= src.Length
      requires aadlen + len + (if encrypt then TAGLEN else 0) <= dest.Length
      modifies main, header, dest
      ensures encrypt ==> ok
      ensures encrypt ==> var y := Seal(poly, old(main.input[..12]), old(header.input[..12]), n, old(src[..aadlen + len]), aadlen);
        dest[..aadlen + len + TAGLEN] == y
      ensures !encrypt ==>
        var r := Open(poly, old(main.input[..12]), old(header.input[..12]), n, old(src[..aadlen + len + TAGLEN]), aadlen);
        && ok == r.Some? && (ok ==> dest[..aadlen + len] == r.value) && (!ok ==> dest[..] == old(dest[..]))
      ensures var size, k := aadlen + len, TagBlock(old(main.input[..12]), n);
        if encrypt then dest[size..size + TAGLEN] == poly(dest[..size], k)
        else ok <==> poly(old(src[..size]), k) == old(src[size..size + TAGLEN])
      ensures main.input[..12] == old(main.input[..12]) && header.input[..12] == old(header.input[..12])
    {
      hide Body, PolyKey, TagBlock;
      var size := aadlen + len;
      ghost var x, m, h := src[..size], main.input[..12], header.input[..12];
      PolyKeyIs(m, n);
      var polyKey := TagKey(n);
      if !encrypt {
        var expected := poly(src[..size], polyKey);
        ghost var y := src[..size + TAGLEN];
        assert y[..size] == x && y[size..] == src[size..size + TAGLEN];
        if expected != src[size..size + TAGLEN] {
          return false;
        }
      }
      CryptBody(n, dest, src, len, aadlen);
      if encrypt {
        assert |poly(dest[..size], polyKey)| == TAGLEN;
        Put(dest, size, poly(dest[..size], polyKey));
        assert dest[..size + TAGLEN] == dest[..size] + dest[size..size + TAGLEN];
      }
      ok := true;
    }

    /** chachapoly_get_length */
    method GetLength(n: u32, cp: array<u8>) returns (r: Option<u32>)
      modifies header
      ensures cp.Length < 4 ==> r.None?
      ensures cp.Length >= 4 ==> r == Some(U32At(HeaderStream(old(header.input[..12]), n, cp[..4])))
      ensures header.input[..12] == old(header.input[..12])
    {
      if cp.Length < 4 {
        return None;
      }
      hide Stream, Load, SeqBuf;
      var buf := new u8[4](i => 0);
      IvStart(header.input, SeqBuf(n), ZERO);
      header.IvSetup(SeqBuf(n), None);
      ghost var j := header.input;
      assert cp[0..4] == cp[..4];
      header.EncryptBytes(cp, 0, buf, 0, 4);
      LaterKeeps(j, 1);
      assert buf[0..4] == buf[..];
      r := Some(U32At(buf[..]));
    }
  }

  /** chachapoly_init: two 256-bit keys. */
  method Init(key: Bytes, poly: Mac) returns (c: PacketCipher?)
    ensures c == null <==> |key| != 64
    ensures c != null ==> fresh(c) && fresh(c.main) && fresh(c.header) && c.main != c.header && c.poly == poly
    ensures c != null ==> c.main.input[..12] == KeyState(key, 256) && c.header.input[..12] == KeyState(key[32..], 256)
  {
    if |key| != 64 {
      return null;
    }
    c := new PacketCipher(key, poly);
  }

  /** Sets the nonce and counter and encrypts a part of the packet at its offset. */
  method CryptPart(ctx: Context, n: u32, counter: Option<Bytes>, dest: array<u8>, src: array<u8>, at: nat, len: nat)
    requires counter.Some? ==> |counter.value| == 8
    requires at + len <= src.Length && at + len <= dest.Length
    modifies ctx, dest
    ensures dest[at..at + len] ==
      Stream(Start(old(ctx.input[..12]), SeqBuf(n), if counter.None? then ZERO else counter.value), old(src[at..at + len]))
    ensures dest[..at] == old(dest[..at]) && dest[at + len..] == old(dest[at + len..])
    ensures ctx.input[..12] == old(ctx.input[..12])
  {
    hide Stream, Start, SeqBuf, Load, Later, IvState;
    var iv := SeqBuf(n);
    IvStart(ctx.input, iv, if counter.None? then ZERO else counter.value);
    ctx.IvSetup(iv, counter);
    ghost var j := ctx.input;
    StartKey(old(ctx.input[..12]), iv, if counter.None? then ZERO else counter.value);
    ctx.EncryptBytes(src, at, dest, at, len);
    LaterKeeps(j, (len + 63) / 64);
  }

  lemma StartKey(k: Key, iv: Bytes, counter: Bytes)
    requires |iv| == 8 && |counter| == 8
    ensures Start(k, iv, counter)[..12] == k
  {
  }

  lemma BodyIs(d: Bytes, x: Bytes, aadlen: nat, main: Key, header: Key, n: u32)
    requires aadlen <= |x| == |d|
    requires aadlen > 0 ==> d[..aadlen] == Stream(Start(header, SeqBuf(n), ZERO), x[..aadlen])
    requires d[aadlen..] == Stream(Start(main, SeqBuf(n), ONE), x[aadlen..])
    ensures d == Body(main, header, n, x, aadlen)
  {
    hide Stream, Start, SeqBuf;
    if aadlen == 0 {
      StreamNone(Start(header, SeqBuf(n), ZERO), x[..0]);
    }
    assert d == d[..aadlen] + d[aadlen..];
  }
}
