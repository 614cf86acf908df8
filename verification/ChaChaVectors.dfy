/** What fixes the ChaCha block function: rotations bit by bit, a published vector, and the rounds on a matrix. */
module ChaChaVectors {
  import opened Words
  import opened Bits
  import opened ChaCha
  import opened ChaChaLoop

  // ---- rotations ----

  /** Bit i moves to bit (i + n) mod 32. */
  lemma RotlMovesBits(v: u32, n: nat, i: nat)
    requires (n == 16 || n == 12 || n == 8 || n == 7) && i < 32
    ensures Bit(Rotl(v, n), (i + n) % 32) <==> Bit(v, i)
  {
    MorePowers();
    hide Bit, Power;
    if n == 16 {
      TurnBits(v / 0x1_0000, v % 0x1_0000, n, i);
    } else if n == 12 {
      TurnBits(v / 0x10_0000, v % 0x10_0000, n, i);
    } else if n == 8 {
      TurnBits(v / 0x100_0000, v % 0x100_0000, n, i);
    } else {
      TurnBits(v / 0x200_0000, v % 0x200_0000, n, i);
    }
  }

  /** Exchanging the upper n bits and the others. */
  lemma TurnBits(high: nat, low: nat, n: nat, i: nat)
    requires n <= 32 && i < 32 && high < Power(n) && low < Power(32 - n)
    ensures Bit(Joined(low, high, n), (i + n) % 32) <==> Bit(Joined(high, low, 32 - n), i)
  {
    hide Bit, Power, Joined;
    BitJoin(high, low, 32 - n, i);
    BitJoin(low, high, n, (i + n) % 32);
    assert (i + n) % 32 == if i < 32 - n then i + n else i + n - 32;
  }

  lemma MorePowers()
    ensures Power(7) == 0x80 && Power(8) == 0x100 && Power(12) == 0x1000 && Power(16) == 0x1_0000
    ensures Power(20) == 0x10_0000 && Power(24) == 0x100_0000 && Power(25) == 0x200_0000
  {
    PowerValues();
    assert Power(7) == 0x80 && Power(4) == 0x10;
    PowerAdd(8, 4);
    PowerAdd(16, 4);
    PowerAdd(16, 8);
    PowerAdd(24, 1);
  }

  function Joined(high: nat, low: nat, n: nat): nat {
    high * Power(n) + low
  }

  /** The bits of low + 2^n high. */
  lemma {:induction false} BitJoin(high: nat, low: nat, n: nat, i: nat)
    requires low < Power(n)
    ensures Bit(Joined(high, low, n), i) <==> if i < n then Bit(low, i) else Bit(high, i - n)
  {
    if n > 0 {
      var p := Power(n - 1);
      assert Power(n) == 2 * p;
      assert high * Power(n) == 2 * (high * p);
      Halved(high * p, low);
      if i > 0 {
        BitJoin(high, low / 2, n - 1, i - 1);
      }
    }
  }

  lemma Halved(a: nat, low: nat)
    ensures (2 * a + low) / 2 == a + low / 2 && (2 * a + low) % 2 == low % 2
  {
  }

  /** Exclusive or, bit by bit. */
  lemma {:induction false} BitXor(a: nat, b: nat, i: nat)
    ensures Bit(Xor(a, b), i) <==> Bit(a, i) != Bit(b, i)
    decreases i
  {
    hide Xor;
    XorStep(a, b);
    Halves(Xor(a / 2, b / 2), (a % 2 + b % 2) % 2);
    if i > 0 {
      BitXor(a / 2, b / 2, i - 1);
    }
  }

  // ---- section 2.1.1 of RFC 8439 ----

  function Differ(x: nat, y: nat): nat {
    if x == y then 0 else 1
  }

  lemma XorBit(a: nat, b: nat, c: nat, x: nat, y: nat)
    requires Xor(a, b) == c && x < 2 && y < 2
    ensures Xor(2 * a + x, 2 * b + y) == 2 * c + Differ(x, y)
  {
    hide Xor;
    Halves(a, x);
    Halves(b, y);
    XorStep(2 * a + x, 2 * b + y);
  }

  /** One more hexadecimal digit, given by its bits. */
  lemma XorDigit(a: nat, b: nat, c: nat, x3: nat, x2: nat, x1: nat, x0: nat, y3: nat, y2: nat, y1: nat, y0: nat)
    requires Xor(a, b) == c && x3 < 2 && x2 < 2 && x1 < 2 && x0 < 2 && y3 < 2 && y2 < 2 && y1 < 2 && y0 < 2
    ensures Xor(16 * a + 8 * x3 + 4 * x2 + 2 * x1 + x0, 16 * b + 8 * y3 + 4 * y2 + 2 * y1 + y0)
      == 16 * c + 8 * Differ(x3, y3) + 4 * Differ(x2, y2) + 2 * Differ(x1, y1) + Differ(x0, y0)
  {
    hide Xor, Differ;
    var a1, b1, c1 := 2 * a + x3, 2 * b + y3, 2 * c + Differ(x3, y3);
    var a2, b2, c2 := 2 * a1 + x2, 2 * b1 + y2, 2 * c1 + Differ(x2, y2);
    var a3, b3, c3 := 2 * a2 + x1, 2 * b2 + y1, 2 * c2 + Differ(x1, y1);
    XorBit(a, b, c, x3, y3);
    XorBit(a1, b1, c1, x2, y2);
    XorBit(a2, b2, c2, x1, y1);
    XorBit(a3, b3, c3, x0, y0);
  }

  lemma Vector1()
    ensures Xor(0x01234567, 0x12131415) == 0x13305172
  {
    hide Xor;
    XorZero(0);
    XorDigit(0x0, 0x0, 0x0, 0, 0, 0, 0, 0, 0, 0, 1);
    XorDigit(0x0, 0x1, 0x1, 0, 0, 0, 1, 0, 0, 1, 0);
    XorDigit(0x1, 0x12, 0x13, 0, 0, 1, 0, 0, 0, 0, 1);
    XorDigit(0x12, 0x121, 0x133, 0, 0, 1, 1, 0, 0, 1, 1);
    XorDigit(0x123, 0x1213, 0x1330, 0, 1, 0, 0, 0, 0, 0, 1);
    XorDigit(0x1234, 0x12131, 0x13305, 0, 1, 0, 1, 0, 1, 0, 0);
    XorDigit(0x12345, 0x121314, 0x133051, 0, 1, 1, 0, 0, 0, 0, 1);
    XorDigit(0x123456, 0x1213141, 0x1330517, 0, 1, 1, 1, 0, 1, 0, 1);
  }

  lemma Vector2()
    ensures Xor(0x01020304, 0xecff8273) == 0xedfd8177
  {
    hide Xor;
    XorZero(0);
    XorDigit(0x0, 0x0, 0x0, 0, 0, 0, 0, 1, 1, 1, 0);
    XorDigit(0x0, 0xe, 0xe, 0, 0, 0, 1, 1, 1, 0, 0);
    XorDigit(0x1, 0xec, 0xed, 0, 0, 0, 0, 1, 1, 1, 1);
    XorDigit(0x10, 0xecf, 0xedf, 0, 0, 1, 0, 1, 1, 1, 1);
    XorDigit(0x102, 0xecff, 0xedfd, 0, 0, 0, 0, 1, 0, 0, 0);
    XorDigit(0x1020, 0xecff8, 0xedfd8, 0, 0, 1, 1, 0, 0, 1, 0);
    XorDigit(0x10203, 0xecff82, 0xedfd81, 0, 0, 0, 0, 0, 1, 1, 1);
    XorDigit(0x102030, 0xecff827, 0xedfd817, 0, 1, 0, 0, 0, 0, 1, 1);
  }

  lemma Vector3()
    ensures Xor(0x51721330, 0xea2a92f4) == 0xbb5881c4
  {
    hide Xor;
    XorZero(0);
    XorDigit(0x0, 0x0, 0x0, 0, 1, 0, 1, 1, 1, 1, 0);
    XorDigit(0x5, 0xe, 0xb, 0, 0, 0, 1, 1, 0, 1, 0);
    XorDigit(0x51, 0xea, 0xbb, 0, 1, 1, 1, 0, 0, 1, 0);
    XorDigit(0x517, 0xea2, 0xbb5, 0, 0, 1, 0, 1, 0, 1, 0);
    XorDigit(0x5172, 0xea2a, 0xbb58, 0, 0, 0, 1, 1, 0, 0, 1);
    XorDigit(0x51721, 0xea2a9, 0xbb588, 0, 0, 1, 1, 0, 0, 1, 0);
    XorDigit(0x517213, 0xea2a92, 0xbb5881, 0, 0, 1, 1, 1, 1, 1, 1);
    XorDigit(0x5172133, 0xea2a92f, 0xbb5881c, 0, 0, 0, 0, 0, 1, 0, 0);
  }

  lemma Vector4()
    ensures Xor(0xd8177edf, 0x4581472e) == 0x9d9639f1
  {
    hide Xor;
    XorZero(0);
    XorDigit(0x0, 0x0, 0x0, 1, 1, 0, 1, 0, 1, 0, 0);
    XorDigit(0xd, 0x4, 0x9, 1, 0, 0, 0, 0, 1, 0, 1);
    XorDigit(0xd8, 0x45, 0x9d, 0, 0, 0, 1, 1, 0, 0, 0);
    XorDigit(0xd81, 0x458, 0x9d9, 0, 1, 1, 1, 0, 0, 0, 1);
    XorDigit(0xd817, 0x4581, 0x9d96, 0, 1, 1, 1, 0, 1, 0, 0);
    XorDigit(0xd8177, 0x45814, 0x9d963, 1, 1, 1, 0, 0, 1, 1, 1);
    XorDigit(0xd8177e, 0x458147, 0x9d9639, 1, 1, 0, 1, 0, 0, 1, 0);
    XorDigit(0xd8177ed, 0x4581472, 0x9d9639f, 1, 1, 1, 1, 1, 1, 1, 0);
  }

  lemma RotatedWords()
    ensures Rotl(0x13305172, 16) == 0x51721330 && Rotl(0xedfd8177, 12) == 0xd8177edf
    ensures Rotl(0xbb5881c4, 8) == 0x5881c4bb && Rotl(0x9d9639f1, 7) == 0xcb1cf8ce
  {
  }

  lemma XorWordIs(v: u32, w: u32)
    ensures XorWord(v, w) == Xor(v, w)
  {
    hide Xor;
  }

  /** The quarter round on the words of that section. */
  lemma QuarterVector()
    ensures Mixed(0x11111111, 0x01020304, 0x9b8d6f43, 0x01234567) == Four(0xea2a92f4, 0xcb1cf8ce, 0x4581472e, 0x5881c4bb)
  {
    hide Xor, Rotl, XorWord;
    Vector1();
    Vector2();
    Vector3();
    Vector4();
    XorWordIs(0x01234567, 0x12131415);
    XorWordIs(0x01020304, 0xecff8273);
    XorWordIs(0x51721330, 0xea2a92f4);
    XorWordIs(0xd8177edf, 0x4581472e);
    RotatedWords();
  }

  // ---- the rounds on a four by four matrix ----

  datatype Quarter = Four(a: u32, b: u32, c: u32, d: u32)

  /** The quarter round of section 2.1 of RFC 8439 on four words. */
  function Mixed(a: u32, b: u32, c: u32, d: u32): Quarter {
    var a1 := Plus(a, b);
    var d1 := Rotl(XorWord(d, a1), 16);
    var c1 := Plus(c, d1);
    var b1 := Rotl(XorWord(b, c1), 12);
    var a2 := Plus(a1, b1);
    var d2 := Rotl(XorWord(d1, a2), 8);
    var c2 := Plus(c1, d2);
    Four(a2, Rotl(XorWord(b1, c2), 7), c2, d2)
  }

  predicate Distinct(a: nat, b: nat, c: nat, d: nat) {
    a != b && a != c && a != d && b != c && b != d && c != d
  }

  lemma QuarterIs(x: State, a: nat, b: nat, c: nat, d: nat)
    requires a < 16 && b < 16 && c < 16 && d < 16 && Distinct(a, b, c, d)
    ensures var q, y := Mixed(x[a], x[b], x[c], x[d]), QuarterRound(x, a, b, c, d);
      && y[a] == q.a && y[b] == q.b && y[c] == q.c && y[d] == q.d
      && forall i :: 0 <= i < 16 && i != a && i != b && i != c && i != d ==> y[i] == x[i]
  {
    hide Plus, XorWord, Rotl;
  }

  /** Every column of the matrix is mixed. */
  function Columns(x: State): State {
    seq(16, i requires 0 <= i < 16 =>
      var q := Mixed(x[i % 4], x[4 + i % 4], x[8 + i % 4], x[12 + i % 4]);
      if i < 4 then q.a else if i < 8 then q.b else if i < 12 then q.c else q.d)
  }

  /** Row r is turned left by r places. */
  function TurnLeft(x: State): State {
    seq(16, i requires 0 <= i < 16 => x[i / 4 * 4 + (i % 4 + i / 4) % 4])
  }

  function TurnRight(x: State): State {
    seq(16, i requires 0 <= i < 16 => x[i / 4 * 4 + (i % 4 + 4 - i / 4) % 4])
  }

  lemma ColumnRounds(x: State)
    ensures QuarterRound(QuarterRound(QuarterRound(QuarterRound(x, 0, 4, 8, 12), 1, 5, 9, 13), 2, 6, 10, 14), 3, 7, 11, 15) == Columns(x)
  {
    hide QuarterRound, Mixed;
    var y1 := QuarterRound(x, 0, 4, 8, 12);
    var y2 := QuarterRound(y1, 1, 5, 9, 13);
    var y3 := QuarterRound(y2, 2, 6, 10, 14);
    QuarterIs(x, 0, 4, 8, 12);
    QuarterIs(y1, 1, 5, 9, 13);
    QuarterIs(y2, 2, 6, 10, 14);
    QuarterIs(y3, 3, 7, 11, 15);
  }

  lemma TurnLeftAt(x: State, r: nat, k: nat)
    requires r < 4 && k < 4
    ensures TurnLeft(x)[4 * r + k] == x[4 * r + (k + r) % 4]
  {
  }

  lemma TurnRightAt(x: State, r: nat, k: nat)
    requires r < 4 && k < 4
    ensures TurnRight(x)[4 * r + (k + r) % 4] == x[4 * r + k]
  {
    var i := 4 * r + (k + r) % 4;
    assert i / 4 == r && i % 4 == (k + r) % 4;
    assert (i % 4 + 4 - r) % 4 == k;
  }

  lemma ColumnAt(x: State, k: nat)
    requires k < 4
    ensures var q, y := Mixed(x[k], x[4 + k], x[8 + k], x[12 + k]), Columns(x);
      y[k] == q.a && y[4 + k] == q.b && y[8 + k] == q.c && y[12 + k] == q.d
  {
    hide Mixed;
    assert (4 + k) % 4 == k && (8 + k) % 4 == k && (12 + k) % 4 == k;
  }

  /** A column of the turned matrix is a diagonal. */
  lemma DiagonalAt(x: State, k: nat)
    requires k < 4
    ensures var q, y := Mixed(x[k], x[4 + (k + 1) % 4], x[8 + (k + 2) % 4], x[12 + (k + 3) % 4]), TurnRight(Columns(TurnLeft(x)));
      y[k] == q.a && y[4 + (k + 1) % 4] == q.b && y[8 + (k + 2) % 4] == q.c && y[12 + (k + 3) % 4] == q.d
  {
    hide TurnLeft, TurnRight, Columns, Mixed;
    var z := Columns(TurnLeft(x));
    ColumnAt(TurnLeft(x), k);
    TurnLeftAt(x, 0, k);
    TurnLeftAt(x, 1, k);
    TurnLeftAt(x, 2, k);
    TurnLeftAt(x, 3, k);
    TurnRightAt(z, 0, k);
    TurnRightAt(z, 1, k);
    TurnRightAt(z, 2, k);
    TurnRightAt(z, 3, k);
  }

  lemma DiagonalRounds(x: State)
    ensures QuarterRound(QuarterRound(QuarterRound(QuarterRound(x, 0, 5, 10, 15), 1, 6, 11, 12), 2, 7, 8, 13), 3, 4, 9, 14)
      == TurnRight(Columns(TurnLeft(x)))
  {
    hide QuarterRound, Mixed, TurnRight, Columns, TurnLeft;
    var y1 := QuarterRound(x, 0, 5, 10, 15);
    var y2 := QuarterRound(y1, 1, 6, 11, 12);
    var y3 := QuarterRound(y2, 2, 7, 8, 13);
    QuarterIs(x, 0, 5, 10, 15);
    QuarterIs(y1, 1, 6, 11, 12);
    QuarterIs(y2, 2, 7, 8, 13);
    QuarterIs(y3, 3, 4, 9, 14);
    DiagonalAt(x, 0);
    DiagonalAt(x, 1);
    DiagonalAt(x, 2);
    DiagonalAt(x, 3);
  }

  /** A double round mixes the columns, turns the rows, mixes the columns again and turns the rows back. */
  lemma DoubleRoundIs(x: State)
    ensures DoubleRound(x) == TurnRight(Columns(TurnLeft(Columns(x))))
  {
    hide QuarterRound, Columns, TurnLeft, TurnRight;
    ColumnRounds(x);
    DiagonalRounds(Columns(x));
  }

  /** Round n of the cipher: on the columns and on the diagonals in turn. */
  function Rounds(x: State, n: nat): State {
    if n == 0 then x
    else if n % 2 == 1 then Columns(Rounds(x, n - 1))
    else TurnRight(Columns(TurnLeft(Rounds(x, n - 1))))
  }

  lemma {:induction false} DoubleRoundsAre(x: State, n: nat)
    ensures DoubleRounds(x, n) == Rounds(x, 2 * n)
  {
    hide DoubleRound, Columns, TurnLeft, TurnRight;
    if n > 0 {
      DoubleRoundsAre(x, n - 1);
      DoubleRoundIs(DoubleRounds(x, n - 1));
      assert Rounds(x, 2 * n) == TurnRight(Columns(TurnLeft(Rounds(x, 2 * n - 1))));
      assert Rounds(x, 2 * n - 1) == Columns(Rounds(x, 2 * n - 2));
    }
  }

  lemma {:induction false} StoredWord(ws: seq<u32>, i: nat)
    requires i < |ws|
    ensures StoreAll(ws)[4 * i..4 * i + 4] == Store(ws[i])
  {
    hide Store;
    if i > 0 {
      StoredWord(ws[1..], i - 1);
      assert StoreAll(ws)[4..] == StoreAll(ws[1..]);
    }
  }

  function AddWords(v: u32, w: u32): u32 {
    (v + w) % 0x1_0000_0000
  }

  function WordOf(b: Bytes, i: nat): Bytes
    requires 4 * i + 4 <= |b|
  {
    b[4 * i..4 * i + 4]
  }

  /** Word i of a keystream block: twenty rounds and the starting state added, stored little-endian. */
  lemma BlockWord(j: State, rounds: nat, i: nat)
    requires rounds == 20 && i < 16
    ensures WordOf(Block(j), i) == Store(AddWords(Rounds(j, rounds)[i], j[i]))
  {
    hide Store, DoubleRounds, Rounds, StoreAll;
    DoubleRoundsAre(j, 10);
    StoredWord(Sum(DoubleRounds(j, 10), j), i);
  }

  // ---- the starting state ----

  function Ascii(s: string): (b: Bytes)
    ensures |b| == |s|
  {
    seq(|s|, i requires 0 <= i < |s| => if s[i] < 128 as char then s[i] as int else 0)
  }

  lemma StoreLoad(p: Bytes, i: nat)
    requires i + 4 <= |p|
    ensures Store(Load(p, i)) == p[i..i + 4]
  {
    StoreDigits(p[i], p[i + 1], p[i + 2], p[i + 3], Load(p, i));
  }

  /** Four words of a state and the bytes they hold. */
  lemma FourWords(p: Bytes, i: nat)
    requires i + 16 <= |p|
    ensures StoreAll([Load(p, i), Load(p, i + 4), Load(p, i + 8), Load(p, i + 12)]) == p[i..i + 16]
  {
    hide Store, Load;
    StoreLoad(p, i);
    StoreLoad(p, i + 4);
    StoreLoad(p, i + 8);
    StoreLoad(p, i + 12);
    StoreFour(Load(p, i), Load(p, i + 4), Load(p, i + 8), Load(p, i + 12));
  }

  lemma StoreFour(a: u32, b: u32, c: u32, d: u32)
    ensures StoreAll([a, b, c, d]) == Store(a) + Store(b) + Store(c) + Store(d)
  {
    hide Store;
    assert [a, b, c, d][1..] == [b, c, d] && [b, c, d][1..] == [c, d] && [c, d][1..] == [d] && [d][1..] == [];
    assert StoreAll([d]) == Store(d);
    assert StoreAll([c, d]) == Store(c) + Store(d);
    assert StoreAll([b, c, d]) == Store(b) + StoreAll([c, d]);
  }

  /** A state starts with the constant of its key size and the key, a short key twice. */
  lemma KeyBytes(k: Bytes, kbits: nat)
    requires |k| >= (if kbits == 256 then 32 else 16)
    ensures var s := KeyState(k, kbits);
      && StoreAll(s[..4]) == Ascii(if kbits == 256 then "expand 32-byte k" else "expand 16-byte k")
      && StoreAll(s[4..8]) == k[..16]
      && StoreAll(s[8..12]) == if kbits == 256 then k[16..32] else k[..16]
  {
    hide Load, StoreAll, Ascii;
    ConstantBytes();
    if kbits == 256 {
      KeyParts(SIGMA, k, 16, KeyState(k, kbits));
    } else {
      KeyParts(TAU, k, 0, KeyState(k, kbits));
    }
  }

  lemma KeyParts(c: Bytes, k: Bytes, h: nat, s: seq<u32>)
    requires |c| >= 16 && |k| >= 16 + h
    requires s == [Load(c, 0), Load(c, 4), Load(c, 8), Load(c, 12), Load(k, 0), Load(k, 4), Load(k, 8), Load(k, 12),
                   Load(k, h), Load(k, h + 4), Load(k, h + 8), Load(k, h + 12)]
    ensures StoreAll(s[..4]) == c[0..16] && StoreAll(s[4..8]) == k[0..16] && StoreAll(s[8..12]) == k[h..h + 16]
  {
    hide Load, StoreAll;
    FourWords(c, 0);
    FourWords(k, 0);
    FourWords(k, h);
    assert s[..4] == [Load(c, 0), Load(c, 4), Load(c, 8), Load(c, 12)];
    assert s[4..8] == [Load(k, 0), Load(k, 4), Load(k, 8), Load(k, 12)];
    assert s[8..12] == [Load(k, h), Load(k, h + 4), Load(k, h + 8), Load(k, h + 12)];
  }

  lemma ConstantBytes()
    ensures SIGMA[0..16] == Ascii("expand 32-byte k") && TAU[0..16] == Ascii("expand 16-byte k")
  {
  }

  /** It ends with counter and nonce. */
  lemma IvBytes(j: State, iv: Bytes, counter: Bytes)
    requires |iv| == 8 && |counter| == 8
    ensures IvState(j, iv, counter)[..12] == j[..12] && StoreAll(IvState(j, iv, counter)[12..]) == counter + iv
  {
    hide Load, StoreAll;
    var p := counter + iv;
    FourWords(p, 0);
    LoadConcat(counter, iv);
    assert IvState(j, iv, counter)[12..] == [Load(counter, 0), Load(counter, 4), Load(iv, 0), Load(iv, 4)];
  }

  lemma LoadConcat(a: Bytes, b: Bytes)
    requires |a| == 8 && |b| == 8
    ensures var p := a + b; Load(p, 0) == Load(a, 0) && Load(p, 4) == Load(a, 4) && Load(p, 8) == Load(b, 0) && Load(p, 12) == Load(b, 4)
  {
  }
}
