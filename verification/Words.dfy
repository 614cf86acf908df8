/** Unsigned machine words: 32-bit wrap-around and bitwise operators on naturals. */
module Words {
  type u8 = x: int | 0 <= x < 256

  type u32 = x: int | 0 <= x < 0x1_0000_0000

  type Bytes = seq<u8>

  /** The 32-bit number in the first four bytes, most significant first. */
  function U32At(b: Bytes): u32
    requires |b| >= 4
  {
    b[0] as int * 0x100_0000 + b[1] as int * 0x1_0000 + b[2] as int * 0x100 + b[3] as int
  }

  /** What a 32-bit register holds after an operation with mathematical result `x`. */
  function Wrap32(x: int): u32 {
    if 0 <= x < 0x1_0000_0000 then x else x % 0x1_0000_0000
  }

  /** Bitwise exclusive or. */
  function Xor(a: nat, b: nat): nat {
    if a == 0 && b == 0 then 0 else (a % 2 + b % 2) % 2 + 2 * Xor(a / 2, b / 2)
  }

  /** Bitwise and. */
  function And(a: nat, b: nat): nat
    ensures And(a, b) <= a && And(a, b) <= b
  {
    if a == 0 || b == 0 then 0 else (if a % 2 == 1 && b % 2 == 1 then 1 else 0) + 2 * And(a / 2, b / 2)
  }

  lemma {:induction false} XorZeroIffEqual(a: nat, b: nat)
    ensures Xor(a, b) == 0 <==> a == b
  {
    if a != 0 || b != 0 {
      XorZeroIffEqual(a / 2, b / 2);
    }
  }

  lemma {:induction false} XorZero(b: nat)
    ensures Xor(0, b) == b
  {
    if b != 0 {
      XorZero(b / 2);
    }
  }

  /** Exclusive or stays within the width of its operands. */
  lemma {:induction false} XorBound(a: nat, b: nat, width: nat)
    requires a < Power(width) && b < Power(width)
    ensures Xor(a, b) < Power(width)
  {
    if a != 0 || b != 0 {
      XorBound(a / 2, b / 2, width - 1);
    }
  }

  /** 2^n */
  function Power(n: nat): (p: nat)
    ensures p > 0
  {
    if n == 0 then 1 else 2 * Power(n - 1)
  }

  lemma {:induction false} PowerAdd(a: nat, b: nat)
    ensures Power(a + b) == Power(a) * Power(b)
  {
    if a > 0 {
      PowerAdd(a - 1, b);
      assert Power(a + b) == 2 * Power(a - 1 + b);
    }
  }

  /** A word of ones is neutral for `And` on words of at most that width. */
  lemma {:induction false} AndOnes(b: nat, width: nat)
    requires b < Power(width)
    ensures And(Power(width) - 1, b) == b
  {
    if b != 0 {
      AndOnes(b / 2, width - 1);
      var ones := Power(width) - 1;
      assert ones == 2 * (Power(width - 1) - 1) + 1;
      assert And(ones, b) == (if b % 2 == 1 then 1 else 0) + 2 * And(Power(width - 1) - 1, b / 2);
    }
  }

  lemma PowerValues()
    ensures Power(8) == 0x100 && Power(16) == 0x1_0000 && Power(32) == 0x1_0000_0000
  {
    assert Power(4) == 16;
    assert Power(8) == 256;
    assert Power(12) == 0x1000;
    assert Power(16) == 0x1_0000;
    assert Power(20) == 0x10_0000;
    assert Power(24) == 0x100_0000;
    assert Power(28) == 0x1000_0000;
    assert Power(32) == 0x1_0000_0000;
  }
}
