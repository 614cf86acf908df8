/** Naturals as sets of bits: what the bitwise operators do to single bits. */
module Bits {
  import opened Words
  import ModArith

  predicate Bit(w: nat, i: nat) {
    if i == 0 then w % 2 == 1 else Bit(w / 2, i - 1)
  }

  /** Bitwise or. */
  function Or(a: nat, b: nat): nat {
    if a == 0 && b == 0 then 0 else (if a % 2 == 1 || b % 2 == 1 then 1 else 0) + 2 * Or(a / 2, b / 2)
  }

  lemma {:induction false} BitZero(i: nat)
    ensures !Bit(0, i)
  {
    if i > 0 {
      BitZero(i - 1);
    }
  }

  lemma {:induction false} BitOr(a: nat, b: nat, i: nat)
    ensures Bit(Or(a, b), i) <==> Bit(a, i) || Bit(b, i)
  {
    if a == 0 && b == 0 {
      BitZero(i);
    } else if i > 0 {
      BitOr(a / 2, b / 2, i - 1);
    }
  }

  lemma {:induction false} BitAnd(a: nat, b: nat, i: nat)
    ensures Bit(And(a, b), i) <==> Bit(a, i) && Bit(b, i)
  {
    if a == 0 || b == 0 {
      BitZero(i);
    } else if i > 0 {
      BitAnd(a / 2, b / 2, i - 1);
    }
  }

  lemma {:induction false} OrBound(a: nat, b: nat, width: nat)
    requires a < Power(width) && b < Power(width)
    ensures Or(a, b) < Power(width)
  {
    if a != 0 || b != 0 {
      OrBound(a / 2, b / 2, width - 1);
    }
  }

  /** w << k, without a width. */
  function Shl(w: nat, k: nat): nat {
    if k == 0 then w else 2 * Shl(w, k - 1)
  }

  /** w >> k */
  function Shr(w: nat, k: nat): nat {
    if k == 0 then w else Shr(w / 2, k - 1)
  }

  lemma {:induction false} BitShl(w: nat, k: nat, i: nat)
    ensures Bit(Shl(w, k), i) <==> i >= k && Bit(w, i - k)
  {
    if k > 0 && i > 0 {
      BitShl(w, k - 1, i - 1);
    }
  }

  lemma {:induction false} BitShr(w: nat, k: nat, i: nat)
    ensures Bit(Shr(w, k), i) <==> Bit(w, i + k)
  {
    if k > 0 {
      BitShr(w / 2, k - 1, i);
      assert Bit(w, i + k) == Bit(w / 2, i + k - 1);
    }
  }

  lemma {:induction false} ShlBound(w: nat, n: nat, k: nat)
    requires w < Power(n)
    ensures Shl(w, k) < Power(n + k) && (w > 0 ==> Shl(w, k) > 0)
  {
    if k > 0 {
      ShlBound(w, n, k - 1);
      assert Power(n + k) == 2 * Power(n + k - 1);
    }
  }

  /** 1 << k has the one bit k. */
  lemma BitOfOne(k: nat, i: nat)
    ensures Bit(Shl(1, k), i) <==> i == k
  {
    BitShl(1, k, i);
    if i > k {
      BitZero(i - k - 1);
    }
  }

  /** A complement within a width flips every bit of the width. */
  lemma {:induction false} BitComplement(w: nat, width: nat, i: nat)
    requires w < Power(width)
    ensures Bit(Power(width) - 1 - w, i) <==> i < width && !Bit(w, i)
  {
    if width == 0 {
      BitZero(i);
    } else {
      var c := Power(width) - 1 - w;
      assert c / 2 == Power(width - 1) - 1 - w / 2;
      assert c % 2 == 1 - w % 2;
      if i > 0 {
        BitComplement(w / 2, width - 1, i - 1);
      }
    }
  }

  lemma {:induction false} BitBeyond(w: nat, width: nat, i: nat)
    requires w < Power(width) && i >= width
    ensures !Bit(w, i)
  {
    if width == 0 {
      BitZero(i);
    } else {
      BitBeyond(w / 2, width - 1, i - 1);
    }
  }

  /** A word is zero exactly if it has no bit in its width. */
  lemma {:induction false} SomeBit(w: nat, width: nat) returns (i: nat)
    requires 0 < w < Power(width)
    ensures i < width && Bit(w, i)
  {
    if w % 2 == 1 {
      i := 0;
    } else {
      i := SomeBit(w / 2, width - 1);
      i := i + 1;
    }
  }

  /** Words with the same bits are equal. */
  lemma {:induction false} SameBits(a: nat, b: nat, width: nat)
    requires a < Power(width) && b < Power(width)
    requires forall i: nat :: i < width ==> (Bit(a, i) <==> Bit(b, i))
    ensures a == b
  {
    if width > 0 {
      assert Bit(a, 0) <==> Bit(b, 0);
      forall i: nat | i < width - 1
        ensures Bit(a / 2, i) <==> Bit(b / 2, i)
      {
        assert Bit(a, i + 1) <==> Bit(b, i + 1);
      }
      SameBits(a / 2, b / 2, width - 1);
    }
  }

  /** The highest bit. */
  lemma {:induction false} TopBit(w: nat, m: nat)
    requires Power(m) <= w < Power(m + 1)
    ensures Bit(w, m)
  {
    if m > 0 {
      TopBit(w / 2, m - 1);
    }
  }

  // ---- masks ----

  /** Masking with k ones takes the residue by 2^k. */
  lemma {:induction false} AndMask(x: nat, k: nat)
    ensures And(x, Power(k) - 1) == x % Power(k)
  {
    if x == 0 {
      ModArith.DivModUnique(0, 0, 0, Power(k));
    } else if k == 0 {
      assert x % 1 == 0;
    } else {
      AndMask(x / 2, k - 1);
      AndMaskStep(x, k, Power(k - 1));
    }
  }

  lemma AndMaskStep(x: nat, k: nat, p: nat)
    requires x > 0 && k > 0 && p == Power(k - 1) && And(x / 2, p - 1) == (x / 2) % p
    ensures And(x, Power(k) - 1) == x % Power(k)
  {
    var q := 2 * p;
    assert Power(k) == q;
    AndOddMask(x, p - 1);
    HalfMod(x, p);
    hide *;
    assert And(x, q - 1) == x % q;
  }

  lemma AndOddMask(x: nat, m: nat)
    requires x > 0
    ensures And(x, 2 * m + 1) == x % 2 + 2 * And(x / 2, m)
  {
    assert (2 * m + 1) / 2 == m && (2 * m + 1) % 2 == 1;
  }

  lemma HalfMod(x: nat, p: nat)
    requires p > 0
    ensures x % (2 * p) == x % 2 + 2 * ((x / 2) % p)
  {
    var h := x / 2;
    var q, r := h / p, h % p;
    assert h == q * p + r;
    assert x == q * (2 * p) + (2 * r + x % 2) by {
      assert x == 2 * h + x % 2;
      assert 2 * (q * p) == q * (2 * p);
    }
    ModArith.DivModUnique(x, q, 2 * r + x % 2, 2 * p);
  }
}
