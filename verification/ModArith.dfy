/** Congruences and powers over the integers, for an arbitrary positive modulus. */
module ModArith {

  // ---- quotient and remainder ----

  lemma MulGrows(k: int, m: int)
    requires k >= 1 && m > 0
    ensures k * m >= m
  {
  }

  /** Quotient and remainder are unique. */
  lemma DivModUnique(a: int, k: int, r: int, m: int)
    requires m > 0 && 0 <= r < m && a == k * m + r
    ensures a / m == k && a % m == r
  {
    var q, s := a / m, a % m;
    assert a == q * m + s;
    assert (k - q) * m == s - r;
    if k > q {
      MulGrows(k - q, m);
    } else if k < q {
      MulGrows(q - k, m);
    }
  }

  // ---- congruence ----

  ghost function Multiple(k: int, m: int): int {
    k * m
  }

  /** a and b differ by a multiple of m. */
  ghost predicate Cong(a: int, b: int, m: int) {
    exists k: int :: a - b == Multiple(k, m)
  }

  lemma CongIntro(a: int, b: int, k: int, m: int)
    requires a == b + k * m
    ensures Cong(a, b, m)
  {
    assert a - b == Multiple(k, m);
  }

  lemma CongRefl(a: int, m: int)
    ensures Cong(a, a, m)
  {
    assert a - a == Multiple(0, m);
  }

  lemma CongSym(a: int, b: int, m: int)
    requires Cong(a, b, m)
    ensures Cong(b, a, m)
  {
    var k :| a - b == Multiple(k, m);
    assert b - a == Multiple(-k, m);
  }

  lemma CongTrans(a: int, b: int, c: int, m: int)
    requires Cong(a, b, m) && Cong(b, c, m)
    ensures Cong(a, c, m)
  {
    var j :| a - b == Multiple(j, m);
    var k :| b - c == Multiple(k, m);
    assert a - c == Multiple(j + k, m);
  }

  lemma CongAdd(a: int, b: int, c: int, d: int, m: int)
    requires Cong(a, c, m) && Cong(b, d, m)
    ensures Cong(a + b, c + d, m)
  {
    var j :| a - c == Multiple(j, m);
    var k :| b - d == Multiple(k, m);
    assert (a + b) - (c + d) == Multiple(j + k, m);
  }

  lemma CongSub(a: int, b: int, c: int, d: int, m: int)
    requires Cong(a, c, m) && Cong(b, d, m)
    ensures Cong(a - b, c - d, m)
  {
    var j :| a - c == Multiple(j, m);
    var k :| b - d == Multiple(k, m);
    assert (a - b) - (c - d) == Multiple(j - k, m);
  }

  lemma CongMul(a: int, b: int, c: int, d: int, m: int)
    requires Cong(a, c, m) && Cong(b, d, m)
    ensures Cong(a * b, c * d, m)
  {
    var j :| a - c == Multiple(j, m);
    var k :| b - d == Multiple(k, m);
    calc {
      a * b - c * d;
      (a - c) * b + c * (b - d);
      { assert (j * m) * b == (j * b) * m; assert c * (k * m) == (c * k) * m; }
      (j * b + c * k) * m;
    }
    assert a * b - c * d == Multiple(j * b + c * k, m);
  }

  /** Congruence is equality of residues. */
  lemma CongIffSameResidue(a: int, b: int, m: int)
    requires m > 0
    ensures Cong(a, b, m) <==> a % m == b % m
  {
    assert b == (b / m) * m + b % m;
    if Cong(a, b, m) {
      var k :| a - b == Multiple(k, m);
      assert a == (b / m + k) * m + b % m;
      DivModUnique(a, b / m + k, b % m, m);
    }
    if a % m == b % m {
      assert a == (a / m) * m + a % m;
      assert a - b == Multiple(a / m - b / m, m);
    }
  }

  // ---- powers ----

  ghost function Pow(x: int, e: nat): int {
    if e == 0 then 1 else x * Pow(x, e - 1)
  }

  lemma {:induction false} PowAdd(x: int, a: nat, b: nat)
    ensures Pow(x, a + b) == Pow(x, a) * Pow(x, b)
  {
    if a > 0 {
      PowAdd(x, a - 1, b);
      assert Pow(x, a + b) == x * Pow(x, a - 1 + b);
      assert x * (Pow(x, a - 1) * Pow(x, b)) == (x * Pow(x, a - 1)) * Pow(x, b);
    }
  }
}
