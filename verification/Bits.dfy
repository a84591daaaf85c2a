/** Exact integer counterparts of the C bit operations the Hamming programs use:
    `pow(2, k)`, `log2`, `&` and the power-of-two test `(n & (n-1)) == 0`,
    all on non-negative integers. */
module Bits {

  /** `pow(2, k)`; every value the programs ask for is exact as a double. */
  function Pow2(k: nat): (p: nat)
    ensures p >= 1
  {
    if k == 0 then 1 else 2 * Pow2(k - 1)
  }

  /** C's `a & b` on non-negative operands. */
  function And(a: nat, b: nat): (c: nat)
    decreases a
  {
    if a == 0 || b == 0 then 0
    else 2 * And(a / 2, b / 2) + (if a % 2 == 1 && b % 2 == 1 then 1 else 0)
  }

  /** Binary digit k of n. */
  predicate Bit(n: nat, k: nat) {
    if k == 0 then n % 2 == 1 else Bit(n / 2, k - 1)
  }

  predicate IsPow2(n: nat) {
    n == 1 || (n > 1 && n % 2 == 0 && IsPow2(n / 2))
  }

  /** `(int) log2(n)` for n >= 1. */
  function Log2(n: nat): (x: nat)
    requires n >= 1
    ensures Pow2(x) <= n < Pow2(x + 1)
  {
    if n == 1 then 0 else 1 + Log2(n / 2)
  }

  /** The r low binary digits of n, as a number. */
  function Low(n: nat, r: nat): (m: nat)
    decreases r
  {
    if r == 0 then 0 else 2 * Low(n / 2, r - 1) + n % 2
  }

  lemma {:induction false} Pow2Strict(j: nat, k: nat)
    requires j < k
    ensures Pow2(j) < Pow2(k)
  {
    if j + 1 < k {
      Pow2Strict(j, k - 1);
    }
  }

  /** Powers of two outgrow twice their exponent, which bounds every search for r. */
  lemma {:induction false} Pow2Grows(k: nat)
    ensures Pow2(k) >= k + 1
    ensures k >= 1 ==> Pow2(k) >= 2 * k
  {
    if k > 0 {
      Pow2Grows(k - 1);
    }
  }

  lemma {:induction false} IsPow2Exists(n: nat) returns (k: nat)
    requires IsPow2(n)
    ensures n == Pow2(k)
  {
    if n == 1 {
      k := 0;
    } else {
      var k' := IsPow2Exists(n / 2);
      k := k' + 1;
    }
  }

  lemma {:induction false} Pow2IsPow2(k: nat)
    ensures IsPow2(Pow2(k))
  {
    if k > 0 {
      Pow2IsPow2(k - 1);
    }
  }

  lemma {:induction false} AndSelf(n: nat)
    ensures And(n, n) == n
  {
    if n > 0 {
      AndSelf(n / 2);
    }
  }

  lemma {:induction false} BitOfZero(k: nat)
    ensures !Bit(0, k)
  {
    if k > 0 {
      BitOfZero(k - 1);
    }
  }

  /** `(n & (n-1)) == 0` is exactly the power-of-two test. */
  lemma {:induction false} PowerTest(n: nat)
    requires n >= 1
    ensures And(n, n - 1) == 0 <==> IsPow2(n)
  {
    if n % 2 == 0 {
      assert (n - 1) / 2 == n / 2 - 1;
      PowerTest(n / 2);
    } else if n > 1 {
      assert (n - 1) / 2 == n / 2;
      AndSelf(n / 2);
    }
  }

  /** Masking with one power of two reads one binary digit. */
  lemma {:induction false} AndPow2(n: nat, k: nat)
    ensures And(n, Pow2(k)) != 0 <==> Bit(n, k)
  {
    if n == 0 {
      BitOfZero(k);
    } else if k > 0 {
      assert Pow2(k) / 2 == Pow2(k - 1);
      AndPow2(n / 2, k - 1);
    }
  }

  lemma {:induction false} BitOfPow2(j: nat, k: nat)
    ensures Bit(Pow2(j), k) <==> j == k
  {
    if j > 0 && k > 0 {
      BitOfPow2(j - 1, k - 1);
    } else if k > 0 {
      BitOfZero(k - 1);
    }
  }

  lemma {:induction false} BitAbove(n: nat, k: nat)
    requires n < Pow2(k)
    ensures !Bit(n, k)
  {
    if k > 0 {
      BitAbove(n / 2, k - 1);
    }
  }

  /** One more binary digit. */
  lemma {:induction false} LowStep(n: nat, r: nat)
    ensures Low(n, r + 1) == Low(n, r) + (if Bit(n, r) then Pow2(r) else 0)
  {
    if r > 0 {
      LowStep(n / 2, r - 1);
    }
  }

  lemma {:induction false} LowAll(n: nat, r: nat)
    requires n < Pow2(r)
    ensures Low(n, r) == n
  {
    if r > 0 {
      LowAll(n / 2, r - 1);
    }
  }

  /** How many powers of two lie in 1..n. */
  function PowersUpTo(n: nat): (c: nat)
    ensures c <= n
  {
    if n == 0 then 0 else PowersUpTo(n - 1) + (if IsPow2(n) then 1 else 0)
  }

  /** The count of powers of two up to n is the length of n in binary. */
  lemma {:induction false} PowersBracket(n: nat)
    requires n >= 1
    ensures PowersUpTo(n) >= 1
    ensures Pow2(PowersUpTo(n) - 1) <= n < Pow2(PowersUpTo(n))
    ensures IsPow2(n) <==> n == Pow2(PowersUpTo(n) - 1)
  {
    if n == 1 {
      assert PowersUpTo(1) == PowersUpTo(0) + 1;
      assert Pow2(1) == 2 * Pow2(0);
    } else {
      PowersBracket(n - 1);
      var c := PowersUpTo(n - 1);
      if IsPow2(n) {
        var k := IsPow2Exists(n);
        if k < c {
          if k < c - 1 { Pow2Strict(k, c - 1); }
          assert false;
        }
        if c < k { Pow2Strict(c, k); assert false; }
        Pow2Strict(c, c + 1);
      } else {
        Pow2IsPow2(c);
        Pow2IsPow2(c - 1);
      }
    }
  }

  /** The bracket determines the count. */
  lemma PowersUnique(n: nat, r: nat)
    requires n >= 1 && r >= 1 && Pow2(r - 1) <= n < Pow2(r)
    ensures PowersUpTo(n) == r
  {
    PowersBracket(n);
    var c := PowersUpTo(n);
    if c < r {
      if c < r - 1 { Pow2Strict(c, r - 1); }
      assert false;
    }
    if r < c {
      if r < c - 1 { Pow2Strict(r, c - 1); }
      assert false;
    }
  }

  /** Positions that are not powers of two are counted monotonically. */
  lemma {:induction false} DataCountMonotone(m: nat, n: nat)
    requires m <= n
    ensures m - PowersUpTo(m) <= n - PowersUpTo(n)
  {
    if m < n {
      DataCountMonotone(m, n - 1);
    }
  }
}
