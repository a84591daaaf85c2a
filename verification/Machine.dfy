/** Bytes and 32-bit integers. */
module Machine {

  type Byte = b: int | 0 <= b < 256
  type Word = w: int | 0 <= w < 0x1_0000

  /** The two bytes of a word exchanged. */
  function Swap16(w: Word): Word { w % 256 * 256 + w / 256 }

  const MAX := 0x7FFF_FFFF
  const MIN := -0x8000_0000

  predicate Int32(x: int) { MIN <= x <= MAX }

  function Abs(v: int): nat { if v < 0 then -v else v }

  /** The value that a 32-bit int keeps of x. */
  function Wrap(x: int): (r: int)
    ensures Int32(r)
    decreases Abs(x), x
  {
    if x > MAX then Wrap(x - 0x1_0000_0000) else if x < MIN then Wrap(x + 0x1_0000_0000) else x
  }

  lemma {:induction false} WrapOf(x: int, r: int, q: int)
    requires Int32(r) && x == r + 0x1_0000_0000 * q
    ensures Wrap(x) == r
    decreases Abs(x), x
  {
    if x > MAX {
      WrapOf(x - 0x1_0000_0000, r, q - 1);
    } else if x < MIN {
      WrapOf(x + 0x1_0000_0000, r, q + 1);
    }
  }

  lemma {:induction false} WrapQuotient(x: int) returns (q: int)
    ensures x == Wrap(x) + 0x1_0000_0000 * q
    decreases Abs(x), x
  {
    if x > MAX {
      q := WrapQuotient(x - 0x1_0000_0000);
      q := q + 1;
    } else if x < MIN {
      q := WrapQuotient(x + 0x1_0000_0000);
      q := q - 1;
    } else {
      q := 0;
    }
  }

  lemma WrapStep(a: int, c: int)
    ensures Wrap(10 * Wrap(a) + c) == Wrap(10 * a + c)
  {
    var q := WrapQuotient(a);
    var p := WrapQuotient(10 * a + c);
    WrapOf(10 * Wrap(a) + c, Wrap(10 * a + c), p - 10 * q);
  }

  lemma WrapMinus(a: int)
    ensures Wrap(-Wrap(a)) == Wrap(-a)
  {
    var q := WrapQuotient(a);
    var p := WrapQuotient(-a);
    WrapOf(-Wrap(a), Wrap(-a), p + q);
  }

  lemma AddWraps(a: int, b: int)
    ensures Wrap(Wrap(a) + b) == Wrap(a + b)
  {
    var q := WrapQuotient(a);
    var p := WrapQuotient(a + b);
    WrapOf(Wrap(a) + b, Wrap(a + b), p - q);
  }

  /** The value that an unsigned 32-bit accumulator keeps. */
  function UInt32(x: nat): (r: nat)
    ensures r < 0x1_0000_0000
  {
    if x < 0x1_0000_0000 then x else UInt32(x - 0x1_0000_0000)
  }

  lemma {:induction false} AddWrapsUnsigned(a: nat, b: nat)
    ensures UInt32(UInt32(a) + b) == UInt32(a + b)
  {
    if a >= 0x1_0000_0000 {
      AddWrapsUnsigned(a - 0x1_0000_0000, b);
    }
  }
}
