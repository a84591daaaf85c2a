/** The Internet checksum (RFC 1071, section 1) in the forms the repository uses, on a
    little-endian host: words are read low byte first, as the casts to `unsigned short *`
    do there. */
module InternetChecksum {

  import opened Machine

  /** The word a little-endian host reads from two bytes. */
  function Le(lo: Byte, hi: Byte): (w: int)
    ensures 0 <= w <= 0xFFFF
  {
    lo as int + 256 * hi as int
  }

  /** The sum of the 16-bit words of a buffer, an odd last byte standing alone. */
  function WordSum(data: seq<Byte>): (s: nat)
  {
    if |data| == 0 then 0
    else if |data| == 1 then data[0]
    else Le(data[0], data[1]) + WordSum(data[2..])
  }

  /** One end-around fold of the carries. */
  function FoldOnce(s: nat): (f: nat)
    ensures s >= 0x1_0000 ==> f < s
  {
    s / 0x1_0000 + s % 0x1_0000
  }

  /** Folding until nothing is left above 16 bits. */
  function Fold(s: nat): (f: Word)
    decreases s
  {
    if s < 0x1_0000 then s else Fold(FoldOnce(s))
  }

  function Checksum(data: seq<Byte>): (c: Word) {
    0xFFFF - Fold(WordSum(data))
  }

  /** A folded sum is the residue modulo 65535, with 65535 in place of 0 for a nonzero sum. */
  lemma {:induction false} FoldIsResidue(s: nat)
    ensures Fold(s) == if s == 0 then 0 else 1 + (s - 1) % 0xFFFF
    decreases s
  {
    if s >= 0x1_0000 {
      var f := FoldOnce(s);
      FoldIsResidue(f);
      assert s == f + 0xFFFF * (s / 0x1_0000);
      ResidueShift(f - 1, s / 0x1_0000);
    }
  }

  lemma ResidueShift(a: nat, q: nat)
    ensures (a + 0xFFFF * q) % 0xFFFF == a % 0xFFFF
  {
    assert a + 0xFFFF * q == 0xFFFF * (a / 0xFFFF + q) + a % 0xFFFF;
  }

  /** How `csum` and `in_cksum` end: two fixed folds, complemented and cut to 16 bits. */
  function TwoFolds(s: int): (r: int)
    ensures 0 <= r < 0x1_0000
  {
    var a := s / 0x1_0000 + s % 0x1_0000;
    (-1 - (a + a / 0x1_0000)) % 0x1_0000
  }

  /** They are the whole folding loop, for a sum of 32 bits and a little beyond. */
  lemma TwoFoldsSuffice(s: nat)
    requires s < 0x1_0000_FFFF
    ensures TwoFolds(s) == 0xFFFF - Fold(s)
  {
    var h, l := s / 0x1_0000, s % 0x1_0000;
    var a := h + l;
    assert Fold(s) == Fold(a) by {
      if s < 0x1_0000 { assert h == 0 && l == s; } else { assert a == FoldOnce(s); }
    }
    if a < 0x1_0000 {
      assert a / 0x1_0000 == 0;
      assert (-1 - a) % 0x1_0000 == 0xFFFF - a;
    } else {
      assert a <= 0x1_FFFE;
      assert a / 0x1_0000 == 1 && a % 0x1_0000 == a - 0x1_0000;
      assert Fold(a) == a - 0xFFFF by { assert FoldOnce(a) == a - 0xFFFF; }
      assert (-1 - (a + 1)) % 0x1_0000 == 0xFFFF - (a - 0xFFFF) by {
        assert -2 - a == -0x2_0000 + (0x1_FFFE - a);
      }
    }
  }

  lemma {:induction false} SumConcat(a: seq<Byte>, b: seq<Byte>)
    requires |a| % 2 == 0
    ensures WordSum(a + b) == WordSum(a) + WordSum(b)
  {
    if |a| == 0 {
      assert a + b == b;
    } else {
      assert (a + b)[2..] == a[2..] + b;
      SumConcat(a[2..], b);
    }
  }

  lemma SumOfPair(lo: Byte, hi: Byte)
    ensures WordSum([lo, hi]) == Le(lo, hi)
  {
    assert [lo, hi][2..] == [];
  }

  /** A word at an even offset contributes itself to the sum. */
  lemma SumSplit(data: seq<Byte>, off: nat)
    requires off % 2 == 0 && off + 2 <= |data|
    ensures WordSum(data) == WordSum(data[..off]) + Le(data[off], data[off + 1]) + WordSum(data[off + 2..])
  {
    var h, m, t := data[..off], [data[off], data[off + 1]], data[off + 2..];
    assert data == h + (m + t);
    SumConcat(h, m + t);
    SumConcat(m, t);
    SumOfPair(data[off], data[off + 1]);
    assert WordSum(data) == WordSum(h) + (WordSum(m) + WordSum(t));
  }

  /** `*(uint16_t *)(buf + off) = c` on a little-endian host. */
  function Store(data: seq<Byte>, off: nat, c: Word): (r: seq<Byte>)
    requires off + 2 <= |data|
    ensures |r| == |data|
  {
    data[off := c % 256][off + 1 := c / 256]
  }

  lemma SumAfterStore(data: seq<Byte>, off: nat, c: Word)
    requires off % 2 == 0 && off + 2 <= |data| && data[off] == data[off + 1] == 0
    ensures WordSum(Store(data, off, c)) == WordSum(data) + c
  {
    var r := Store(data, off, c);
    SumSplit(data, off);
    SumSplit(r, off);
    assert r[..off] == data[..off] && r[off + 2..] == data[off + 2..];
  }

  /** Self-verification: a buffer that carries its own checksum in a zeroed aligned field
      sums to zero. */
  lemma StoredChecksumVerifies(data: seq<Byte>, off: nat)
    requires off % 2 == 0 && off + 2 <= |data| && data[off] == data[off + 1] == 0
    ensures Checksum(Store(data, off, Checksum(data))) == 0
  {
    var s := WordSum(data);
    var c := Checksum(data);
    SumAfterStore(data, off, c);
    FoldIsResidue(s);
    FoldIsResidue(s + c);
    if s > 0 {
      assert s + c - 1 == 0xFFFE + 0xFFFF * ((s - 1) / 0xFFFF);
      ResidueShift(0xFFFE, (s - 1) / 0xFFFF);
    }
  }

  /** Exactly which change of one aligned word goes unnoticed: 0000 against FFFF, and only
      when some other word is nonzero. */
  lemma WordChangeDetected(data: seq<Byte>, off: nat, c: Word, d: Word)
    requires off % 2 == 0 && off + 2 <= |data| && data[off] == data[off + 1] == 0
    ensures Checksum(Store(data, off, c)) == Checksum(Store(data, off, d))
       <==> c == d || (WordSum(data) > 0 && ((c == 0 && d == 0xFFFF) || (c == 0xFFFF && d == 0)))
  {
    SumAfterStore(data, off, c);
    SumAfterStore(data, off, d);
    ResiduesAgree(WordSum(data), c, d);
  }

  lemma ResiduesAgree(s: nat, c: Word, d: Word)
    ensures Fold(s + c) == Fold(s + d)
       <==> c == d || (s > 0 && ((c == 0 && d == 0xFFFF) || (c == 0xFFFF && d == 0)))
  {
    ResidueOfSum(s, c);
    ResidueOfSum(s, d);
    if s > 0 {
      var t := 1 + (s - 1) % 0xFFFF;
      assert 1 <= t <= 0xFFFF;
    }
  }

  /** Folding s + c when s is already known modulo 65535. */
  lemma ResidueOfSum(s: nat, c: Word)
    ensures s == 0 ==> Fold(s + c) == c
    ensures s > 0 ==> var t := 1 + (s - 1) % 0xFFFF; Fold(s + c) == if t + c <= 0xFFFF then t + c else t + c - 0xFFFF
  {
    FoldIsResidue(s + c);
    if s > 0 {
      var q, t := (s - 1) / 0xFFFF, 1 + (s - 1) % 0xFFFF;
      assert s + c - 1 == (t + c - 1) + 0xFFFF * q;
      ResidueShift(t + c - 1, q);
      if t + c > 0xFFFF { ResidueShift(t + c - 1 - 0xFFFF, 1); }
    }
  }

  /** The bytes of every word exchanged: the same buffer as the other kind of host sees it. */
  function Swapped(data: seq<Byte>): (r: seq<Byte>)
    requires |data| % 2 == 0
    ensures |r| == |data|
  {
    if |data| == 0 then [] else [data[1], data[0]] + Swapped(data[2..])
  }

  /** Modulo 65535, exchanging the bytes of a word multiplies it by 256 ... */
  lemma SwapTimes(w: Word) returns (h: nat)
    ensures 256 * w == Swap16(w) + 0xFFFF * h
    ensures w == 0 <==> Swap16(w) == 0
  {
    h := w / 256;
  }

  lemma SwapComplement(w: Word)
    ensures Swap16(0xFFFF - w) == 0xFFFF - Swap16(w)
  {
    var h, l := w / 256, w % 256;
    SwapOf(l, h);
    SwapOf(255 - l, 255 - h);
    assert 0xFFFF - w == 256 * (255 - h) + (255 - l);
  }

  lemma SwapOf(lo: Byte, hi: Byte)
    ensures Swap16(Le(lo, hi)) == Le(hi, lo)
  {
    var w := Le(lo, hi);
    assert w % 256 == lo && w / 256 == hi;
  }

  /** ... and so it does the sum. */
  lemma {:induction false} SwappedSum(data: seq<Byte>) returns (q: nat)
    requires |data| % 2 == 0
    ensures 256 * WordSum(data) == WordSum(Swapped(data)) + 0xFFFF * q
    ensures WordSum(data) == 0 <==> WordSum(Swapped(data)) == 0
  {
    if |data| == 0 {
      q := 0;
    } else {
      var p := SwappedSum(data[2..]);
      SwapOf(data[0], data[1]);
      var h := SwapTimes(Le(data[0], data[1]));
      assert Swapped(data)[2..] == Swapped(data[2..]);
      q := p + h;
    }
  }

  /** The byte order of the host does not matter: on a buffer with all words exchanged the
      checksum comes out exchanged as well, so it is stored the same (RFC 1071, section 2). */
  lemma ByteOrderIrrelevant(data: seq<Byte>)
    requires |data| % 2 == 0
    ensures Checksum(Swapped(data)) == Swap16(Checksum(data))
  {
    var s, t := WordSum(data), WordSum(Swapped(data));
    var q := SwappedSum(data);
    SwappedComplement(s, t, q, Checksum(data), Checksum(Swapped(data)));
  }

  lemma SwappedComplement(s: nat, t: nat, q: nat, c: Word, d: Word)
    requires 256 * s == t + 0xFFFF * q && (s == 0 <==> t == 0)
    requires c == 0xFFFF - Fold(s) && d == 0xFFFF - Fold(t)
    ensures d == Swap16(c)
  {
    SwappedFold(s, t, q);
    SwapComplement(Fold(s));
  }

  lemma SwappedFold(s: nat, t: nat, q: nat)
    requires 256 * s == t + 0xFFFF * q && (s == 0 <==> t == 0)
    ensures Fold(t) == Swap16(Fold(s))
  {
    var h := SwapTimes(Fold(s));
    if s > 0 {
      var a := FoldQuotient(s);
      FoldShift(Swap16(Fold(s)), t, 256 * a + h - q);
    }
  }

  lemma FoldQuotient(s: nat) returns (a: nat)
    requires s > 0
    ensures Fold(s) > 0 && s == Fold(s) + 0xFFFF * a
  {
    FoldIsResidue(s);
    a := (s - 1) / 0xFFFF;
  }

  lemma FoldShift(r: Word, t: nat, m: int)
    requires r > 0 && t > 0 && t == r + 0xFFFF * m
    ensures Fold(t) == r
  {
    FoldIsResidue(t);
    assert m >= 0;
    ResidueShift(r - 1, m);
  }

  /** An odd last byte counts as if a zero byte followed it (RFC 1071, section 4.1). */
  lemma {:induction false} OddPadded(data: seq<Byte>)
    requires |data| % 2 == 1
    ensures WordSum(data) == WordSum(data + [0]) && Checksum(data) == Checksum(data + [0])
  {
    if |data| == 1 {
      SumOfPair(data[0], 0);
      assert data + [0] == [data[0], 0];
    } else {
      OddPadded(data[2..]);
      assert (data + [0])[2..] == data[2..] + [0];
    }
  }

  /** The words of a buffer, in order. */
  function Words(data: seq<Byte>): (ws: seq<nat>) {
    if |data| == 0 then []
    else if |data| == 1 then [data[0] as nat]
    else [Le(data[0], data[1]) as nat] + Words(data[2..])
  }

  function Sum(ws: seq<nat>): nat {
    if |ws| == 0 then 0 else ws[0] + Sum(ws[1..])
  }

  /** The checksum does not depend on the order of the words. */
  lemma WordOrderIrrelevant(x: seq<Byte>, y: seq<Byte>)
    requires multiset(Words(x)) == multiset(Words(y))
    ensures Checksum(x) == Checksum(y)
  {
    SumOfWords(x);
    SumOfWords(y);
    SumOfMultiset(Words(x), Words(y));
  }

  lemma {:induction false} SumOfWords(data: seq<Byte>)
    ensures Sum(Words(data)) == WordSum(data)
  {
    if |data| >= 2 {
      SumOfWords(data[2..]);
      assert Words(data)[1..] == Words(data[2..]);
    }
  }

  lemma {:induction false} SumOfMultiset(a: seq<nat>, b: seq<nat>)
    requires multiset(a) == multiset(b)
    ensures Sum(a) == Sum(b)
  {
    if |a| == 0 {
      assert |b| == |multiset(b)| == |multiset(a)| == 0;
    } else {
      assert a[0] in multiset(b);
      var i :| 0 <= i < |b| && b[i] == a[0];
      SameRest(a, b, i);
      SumOfMultiset(a[1..], b[..i] + b[i + 1..]);
      SumRemove(b, i);
    }
  }

  lemma SameRest(a: seq<nat>, b: seq<nat>, i: nat)
    requires a != [] && i < |b| && b[i] == a[0] && multiset(a) == multiset(b)
    ensures multiset(a[1..]) == multiset(b[..i] + b[i + 1..])
  {
    MultisetRemove(a, 0);
    MultisetRemove(b, i);
    assert a[..0] + a[1..] == a[1..];
  }

  lemma MultisetRemove(b: seq<nat>, i: nat)
    requires i < |b|
    ensures multiset(b[..i] + b[i + 1..]) == multiset(b) - multiset{b[i]}
  {
    assert b == b[..i] + ([b[i]] + b[i + 1..]);
  }

  lemma {:induction false} SumRemove(b: seq<nat>, i: nat)
    requires i < |b|
    ensures Sum(b) == b[i] + Sum(b[..i] + b[i + 1..])
  {
    if i == 0 {
      assert b[..0] + b[1..] == b[1..];
    } else {
      SumRemove(b[1..], i - 1);
      assert b[1..][..i - 1] + b[1..][i..] == (b[..i] + b[i + 1..])[1..];
    }
  }

  lemma {:induction false} SumOfZeros(data: seq<Byte>)
    requires forall k :: 0 <= k < |data| ==> data[k] == 0
    ensures WordSum(data) == 0
  {
    if |data| >= 2 {
      SumOfZeros(data[2..]);
    }
  }

  /** The largest sum of a buffer of n bytes. */
  function MaxSum(n: nat): nat {
    0xFFFF * (n / 2) + (if n % 2 == 1 then 0xFF else 0)
  }

  lemma {:induction false} MaxSumBounds(data: seq<Byte>)
    ensures WordSum(data) <= MaxSum(|data|)
  {
    if |data| >= 2 {
      MaxSumBounds(data[2..]);
    }
  }

  /** The bound is met by a buffer of 0xFF bytes. */
  lemma {:induction false} MaxSumReached(n: nat) returns (data: seq<Byte>)
    ensures |data| == n && WordSum(data) == MaxSum(n)
  {
    if n == 0 {
      data := [];
    } else if n == 1 {
      data := [255];
    } else {
      var d := MaxSumReached(n - 2);
      data := [255, 255] + d;
      assert data[2..] == d;
    }
  }

  /** The signed accumulator of `in_cksum` is safe on every buffer of n bytes exactly up to
      65537 bytes, so on every IP packet. */
  lemma SignedAccumulatorBound(n: nat)
    ensures (forall data: seq<Byte> :: |data| == n ==> WordSum(data) < 0x8000_0000) <==> n <= 65537
  {
    if n <= 65537 {
      forall data: seq<Byte> | |data| == n ensures WordSum(data) < 0x8000_0000 {
        MaxSumBounds(data);
      }
    } else {
      var data := MaxSumReached(n);
    }
  }

  /** The unsigned one, and every prefix sum with it. */
  lemma UnsignedAccumulatorBound(n: nat)
    ensures (forall data: seq<Byte> :: |data| == n ==> WordSum(data) < 0x1_0000_0000) <==> n <= 131074
  {
    if n <= 131074 {
      forall data: seq<Byte> | |data| == n ensures WordSum(data) < 0x1_0000_0000 {
        MaxSumBounds(data);
      }
    } else {
      var data := MaxSumReached(n);
    }
  }

  lemma SumNext(data: seq<Byte>, k: nat)
    requires k % 2 == 0 && k + 2 <= |data|
    ensures WordSum(data[..k + 2]) == WordSum(data[..k]) + Le(data[k], data[k + 1])
    ensures WordSum(data[..k + 2]) <= MaxSum(|data|)
  {
    assert data[..k + 2] == data[..k] + [data[k], data[k + 1]];
    SumConcat(data[..k], [data[k], data[k + 1]]);
    SumOfPair(data[k], data[k + 1]);
    MaxSumBounds(data[..k + 2]);
  }

  /** An odd last byte, with the even part before it. */
  lemma SumLastByte(data: seq<Byte>, n: nat)
    requires |data| == n + 1 && n % 2 == 0
    ensures WordSum(data) == WordSum(data[..n]) + data[n] as nat
  {
    SumOddTail(data[..n], data[n]);
    assert data == data[..n] + [data[n]];
  }

  lemma {:induction false} SumOddTail(h: seq<Byte>, x: Byte)
    requires |h| % 2 == 0
    ensures WordSum(h + [x]) == WordSum(h) + x as nat
  {
    if |h| == 0 {
      assert h + [x] == [x];
    } else {
      assert (h + [x])[2..] == h[2..] + [x];
      SumOddTail(h[2..], x);
    }
  }

  /** A buffer of n bytes that starts with k words of 0xFFFF and one word w. */
  lemma {:induction false} SumReached(n: nat, k: nat, w: Word) returns (data: seq<Byte>)
    requires 2 * k + 2 <= n || (2 * k + 1 == n && w < 256)
    ensures |data| == n && WordSum(data) == 0xFFFF * k + w
    decreases k
  {
    if k > 0 {
      var d := SumReached(n - 2, k - 1, w);
      data := [255, 255] + d;
      assert data[2..] == d;
    } else if n == 1 {
      data := [w];
    } else {
      var zeros := seq(n - 2, _ => 0);
      SumOfZeros(zeros);
      data := [w % 256, w / 256] + zeros;
      assert data[2..] == zeros;
    }
  }

  // ---- what the routines answer, on buffers of any length ----

  /** `in_cksum`: the accumulator wraps like a signed 32-bit int. */
  function SignedAnswer(data: seq<Byte>): int { TwoFolds(Wrap(WordSum(data))) }

  /** `csum` of s.c: it wraps like an unsigned one. */
  function UnsignedAnswer(data: seq<Byte>): int { TwoFolds(UInt32(WordSum(data))) }

  /** Every buffer of n bytes gets its checksum exactly up to 65537 bytes ... */
  lemma SignedExactly(n: nat)
    ensures (forall data: seq<Byte> :: |data| == n ==> SignedAnswer(data) == Checksum(data)) <==> n <= 65537
  {
    if n <= 65537 {
      forall data: seq<Byte> | |data| == n ensures SignedAnswer(data) == Checksum(data) {
        MaxSumBounds(data);
        TwoFoldsSuffice(WordSum(data));
      }
    } else {
      var data := SumReached(n, 32768, 0x8000);
      assert WordSum(data) == 0x8000_0000;
      WrapOf(0x8000_0000, MIN, 1);
      FoldIsResidue(0x8000_0000);
      assert SignedAnswer(data) == 0x8000 && Checksum(data) == 0x7FFF;
    }
  }

  /** ... 131074 bytes ... */
  lemma UnsignedExactly(n: nat)
    ensures (forall data: seq<Byte> :: |data| == n ==> UnsignedAnswer(data) == Checksum(data)) <==> n <= 131074
  {
    if n <= 131074 {
      forall data: seq<Byte> | |data| == n ensures UnsignedAnswer(data) == Checksum(data) {
        MaxSumBounds(data);
        TwoFoldsSuffice(WordSum(data));
      }
    } else {
      var data := SumReached(n, 65537, 1);
      assert WordSum(data) == 0x1_0000_0000;
      FoldIsResidue(0x1_0000_0000);
      assert UnsignedAnswer(data) == 0xFFFF && Checksum(data) == 0xFFFE;
    }
  }

  /** ... and, with a 64-bit accumulator, 65538 words: from then on two folds are too few. */
  lemma WordsExactly(n: nat)
    ensures (forall data: seq<Byte> :: |data| == 2 * n ==> TwoFolds(WordSum(data)) == Checksum(data)) <==> n <= 65538
  {
    if n <= 65538 {
      forall data: seq<Byte> | |data| == 2 * n ensures TwoFolds(WordSum(data)) == Checksum(data) {
        MaxSumBounds(data);
        TwoFoldsSuffice(WordSum(data));
      }
    } else {
      var data := SumReached(2 * n, 65538, 1);
      assert WordSum(data) == 0x1_0000_FFFF;
      FoldIsResidue(0x1_0000_FFFF);
      assert TwoFolds(0x1_0000_FFFF) == 0xFFFF;
      assert Checksum(data) == 0xFFFE;
    }
  }

  /** `in_cksum` of endlab/rpc.h: signed 32-bit accumulator, two fixed folds. */
  method InCksum(addr: seq<Byte>, len: nat) returns (answer: int)
    requires len <= |addr|
    ensures 0 <= answer < 0x1_0000 && answer == SignedAnswer(addr[..len])
    ensures len <= 65537 ==> answer == Checksum(addr[..len])
  {
    var sum: int, w: nat, nleft: nat := 0, 0, len;
    ghost var data := addr[..len];
    while nleft > 1
      invariant w + nleft == len && w % 2 == 0
      invariant sum == Wrap(WordSum(data[..w]))
    {
      SumNext(data, w);
      AddWraps(WordSum(data[..w]), Le(addr[w], addr[w + 1]));
      sum := Wrap(sum + Le(addr[w], addr[w + 1]));
      w, nleft := w + 2, nleft - 2;
    }
    if nleft == 1 {
      SumLastByte(data, w);
      AddWraps(WordSum(data[..w]), addr[w] as int);
      sum := Wrap(sum + addr[w] as int);
    }
    assert data[..len] == data;
    SignedExactly(len);
    answer := TwoFolds(sum);
  }

  /** `csum` of 02-04-22_print_tcp_header/s.c: unsigned 32-bit accumulator. */
  method CsumBytes(addr: seq<Byte>, len: nat) returns (answer: int)
    requires len <= |addr|
    ensures 0 <= answer < 0x1_0000 && answer == UnsignedAnswer(addr[..len])
    ensures len <= 131074 ==> answer == Checksum(addr[..len])
  {
    var sum: nat, w: nat, nleft: nat := 0, 0, len;
    ghost var data := addr[..len];
    while nleft > 1
      invariant w + nleft == len && w % 2 == 0
      invariant sum == UInt32(WordSum(data[..w]))
    {
      SumNext(data, w);
      AddWrapsUnsigned(WordSum(data[..w]), Le(addr[w], addr[w + 1]));
      sum := UInt32(sum + Le(addr[w], addr[w + 1]));
      w, nleft := w + 2, nleft - 2;
    }
    if nleft == 1 {
      SumLastByte(data, w);
      AddWrapsUnsigned(WordSum(data[..w]), addr[w] as nat);
      sum := UInt32(sum + addr[w] as nat);
    }
    assert data[..len] == data;
    UnsignedExactly(len);
    answer := TwoFolds(sum);
  }

  /** `csum` of Functions/IPHeader.c: a count of words, 64-bit accumulator. */
  method CsumWords(buf: seq<Byte>, nwords: nat) returns (answer: int)
    requires 2 * nwords <= |buf|
    ensures 0 <= answer < 0x1_0000 && answer == TwoFolds(WordSum(buf[..2 * nwords]))
    ensures nwords <= 65538 ==> answer == Checksum(buf[..2 * nwords])
  {
    var sum: int, w: nat, left: nat := 0, 0, nwords;
    ghost var data := buf[..2 * nwords];
    while left > 0
      invariant w + 2 * left == 2 * nwords && w % 2 == 0
      invariant sum == WordSum(data[..w])
    {
      SumNext(data, w);
      sum := sum + Le(buf[w], buf[w + 1]);
      w, left := w + 2, left - 1;
    }
    assert data[..2 * nwords] == data;
    WordsExactly(nwords);
    answer := TwoFolds(sum);
  }

  /** `Calculate_Checksum` of ARP/spoofing/spoofer.c: fold until nothing is left. A 64-bit
      accumulator does not wrap on a buffer that fits in memory. */
  method CalculateChecksum(buffer: seq<Byte>, size: nat) returns (answer: int)
    requires size <= |buffer|
    ensures answer == Checksum(buffer[..size])
  {
    var cksum: nat, w: nat, left: nat := 0, 0, size;
    ghost var data := buffer[..size];
    while left > 1
      invariant w + left == size && w % 2 == 0
      invariant cksum == WordSum(data[..w])
    {
      SumNext(data, w);
      cksum := cksum + Le(buffer[w], buffer[w + 1]);
      w, left := w + 2, left - 2;
    }
    if left != 0 {
      SumLastByte(data, w);
      cksum := cksum + buffer[w] as nat;
    }
    assert data[..size] == data;
    answer := FoldUntilDone(cksum);
  }

  /** Its second loop. */
  method FoldUntilDone(sum: nat) returns (answer: int)
    ensures answer == 0xFFFF - Fold(sum)
  {
    var cksum := sum;
    while cksum / 0x1_0000 != 0
      invariant Fold(cksum) == Fold(sum)
      decreases cksum
    {
      cksum := cksum / 0x1_0000 + cksum % 0x1_0000;
    }
    answer := (-1 - cksum as int) % 0x1_0000;
  }
}
