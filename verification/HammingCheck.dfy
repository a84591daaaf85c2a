/** The checker of 12-2-22/HammingCode/check.cpp, against the encoder. */
module HammingCheck {
  import opened Bits
  import opened Hamming
  import opened HammingGen

  /** What `checkAndCorrect` does with a word. A syndrome beyond the end of the word makes
      the program index past the string; that case is kept apart. */
  datatype Outcome =
    | Clean(word: string)
    | Corrected(bit: nat, word: string)
    | OutOfRange(bit: nat)

  function Check(hc: string): (o: Outcome) {
    var s := Syndrome(hc, |hc|);
    if s == 0 then Clean(hc)
    else if s <= |hc| then Corrected(s, Flip(hc, s - 1))
    else OutOfRange(s)
  }

  method CheckAndCorrect(word: string) returns (o: Outcome)
    ensures o == Check(word)
  {
    var hc := new char[|word|](i requires 0 <= i < |word| => word[i]);
    assert hc[..] == word;
    var mutatedBit := 0;
    for i := 0 to hc.Length
      invariant mutatedBit == Syndrome(word, i)
      invariant hc[..] == word
    {
      PowerTest(i + 1);
      if And(i + 1, i) == 0 {
        var oneCount := CountOnes(hc, i + 1);
        if oneCount % 2 == 1 {
          mutatedBit := mutatedBit + (i + 1);
        }
      }
    }
    if mutatedBit == 0 {
      return Clean(hc[..]);
    }
    var idx := mutatedBit - 1;
    if idx >= hc.Length {
      return OutOfRange(mutatedBit);
    }
    hc[idx] := if hc[idx] == '1' then '0' else '1';
    assert hc[..] == Flip(word, idx);
    return Corrected(mutatedBit, hc[..]);
  }

  /** An undamaged codeword is reported clean. */
  lemma NoErrorAccepted(b: string)
    requires Binary(b)
    ensures Check(Encode(b)) == Clean(Encode(b))
  {
    EncodeIsCodeword(b);
    SyndromeOfCodeword(Encode(b), |Encode(b)|);
  }

  /** Any single flipped bit of an encoded message is located and repaired. */
  lemma SingleErrorCorrected(b: string, p: nat)
    requires Binary(b) && p < |Encode(b)|
    ensures Check(Flip(Encode(b), p)) == Corrected(p + 1, Encode(b))
  {
    EncodeIsCodeword(b);
    SyndromeOfFlip(Encode(b), p);
    FlipTwice(Encode(b), p);
  }

  /** Encodings of two messages of one length differ in at least three positions. */
  lemma EncodingsFarApart(a: string, b: string)
    requires Binary(a) && Binary(b) && |a| == |b| && a != b
    ensures Distance(Encode(a), Encode(b)) >= 3
  {
    EncodeIsCodeword(a);
    EncodeIsCodeword(b);
    MessageOfEncode(a);
    MessageOfEncode(b);
    MinimumDistance(Encode(a), Encode(b));
  }

  /** Adding a higher power of two sets that digit and no other. */
  lemma {:induction false} AddHighBit(n: nat, m: nat, k: nat)
    requires n < Pow2(m)
    ensures Bit(n + Pow2(m), k) <==> k == m || Bit(n, k)
  {
    if m == 0 {
      if k > 0 { BitOfZero(k - 1); BitOfZero(k); }
    } else if k > 0 {
      assert (n + Pow2(m)) / 2 == n / 2 + Pow2(m - 1);
      AddHighBit(n / 2, m - 1, k - 1);
    }
  }

  /** Digit k of the syndrome says whether parity 2^k fails: the sum the program forms
      never carries. */
  lemma {:induction false} SyndromeDigits(hc: string, i: nat, k: nat)
    requires i <= |hc|
    ensures Syndrome(hc, i) < Pow2(PowersUpTo(i))
    ensures Bit(Syndrome(hc, i), k) <==> Pow2(k) <= i && OddParity(hc, Pow2(k))
  {
    if i == 0 {
      BitOfZero(k);
    } else {
      SyndromeDigits(hc, i - 1, k);
      PowersBracket(i);
      var m := PowersUpTo(i - 1);
      if IsPow2(i) {
        assert i == Pow2(m);
        AddHighBit(Syndrome(hc, i - 1), m, k);
        if k < m { Pow2Strict(k, m); }
        if m < k { Pow2Strict(m, k); }
      } else if Pow2(k) == i {
        Pow2IsPow2(k);
        assert false;
      }
    }
  }

  /** Flipping the position a syndrome names always yields a codeword. */
  lemma CorrectionIsCodeword(hc: string)
    requires Binary(hc) && 1 <= Syndrome(hc, |hc|) <= |hc|
    ensures Codeword(Flip(hc, Syndrome(hc, |hc|) - 1))
  {
    var s := Syndrome(hc, |hc|);
    forall c: nat | IsPow2(c) && c <= |hc| ensures !OddParity(Flip(hc, s - 1), c) {
      var k := IsPow2Exists(c);
      SyndromeDigits(hc, |hc|, k);
      FlipToggles(hc, s - 1, k);
    }
  }

  /** A word one flip away from a codeword. */
  ghost predicate OneFlipAway(hc: string) {
    exists p: nat :: p < |hc| && Codeword(Flip(hc, p))
  }

  /** The checker on every binary word: clean exactly on codewords, a codeword one flip
      away exactly when there is one, and past the end of the string otherwise. */
  lemma CheckIsNearest(hc: string)
    requires Binary(hc)
    ensures Check(hc).Clean? <==> Codeword(hc)
    ensures Check(hc).Corrected? <==> OneFlipAway(hc)
    ensures Check(hc).Corrected? ==> Codeword(Check(hc).word) && Check(hc).word == Flip(hc, Check(hc).bit - 1)
  {
    SyndromeZero(hc);
    var s := Syndrome(hc, |hc|);
    if 1 <= s <= |hc| {
      CorrectionIsCodeword(hc);
    }
    if OneFlipAway(hc) {
      var p: nat :| p < |hc| && Codeword(Flip(hc, p));
      FlipTwice(hc, p);
      SyndromeOfFlip(Flip(hc, p), p);
    }
  }

  /** The limit of the code: two flips are always noticed and never repaired. */
  lemma DoubleErrorNeverRepaired(b: string, p: nat, q: nat)
    requires Binary(b) && p < q < |Encode(b)|
    ensures var o := Check(Flip(Flip(Encode(b), p), q)); !o.Clean? && (o.Corrected? ==> o.word != Encode(b))
  {
    var w := Encode(b);
    EncodeIsCodeword(b);
    DoubleErrorDetected(w, p, q);
    var z := Flip(Flip(w, p), q);
    assert z[p] != w[p] && z[q] != w[q] by {
      assert Flip(w, p)[p] != w[p] && Flip(w, p)[q] == w[q];
    }
  }

  /** '1' exactly at the powers of two: every parity counts just its own position. */
  function Powers(n: nat): (w: string)
    ensures |w| == n && Binary(w)
  {
    seq(n, i requires 0 <= i < n => if IsPow2(i + 1) then '1' else '0')
  }

  lemma {:induction false} PowersCount(n: nat, k: nat, j: nat)
    requires j <= n
    ensures OneCount(Powers(n), Pow2(k), j) == if Pow2(k) <= j then 1 else 0
  {
    if j > 0 {
      PowersCount(n, k, j - 1);
      if IsPow2(j) {
        OnlyOwnParity(j - 1, k);
      } else if Pow2(k) == j {
        Pow2IsPow2(k);
        assert false;
      }
    }
  }

  /** ... so every parity fails, and the sum is one less than the next power of two. */
  lemma {:induction false} PowersSyndrome(n: nat, i: nat)
    requires i <= n
    ensures Syndrome(Powers(n), i) == Pow2(PowersUpTo(i)) - 1
  {
    if i > 0 {
      PowersSyndrome(n, i - 1);
      if IsPow2(i) {
        PowersFail(n, i);
        PowersBracket(i);
      }
    }
  }

  lemma PowersFail(n: nat, i: nat)
    requires i <= n && IsPow2(i)
    ensures OddParity(Powers(n), i)
  {
    var k := IsPow2Exists(i);
    PowersCount(n, k, n);
  }

  ghost predicate SomeOutOfRange(n: nat) {
    exists hc :: |hc| == n && Binary(hc) && Check(hc).OutOfRange?
  }

  /** The program can index past its string exactly on words whose length is not one less than
      a power of two: on those every sum is a position. */
  lemma OutOfRangeExactly(n: nat)
    ensures SomeOutOfRange(n) <==> n >= 1 && !IsPow2(n + 1)
  {
    if n >= 1 {
      var r := PowersUpTo(n);
      PowersBracket(n);
      if IsPow2(n + 1) {
        NextPower(n, r);
        forall hc: string | |hc| == n ensures !Check(hc).OutOfRange? {
          SyndromeDigits(hc, n, 0);
        }
      } else {
        if n + 1 == Pow2(r) { Pow2IsPow2(r); }
        PowersSyndrome(n, n);
        assert Check(Powers(n)).OutOfRange?;
      }
    }
  }

  lemma NextPower(n: nat, r: nat)
    requires IsPow2(n + 1) && r >= 1 && Pow2(r - 1) <= n < Pow2(r)
    ensures n + 1 == Pow2(r)
  {
    var k := IsPow2Exists(n + 1);
    if k < r {
      if k < r - 1 { Pow2Strict(k, r - 1); }
      assert false;
    } else if r < k {
      Pow2Strict(r, k);
      assert false;
    }
  }
}
