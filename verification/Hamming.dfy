/** The single-error-correcting code: what a codeword is, and why recomputing the
    parities of a damaged word spells out the damaged position.

    Words are strings; index j holds position j + 1, as in the programs. */
module Hamming {
  import opened Bits

  /** What both programs add up for one parity: the '1's among the first j indices
      whose position shares a bit with `check`. */
  function OneCount(hc: string, check: nat, j: nat): (n: nat)
    requires j <= |hc|
  {
    if j == 0 then 0
    else OneCount(hc, check, j - 1) + (if And(j, check) != 0 && hc[j - 1] == '1' then 1 else 0)
  }

  /** The inner loop of both programs. */
  method CountOnes(hc: array<char>, check: nat) returns (oneCount: nat)
    ensures oneCount == OneCount(hc[..], check, hc.Length)
  {
    oneCount := 0;
    for j := 0 to hc.Length
      invariant oneCount == OneCount(hc[..], check, j)
    {
      if And(j + 1, check) != 0 && hc[j] == '1' {
        oneCount := oneCount + 1;
      }
    }
  }

  predicate OddParity(hc: string, check: nat) {
    OneCount(hc, check, |hc|) % 2 == 1
  }

  /** `mutated_bit` after the checker has looked at the first i indices. */
  function Syndrome(hc: string, i: nat): (s: nat)
    requires i <= |hc|
  {
    if i == 0 then 0
    else Syndrome(hc, i - 1) + (if IsPow2(i) && OddParity(hc, i) then i else 0)
  }

  predicate Binary(s: string) {
    forall k :: 0 <= k < |s| ==> s[k] == '0' || s[k] == '1'
  }

  /** A codeword: binary, and every parity comes out even. */
  ghost predicate Codeword(hc: string) {
    && Binary(hc)
    && forall c: nat :: IsPow2(c) && c <= |hc| ==> !OddParity(hc, c)
  }

  /** The programs' bit flip: a '1' becomes '0', anything else becomes '1'. */
  function Flip(hc: string, p: nat): (r: string)
    requires p < |hc|
    ensures |r| == |hc|
  {
    hc[p := if hc[p] == '1' then '0' else '1']
  }

  /** Overwriting one index changes a parity count by exactly that index's share. */
  lemma {:induction false} OneCountUpdate(hc: string, p: nat, c: char, check: nat, j: nat)
    requires p < |hc| && j <= |hc|
    ensures OneCount(hc[p := c], check, j)
         == OneCount(hc, check, j)
          + (if p < j && And(p + 1, check) != 0
             then (if c == '1' then 1 else 0) - (if hc[p] == '1' then 1 else 0) else 0)
  {
    if j > 0 {
      OneCountUpdate(hc, p, c, check, j - 1);
    }
  }

  /** Only the masked indices matter to a parity count, and only whether they hold '1'. */
  lemma {:induction false} OneCountAgree(x: string, y: string, check: nat, j: nat)
    requires |x| == |y| && j <= |x|
    requires forall k: nat :: k < j && And(k + 1, check) != 0 ==> (x[k] == '1' <==> y[k] == '1')
    ensures OneCount(x, check, j) == OneCount(y, check, j)
  {
    if j > 0 {
      OneCountAgree(x, y, check, j - 1);
    }
  }

  /** A flip toggles exactly the parities named by the binary digits of its position. */
  lemma FlipToggles(hc: string, p: nat, k: nat)
    requires p < |hc|
    ensures OddParity(Flip(hc, p), Pow2(k)) <==> (OddParity(hc, Pow2(k)) != Bit(p + 1, k))
  {
    OneCountUpdate(hc, p, if hc[p] == '1' then '0' else '1', Pow2(k), |hc|);
    AndPow2(p + 1, k);
  }

  lemma {:induction false} SyndromeOfCodeword(hc: string, i: nat)
    requires Codeword(hc) && i <= |hc|
    ensures Syndrome(hc, i) == 0
  {
    if i > 0 {
      SyndromeOfCodeword(hc, i - 1);
    }
  }

  /** After one flip the partial syndrome is the low part of the flipped position. */
  lemma {:induction false} SyndromeOfFlipUpTo(hc: string, p: nat, i: nat)
    requires Codeword(hc) && p < |hc| && i <= |hc|
    ensures Syndrome(Flip(hc, p), i) == Low(p + 1, PowersUpTo(i))
  {
    if i > 0 {
      SyndromeOfFlipUpTo(hc, p, i - 1);
      if IsPow2(i) {
        PowersBracket(i);
        var k := PowersUpTo(i - 1);
        assert i == Pow2(k);
        FlipToggles(hc, p, k);
        LowStep(p + 1, k);
      }
    }
  }

  /** ... so the full syndrome is the flipped position itself. */
  lemma SyndromeOfFlip(hc: string, p: nat)
    requires Codeword(hc) && p < |hc|
    ensures Syndrome(Flip(hc, p), |hc|) == p + 1
  {
    SyndromeOfFlipUpTo(hc, p, |hc|);
    PowersBracket(|hc|);
    LowAll(p + 1, PowersUpTo(|hc|));
  }

  lemma {:induction false} SyndromeMonotone(hc: string, i: nat, j: nat)
    requires i <= j <= |hc|
    ensures Syndrome(hc, i) <= Syndrome(hc, j)
  {
    if i < j {
      SyndromeMonotone(hc, i, j - 1);
    }
  }

  /** A zero syndrome means a codeword: the checker's "no errors" verdict misses nothing. */
  lemma SyndromeZero(hc: string)
    requires Binary(hc)
    ensures Syndrome(hc, |hc|) == 0 <==> Codeword(hc)
  {
    if Syndrome(hc, |hc|) == 0 {
      forall c: nat | IsPow2(c) && c <= |hc| ensures !OddParity(hc, c) {
        SyndromeMonotone(hc, c, |hc|);
      }
    } else if Codeword(hc) {
      SyndromeOfCodeword(hc, |hc|);
    }
  }

  lemma FlipTwice(hc: string, p: nat)
    requires Binary(hc) && p < |hc|
    ensures Binary(Flip(hc, p)) && Flip(Flip(hc, p), p) == hc
  {
  }

  /** Number of indices at which two words differ. */
  function Distance(x: string, y: string): (d: nat)
    requires |x| == |y|
  {
    if |x| == 0 then 0
    else Distance(x[..|x| - 1], y[..|y| - 1]) + (if x[|x| - 1] == y[|y| - 1] then 0 else 1)
  }

  lemma {:induction false} DistanceZero(x: string, y: string)
    requires |x| == |y| && Distance(x, y) == 0
    ensures x == y
  {
    if |x| > 0 {
      DistanceZero(x[..|x| - 1], y[..|y| - 1]);
      assert x == x[..|x| - 1] + [x[|x| - 1]] && y == y[..|y| - 1] + [y[|y| - 1]];
    }
  }

  /** Undoing one difference brings two binary words one closer. */
  lemma {:induction false} DistanceStep(x: string, y: string) returns (p: nat)
    requires |x| == |y| && Binary(x) && Binary(y) && Distance(x, y) > 0
    ensures p < |x| && Distance(Flip(x, p), y) == Distance(x, y) - 1
  {
    var n := |x| - 1;
    if x[n] != y[n] {
      p := n;
      assert Flip(x, p)[..n] == x[..n];
    } else {
      p := DistanceStep(x[..n], y[..n]);
      assert Flip(x, p)[..n] == Flip(x[..n], p);
    }
  }

  /** Two different codewords of one length differ in at least three positions. */
  lemma MinimumDistance(x: string, y: string)
    requires Codeword(x) && Codeword(y) && |x| == |y| && x != y
    ensures Distance(x, y) >= 3
  {
    if Distance(x, y) == 0 {
      DistanceZero(x, y);
    } else if Distance(x, y) < 3 {
      var p := DistanceStep(x, y);
      var z := Flip(x, p);
      FlipTwice(x, p);
      SyndromeOfFlip(x, p);
      if Distance(z, y) == 0 {
        DistanceZero(z, y);
        SyndromeOfCodeword(y, |y|);
      } else {
        var q := DistanceStep(z, y);
        DistanceZero(Flip(z, q), y);
        FlipTwice(z, q);
        SyndromeOfFlip(y, q);
      }
    }
  }

  /** Two flips are never mistaken for a clean word. */
  lemma DoubleErrorDetected(hc: string, p: nat, q: nat)
    requires Codeword(hc) && p < q < |hc|
    ensures Syndrome(Flip(Flip(hc, p), q), |hc|) != 0
  {
    var z := Flip(hc, p);
    FlipTwice(hc, p);
    FlipTwice(z, q);
    var w := Flip(z, q);
    SyndromeZero(w);
    if Codeword(w) {
      SyndromeOfFlip(hc, p);
      SyndromeOfFlip(w, q);
    }
  }
}
