/** The encoder of 12-2-22/HammingCode/gen.cpp. */
module HammingGen {
  import opened Bits
  import opened Hamming

  /** r check bits can name every position of a word of l message bits, and "no error". */
  predicate Enough(l: nat, r: nat) {
    Pow2(r) >= l + r + 1
  }

  ghost predicate LeastEnough(l: nat, r: nat) {
    Enough(l, r) && forall q: nat :: q < r ==> !Enough(l, q)
  }

  /** The number of check bits: the first r, searching upward, that is enough. */
  function Redundancy(l: nat): (r: nat)
    ensures LeastEnough(l, r)
  {
    SearchFrom(l, 0)
  }

  function SearchFrom(l: nat, r: nat): (s: nat)
    ensures r <= s && Enough(l, s) && forall q: nat :: r <= q < s ==> !Enough(l, q)
    decreases l + 1 - r
  {
    if Enough(l, r) then r else (Pow2Grows(r); SearchFrom(l, r + 1))
  }

  /** The loop stops at the least r with 2^r >= l + r + 1: the word has l positions for the
      message, and no shorter word has. */
  method HammingLength(l: nat) returns (hl: nat)
    ensures hl >= l && LeastEnough(l, hl - l)
    ensures Pow2(hl - l) >= hl + 1 && forall q: nat :: q < hl - l ==> Pow2(q) < l + q + 1
    ensures DataBefore(hl) == l && forall n: nat :: n < hl ==> DataBefore(n) < l
  {
    var r := 0;
    while Pow2(r) < l + r + 1
      invariant forall q: nat :: q < r ==> Pow2(q) < l + q + 1
      decreases l + 1 - r
    {
      Pow2Grows(r);
      r := r + 1;
    }
    assert LeastEnough(l, r);
    LayoutExact(l, r);
    ShortestWord(l, r);
    return l + r;
  }

  lemma ShortestWord(l: nat, r: nat)
    requires LeastEnough(l, r)
    ensures forall n: nat :: n < l + r ==> DataBefore(n) < l
  {
    var hl := l + r;
    if hl > 0 {
      assert r > 0 by { assert Pow2(0) == 1; }
      LayoutExact(l, r);
      PowersBracket(hl);
      assert !Enough(l, r - 1);
      assert PowersUpTo(hl) == PowersUpTo(hl - 1);
      forall n: nat | n < hl ensures DataBefore(n) < l {
        DataCountMonotone(n, hl - 1);
      }
    }
  }

  lemma LeastUnique(l: nat, r: nat, s: nat)
    requires LeastEnough(l, r) && LeastEnough(l, s)
    ensures r == s
  {
  }

  /** The number of message bits placed before index i. */
  function DataBefore(i: nat): nat {
    i - PowersUpTo(i)
  }

  /** The layout is exact: the word has as many power-of-two positions as check bits,
      so the remaining positions are as many as the message bits. */
  lemma LayoutExact(l: nat, r: nat)
    requires LeastEnough(l, r)
    ensures PowersUpTo(l + r) == r && DataBefore(l + r) == l
  {
    if r > 0 {
      assert !Enough(l, r - 1);
      PowersUnique(l + r, r);
    }
  }

  /** Every index left to the message has a message bit waiting. */
  lemma DataInRange(l: nat, i: nat)
    requires i < l + Redundancy(l) && !IsPow2(i + 1)
    ensures DataBefore(i) < l
  {
    var n := l + Redundancy(l);
    LayoutExact(l, n - l);
    DataCountMonotone(i + 1, n);
    assert PowersUpTo(i + 1) == PowersUpTo(i);
  }

  /** The word before the parities are written, '-' standing for "not yet". */
  function Filled(b: string): (w: string)
    ensures |w| == |b| + Redundancy(|b|)
  {
    seq(|b| + Redundancy(|b|), i requires 0 <= i < |b| + Redundancy(|b|) =>
      if IsPow2(i + 1) then '-' else (DataInRange(|b|, i); b[DataBefore(i)]))
  }

  /** The codeword of b: parities over the filled word, message bits elsewhere. */
  function Encode(b: string): (w: string)
    ensures |w| == |b| + Redundancy(|b|)
  {
    WithParities(b, |b| + Redundancy(|b|))
  }

  /** The filled word with the parities at positions up to n written. */
  function WithParities(b: string, n: nat): (w: string)
    ensures |w| == |b| + Redundancy(|b|)
  {
    var f := Filled(b);
    seq(|f|, i requires 0 <= i < |f| =>
      if i + 1 <= n then EncodedAt(f, i) else f[i])
  }

  /** The parity bit of its position, or the message bit already there. */
  function EncodedAt(f: string, i: nat): char
    requires i < |f|
  {
    if IsPow2(i + 1) then (if OddParity(f, i + 1) then '1' else '0') else f[i]
  }

  /** The only power-of-two position covered by parity 2^k is position 2^k. */
  lemma OnlyOwnParity(i: nat, k: nat)
    requires IsPow2(i + 1)
    ensures And(i + 1, Pow2(k)) != 0 <==> i + 1 == Pow2(k)
  {
    var m := IsPow2Exists(i + 1);
    AndPow2(i + 1, k);
    BitOfPow2(m, k);
    if m < k { Pow2Strict(m, k); } else if k < m { Pow2Strict(k, m); }
  }

  /** A parity count does not look at other parities' positions. */
  lemma CountIgnoresParities(x: string, f: string, k: nat)
    requires |x| == |f|
    requires forall i: nat :: i < |x| && (!IsPow2(i + 1) || i + 1 == Pow2(k)) ==> (x[i] == '1' <==> f[i] == '1')
    ensures OneCount(x, Pow2(k), |x|) == OneCount(f, Pow2(k), |x|)
  {
    forall i: nat | i < |x| && And(i + 1, Pow2(k)) != 0
      ensures x[i] == '1' <==> f[i] == '1'
    {
      if IsPow2(i + 1) { OnlyOwnParity(i, k); }
    }
    OneCountAgree(x, f, Pow2(k), |x|);
  }

  lemma WithParitiesAt(b: string, n: nat, i: nat)
    requires i < |Filled(b)|
    ensures !IsPow2(i + 1) || n < i + 1 ==> WithParities(b, n)[i] == Filled(b)[i]
  {
  }

  /** No parity position is covered by another parity. */
  lemma ParitiesIndependent(b: string, n: nat, k: nat)
    requires n < Pow2(k)
    ensures OneCount(WithParities(b, n), Pow2(k), |b| + Redundancy(|b|))
         == OneCount(Filled(b), Pow2(k), |b| + Redundancy(|b|))
  {
    BelowUntouched(b, n, k);
    CountIgnoresParities(WithParities(b, n), Filled(b), k);
  }

  lemma BelowUntouched(b: string, n: nat, k: nat)
    requires n < Pow2(k)
    ensures var x, y := WithParities(b, n), Filled(b);
      forall i: nat :: i < |x| && (!IsPow2(i + 1) || i + 1 == Pow2(k)) ==> x[i] == y[i]
  {
    var x, y := WithParities(b, n), Filled(b);
    forall i: nat | i < |x| && (!IsPow2(i + 1) || i + 1 == Pow2(k)) ensures x[i] == y[i] {
      WithParitiesAt(b, n, i);
    }
  }

  lemma FilledAt(b: string, i: nat)
    requires i < |b| + Redundancy(|b|)
    ensures IsPow2(i + 1) ==> Filled(b)[i] == '-'
    ensures !IsPow2(i + 1) ==> DataBefore(i) < |b| && Filled(b)[i] == b[DataBefore(i)]
  {
    if !IsPow2(i + 1) { DataInRange(|b|, i); }
  }

  lemma NoParities(b: string)
    ensures WithParities(b, 0) == Filled(b)
  {
  }

  /** The fill loop: message bits go to the positions that are not powers of two. */
  method PlaceMessage(b: string, hc: array<char>)
    requires hc.Length == |b| + Redundancy(|b|)
    requires forall k :: 0 <= k < hc.Length ==> hc[k] == '-'
    modifies hc
    ensures hc[..] == Filled(b) == WithParities(b, 0)
  {
    ghost var f := Filled(b);
    forall i: nat | i < |f| ensures HasPlace(b, f, i) {
      FilledAt(b, i);
    }
    NoParities(b);
    FillInto(b, hc, f);
  }

  ghost predicate HasPlace(b: string, f: string, i: nat)
    requires i < |f|
  {
    if IsPow2(i + 1) then f[i] == '-' else DataBefore(i) < |b| && f[i] == b[DataBefore(i)]
  }

  method FillInto(b: string, hc: array<char>, ghost f: string)
    requires hc.Length == |f| && forall i: nat :: i < |f| ==> HasPlace(b, f, i)
    requires forall k :: 0 <= k < hc.Length ==> hc[k] == '-'
    modifies hc
    ensures hc[..] == f
  {
    var idx := 0;
    for i := 0 to hc.Length
      invariant idx == DataBefore(i)
      invariant forall k :: 0 <= k < i ==> hc[k] == f[k]
      invariant forall k :: i <= k < hc.Length ==> hc[k] == '-'
    {
      assert HasPlace(b, f, i);
      PowerTest(i + 1);
      if And(i + 1, i) != 0 {
        hc[i] := b[idx];
        idx := idx + 1;
      }
    }
  }

  method HammingCodeGen(b: string) returns (word: string)
    ensures word == Encode(b)
    ensures DataBefore(|word|) == |b| && forall n: nat :: n < |word| ==> DataBefore(n) < |b|
  {
    var l := |b|;
    var hl := HammingLength(l);
    LeastUnique(l, hl - l, Redundancy(l));
    var hc := new char[hl](_ => '-');
    PlaceMessage(b, hc);
    PlaceParities(b, hc);
    word := hc[..];
  }

  /** The parity loop. */
  method PlaceParities(b: string, hc: array<char>)
    requires hc[..] == WithParities(b, 0)
    modifies hc
    ensures hc[..] == Encode(b)
  {
    ghost var done := 0;
    var r := hc.Length - |b|;
    for i := 0 to r
      invariant done == if i == 0 then 0 else Pow2(i - 1)
      invariant hc[..] == WithParities(b, done)
    {
      PlaceParity(b, hc, i, done);
      done := Pow2(i);
    }
    AllParities(b, done, r);
  }

  /** One round of it. */
  method PlaceParity(b: string, hc: array<char>, i: nat, ghost done: nat)
    requires i < Redundancy(|b|) && done == (if i == 0 then 0 else Pow2(i - 1)) && hc[..] == WithParities(b, done)
    modifies hc
    ensures hc[..] == WithParities(b, Pow2(i))
  {
    var check := Pow2(i);
    CheckInRange(|b|, i);
    var oneCount := CountOnes(hc, check);
    ghost var w := hc[..];
    var parity := if oneCount % 2 == 1 then '1' else '0';
    hc[check - 1] := parity;
    assert hc[..] == w[check - 1 := parity];
    NextParity(b, done, i, oneCount);
  }

  /** Every parity write lands inside the word. */
  lemma CheckInRange(l: nat, i: nat)
    requires i < Redundancy(l)
    ensures 1 <= Pow2(i) <= l + Redundancy(l)
    ensures i > 0 ==> Pow2(i - 1) < Pow2(i)
  {
    assert !Enough(l, i);
    if i > 0 { Pow2Strict(i - 1, i); }
  }

  /** One round of the parity loop writes the next parity and nothing else. */
  lemma NextParity(b: string, done: nat, i: nat, oneCount: nat)
    requires i < Redundancy(|b|) && done == (if i == 0 then 0 else Pow2(i - 1))
    requires Pow2(i) <= |b| + Redundancy(|b|)
    requires oneCount == OneCount(WithParities(b, done), Pow2(i), |b| + Redundancy(|b|))
    ensures WithParities(b, Pow2(i)) == WithParities(b, done)[Pow2(i) - 1 := if oneCount % 2 == 1 then '1' else '0']
  {
    if i > 0 { Pow2Strict(i - 1, i); }
    ParitiesIndependent(b, done, i);
    Pow2IsPow2(i);
    forall c: nat | IsPow2(c) && done < c <= Pow2(i)
      ensures c == Pow2(i)
    {
      var k := IsPow2Exists(c);
      if k < i {
        if i > 0 && k < i - 1 { Pow2Strict(k, i - 1); }
      } else if i < k {
        Pow2Strict(i, k);
      }
    }
  }

  lemma AllParities(b: string, done: nat, r: nat)
    requires r == Redundancy(|b|) && done == (if r == 0 then 0 else Pow2(r - 1))
    ensures WithParities(b, done) == Encode(b)
  {
    var n := |b| + r;
    LayoutExact(|b|, r);
    if n > 0 {
      PowersBracket(n);
      LastPower(n, r);
    }
    SameParities(b, done, n);
  }

  /** The r-th power of two is the last one up to n. */
  lemma LastPower(n: nat, r: nat)
    requires r > 0 && n < Pow2(r)
    ensures forall c: nat :: IsPow2(c) && c <= n ==> c <= Pow2(r - 1)
  {
    forall c: nat | IsPow2(c) && c <= n ensures c <= Pow2(r - 1) {
      var k := IsPow2Exists(c);
      if k >= r {
        if k > r { Pow2Strict(r, k); }
      } else if k < r - 1 {
        Pow2Strict(k, r - 1);
      }
    }
  }

  /** No parity between done and n: nothing more is written. */
  lemma SameParities(b: string, done: nat, n: nat)
    requires done <= n && forall c: nat :: IsPow2(c) && c <= n ==> c <= done
    ensures WithParities(b, done) == WithParities(b, n)
  {
    var f, x, y := Filled(b), WithParities(b, done), WithParities(b, n);
    forall i: nat | i < |f| ensures x[i] == y[i] {
      if IsPow2(i + 1) && i + 1 <= n { assert i + 1 <= done; }
    }
  }

  /** The message, read back from the positions that are not powers of two. */
  function Message(w: string, i: nat): (b: string)
    requires i <= |w|
    ensures |b| == DataBefore(i)
  {
    if i == 0 then []
    else Message(w, i - 1) + (if IsPow2(i) then [] else [w[i - 1]])
  }

  lemma {:induction false} MessagePrefix(b: string, w: string, i: nat)
    requires i <= |w|
    requires forall j: nat :: j < |w| && !IsPow2(j + 1) ==> DataBefore(j) < |b| && w[j] == b[DataBefore(j)]
    ensures DataBefore(i) <= |b| && Message(w, i) == b[..DataBefore(i)]
  {
    if i > 0 {
      MessagePrefix(b, w, i - 1);
    }
  }

  /** Reading the non-power positions of a codeword returns the message. */
  lemma MessageOfEncode(b: string)
    ensures Message(Encode(b), |Encode(b)|) == b
  {
    var w := Encode(b);
    forall j: nat | j < |w| && !IsPow2(j + 1) ensures DataBefore(j) < |b| && w[j] == b[DataBefore(j)] {
      FilledAt(b, j);
      WithParitiesAt(b, |w|, j);
    }
    MessagePrefix(b, w, |w|);
    LayoutExact(|b|, Redundancy(|b|));
  }

  /** The encoder makes codewords: no '-' survives and every parity is even. */
  lemma EncodeIsCodeword(b: string)
    requires Binary(b)
    ensures Codeword(Encode(b))
  {
    var w := Encode(b);
    forall i | 0 <= i < |w| ensures w[i] == '0' || w[i] == '1' {
      if !IsPow2(i + 1) { DataInRange(|b|, i); }
    }
    forall c: nat | IsPow2(c) && c <= |w| ensures !OddParity(w, c) {
      var k := IsPow2Exists(c);
      ParityOfEncode(b, k);
    }
  }

  /** Writing a parity bit makes its own parity even. */
  lemma ParityOfEncode(b: string, k: nat)
    requires Pow2(k) <= |Encode(b)|
    ensures !OddParity(Encode(b), Pow2(k))
  {
    var w, f := Encode(b), Filled(b);
    Pow2IsPow2(k);
    forall i: nat | i < |w| && !IsPow2(i + 1) ensures w[i] == f[i] {
      WithParitiesAt(b, |w|, i);
    }
    FilledAt(b, Pow2(k) - 1);
    ParityWritten(f, w, k);
  }

  lemma ParityWritten(f: string, w: string, k: nat)
    requires |f| == |w| && Pow2(k) <= |w|
    requires forall i: nat :: i < |w| && !IsPow2(i + 1) ==> w[i] == f[i]
    requires w[Pow2(k) - 1] == (if OddParity(f, Pow2(k)) then '1' else '0') && f[Pow2(k) - 1] != '1'
    ensures !OddParity(w, Pow2(k))
  {
    var c := Pow2(k);
    Pow2IsPow2(k);
    var u := w[c - 1 := '-'];
    CountIgnoresParities(u, f, k);
    OneCountUpdate(w, c - 1, '-', c, |w|);
    OnlyOwnParity(c - 1, k);
  }

  /** The codewords of an encoder length are exactly the encoder's outputs. */
  lemma CodewordIsEncode(w: string, l: nat)
    requires Codeword(w) && |w| == l + Redundancy(l)
    ensures |Message(w, |w|)| == l && w == Encode(Message(w, |w|))
  {
    LayoutExact(l, Redundancy(l));
    var b := Message(w, |w|);
    var v := Encode(b);
    forall i: nat | i < |w| && !IsPow2(i + 1) ensures v[i] == w[i] {
      DataInRange(l, i);
      MessageAt(w, |w|, i);
    }
    MessageBinary(w, |w|);
    EncodeIsCodeword(b);
    forall i: nat | i < |w| && IsPow2(i + 1) ensures v[i] == w[i] {
      var k := IsPow2Exists(i + 1);
      ParityDetermined(v, w, k);
    }
  }

  lemma {:induction false} MessageAt(w: string, n: nat, i: nat)
    requires i < n <= |w| && !IsPow2(i + 1)
    ensures DataBefore(i) < DataBefore(n) && Message(w, n)[DataBefore(i)] == w[i]
  {
    DataCountMonotone(i + 1, n);
    if i + 1 < n {
      DataCountMonotone(i + 1, n - 1);
      MessageAt(w, n - 1, i);
    }
  }

  lemma {:induction false} MessageBinary(w: string, n: nat)
    requires n <= |w| && Binary(w)
    ensures Binary(Message(w, n))
  {
    if n > 0 {
      MessageBinary(w, n - 1);
    }
  }

  /** Two codewords with the same message bits have the same parity bits. */
  lemma ParityDetermined(v: string, w: string, k: nat)
    requires Codeword(v) && Codeword(w) && |v| == |w| && Pow2(k) <= |w|
    requires forall i: nat :: i < |w| && !IsPow2(i + 1) ==> v[i] == w[i]
    ensures v[Pow2(k) - 1] == w[Pow2(k) - 1]
  {
    var c := Pow2(k);
    Pow2IsPow2(k);
    var x := v[c - 1 := w[c - 1]];
    forall i: nat | i < |w| && And(i + 1, c) != 0 ensures x[i] == w[i] {
      if IsPow2(i + 1) { OnlyOwnParity(i, k); }
    }
    OneCountAgree(x, w, c, |w|);
    OneCountUpdate(v, c - 1, w[c - 1], c, |v|);
    OnlyOwnParity(c - 1, k);
  }
}
