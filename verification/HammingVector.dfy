/** The second encoder, RPC/.../hammingcode/hamming.cpp, which works on a vector of
    integers, marks parity positions with -1 and starts each parity scan just after
    the parity's own position. */
module HammingVector {
  import opened Bits
  import opened Hamming
  import opened HammingGen

  predicate BitVector(v: seq<int>) {
    forall k :: 0 <= k < |v| ==> v[k] == 0 || v[k] == 1
  }

  /** The string form of a bit vector, as the first encoder takes it. */
  function AsString(v: seq<int>): (s: string)
    ensures |s| == |v|
  {
    seq(|v|, i requires 0 <= i < |v| => if v[i] == 1 then '1' else '0')
  }

  /** The vector form of a string: '-' is the -1 marker. */
  function AsVector(s: string): (v: seq<int>)
    ensures |v| == |s|
  {
    seq(|s|, i requires 0 <= i < |s| => if s[i] == '1' then 1 else if s[i] == '-' then -1 else 0)
  }

  /** r markers fit a word of m message bits: the powers of two up to r + m are 2^0 .. 2^(r-1). */
  predicate Fits(m: nat, r: nat) {
    r >= 1 && Pow2(r - 1) <= r + m < Pow2(r)
  }

  /** The vector after the markers and the message are placed. */
  function Placed(msgBits: seq<int>, r: nat, k: nat): int {
    if IsPow2(k + 1) || DataBefore(k) >= |msgBits| then -1 else msgBits[DataBefore(k)]
  }

  function PlacedString(msgBits: seq<int>, r: nat): (f: string)
    ensures |f| == r + |msgBits|
  {
    seq(r + |msgBits|, k requires 0 <= k < r + |msgBits| =>
      if IsPow2(k + 1) then '-' else if Placed(msgBits, r, k) == 1 then '1' else '0')
  }

  /** The vector after the parities at indices below i are written. */
  function WrittenAt(f: string, i: nat, k: nat): int
    requires k < |f|
  {
    if IsPow2(k + 1) then (if k < i then (if OddParity(f, k + 1) then 1 else 0) else -1)
    else if f[k] == '1' then 1 else 0
  }

  function VectorCode(msgBits: seq<int>, r: nat): (v: seq<int>)
    ensures |v| == r + |msgBits|
  {
    var f := PlacedString(msgBits, r);
    seq(|f|, k requires 0 <= k < |f| => WrittenAt(f, |f|, k))
  }

  /** The search of `findHammingCode` starts at 1, the other encoder's at 0; for every
      nonempty message both produce the same word. */
  method FindHammingCode(msgBit: seq<int>) returns (ans: seq<int>)
    requires BitVector(msgBit)
    ensures msgBit != [] ==> ans == AsVector(Encode(AsString(msgBit)))
    ensures msgBit == [] ==> ans == [0]
    ensures msgBit != [] ==> DataBefore(|ans|) == |msgBit| && forall n: nat :: n < |ans| ==> DataBefore(n) < |msgBit|
  {
    var m := |msgBit|;
    var r := 1;
    while Pow2(r) < m + r + 1
      invariant 1 <= r
      invariant forall q: nat :: 1 <= q < r ==> !Enough(m, q)
      decreases m + 1 - r
    {
      Pow2Grows(r);
      r := r + 1;
    }
    assert Pow2(0) == 1;
    assert r > 1 ==> !Enough(m, r - 1);
    ans := GenerateHammingCode(msgBit, m, r);
    if m > 0 {
      assert !Enough(m, 0);
      LeastUnique(m, r, Redundancy(m));
      VectorCodeIsEncode(msgBit);
      LayoutExact(m, r);
      ShortestWord(m, r);
    } else {
      assert Enough(0, 1) && r == 1;
      var f := PlacedString(msgBit, 1);
      assert OneCount(f, 1, 1) == OneCount(f, 1, 0);
    }
  }

  /** The two encoders agree on every nonempty message, bit for bit. */
  lemma VectorCodeIsEncode(msgBits: seq<int>)
    requires BitVector(msgBits) && msgBits != []
    ensures VectorCode(msgBits, Redundancy(|msgBits|)) == AsVector(Encode(AsString(msgBits)))
  {
    var b, r := AsString(msgBits), Redundancy(|msgBits|);
    var f := PlacedString(msgBits, r);
    forall k: nat | k < |f| ensures f[k] == Filled(b)[k] { FilledAt(b, k); }
    assert f == Filled(b);
    var w := Encode(b);
    forall k: nat | k < |f| ensures VectorCode(msgBits, r)[k] == AsVector(w)[k] {
      FilledAt(b, k);
      assert w[k] == EncodedAt(f, k);
    }
  }

  /** For the empty message they do not: one check bit against none. */
  lemma EmptyMessageDiffers()
    ensures Encode("") == "" && |VectorCode([], 1)| == 1
  {
    assert LeastEnough(0, 0);
    LeastUnique(0, 0, Redundancy(0));
  }

  method GenerateHammingCode(msgBits: seq<int>, m: nat, r: nat) returns (code: seq<int>)
    requires BitVector(msgBits) && m == |msgBits| && Fits(m, r)
    ensures code == VectorCode(msgBits, r)
  {
    var hammingCode := new int[r + m](_ => 0);
    MarkParities(hammingCode, r);
    var j := 0;
    for i := 0 to r + m
      invariant j == DataBefore(i)
      invariant forall k :: i <= k < r + m ==> hammingCode[k] == if IsPow2(k + 1) then -1 else 0
      invariant forall k :: 0 <= k < i ==> hammingCode[k] == WrittenAt(PlacedString(msgBits, r), 0, k)
    {
      if hammingCode[i] != -1 {
        MessageWaiting(m, r, i);
        hammingCode[i] := msgBits[j];
        j := j + 1;
      }
    }
    WriteParities(hammingCode, PlacedString(msgBits, r));
    code := hammingCode[..];
  }

  lemma MessageWaiting(m: nat, r: nat, i: nat)
    requires Fits(m, r) && i < r + m && !IsPow2(i + 1)
    ensures DataBefore(i) < m
  {
    PowersUnique(r + m, r);
    assert DataBefore(i + 1) == DataBefore(i) + 1;
    DataCountMonotone(i + 1, r + m);
  }

  /** Marking the parity positions: -1 at 2^0 - 1, ..., 2^(r-1) - 1. */
  method MarkParities(code: array<int>, r: nat)
    requires r >= 1 && Pow2(r - 1) <= code.Length < Pow2(r)
    requires forall k :: 0 <= k < code.Length ==> code[k] == 0
    modifies code
    ensures forall k :: 0 <= k < code.Length ==> code[k] == if IsPow2(k + 1) then -1 else 0
  {
    for i := 0 to r
      invariant forall k :: 0 <= k < code.Length ==> code[k] == if IsPow2(k + 1) && k + 1 < Pow2(i) then -1 else 0
    {
      if i < r - 1 { Pow2Strict(i, r - 1); }
      Pow2IsPow2(i);
      code[Pow2(i) - 1] := -1;
      NoPowerBetween(i);
    }
  }

  lemma NoPowerBetween(i: nat)
    ensures Pow2(i) < Pow2(i + 1)
    ensures forall c: nat :: IsPow2(c) && c < Pow2(i + 1) ==> c <= Pow2(i)
  {
    forall c: nat | IsPow2(c) && c < Pow2(i + 1) ensures c <= Pow2(i) {
      var m := IsPow2Exists(c);
      if i + 1 < m { Pow2Strict(i + 1, m); }
      if m < i { Pow2Strict(m, i); }
    }
  }

  /** The parity loop, scanning from j = i + 2. */
  method WriteParities(code: array<int>, ghost f: string)
    requires code.Length == |f|
    requires forall k :: 0 <= k < |f| ==> code[k] == WrittenAt(f, 0, k)
    requires forall k: nat :: k < |f| && IsPow2(k + 1) ==> f[k] != '1'
    modifies code
    ensures forall k :: 0 <= k < |f| ==> code[k] == WrittenAt(f, |f|, k)
  {
    for i := 0 to code.Length
      invariant forall k :: 0 <= k < code.Length ==> code[k] == WrittenAt(f, i, k)
    {
      if code[i] != -1 {
        continue;
      }
      var x := Log2(i + 1);
      LogOfPower(i + 1);
      var oneCount := ScanParity(code, i, x);
      SameParity(code[..], f, i, x);
      code[i] := if oneCount % 2 == 0 then 0 else 1;
    }
  }

  /** `log2` is exact on powers of two. */
  lemma {:induction false} LogOfPower(n: nat)
    requires IsPow2(n)
    ensures Pow2(Log2(n)) == n
  {
    if n > 1 { LogOfPower(n / 2); }
  }

  method ScanParity(code: array<int>, i: nat, x: nat) returns (oneCount: nat)
    requires i < code.Length && Pow2(x) == i + 1
    requires code[i] == -1
    ensures oneCount == OneCount(AsString(code[..]), i + 1, code.Length)
  {
    oneCount := 0;
    ghost var s := AsString(code[..]);
    NothingBelow(s, i, x);
    for j := i + 2 to code.Length + 1
      invariant oneCount == OneCount(s, i + 1, j - 1)
    {
      if And(j, Pow2(x)) != 0 {
        if code[j - 1] == 1 {
          oneCount := oneCount + 1;
        }
      }
    }
  }

  /** Positions below the parity's own contribute nothing, so the scan may skip them. */
  lemma {:induction false} NothingBelow(s: string, j: nat, x: nat)
    requires j <= |s| && j < Pow2(x)
    ensures OneCount(s, Pow2(x), j) == 0
  {
    if j > 0 {
      NothingBelow(s, j - 1, x);
      AndPow2(j, x);
      BitAbove(j, x);
    }
  }

  /** Parities written earlier do not disturb a later one. */
  lemma SameParity(c: seq<int>, f: string, i: nat, x: nat)
    requires |c| == |f| && i < |c| && Pow2(x) == i + 1
    requires forall k :: 0 <= k < |c| ==> c[k] == WrittenAt(f, i, k)
    requires forall k: nat :: k < |f| && IsPow2(k + 1) ==> f[k] != '1'
    ensures OneCount(AsString(c), i + 1, |c|) == OneCount(f, i + 1, |f|)
  {
    var s := AsString(c);
    Pow2IsPow2(x);
    forall k: nat | k < |c| && And(k + 1, i + 1) != 0
      ensures s[k] == '1' <==> f[k] == '1'
    {
      if IsPow2(k + 1) { OnlyOwnParity(k, x); }
    }
    OneCountAgree(s, f, i + 1, |c|);
  }
}
