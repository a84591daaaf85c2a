/** The number printer and the two number readers of the device drivers: `itoa`, `reverse` and
    `atoi` of tickTock.c, and the signed `atoi` of cel_far.c.

    Integers are 32 bits wide and wrap around, division truncates toward zero, and a string is
    an array of characters that ends at its first NUL. `itoa`'s own last act, a copy of the
    text into the global b, changes nothing: its one caller passes b itself. */
module Decimal {

  import opened Machine

  /** C's division by ten, and its remainder. */
  function TenthOf(v: int): (q: int)
    ensures v > 0 ==> 0 <= q < v
    ensures v < 0 ==> v < q <= 0
  {
    if v >= 0 then v / 10 else -(-v / 10)
  }

  function UnitOf(v: int): (r: int)
    ensures v >= 0 ==> 0 <= r <= 9
    ensures v <= 0 ==> -9 <= r <= 0
  {
    v - 10 * TenthOf(v)
  }

  /** The digit of each decimal place, most significant first; nothing for 0. The places of a
      negative number are negative, and so are characters below '0'. */
  function Digits(v: int): (s: string)
    ensures v == 0 <==> s == ""
    decreases Abs(v)
  {
    if v == 0 then "" else Digits(TenthOf(v)) + [(UnitOf(v) + '0' as int) as char]
  }

  /** Place values summed up, for any characters. */
  function Value(s: string): int {
    if s == "" then 0 else 10 * Value(s[..|s| - 1]) + s[|s| - 1] as int - '0' as int
  }

  function SignedValue(s: string): int {
    if s != "" && s[0] == '-' then -Value(s[1..]) else Value(s)
  }

  /** The text `itoa` leaves. */
  function Text(n: int): (s: string)
    requires Int32(n)
  {
    if n == 0 then "0" else if n < 0 then "-" + Digits(Wrap(-n)) else Digits(n)
  }

  lemma {:induction false} DigitsValue(v: int)
    ensures Value(Digits(v)) == v
    decreases Abs(v)
  {
    if v != 0 {
      DigitsValue(TenthOf(v));
      assert Digits(v)[..|Digits(v)| - 1] == Digits(TenthOf(v));
    }
  }

  // ---- what the readers make of the printer's text ----

  lemma {:induction false} NoSign(v: int)
    requires v > 0
    ensures Digits(v)[0] != '-'
    decreases v
  {
    if TenthOf(v) != 0 {
      NoSign(TenthOf(v));
    }
  }

  /** What is printed after the sign. */
  function Magnitude(n: int): int
    requires Int32(n)
  {
    if n < 0 then Wrap(-n) else n
  }

  lemma MagnitudeIs(n: int)
    requires Int32(n)
    ensures Magnitude(n) == if n == MIN then MIN else Abs(n)
  {
    if n == MIN {
      WrapOf(-MIN, MIN, 1);
    }
  }

  /** The signed reader inverts the printer on every int, the least one included. */
  lemma SignedRoundTrip(n: int)
    requires Int32(n)
    ensures Wrap(SignedValue(Text(n))) == n
  {
    var v := Magnitude(n);
    MagnitudeIs(n);
    DigitsValue(v);
    if n > 0 {
      NoSign(n);
    } else if n < 0 {
      assert Text(n)[1..] == Digits(v);
      WrapOf(-v, n, if n == MIN then 1 else 0);
    }
  }

  /** The unsigned reader does so from 0 up ... */
  lemma PlainRoundTrip(n: int)
    requires 0 <= n <= MAX
    ensures Wrap(Value(Text(n))) == n
  {
    DigitsValue(n);
    assert "0"[..0] == "";
  }

  /** ... and below 0 on one number only, where the sign read as a digit happens to be worth a
      multiple of 2^32 after scaling. */
  lemma PlainRoundTripExactly(n: int)
    requires Int32(n)
    ensures Wrap(Value(Text(n))) == n <==> n >= 0 || n == ODD_ONE
  {
    if n >= 0 {
      PlainRoundTrip(n);
    } else {
      PlainOfNegative(n);
    }
  }

  const ODD_ONE := -2115098112

  lemma PlainOfNegative(n: int)
    requires MIN <= n < 0
    ensures Wrap(Value(Text(n))) == n <==> n == ODD_ONE
  {
    var k := SignAsDigit(n);
    MagnitudeIs(n);
    WrapsBack(n, Magnitude(n), k, Value(Text(n)));
  }

  lemma SignAsDigit(n: int) returns (k: nat)
    requires MIN <= n < 0
    ensures 1 <= k <= 10 && Pow10(k - 1) <= Abs(Magnitude(n)) < Pow10(k)
    ensures Value(Text(n)) == Magnitude(n) - 3 * Pow10(k)
  {
    var v := Magnitude(n);
    var d := Digits(v);
    MagnitudeIs(n);
    k := |d|;
    assert Text(n) == ['-'] + d;
    DigitsValue(v);
    MagnitudeOf(v);
    AtMostTen(k, Abs(v));
    ValuePrepend('-', d);
  }

  /** v, of k places, with a sign worth -3 in front. */
  lemma WrapsBack(n: int, v: int, k: nat, x: int)
    requires MIN <= n < 0 && v == (if n == MIN then MIN else -n)
    requires 1 <= k <= 10 && Pow10(k - 1) <= Abs(v) < Pow10(k)
    requires x == v - 3 * Pow10(k)
    ensures Wrap(x) == n <==> n == ODD_ONE
  {
    Pow10Values();
    var q := WrapQuotient(x);
    if n == ODD_ONE {
      if k < 10 {
        Pow10Grows(k, 9);
      }
      WrapOf(x, n, -6);
    } else if k <= 9 {
      Pow10Grows(k, 9);
      assert k <= 8 ==> Pow10(k) <= 100000000 by { if k <= 8 { Pow10Grows(k, 8); } }
    }
  }

  function Pow10(k: nat): (p: nat)
    ensures p >= 1
  {
    if k == 0 then 1 else 10 * Pow10(k - 1)
  }

  lemma Pow10Values()
    ensures Pow10(0) == 1 && Pow10(1) == 10 && Pow10(2) == 100 && Pow10(3) == 1000 && Pow10(4) == 10000
    ensures Pow10(5) == 100000 && Pow10(6) == 1000000 && Pow10(7) == 10000000 && Pow10(8) == 100000000
    ensures Pow10(9) == 1000000000 && Pow10(10) == 10000000000
  {
    assert Pow10(2) == 100 && Pow10(3) == 1000;
    assert Pow10(4) == 10000 && Pow10(5) == 100000;
    assert Pow10(6) == 1000000 && Pow10(7) == 10000000;
    assert Pow10(8) == 100000000 && Pow10(9) == 1000000000;
  }

  lemma {:induction false} MagnitudeOf(v: int)
    requires v != 0
    ensures |Digits(v)| >= 1 && Pow10(|Digits(v)| - 1) <= Abs(v) < Pow10(|Digits(v)|)
    decreases Abs(v)
  {
    if TenthOf(v) != 0 {
      MagnitudeOf(TenthOf(v));
    } else {
      assert Pow10(0) == 1 && Pow10(1) == 10;
    }
  }

  lemma {:induction false} Pow10Grows(j: nat, k: nat)
    requires j <= k
    ensures Pow10(j) <= Pow10(k)
    decreases k
  {
    if j < k {
      Pow10Grows(j, k - 1);
    }
  }

  lemma AtMostTen(k: nat, v: nat)
    requires k >= 1 && Pow10(k - 1) <= v <= 0x8000_0000
    ensures k <= 10
  {
    Pow10Values();
    if k > 10 {
      Pow10Grows(10, k - 1);
    }
  }

  lemma {:induction false} ValuePrepend(c: char, s: string)
    ensures Value([c] + s) == (c as int - '0' as int) * Pow10(|s|) + Value(s)
  {
    var t := [c] + s;
    if s != "" {
      var n := |s| - 1;
      ValuePrepend(c, s[..n]);
      assert t[..|t| - 1] == [c] + s[..n];
      assert (c as int - '0' as int) * Pow10(|s|) == 10 * ((c as int - '0' as int) * Pow10(n));
    } else {
      assert t[..0] == "";
    }
  }

  // ---- the text itself ----

  predicate AllDigits(s: string) {
    forall i :: 0 <= i < |s| ==> '0' <= s[i] <= '9'
  }

  /** A decimal numeral without a superfluous leading zero. */
  predicate Numeral(s: string) {
    s != "" && AllDigits(s) && (s[0] == '0' ==> s == "0")
  }

  lemma {:induction false} DigitsNumeral(v: int)
    requires v > 0
    ensures Numeral(Digits(v)) && Digits(v)[0] != '0'
    decreases v
  {
    if TenthOf(v) != 0 {
      DigitsNumeral(TenthOf(v));
    }
  }

  lemma DigitsOfNext(v: int, c: char)
    requires v >= 0 && '0' <= c <= '9' && 10 * v + c as int - '0' as int > 0
    ensures Digits(10 * v + c as int - '0' as int) == Digits(v) + [c]
  {
    assert TenthOf(10 * v + c as int - '0' as int) == v;
  }

  /** There is only one numeral for a value: the one `itoa` writes. */
  lemma {:induction false} NumeralUnique(s: string)
    requires Numeral(s) && s[0] != '0'
    ensures Value(s) > 0 && Digits(Value(s)) == s
    decreases |s|
  {
    var n := |s| - 1;
    var v := if n > 0 then Value(s[..n]) else 0;
    if n > 0 {
      NumeralUnique(s[..n]);
    }
    assert s == s[..n] + [s[n]];
    DigitsOfNext(v, s[n]);
  }

  /** The text is a numeral, signed if need be, for every int but the least: -2^31 has no
      positive counterpart, so its places stay negative. */
  lemma TextIsNumeral(n: int)
    requires Int32(n)
    ensures Numeral(if n < 0 then Text(n)[1..] else Text(n)) <==> n != MIN
  {
    var v := Magnitude(n);
    MagnitudeIs(n);
    if n != 0 {
      assert (if n < 0 then Text(n)[1..] else Text(n)) == Digits(v);
      PlacesNumeral(v);
    }
  }

  lemma PlacesNumeral(v: int)
    requires v > 0 || v == MIN
    ensures Numeral(Digits(v)) <==> v > 0
  {
    if v > 0 {
      DigitsNumeral(v);
    } else {
      LastPlace(v);
    }
  }

  lemma LastPlace(v: int)
    requires v < 0 && v % 10 != 0
    ensures !AllDigits(Digits(v))
  {
    assert UnitOf(v) < 0;
    assert Digits(v)[|Digits(v)| - 1] < '0';
  }

  // ---- overflow on the way ----

  /** `res*10 + str[i] - '0'` stays in range at every character. */
  predicate StepsFit(s: string) {
    s == "" ||
      var n := |s| - 1;
      StepsFit(s[..n]) && Int32(10 * Value(s[..n])) && Int32(10 * Value(s[..n]) + s[n] as int) && Int32(Value(s))
  }

  lemma {:induction false} DigitsFit(n: int)
    requires 0 < n <= MAX
    ensures StepsFit(Digits(n)) <==> n + '0' as int <= MAX
    decreases n
  {
    var s, t := Digits(n), TenthOf(n);
    assert s[..|s| - 1] == Digits(t);
    DigitsValue(n);
    DigitsValue(t);
    if t > 0 {
      DigitsFit(t);
    }
  }

  /** Reading back what was printed stays within the int range exactly when the number is at
      most 2^31 - 49: '0' is subtracted last, and has been added by then. Beyond, the result
      is right only because the additions wrap. */
  lemma NoOverflowExactly(n: int)
    requires 0 <= n <= MAX
    ensures StepsFit(Text(n)) <==> n <= MAX - 48
  {
    if n > 0 {
      DigitsFit(n);
    } else {
      assert "0"[..0] == "";
    }
  }

  // ---- the C functions ----

  function Reversed(s: string): (r: string)
    ensures |r| == |s| && forall k :: 0 <= k < |s| ==> r[k] == s[|s| - 1 - k]
  {
    seq(|s|, k requires 0 <= k < |s| => s[|s| - 1 - k])
  }

  method Reverse(str: array<char>, length: nat)
    requires length <= str.Length
    modifies str
    ensures str[..length] == Reversed(old(str[..length]))
    ensures forall k :: length <= k < str.Length ==> str[k] == old(str[k])
  {
    var start, end := 0, length - 1;
    while start < end
      invariant 0 <= start && start + end == length - 1 && start <= end + 1
      invariant forall k :: 0 <= k < start || end < k < length ==> str[k] == old(str[length - 1 - k])
      invariant forall k :: start <= k <= end || length <= k < str.Length ==> str[k] == old(str[k])
    {
      str[start], str[end] := str[end], str[start];
      start := start + 1;
      end := end - 1;
    }
  }

  /** The string in a buffer. */
  predicate Terminated(b: seq<char>, n: nat) {
    n < |b| && b[n] == '\0' && '\0' !in b[..n]
  }

  method StrLen(str: array<char>, ghost n: nat) returns (len: nat)
    requires Terminated(str[..], n)
    ensures len == n
  {
    len := 0;
    while str[len] != '\0'
      invariant len <= n
      decreases n - len
    {
      assert len != n;
      len := len + 1;
    }
  }

  lemma {:induction false} DigitsNotNul(v: int)
    ensures '\0' !in Digits(v)
    decreases Abs(v)
  {
    if v != 0 {
      DigitsNotNul(TenthOf(v));
    }
  }

  /** The loop of `itoa` that puts the places down, least significant first. */
  method WriteDigits(number: int, str: array<char>) returns (i: nat)
    requires Int32(number) && number != 0 && str.Length >= 12
    modifies str
    ensures i <= 10 && Reversed(str[..i]) == Digits(number)
    ensures forall k :: i <= k < str.Length ==> str[k] == old(str[k])
  {
    var num := number;
    i := 0;
    FitsBuffer(num);
    while num != 0
      invariant i + |Digits(num)| == |Digits(number)| <= 10
      invariant Digits(number) == Digits(num) + Reversed(str[..i])
      invariant forall k :: i <= k < str.Length ==> str[k] == old(str[k])
      decreases Abs(num)
    {
      var rem := UnitOf(num);
      ghost var done := str[..i];
      var c := if rem > 9 then rem - 10 + 'a' as int else rem + '0' as int;
      str[i] := c as char;
      assert str[..i + 1] == done + [c as char];
      ReversedGrows(done, c as char);
      ghost var left := Digits(TenthOf(num));
      assert left + ([c as char] + Reversed(done)) == (left + [c as char]) + Reversed(done);
      num := TenthOf(num);
      i := i + 1;
    }
  }

  lemma ReversedGrows(s: string, c: char)
    ensures Reversed(s + [c]) == [c] + Reversed(s)
  {
  }

  method Itoa(number: int, str: array<char>) returns (y: nat)
    requires Int32(number) && str.Length >= 12
    modifies str
    ensures y <= 11 && Terminated(str[..], y) && str[..y] == Text(number)
    ensures forall k :: y < k < str.Length ==> str[k] == old(str[k])
  {
    if number == 0 {
      str[0] := '0';
      str[1] := '\0';
      y := StrLen(str, 1);
      return;
    }
    var num, isNegative := number, false;
    if num < 0 {
      isNegative := true;
      num := Wrap(-num);
    }
    MagnitudeIs(number);
    var i := WriteDigits(num, str);
    ghost var done := str[..i];
    if isNegative {
      str[i] := '-';
      i := i + 1;
      assert str[..i] == done + ['-'];
      ReversedGrows(done, '-');
    }
    TextNotNul(number);
    y := Finish(str, i, number);
  }

  /** The terminator, the reversal and `strlen`. */
  method Finish(str: array<char>, i: nat, ghost number: int) returns (y: nat)
    requires Int32(number) && i < str.Length && Reversed(str[..i]) == Text(number) && '\0' !in Text(number)
    modifies str
    ensures y == i && Terminated(str[..], y) && str[..y] == Text(number)
    ensures forall k :: y < k < str.Length ==> str[k] == old(str[k])
  {
    str[i] := '\0';
    assert str[..i] == old(str[..i]);
    Reverse(str, i);
    assert str[..][..i] == Text(number);
    y := StrLen(str, i);
  }

  lemma TextNotNul(n: int)
    requires Int32(n)
    ensures '\0' !in Text(n)
  {
    DigitsNotNul(Magnitude(n));
  }

  lemma FitsBuffer(v: int)
    requires Int32(v) && v != 0
    ensures |Digits(v)| <= 10
  {
    MagnitudeOf(v);
    AtMostTen(|Digits(v)|, Abs(v));
  }

  /** `atoi` of tickTock.c. */
  method AtoiPlain(str: array<char>, ghost n: nat) returns (res: int)
    requires Terminated(str[..], n)
    ensures res == Wrap(Value(str[..n]))
  {
    res := 0;
    var i := 0;
    while str[i] != '\0'
      invariant i <= n && res == Wrap(Value(str[..i]))
      decreases n - i
    {
      assert i != n;
      assert str[..i + 1][..i] == str[..i];
      WrapStep(Value(str[..i]), str[i] as int - '0' as int);
      res := Accumulate(res, str[i]);
      i := i + 1;
    }
  }

  /** `res*10 + str[i] - '0'`, every operation wrapping. */
  function Accumulate(res: int, c: char): (r: int)
    ensures r == Wrap(10 * res + (c as int - '0' as int))
  {
    var tens := Wrap(res * 10);
    var sum := Wrap(tens + c as int);
    AddWraps(res * 10, c as int);
    AddWraps(res * 10 + c as int, -('0' as int));
    Wrap(sum - '0' as int)
  }

  /** `atoi` of cel_far.c. */
  method AtoiSigned(str: array<char>, ghost n: nat) returns (r: int)
    requires Terminated(str[..], n)
    ensures r == Wrap(SignedValue(str[..n]))
  {
    var res, sign, i := 0, 1, 0;
    if str[0] == '-' {
      sign := -1;
      i := 1;
    }
    ghost var first := i;
    while str[i] != '\0'
      invariant first <= i <= n && res == Wrap(Value(str[first..i]))
      decreases n - i
    {
      assert i != n;
      assert str[first..i + 1][..i - first] == str[first..i];
      WrapStep(Value(str[first..i]), str[i] as int - '0' as int);
      res := Accumulate(res, str[i]);
      i := i + 1;
    }
    assert str[..n][first..] == str[first..n];
    WrapMinus(Value(str[first..n]));
    r := Wrap(sign * res);
  }
}
