/** 1/1/sort.c: two files of sorted integers are read number by number and merged into a third.

    `readint` never initialises its `c`, so what an immediate end of file makes of it is up to
    whatever the stack holds; that character is a parameter here. */
module MergeFiles {
  import opened Machine
  import Decimal

  // ---- reading one number ----

  /** The characters a number may start with. */
  predicate Starts(c: char) { c == '-' || '0' <= c <= '9' }

  function FirstSpace(s: string): (k: nat)
    ensures k <= |s| && (k < |s| ==> s[k] == ' ') && ' ' !in s[..k]
  {
    if s == "" || s[0] == ' ' then 0 else 1 + FirstSpace(s[1..])
  }

  function PastWord(s: string): string {
    var k := FirstSpace(s);
    if k == |s| then "" else s[k + 1..]
  }

  /** The first character that is no space, and what follows; c if there is nothing left. */
  function Skip(s: string, c: char): (char, string) {
    if s == "" then (c, "") else if s[0] != ' ' then (s[0], s[1..]) else Skip(s[1..], ' ')
  }

  /** What `readint` collects in its buffer. */
  function Stored(s: string, garbage: char): string {
    var (c, r) := Skip(s, garbage);
    (if Starts(c) then [c] else "") + r[..FirstSpace(r)]
  }

  predicate White(c: char) { c == ' ' || c == '\t' || c == '\n' || c == 0x0B as char || c == 0x0C as char || c == '\r' }

  function LeadingDigits(s: string): string {
    if s == "" || !('0' <= s[0] <= '9') then "" else [s[0]] + LeadingDigits(s[1..])
  }

  /** The C library's `atoi`. */
  function Atoi(s: string): int {
    if s == "" then 0
    else if White(s[0]) then Atoi(s[1..])
    else if s[0] == '-' then -Decimal.Value(LeadingDigits(s[1..]))
    else if s[0] == '+' then Decimal.Value(LeadingDigits(s[1..]))
    else Decimal.Value(LeadingDigits(s))
  }

  datatype Reading = Nothing | Number(x: int)

  function Read(s: string, garbage: char): Reading {
    if Stored(s, garbage) == "" then Nothing else Number(Atoi(Stored(s, garbage)))
  }

  function Left(s: string, garbage: char): (r: string)
    ensures |r| <= |s| && (s != "" ==> |r| < |s|)
  {
    SkipShrinks(s, garbage);
    PastWord(Skip(s, garbage).1)
  }

  lemma {:induction false} SkipShrinks(s: string, c: char)
    ensures |Skip(s, c).1| <= |s| && (s != "" ==> |Skip(s, c).1| < |s|)
  {
    if s != "" && s[0] == ' ' {
      SkipShrinks(s[1..], ' ');
    }
  }

  /** At the end of a file, `readint` says so exactly when the garbage cannot start a number. */
  lemma EndOfFileExactly(garbage: char)
    ensures Read("", garbage) == Nothing <==> !Starts(garbage)
    ensures Starts(garbage) ==> Left("", garbage) == ""
  {
    assert FirstSpace("") == 0;
    assert Stored("", garbage) == if Starts(garbage) then [garbage] else "";
  }

  // ---- files of numbers ----

  predicate Digits(s: string) { s != "" && Decimal.AllDigits(s) }

  /** Digits with or without a minus, that fit the buffer of ten. */
  predicate IsToken(w: string) {
    |w| <= 9 && w != "" && Digits(if w[0] == '-' then w[1..] else w)
  }

  function Token(w: string): string {
    if w != "" && w[|w| - 1] == '\n' then w[..|w| - 1] else w
  }

  /** Numbers, each with any spaces before it and one space after it. The file may end with a
      newline or spaces after that. It may also end right after a number, its space or its
      newline, but then the next read starts at the end: that is safe for a benign garbage only. */
  predicate WellFormed(s: string, benign: bool)
    decreases |s|
  {
    if s == "" then benign
    else if s[0] == ' ' then s[1..] == "" || WellFormed(s[1..], benign)
    else if s == "\n" then true
    else
      var k := FirstSpace(s);
      if k == |s| then benign && |s| <= 9 && IsToken(Token(s))
      else IsToken(s[..k]) && WellFormed(s[k + 1..], benign)
  }

  function Numbers(s: string): seq<int>
    decreases |s|
  {
    if s == "" then []
    else if s[0] == ' ' then Numbers(s[1..])
    else if s == "\n" then []
    else
      var k := FirstSpace(s);
      if k == |s| then [Decimal.SignedValue(Token(s))]
      else [Decimal.SignedValue(s[..k])] + Numbers(s[k + 1..])
  }

  lemma {:induction false} LeadingAll(s: string, rest: string)
    requires Decimal.AllDigits(s) && (rest != "" ==> !('0' <= rest[0] <= '9'))
    ensures LeadingDigits(s + rest) == s
  {
    if s == "" {
      assert s + rest == rest;
    } else {
      assert (s + rest)[1..] == s[1..] + rest;
      LeadingAll(s[1..], rest);
    }
  }

  /** `atoi` on blanks, an optional sign, digits and whatever follows them. */
  lemma {:induction false} AtoiReads(blanks: string, sign: string, digits: string, rest: string)
    requires forall k :: 0 <= k < |blanks| ==> blanks[k] in [' ', '\t', '\n', 11 as char, 12 as char, '\r']
    requires sign == "" || sign == "+" || sign == "-"
    requires digits != "" && Decimal.AllDigits(digits) && (rest != "" ==> !('0' <= rest[0] <= '9'))
    ensures Atoi(blanks + sign + digits + rest) == if sign == "-" then -Decimal.Value(digits) else Decimal.Value(digits)
  {
    var s := blanks + sign + digits + rest;
    LeadingAll(digits, rest);
    if blanks != "" {
      assert s[0] == blanks[0] && s[1..] == blanks[1..] + sign + digits + rest;
      AtoiReads(blanks[1..], sign, digits, rest);
    } else if sign != "" {
      assert s[0] == sign[0] && s[1..] == digits + rest;
    } else {
      assert s == digits + rest && s[0] == digits[0];
    }
  }

  lemma AtoiOfToken(w: string, rest: string)
    requires IsToken(w) && (rest == "" || rest == "\n")
    ensures Atoi(w + rest) == Decimal.SignedValue(w)
  {
    var d := if w[0] == '-' then w[1..] else w;
    assert Starts(w[0]) by { if w[0] != '-' { assert '0' <= d[0] <= '9'; } }
    LeadingAll(d, rest);
    assert (w + rest)[1..] == w[1..] + rest;
  }

  lemma TokenStarts(w: string)
    requires IsToken(w)
    ensures Starts(w[0])
  {
    if w[0] != '-' {
      assert '0' <= w[0] <= '9';
    }
  }

  /** One read takes the first number of a well-formed file and leaves a well-formed file, or
      finds that there is none. */
  lemma {:induction false} ReadNext(s: string, benign: bool, garbage: char)
    requires WellFormed(s, benign) && (benign ==> !Starts(garbage))
    ensures |Stored(s, garbage)| <= 9
    ensures Numbers(s) == [] ==> Read(s, garbage) == Nothing
    ensures Numbers(s) != [] ==>
      && Read(s, garbage) == Number(Numbers(s)[0])
      && WellFormed(Left(s, garbage), benign) && Numbers(Left(s, garbage)) == Numbers(s)[1..]
    decreases |s|
  {
    if s == "" {
      EndOfFileExactly(garbage);
    } else if s[0] == ' ' {
      if s[1..] == "" {
        assert Skip(s, garbage) == (' ', "");
      } else {
        SkipAny(s[1..], ' ', garbage);
        ReadNext(s[1..], benign, garbage);
      }
    } else if s == "\n" {
      assert s[1..] == "" && Skip(s, garbage) == ('\n', "");
    } else {
      ReadWord(s, benign, garbage);
    }
  }

  lemma SkipAny(s: string, c: char, d: char)
    requires s != ""
    ensures Skip(s, c) == Skip(s, d)
  {
  }

  lemma ReadWord(s: string, benign: bool, garbage: char)
    requires WellFormed(s, benign) && s != "" && s[0] != ' ' && s != "\n"
    ensures |Stored(s, garbage)| <= 9
    ensures Numbers(s) != [] && Read(s, garbage) == Number(Numbers(s)[0])
    ensures WellFormed(Left(s, garbage), benign) && Numbers(Left(s, garbage)) == Numbers(s)[1..]
  {
    var k := FirstSpace(s);
    var w := if k == |s| then Token(s) else s[..k];
    var end := s[..k][|w|..];
    TokenStarts(w);
    assert s[0] == w[0];
    StoredWord(s, garbage);
    assert w + end == s[..k] && (end == "" || end == "\n");
    AtoiOfToken(w, end);
  }

  lemma StoredWord(s: string, garbage: char)
    requires s != "" && Starts(s[0])
    ensures Stored(s, garbage) == s[..FirstSpace(s)] && Left(s, garbage) == PastWord(s)
  {
    var k := FirstSpace(s);
    assert FirstSpace(s[1..]) == k - 1;
    assert [s[0]] + s[1..][..k - 1] == s[..k];
    if k < |s| {
      assert s[1..][k..] == s[k + 1..];
    }
  }

  /** Reading until the first -1. A garbage that starts a number makes every read at the end of
      the file a number again, so in C the reading never ends; here the list stops after the
      first of these numbers, which is one too many already. */
  function ReadAll(s: string, garbage: char): seq<int>
    decreases |s|
  {
    match Read(s, garbage)
    case Nothing => []
    case Number(x) => if s == "" then [x] else [x] + ReadAll(Left(s, garbage), garbage)
  }

  lemma {:induction false} ReadAllNumbers(s: string, benign: bool, garbage: char)
    requires WellFormed(s, benign) && (benign ==> !Starts(garbage))
    ensures ReadAll(s, garbage) == Numbers(s)
    decreases |s|
  {
    ReadNext(s, benign, garbage);
    if Numbers(s) != [] {
      ReadAllNumbers(Left(s, garbage), benign, garbage);
    }
  }

  /** A file that ends right after a number, its space or its newline reads one number too
      many when the garbage starts a number. */
  lemma {:induction false} ReadsTooMuch(s: string, garbage: char)
    requires WellFormed(s, true) && !WellFormed(s, false) && Starts(garbage)
    ensures |ReadAll(s, garbage)| == |Numbers(s)| + 1
    decreases |s|
  {
    if s == "" {
      EndOfFileExactly(garbage);
    } else if s[0] == ' ' {
      SkipAny(s[1..], ' ', garbage);
      ReadsTooMuch(s[1..], garbage);
    } else {
      ReadWord(s, true, garbage);
      WordShrinks(s);
      if FirstSpace(s) == |s| {
        EndOfFileExactly(garbage);
      } else {
        ReadsTooMuch(Left(s, garbage), garbage);
      }
    }
  }

  /** A read of a word uses it up. */
  lemma WordShrinks(s: string)
    requires WellFormed(s, true) && s != "" && s[0] != ' ' && s != "\n"
    ensures Starts(s[0])
    ensures forall g: char :: Left(s, g) == PastWord(s)
  {
    var k := FirstSpace(s);
    var w := if k == |s| then Token(s) else s[..k];
    TokenStarts(w);
    assert s[0] == w[0];
    forall g: char ensures Left(s, g) == PastWord(s) {
      StoredWord(s, g);
    }
  }

  /** Which garbage a file survives: any, if it ends with a newline or spaces after its last
      space; otherwise only one that cannot start a number. */
  lemma ReadAllExactly(s: string, garbage: char)
    requires WellFormed(s, true)
    ensures ReadAll(s, garbage) == Numbers(s) <==> WellFormed(s, false) || !Starts(garbage)
  {
    if WellFormed(s, false) {
      ReadAllNumbers(s, false, garbage);
    } else if !Starts(garbage) {
      ReadAllNumbers(s, true, garbage);
    } else {
      ReadsTooMuch(s, garbage);
    }
  }

  /** ... so a file reads back whatever is on the stack exactly when its end is of the first
      kind, and some file is not. */
  lemma ReadsBackExactly(s: string)
    requires WellFormed(s, true)
    ensures (forall g: char :: ReadAll(s, g) == Numbers(s)) <==> WellFormed(s, false)
  {
    ReadAllExactly(s, '7');
    forall g: char ensures WellFormed(s, false) ==> ReadAll(s, g) == Numbers(s) {
      ReadAllExactly(s, g);
    }
  }

  lemma SomeFileFails()
    ensures WellFormed("7 ", true) && !WellFormed("7 ", false)
    ensures Numbers("7 ") == [7] && ReadAll("7 ", '7') != [7]
  {
    var s := "7 ";
    FirstSpaceOf("7", "");
    assert s == "7" + " " + "" && s[..1] == "7" && s[2..] == "";
    assert Decimal.Value("7") == 7 by { assert "7"[..0] == ""; }
    ReadAllExactly(s, '7');
  }

  // ---- writing ----

  /** A number that prints in at most eight characters: with a space and the terminator it fits
      the buffer of ten. */
  predicate Prints(x: int) { Int32(x) && |Decimal.Text(x)| <= 8 }

  predicate AllPrint(xs: seq<int>) { forall k :: 0 <= k < |xs| ==> Prints(xs[k]) }

  /** "%d " for every number. */
  function Written(xs: seq<int>): string
    requires AllPrint(xs)
  {
    if xs == [] then "" else Decimal.Text(xs[0]) + " " + Written(xs[1..])
  }

  lemma TextToken(x: int)
    requires Prints(x)
    ensures IsToken(Decimal.Text(x)) && Decimal.SignedValue(Decimal.Text(x)) == x && ' ' !in Decimal.Text(x)
  {
    NotLeast(x);
    Decimal.TextIsNumeral(x);
    Decimal.MagnitudeIs(x);
    var v := Decimal.Magnitude(x);
    Decimal.DigitsValue(v);
    if x > 0 {
      Decimal.NoSign(x);
    } else if x < 0 {
      assert Decimal.Text(x)[1..] == Decimal.Digits(v);
    }
  }

  lemma NotLeast(x: int)
    requires Prints(x)
    ensures x != MIN
  {
    if x == MIN {
      Decimal.MagnitudeIs(x);
      Decimal.MagnitudeOf(x);
      Decimal.Pow10Values();
      Decimal.Pow10Grows(|Decimal.Digits(x)|, 8);
    }
  }

  /** The file the program writes holds the numbers written, whatever the garbage. */
  lemma {:induction false} WrittenHolds(xs: seq<int>)
    requires AllPrint(xs)
    ensures WellFormed(Written(xs) + "\n", false) && Numbers(Written(xs) + "\n") == xs
  {
    if xs == [] {
      assert Written(xs) + "\n" == "\n";
    } else {
      WrittenHolds(xs[1..]);
      TextToken(xs[0]);
      WordThen(Decimal.Text(xs[0]), Written(xs[1..]), "\n");
    }
  }

  lemma WordThen(t: string, more: string, end: string)
    requires IsToken(t) && ' ' !in t && WellFormed(more + end, false)
    ensures var s := t + " " + more + end;
            WellFormed(s, false) && Numbers(s) == [Decimal.SignedValue(t)] + Numbers(more + end)
  {
    var s, rest := t + " " + more + end, more + end;
    Rejoin(t, more, end);
    FirstSpaceOf(t, rest);
    assert s[0] == t[0] && |s| > |t|;
    assert s != "\n";
  }

  lemma Rejoin(t: string, more: string, end: string)
    ensures var s := t + " " + more + end;
            s == t + " " + (more + end) && s[..|t|] == t && s[|t| + 1..] == more + end
  {
  }

  lemma {:induction false} FirstSpaceOf(t: string, rest: string)
    requires ' ' !in t
    ensures FirstSpace(t + " " + rest) == |t|
  {
    var s := t + " " + rest;
    if t == "" {
      assert s[0] == ' ';
    } else {
      assert s[0] == t[0];
      assert s[1..] == t[1..] + " " + rest;
      FirstSpaceOf(t[1..], rest);
    }
  }

  // ---- merging ----

  predicate Sorted(xs: seq<int>) {
    forall i, j :: 0 <= i < j < |xs| ==> xs[i] <= xs[j]
  }

  /** On a tie the second list goes first. */
  function Merged(a: seq<int>, b: seq<int>): (m: seq<int>)
    ensures |m| == |a| + |b|
    decreases |a| + |b|
  {
    if a == [] then b
    else if b == [] then a
    else if a[0] < b[0] then [a[0]] + Merged(a[1..], b)
    else [b[0]] + Merged(a, b[1..])
  }

  lemma HeadCounted(a: seq<int>)
    requires a != []
    ensures multiset(a) == multiset([a[0]]) + multiset(a[1..])
  {
    assert a == [a[0]] + a[1..];
  }

  lemma {:induction false} MergedKeeps(a: seq<int>, b: seq<int>)
    ensures multiset(Merged(a, b)) == multiset(a) + multiset(b)
    decreases |a| + |b|
  {
    if a != [] && b != [] {
      if a[0] < b[0] {
        MergedKeeps(a[1..], b);
        HeadCounted(a);
      } else {
        MergedKeeps(a, b[1..]);
        HeadCounted(b);
      }
    }
  }

  lemma {:induction false} MergedSorted(a: seq<int>, b: seq<int>)
    requires Sorted(a) && Sorted(b)
    ensures Sorted(Merged(a, b))
    ensures Merged(a, b) != [] ==> (a != [] && Merged(a, b)[0] == a[0]) || (b != [] && Merged(a, b)[0] == b[0])
    decreases |a| + |b|
  {
    if a != [] && b != [] {
      if a[0] < b[0] {
        MergedSorted(a[1..], b);
      } else {
        MergedSorted(a, b[1..]);
      }
    }
  }

  /** The whole program: sorted in, sorted out, nothing lost, and the written file reads back
      as exactly the merged list. */
  lemma MergeReadsBack(s1: string, s2: string, benign: bool, garbage: char)
    requires WellFormed(s1, benign) && WellFormed(s2, benign)
    requires Sorted(Numbers(s1)) && Sorted(Numbers(s2))
    requires AllPrint(Numbers(s1)) && AllPrint(Numbers(s2))
    ensures var m := Merged(Numbers(s1), Numbers(s2));
            && Sorted(m) && multiset(m) == multiset(Numbers(s1)) + multiset(Numbers(s2))
            && AllPrint(m)
            && ReadAll(Written(m) + "\n", garbage) == m
  {
    var a, b := Numbers(s1), Numbers(s2);
    var m := Merged(a, b);
    MergedSorted(a, b);
    MergedKeeps(a, b);
    MergedPrints(a, b);
    WrittenHolds(m);
    ReadAllNumbers(Written(m) + "\n", false, garbage);
  }

  lemma {:induction false} MergedPrints(a: seq<int>, b: seq<int>)
    requires AllPrint(a) && AllPrint(b)
    ensures AllPrint(Merged(a, b))
    decreases |a| + |b|
  {
    if a != [] && b != [] {
      if a[0] < b[0] {
        MergedPrints(a[1..], b);
      } else {
        MergedPrints(a, b[1..]);
      }
    }
  }

  // ---- the C functions ----

  /** An open file. */
  class File {
    var data: string
    var pos: nat

    constructor (text: string)
      ensures data == text && pos == 0
    {
      data := text;
      pos := 0;
    }

    predicate Valid()
      reads this
    {
      pos <= |data|
    }

    function Rest(): string
      requires Valid()
      reads this
    {
      data[pos..]
    }

    /** read(2) of one character; c keeps its value at the end of the file. */
    method ReadChar(before: char) returns (n: nat, c: char)
      requires Valid()
      modifies this`pos
      ensures Valid()
      ensures if old(Rest()) == "" then n == 0 && c == before && Rest() == ""
              else n == 1 && c == old(Rest())[0] && Rest() == old(Rest())[1..]
    {
      if pos == |data| {
        return 0, before;
      }
      c := data[pos];
      pos := pos + 1;
      n := 1;
    }
  }

  /** The first loop of `readint`. */
  method SkipSpaces(f: File, garbage: char) returns (c: char)
    requires f.Valid()
    modifies f`pos
    ensures f.Valid() && (c, f.Rest()) == Skip(old(f.Rest()), garbage)
  {
    var n: nat;
    n, c := f.ReadChar(garbage);
    while n != 0 && c == ' '
      invariant f.Valid()
      invariant Skip(old(f.Rest()), garbage) == if n != 0 && c != ' ' then (c, f.Rest()) else Skip(f.Rest(), c)
      invariant n == 0 ==> f.Rest() == ""
      decreases |f.Rest()|, n
    {
      n, c := f.ReadChar(c);
    }
  }

  lemma WordGrows(head: string, rest: string, k: nat, c: char)
    requires k < |rest| && rest[k] == c
    ensures head + rest[..k] + [c] == head + rest[..k + 1]
  {
  }

  /** The second loop: the rest of the word goes to the buffer from i on. */
  method CollectWord(f: File, buf: array<char>, start: nat, before: char) returns (i: nat)
    requires f.Valid() && start + FirstSpace(f.Rest()) < buf.Length
    modifies f`pos, buf
    ensures f.Valid() && f.Rest() == PastWord(old(f.Rest()))
    ensures start <= i < buf.Length && buf[..i] == old(buf[..start]) + old(f.Rest())[..FirstSpace(old(f.Rest()))]
  {
    ghost var rest, head := f.Rest(), buf[..start];
    ghost var word := FirstSpace(rest);
    i := start;
    var n, c := f.ReadChar(before);
    while n != 0 && c != ' '
      invariant f.Valid() && start <= i <= start + word
      invariant buf[..i] == head + rest[..i - start]
      invariant n == 0 ==> f.Rest() == "" && i - start == |rest|
      invariant n != 0 ==> i - start < |rest| && c == rest[i - start] && f.Rest() == rest[i - start + 1..]
      decreases |f.Rest()|, n
    {
      assert i - start != word;
      ghost var taken := buf[..i];
      buf[i] := c;
      i := i + 1;
      WordGrows(head, rest, i - 1 - start, c);
      assert buf[..i] == taken + [c];
      n, c := f.ReadChar(c);
    }
    assert i - start == word;
  }

  /** `readint`: -1 when there is no number, and then *x stays what it was. */
  method ReadInt(f: File, garbage: char, before: int) returns (status: int, x: int)
    requires f.Valid() && |Stored(f.Rest(), garbage)| <= 9
    modifies f`pos
    ensures f.Valid() && f.Rest() == Left(old(f.Rest()), garbage)
    ensures match Read(old(f.Rest()), garbage)
            case Nothing => status == -1 && x == before
            case Number(v) => status == 0 && x == v
  {
    var buf, i := new char[10], 0;
    var c := SkipSpaces(f, garbage);
    if c == '-' || '0' <= c <= '9' {
      buf[0] := c;
      i := 1;
    }
    i := CollectWord(f, buf, i, c);
    buf[i] := '\0';
    if i == 0 {
      return -1, before;
    }
    x := Atoi(buf[..i]);
    status := 0;
  }

  /** `readint` on a well-formed file that still holds the numbers in left. */
  method NextInt(f: File, ghost left: seq<int>, ghost benign: bool, garbage: char, before: int)
    returns (status: int, n: int)
    requires f.Valid() && WellFormed(f.Rest(), benign) && Numbers(f.Rest()) == left
    requires benign ==> !Starts(garbage)
    modifies f`pos
    ensures Pending(f, status, n, left, benign)
  {
    ReadNext(f.Rest(), benign, garbage);
    status, n := ReadInt(f, garbage, before);
  }

  /** `sprintf` and `write`. */
  method WriteInt(f: File, n: int, ghost m: seq<int>, ghost all: seq<int>)
    requires Prints(n) && AllPrint(all) && all == [n] + m
    modifies f`data
    ensures AllPrint(m) && f.data + Written(m) == old(f.data) + Written(all)
  {
    WriteFirst(f.data, n, m, all);
    f.data := f.data + (Decimal.Text(n) + " ");
  }

  /** What is still to be written when x has been, and m remains. */
  lemma WriteFirst(out: string, x: int, m: seq<int>, all: seq<int>)
    requires all == [x] + m && AllPrint(all)
    ensures AllPrint(m) && Prints(x)
    ensures out + (Decimal.Text(x) + " ") + Written(m) == out + Written(all)
  {
    assert all[0] == x && all[1..] == m;
    assert forall k :: 0 <= k < |m| ==> m[k] == all[k + 1];
  }

  lemma TakeFirst(a: seq<int>, b: seq<int>)
    requires a != [] && (b == [] || a[0] < b[0]) && AllPrint(Merged(a, b))
    ensures Merged(a, b) == [a[0]] + Merged(a[1..], b) && Prints(a[0])
  {
    assert Merged(a, b)[0] == a[0];
    assert b == [] ==> a == [a[0]] + a[1..];
  }

  lemma TakeSecond(a: seq<int>, b: seq<int>)
    requires b != [] && (a == [] || b[0] <= a[0]) && AllPrint(Merged(a, b))
    ensures Merged(a, b) == [b[0]] + Merged(a, b[1..]) && Prints(b[0])
  {
    assert Merged(a, b)[0] == b[0];
    assert a == [] ==> b == [b[0]] + b[1..];
  }

  /** The loop of `main`, entered with a number of each file read ahead. */
  method MergeLoop(f1: File, f2: File, f3: File, ghost benign: bool, garbage: int -> char,
                   first1: (int, int), first2: (int, int), ghost left1: seq<int>, ghost left2: seq<int>)
    requires f1 != f2 && f1 != f3 && f2 != f3 && f3.data == ""
    requires benign ==> forall k: int :: !Starts(garbage(k))
    requires Pending(f1, first1.0, first1.1, left1, benign) && Pending(f2, first2.0, first2.1, left2, benign)
    requires AllPrint(Merged(left1, left2))
    modifies f1`pos, f2`pos, f3`data
    ensures f3.data == Written(Merged(left1, left2))
  {
    ghost var a, b, m := left1, left2, Merged(left1, left2);
    ghost var all := Written(m);
    var ((x1, n1), (x2, n2), calls) := (first1, first2, 2);
    while x1 != -1 || x2 != -1
      invariant Pending(f1, x1, n1, a, benign) && Pending(f2, x2, n2, b, benign)
      invariant m == Merged(a, b) && AllPrint(m) && f3.data + Written(m) == all
      decreases |a| + |b|
    {
      if x1 != -1 && (x2 == -1 || n1 < n2) {
        TakeFirst(a, b);
        a := a[1..];
        WriteInt(f3, n1, Merged(a, b), m);
        m := Merged(a, b);
        x1, n1 := NextInt(f1, a, benign, garbage(calls), n1);
      } else if x2 != -1 && (x1 == -1 || n2 <= n1) {
        TakeSecond(a, b);
        b := b[1..];
        WriteInt(f3, n2, Merged(a, b), m);
        m := Merged(a, b);
        x2, n2 := NextInt(f2, b, benign, garbage(calls), n2);
      } else {
        assert false;
        break;
      }
      calls := calls + 1;
    }
  }

  /** `main`, from the two files opened to the third file written. */
  method MergeTo(f1: File, f2: File, f3: File, ghost benign: bool, garbage: int -> char)
    requires f1 != f2 && f1 != f3 && f2 != f3
    requires f1.Valid() && f2.Valid() && WellFormed(f1.Rest(), benign) && WellFormed(f2.Rest(), benign)
    requires benign ==> forall k: int :: !Starts(garbage(k))
    requires AllPrint(Numbers(f1.Rest())) && AllPrint(Numbers(f2.Rest())) && f3.data == ""
    modifies f1`pos, f2`pos, f3`data
    ensures var m := Merged(old(Numbers(f1.Rest())), old(Numbers(f2.Rest())));
            AllPrint(m) && f3.data == Written(m) + "\n"
  {
    ghost var a, b := Numbers(f1.Rest()), Numbers(f2.Rest());
    MergedPrints(a, b);
    var x1, n1 := NextInt(f1, a, benign, garbage(0), 0);
    var x2, n2 := NextInt(f2, b, benign, garbage(1), 0);
    MergeLoop(f1, f2, f3, benign, garbage, (x1, n1), (x2, n2), a, b);
    f3.data := f3.data + "\n";
  }

  /** A file's next number has been read ahead, and left are the numbers after it. */
  ghost predicate Pending(f: File, status: int, n: int, left: seq<int>, benign: bool)
    reads f
  {
    && f.Valid()
    && (status == -1 <==> left == [])
    && (left != [] ==> left[0] == n && WellFormed(f.Rest(), benign) && Numbers(f.Rest()) == left[1..])
  }
}
