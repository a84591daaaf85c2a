/** The hex dump of packet_sniffing/pcap/packet_sniff.c and the text dump of the observer.

    Both write while they walk over the buffer. The hex dump prints each byte as it comes and
    goes back for the text of a row once the row is complete; the specification is the plain
    layout, a line for every 16 bytes. */
module HexDump {

  import opened Machine

  const WIDTH := 16

  // ---- the layout, row by row ----

  function Spaces(n: nat): (s: string)
    ensures |s| == n
  {
    seq(n, _ => ' ')
  }

  function Digit(d: nat): (c: char)
    requires d < 16
  {
    "0123456789ABCDEF"[d]
  }

  /** " %02X". */
  function Cell(b: Byte): (s: string)
    ensures |s| == 3
  {
    [' ', Digit(b as nat / 16), Digit(b as nat % 16)]
  }

  function Hex(row: seq<Byte>): (s: string)
    ensures |s| == 3 * |row|
  {
    if row == [] then [] else Hex(row[..|row| - 1]) + Cell(row[|row| - 1])
  }

  /** A byte from 32 to 128 as a character, a dot for every other. */
  function Glyph(b: Byte): char {
    if 32 <= b <= 128 then b as char else '.'
  }

  function Text(row: seq<Byte>): (s: string)
    ensures |s| == |row|
  {
    if row == [] then [] else Text(row[..|row| - 1]) + [Glyph(row[|row| - 1])]
  }

  const MARGIN := 3
  const AREA := 3 * WIDTH
  const GAP := 9

  function Padded(row: seq<Byte>): (s: string)
    requires |row| <= WIDTH
    ensures |s| == AREA
  {
    Hex(row) + Spaces(AREA - 3 * |row|)
  }

  function Line(row: seq<Byte>): (s: string)
    requires |row| <= WIDTH
  {
    Spaces(MARGIN) + Padded(row) + Spaces(GAP) + Text(row) + "\n"
  }

  /** The first row of a buffer and what comes after it. */
  function First(data: seq<Byte>): (row: seq<Byte>)
    ensures |row| <= WIDTH
  {
    if |data| <= WIDTH then data else data[..WIDTH]
  }

  function Rest(data: seq<Byte>): (rest: seq<Byte>)
    ensures data == First(data) + rest
    ensures data != [] ==> |rest| < |data|
  {
    if |data| <= WIDTH then [] else data[WIDTH..]
  }

  function Dump(data: seq<Byte>): (s: string)
    decreases |data|
  {
    if data == [] then [] else Line(First(data)) + Dump(Rest(data))
  }

  // ---- what the columns of the dump say ----

  function HexValue(c: char): (d: nat)
    ensures d < 16
  {
    if '0' <= c <= '9' then c as nat - '0' as nat else if 'A' <= c <= 'F' then c as nat - 'A' as nat + 10 else 0
  }

  /** Reading a hex area back: cells of a space and two digits, until the padding. */
  function Decode(area: string): (row: seq<Byte>)
    decreases |area|
  {
    if |area| < 3 || area[1] == ' ' then []
    else [HexValue(area[1]) * 16 + HexValue(area[2])] + Decode(area[3..])
  }

  /** The columns of one line. */
  const HEX_COLUMN := MARGIN
  const TEXT_COLUMN := MARGIN + AREA + GAP

  function Slice(s: string, lo: nat, hi: nat): string {
    if lo <= hi <= |s| then s[lo..hi] else []
  }

  function FirstNewline(s: string): (k: nat)
    ensures k <= |s| && (k < |s| ==> s[k] == '\n') && forall i :: 0 <= i < k ==> s[i] != '\n'
  {
    if s == [] || s[0] == '\n' then 0 else 1 + FirstNewline(s[1..])
  }

  /** The hex columns of a text, line by line, read back as bytes; and its text columns. */
  function Undump(s: string): seq<Byte>
    decreases |s|
  {
    var k := FirstNewline(s);
    if k == |s| then [] else Decode(Slice(s[..k], HEX_COLUMN, HEX_COLUMN + AREA)) + Undump(s[k + 1..])
  }

  function TextColumn(s: string): string
    decreases |s|
  {
    var k := FirstNewline(s);
    if k == |s| then [] else Slice(s[..k], TEXT_COLUMN, k) + TextColumn(s[k + 1..])
  }

  lemma CellDecodes(b: Byte)
    ensures HexValue(Cell(b)[1]) * 16 + HexValue(Cell(b)[2]) == b && Cell(b)[1] != ' '
  {
    DigitValue(b as nat / 16);
    DigitValue(b as nat % 16);
  }

  lemma DigitValue(d: nat)
    requires d < 16
    ensures HexValue(Digit(d)) == d && Digit(d) != ' ' && Digit(d) != '\n'
  {
  }

  lemma {:induction false} HexFront(row: seq<Byte>)
    requires row != []
    ensures Hex(row) == Cell(row[0]) + Hex(row[1..])
  {
    var n := |row| - 1;
    if n > 0 {
      HexFront(row[..n]);
      assert row[..n][1..] == row[1..][..n - 1];
    }
  }

  lemma {:induction false} DecodeHex(row: seq<Byte>, pad: nat)
    ensures Decode(Hex(row) + Spaces(pad)) == row
  {
    var s := Hex(row) + Spaces(pad);
    if row == [] {
      assert s == Spaces(pad);
    } else {
      HexFront(row);
      CellDecodes(row[0]);
      assert s[3..] == Hex(row[1..]) + Spaces(pad);
      DecodeHex(row[1..], pad);
    }
  }

  lemma DigitsNotNewlines(b: Byte)
    ensures '\n' !in Cell(b)
  {
    DigitValue(b as nat / 16);
    DigitValue(b as nat % 16);
  }

  lemma {:induction false} HexHasNoNewline(row: seq<Byte>)
    ensures '\n' !in Hex(row)
  {
    if row != [] {
      HexHasNoNewline(row[..|row| - 1]);
      DigitsNotNewlines(row[|row| - 1]);
    }
  }

  lemma {:induction false} TextHasNoNewline(row: seq<Byte>)
    ensures '\n' !in Text(row)
  {
    if row != [] {
      TextHasNoNewline(row[..|row| - 1]);
    }
  }

  /** A line ends at its own newline, its hex area is in the same columns whatever the row's
      length and decodes to the row, and its text is what follows. */
  lemma LineColumns(row: seq<Byte>, rest: string)
    requires |row| <= WIDTH
    ensures var s, k := Line(row) + rest, TEXT_COLUMN + |row|;
            && FirstNewline(s) == k < |s| && s[k + 1..] == rest
            && Decode(Slice(s[..k], HEX_COLUMN, HEX_COLUMN + AREA)) == row
            && Slice(s[..k], TEXT_COLUMN, k) == Text(row)
  {
    var s, k := Line(row) + rest, TEXT_COLUMN + |row|;
    HexHasNoNewline(row);
    TextHasNoNewline(row);
    var body := Spaces(MARGIN) + Padded(row) + Spaces(GAP) + Text(row);
    BodyColumns(Padded(row), Text(row));
    EndsAtNewline(body, rest);
    assert s == body + "\n" + rest;
    DecodeHex(row, AREA - 3 * |row|);
  }

  lemma EndsAtNewline(body: string, rest: string)
    requires '\n' !in body
    ensures var s := body + "\n" + rest;
            FirstNewline(s) == |body| && s[..|body|] == body && s[|body| + 1..] == rest
  {
    var s := body + "\n" + rest;
    assert forall i :: 0 <= i < |body| ==> s[i] == body[i];
    assert s[|body|] == '\n';
  }

  lemma BodyColumns(area: string, text: string)
    requires |area| == AREA && '\n' !in area && '\n' !in text
    ensures var body := Spaces(MARGIN) + area + Spaces(GAP) + text;
            && '\n' !in body && |body| == TEXT_COLUMN + |text|
            && Slice(body, HEX_COLUMN, HEX_COLUMN + AREA) == area
            && Slice(body, TEXT_COLUMN, TEXT_COLUMN + |text|) == text
  {
    var body := Spaces(MARGIN) + area + Spaces(GAP) + text;
    assert body[HEX_COLUMN..HEX_COLUMN + AREA] == area;
    assert body[TEXT_COLUMN..] == text;
    assert body[TEXT_COLUMN..TEXT_COLUMN + |text|] == text;
  }

  /** The k-th character of a text is the k-th byte if it is one of the characters from 32 to
      128, and a dot otherwise. */
  lemma {:induction false} TextAt(row: seq<Byte>, k: nat)
    requires k < |row|
    ensures Text(row)[k] == (if 32 <= row[k] <= 128 then row[k] as char else '.')
  {
    if k < |row| - 1 {
      TextAt(row[..|row| - 1], k);
    }
  }

  /** The hex cells of a row, character by character. */
  lemma {:induction false} HexAt(row: seq<Byte>, c: nat)
    requires c < 3 * |row|
    ensures Hex(row)[c] == HexCharacter(row, c)
  {
    var n := |row| - 1;
    if c < 3 * n {
      HexAt(row[..n], c);
      assert Hex(row)[c] == Hex(row[..n])[c];
    }
  }

  /** What stands c characters into the cells: a blank, then the two digits of a byte. */
  function HexCharacter(row: seq<Byte>, c: nat): char
    requires c < 3 * |row|
  {
    var b := row[c / 3] as nat;
    if c % 3 == 0 then ' '
    else if c % 3 == 1 then "0123456789ABCDEF"[b / 16]
    else "0123456789ABCDEF"[b % 16]
  }

  lemma PartsAt(margin: string, hex: string, pad: string, gap: string, text: string, c: nat)
    requires |margin| == 3 && |hex| + |pad| == 48 && |gap| == 9 && c < 60 + |text|
    ensures (margin + (hex + pad) + gap + text + "\n")[c]
         == if c < 3 then margin[c] else if c < 3 + |hex| then hex[c - 3]
            else if c < 51 then pad[c - 3 - |hex|] else if c < 60 then gap[c - 51] else text[c - 60]
  {
    var body := margin + (hex + pad) + gap;
    assert |body| == 60;
    if c < 51 {
      assert body[c] == (margin + (hex + pad))[c];
    }
  }

  /** A line, column by column: the digits of byte k in columns 3 k + 4 and 3 k + 5, the text from
      column 60 on, then the newline; blanks everywhere else. */
  lemma LineAt(row: seq<Byte>, c: nat)
    requires |row| <= 16 && c < 60 + |row| + 1
    ensures |Line(row)| == 60 + |row| + 1
    ensures Line(row)[c]
         == if c == 60 + |row| then '\n'
            else if c >= 60 then (if 32 <= row[c - 60] <= 128 then row[c - 60] as char else '.')
            else if 3 <= c < 3 + 3 * |row| && c % 3 == 1 then "0123456789ABCDEF"[row[(c - 4) / 3] as nat / 16]
            else if 3 <= c < 3 + 3 * |row| && c % 3 == 2 then "0123456789ABCDEF"[row[(c - 5) / 3] as nat % 16]
            else ' '
  {
    var pad := Spaces(AREA - 3 * |row|);
    if c < 60 + |row| {
      PartsAt(Spaces(MARGIN), Hex(row), pad, Spaces(GAP), Text(row), c);
      if c >= 60 {
        TextAt(row, c - 60);
      } else if 3 <= c < 3 + 3 * |row| {
        HexAt(row, c - 3);
        Thirds(c);
      }
    }
  }

  lemma Thirds(c: nat)
    requires c >= 3
    ensures (c - 3) % 3 == c % 3
    ensures c % 3 == 1 ==> (c - 4) / 3 == (c - 3) / 3
    ensures c % 3 == 2 ==> (c - 5) / 3 == (c - 3) / 3
  {
  }

  lemma {:induction false} TextJoins(a: seq<Byte>, b: seq<Byte>)
    ensures Text(a + b) == Text(a) + Text(b)
  {
    if b == [] {
      assert a + b == a;
    } else {
      var n := |b| - 1;
      TextJoins(a, b[..n]);
      assert (a + b)[..|a + b| - 1] == a + b[..n];
    }
  }

  /** The dump loses nothing: its hex columns give the buffer back, its text columns are the
      text of the whole buffer. */
  lemma {:induction false} DumpDecodes(data: seq<Byte>)
    ensures Undump(Dump(data)) == data && TextColumn(Dump(data)) == Text(data)
    decreases |data|
  {
    if data != [] {
      var row, rest := First(data), Rest(data);
      DumpDecodes(rest);
      LineColumns(row, Dump(rest));
      TextJoins(row, rest);
    }
  }

  // ---- the streaming printers ----

  /** A whole number of rows. */
  predicate RowBoundary(k: nat) {
    k == 0 || (k >= WIDTH && RowBoundary(k - WIDTH))
  }

  lemma {:induction false} ColumnOf(k: nat, i: nat)
    requires RowBoundary(k) && k <= i < k + WIDTH
    ensures i % 16 == i - k
  {
    if k > 0 {
      ColumnOf(k - WIDTH, i - WIDTH);
    }
  }

  /** Full rows dump on their own. */
  lemma {:induction false} DumpJoins(a: seq<Byte>, b: seq<Byte>)
    requires RowBoundary(|a|)
    ensures Dump(a + b) == Dump(a) + Dump(b)
    decreases |a|
  {
    if a == [] {
      assert a + b == b;
    } else {
      assert First(a + b) == First(a) && Rest(a + b) == Rest(a) + b;
      DumpJoins(Rest(a), b);
      LinesJoin(Line(First(a)), Dump(Rest(a)), Dump(b));
    }
  }

  lemma LinesJoin(x: string, y: string, z: string)
    ensures x + (y + z) == (x + y) + z
  {
  }

  lemma OneRow(row: seq<Byte>)
    requires 0 < |row| <= WIDTH
    ensures Dump(row) == Line(row)
  {
    assert Dump(Rest(row)) == [];
  }

  lemma RowDone(data: seq<Byte>, k: nat, i: nat)
    requires k < i <= |data| && i <= k + WIDTH && RowBoundary(k)
    ensures Dump(data[..i]) == Dump(data[..k]) + Line(data[k..i])
  {
    var a, b := data[..k], data[k..i];
    assert data[..i] == a + b;
    DumpJoins(a, b);
    OneRow(b);
  }

  /** The inner loops over j: the text of the bytes from lo to hi. */
  method PrintText(data: seq<Byte>, lo: nat, hi: nat) returns (out: string)
    requires lo <= hi <= |data|
    ensures out == Text(data[lo..hi])
  {
    out := "";
    for j := lo to hi
      invariant out == Text(data[lo..j])
    {
      assert data[lo..j + 1][..j - lo] == data[lo..j];
      out := out + [Glyph(data[j])];
    }
  }

  method PrintPadding(n: nat) returns (out: string)
    ensures out == Spaces(3 * n)
  {
    out := "";
    for j := 0 to n
      invariant out == Spaces(3 * j)
    {
      out := out + "   ";
    }
  }

  /** What stands in the log once the rows before k are complete and the bytes from k to i
      are out in hex. */
  function Partial(data: seq<Byte>, k: nat, i: nat): string
    requires k <= i <= |data|
  {
    if i == k then Dump(data[..k]) + Spaces(MARGIN) else Partial(data, k, i - 1) + Cell(data[i - 1])
  }

  lemma HexGrows(data: seq<Byte>, k: nat, i: nat)
    requires k < i <= |data|
    ensures Hex(data[k..i]) == Hex(data[k..i - 1]) + Cell(data[i - 1])
  {
    assert data[k..i][..i - k - 1] == data[k..i - 1];
  }

  lemma CellPrinted(data: seq<Byte>, k: nat, i: nat, log: string)
    requires k <= i < |data| && log == Partial(data, k, i)
    ensures log + Cell(data[i]) == Partial(data, k, i + 1)
  {
  }

  lemma PartialNext(data: seq<Byte>, k: nat, i: nat, before: string)
    requires k < i <= |data| && Partial(data, k, i - 1) == before + Hex(data[k..i - 1])
    ensures Partial(data, k, i) == before + Hex(data[k..i])
  {
    var hex, cell := Hex(data[k..i - 1]), Cell(data[i - 1]);
    HexGrows(data, k, i);
    LinesJoin(before, hex, cell);
    CellPrinted(data, k, i - 1, before + hex);
  }

  lemma NoCells(data: seq<Byte>, k: nat)
    requires k <= |data|
    ensures |Hex(data[k..k])| == 0
  {
  }

  lemma NothingAfter(a: string, b: string)
    requires |b| == 0
    ensures a == a + b
  {
  }

  lemma {:induction false} PartialFrom(data: seq<Byte>, k: nat, i: nat, before: string)
    requires k <= i <= |data| && before == Partial(data, k, k)
    ensures Partial(data, k, i) == before + Hex(data[k..i])
  {
    if k < i {
      PartialFrom(data, k, i - 1, before);
      PartialNext(data, k, i, before);
    } else {
      NoCells(data, k);
      NothingAfter(before, Hex(data[k..k]));
    }
  }

  lemma PartialIs(data: seq<Byte>, k: nat, i: nat)
    requires k <= i <= |data|
    ensures Partial(data, k, i) == Dump(data[..k]) + Spaces(MARGIN) + Hex(data[k..i])
  {
    PartialFrom(data, k, i, Partial(data, k, k));
  }

  function Tail(row: seq<Byte>): string {
    Spaces(GAP) + Text(row) + "\n"
  }

  lemma RowStarted(data: seq<Byte>, i: nat, log: string)
    requires i <= |data| && log == Dump(data[..i])
    ensures log + "   " == Partial(data, i, i)
  {
    assert Spaces(MARGIN) == "   ";
  }

  /** Padding, gap and text complete a row. */
  lemma RowPrinted(data: seq<Byte>, k: nat, i: nat, log: string, padding: string, tail: string)
    requires k < i <= |data| && i <= k + WIDTH && RowBoundary(k) && log == Partial(data, k, i)
    requires padding == Spaces(AREA - 3 * |data[k..i]|) && tail == Tail(data[k..i])
    ensures log + (padding + tail) == Dump(data[..i])
  {
    var before, row := Dump(data[..k]), data[k..i];
    PartialIs(data, k, i);
    PartsJoin(before, row, log, padding, tail);
    RowDone(data, k, i);
  }

  lemma PartsJoin(before: string, row: seq<Byte>, log: string, padding: string, tail: string)
    requires |row| <= WIDTH && log == before + Spaces(MARGIN) + Hex(row)
    requires padding == Spaces(AREA - 3 * |row|) && tail == Tail(row)
    ensures log + (padding + tail) == before + Line(row)
  {
    LineParts(before, row);
  }

  lemma LineParts(before: string, row: seq<Byte>)
    requires |row| <= WIDTH
    ensures before + Line(row) == (before + Spaces(MARGIN) + Hex(row)) + (Spaces(AREA - 3 * |row|) + Tail(row))
  {
    Regroup(before, Spaces(MARGIN), Hex(row), Spaces(AREA - 3 * |row|), Spaces(GAP), Text(row));
  }

  lemma Regroup(before: string, margin: string, hex: string, pad: string, gap: string, text: string)
    ensures before + (margin + (hex + pad) + gap + text + "\n") == (before + margin + hex) + (pad + (gap + text + "\n"))
  {
    var tail := gap + text + "\n";
    assert margin + (hex + pad) + gap + text + "\n" == (margin + hex) + (pad + tail);
  }

  lemma FullRowPrinted(data: seq<Byte>, k: nat, i: nat, log: string, tail: string)
    requires k + WIDTH == i <= |data| && RowBoundary(k) && log == Partial(data, k, i)
    requires tail == Tail(data[k..i])
    ensures log + tail == Dump(data[..i])
  {
    assert AREA - 3 * |data[k..i]| == 0;
    RowPrinted(data, k, i, log, Spaces(0), tail);
    NothingBefore(Spaces(0), tail);
  }

  lemma NothingBefore(a: string, b: string)
    requires |a| == 0
    ensures a + b == b
  {
  }

  method PrintTail(data: seq<Byte>, lo: nat, hi: nat) returns (out: string)
    requires lo <= hi <= |data|
    ensures out == Tail(data[lo..hi])
  {
    var text := PrintText(data, lo, hi);
    out := "         " + text + "\n";
  }

  /** The log before the byte at i; row is where the row of the byte before starts. */
  function Printed(data: seq<Byte>, row: nat, i: nat): string
    requires row <= i <= |data|
  {
    if i == 0 then "" else if i == |data| then Dump(data) else Partial(data, row, i)
  }

  /** The first half of the loop body: the text of a complete row, the margin of a new one,
      the byte in hex. */
  method PrintByte(data: seq<Byte>, i: nat, ghost row: nat, before: string) returns (log: string, ghost start: nat)
    requires i < |data| && RowBoundary(row) && row <= i <= row + WIDTH
    requires before == Printed(data, row, i)
    requires i == row ==> i == 0
    ensures start <= i && RowBoundary(start) && i % 16 == i - start < WIDTH && log == Partial(data, start, i + 1)
  {
    log := before;
    start := if i == row + WIDTH then i else row;
    ColumnOf(start, i);
    if i != 0 && i % 16 == 0 {
      var tail := PrintTail(data, i - 16, i);
      FullRowPrinted(data, i - 16, i, log, tail);
      log := log + tail;
    }
    if i % 16 == 0 {
      RowStarted(data, i, log);
      log := log + "   ";
    }
    CellPrinted(data, start, i, log);
    log := log + Cell(data[i]);
  }

  lemma WholeBuffer(data: seq<Byte>, n: nat)
    requires n == |data|
    ensures Dump(data[..n]) == Dump(data)
  {
    assert data[..n] == data;
  }

  /** The second half, after the last byte. */
  method PrintLast(data: seq<Byte>, i: nat, ghost start: nat, before: string) returns (log: string)
    requires i + 1 == |data| && start <= i && RowBoundary(start) && i % 16 == i - start < WIDTH
    requires before == Partial(data, start, i + 1)
    ensures log == Dump(data)
  {
    var padding := PrintPadding(15 - i % 16);
    var tail := PrintTail(data, i - i % 16, i + 1);
    log := before + (padding + tail);
    assert i - i % 16 == start;
    assert 3 * (15 - i % 16) == AREA - 3 * |data[start..i + 1]|;
    RowPrinted(data, start, i + 1, before, padding, tail);
    WholeBuffer(data, i + 1);
  }

  /** The loop body. */
  method PrintOne(data: seq<Byte>, i: nat, ghost row: nat, before: string) returns (log: string, ghost start: nat)
    requires i < |data| && RowBoundary(row) && row <= i <= row + WIDTH && (i == row ==> i == 0)
    requires before == Printed(data, row, i)
    ensures RowBoundary(start) && start <= i < start + WIDTH && log == Printed(data, start, i + 1)
  {
    log, start := PrintByte(data, i, row, before);
    if i == |data| - 1 {
      log := PrintLast(data, i, start, log);
    }
  }

  /** `PrintData` of packet_sniff.c. */
  method PrintData(data: seq<Byte>) returns (log: string)
    ensures log == Dump(data)
  {
    log := "";
    var i := 0;
    ghost var row: nat := 0;
    while i < |data|
      invariant 0 <= i <= |data| && RowBoundary(row)
      invariant row <= i <= row + WIDTH && (i == row ==> i == 0)
      invariant log == Printed(data, row, i)
    {
      log, row := PrintOne(data, i, row, log);
      i := i + 1;
    }
  }

  lemma TextGrows(data: seq<Byte>, k: nat, i: nat)
    requires k <= i <= |data|
    ensures Text(data[..k]) + Text(data[k..i]) == Text(data[..i])
  {
    TextJoins(data[..k], data[k..i]);
    assert data[..k] + data[k..i] == data[..i];
  }

  /** The first half of the loop body: the text of a complete row. */
  method PrintRow(data: seq<Byte>, i: nat, ghost row: nat, before: string) returns (out: string, ghost start: nat)
    requires i < |data| && RowBoundary(row) && row <= i <= row + WIDTH && (i == row ==> i == 0)
    requires before == Text(data[..row])
    ensures start <= i && RowBoundary(start) && i % 16 == i - start < WIDTH && out == Text(data[..start])
  {
    out := before;
    start := if i == row + WIDTH then i else row;
    ColumnOf(start, i);
    if i != 0 && i % 16 == 0 {
      var text := PrintText(data, i - 16, i);
      TextGrows(data, i - 16, i);
      out := out + text;
    }
  }

  /** The second half, after the last byte. */
  method PrintLastRow(data: seq<Byte>, i: nat, ghost start: nat, before: string) returns (out: string)
    requires i + 1 == |data| && start <= i && i % 16 == i - start < WIDTH && before == Text(data[..start])
    ensures out == Text(data) + "\n"
  {
    var text := PrintText(data, i - i % 16, i + 1);
    assert i - i % 16 == start;
    TextGrows(data, start, i + 1);
    assert data[..i + 1] == data;
    out := before + text + "\n";
  }

  /** `PrintData` of the observer. */
  method PrintDataText(data: seq<Byte>) returns (out: string)
    ensures out == if data == [] then "" else TextColumn(Dump(data)) + "\n"
  {
    out := "";
    var i := 0;
    ghost var row: nat := 0;
    while i < |data|
      invariant 0 <= i <= |data| && RowBoundary(row)
      invariant row <= i <= row + WIDTH && (i == row ==> i == 0)
      invariant out == if i == |data| && i > 0 then Text(data) + "\n" else Text(data[..row])
    {
      out, row := PrintRow(data, i, row, out);
      if i == |data| - 1 {
        out := PrintLastRow(data, i, row, out);
      }
      i := i + 1;
    }
    DumpDecodes(data);
  }
}
