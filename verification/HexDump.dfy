/** Download of binary files: the decoder of `hexdump -C` output, and the printer it reads
    from. The printer squeezes a row that repeats the row before it into `*`, as `hexdump`
    does without `-v`, so decoding is exact only for data without such a row. */
module HexDump {
  import opened Prelude
  import opened Text

  type Byte = b: int | 0 <= b < 256

  const ROW := 16

  const OFFSET_TOKENS := 4

  function HexDigit(n: nat): char
    requires n < 16
  {
    (n + if n < 10 then '0' as int else 'a' as int - 10) as char
  }

  function HexValue(ch: char): (n: nat)
    requires IsHex(ch)
    ensures n < 16
  {
    if ch <= '9' then (ch as int) - ('0' as int) else (ch as int) - ('a' as int) + 10
  }

  function TwoDigits(b: Byte): string {
    [HexDigit(b / 16), HexDigit(b % 16)]
  }

  lemma DigitReadsBack(n: nat)
    requires n < 16
    ensures IsHex(HexDigit(n)) && HexValue(HexDigit(n)) == n
  {
  }

  // ---------------------------------------------------------------- the decoder

  /** `re.findall("[0-9a-f]{2}", s)`, each match as its value. */
  function FindPairs(s: string): seq<Byte> {
    if |s| < 2 then []
    else if IsHex(s[0]) && IsHex(s[1]) then [HexValue(s[0]) * 16 + HexValue(s[1])] + FindPairs(s[2..])
    else FindPairs(s[1..])
  }

  /** The part of a text before the first bar. */
  function BeforeBar(s: string): string {
    s[..IndexOf(s, '|')]
  }

  function DecodeLine(line: string): seq<Byte> {
    if '|' !in line then []
    else
      var tokens := FindPairs(BeforeBar(line));
      if |tokens| < OFFSET_TOKENS then [] else tokens[OFFSET_TOKENS..]
  }

  function DecodeLines(lines: seq<string>): seq<Byte> {
    Flatten(Map(DecodeLine, lines))
  }

  function Decode(text: string): seq<Byte> {
    DecodeLines(SplitLines(text))
  }

  lemma DecodeLinesConcat(a: seq<string>, b: seq<string>)
    ensures DecodeLines(a + b) == DecodeLines(a) + DecodeLines(b)
  {
    MapConcat(DecodeLine, a, b);
    FlattenConcat(Map(DecodeLine, a), Map(DecodeLine, b));
  }

  lemma DecodeOneLine(line: string)
    ensures DecodeLines([line]) == DecodeLine(line)
  {
    FlattenOne(DecodeLine(line));
    assert Map(DecodeLine, [line]) == [DecodeLine(line)];
  }

  method ParseHexdump(text: string) returns (data: seq<Byte>)
    ensures data == Decode(text)
  {
    var chunks: seq<seq<Byte>> := [];
    var lines := SplitLines(text);
    for n := 0 to |lines|
      invariant Flatten(chunks) == DecodeLines(lines[..n])
    {
      var line := lines[n];
      DecodeLinesConcat(lines[..n], [line]);
      DecodeOneLine(line);
      assert lines[..n + 1] == lines[..n] + [line];
      if '|' !in line {
        continue;
      }
      var tokens := FindPairs(BeforeBar(line));
      if |tokens| > OFFSET_TOKENS {
        FlattenSnoc(chunks, tokens[OFFSET_TOKENS..]);
        chunks := chunks + [tokens[OFFSET_TOKENS..]];
      }
    }
    assert lines[..|lines|] == lines;
    data := Flatten(chunks);
  }

  // ---------------------------------------------------------------- the printer

  /** A 32-bit offset as eight digits. */
  function OffsetDigits(n: nat): string {
    TwoDigits(n / 0x100_0000 % 256) + TwoDigits(n / 0x1_0000 % 256) + TwoDigits(n / 0x100 % 256) + TwoDigits(n % 256)
  }

  function Printable(b: Byte): char {
    if 0x20 <= b <= 0x7E then b as char else '.'
  }

  /** One cell and, in the middle of the row, the wider gap; a missing byte is blank. */
  function Cell(bytes: seq<Byte>, i: nat): string {
    (if i < |bytes| then TwoDigits(bytes[i]) else "  ") + (if i == 7 then "  " else " ")
  }

  /** Sixteen cells and the closing blank, from cell `i` on. */
  function Cells(bytes: seq<Byte>, i: nat): string
    requires i <= ROW
  {
    Flatten(seq(ROW - i, k requires 0 <= k < ROW - i => Cell(bytes, i + k))) + " "
  }

  function Ascii(bytes: seq<Byte>): string {
    seq(|bytes|, i requires 0 <= i < |bytes| => Printable(bytes[i]))
  }

  function RowLine(offset: nat, bytes: seq<Byte>): string {
    OffsetDigits(offset) + ("  " + Cells(bytes, 0)) + "|" + (Ascii(bytes) + "|")
  }

  function RowAt(data: seq<Byte>, at: nat): seq<Byte>
    requires at <= |data|
  {
    if at + ROW <= |data| then data[at..at + ROW] else data[at..]
  }

  /** Whether the row at `at` is squeezed: it equals the row before it as far as it goes. */
  predicate Repeats(data: seq<Byte>, at: nat)
    requires at <= |data|
  {
    at >= ROW && RowAt(data, at) <= RowAt(data, at - ROW)
  }

  /** What stands for one row; `starred` says a `*` already stands for the current repeats. */
  function RowLines(data: seq<Byte>, at: nat, starred: bool): seq<string>
    requires at <= |data|
  {
    if !Repeats(data, at) then [RowLine(at, RowAt(data, at))] else if starred then [] else ["*"]
  }

  function DumpFrom(data: seq<Byte>, at: nat, starred: bool): seq<string>
    decreases |data| - at
  {
    if at >= |data| then [OffsetDigits(|data|)]
    else RowLines(data, at, starred) + DumpFrom(data, at + ROW, Repeats(data, at))
  }

  function Dump(data: seq<Byte>): seq<string> {
    if data == [] then [] else DumpFrom(data, 0, false)
  }

  // ---------------------------------------------------------------- round trip

  /** What survives: the rows that were not squeezed. */
  function Kept(data: seq<Byte>, at: nat): seq<Byte>
    decreases |data| - at
  {
    if at >= |data| then []
    else (if Repeats(data, at) then [] else RowAt(data, at)) + Kept(data, at + ROW)
  }

  ghost predicate NoRowRepeats(data: seq<Byte>) {
    forall row :: 1 <= row && row * ROW < |data| ==> !Repeats(data, row * ROW)
  }

  /** Neither hexadecimal pairs nor bars: nothing the decoder would notice. */
  predicate Spaces(s: string) {
    forall i :: 0 <= i < |s| ==> s[i] == ' '
  }

  /** Hexadecimal digits and blanks only: no bar and no line break. */
  predicate Numeric(s: string) {
    forall i :: 0 <= i < |s| ==> IsHex(s[i]) || s[i] == ' '
  }

  predicate NoBar(s: string) {
    forall i :: 0 <= i < |s| ==> s[i] != '|'
  }

  lemma {:induction false} PairsAfterSpaces(blank: string, s: string)
    requires Spaces(blank)
    ensures FindPairs(blank + s) == FindPairs(s)
  {
    if blank == "" {
      assert blank + s == s;
    } else {
      PairsAfterSpaces(blank[1..], s);
      assert (blank + s)[1..] == blank[1..] + s;
    }
  }

  lemma PairsAfterByte(b: Byte, s: string)
    ensures FindPairs(TwoDigits(b) + s) == [b] + FindPairs(s)
  {
    DigitReadsBack(b / 16);
    DigitReadsBack(b % 16);
    assert (TwoDigits(b) + s)[2..] == s;
  }

  lemma TwoDigitsAreNumeric(b: Byte)
    ensures Numeric(TwoDigits(b))
  {
    DigitReadsBack(b / 16);
    DigitReadsBack(b % 16);
  }

  lemma PairsAfterCell(bytes: seq<Byte>, i: nat, s: string)
    ensures FindPairs(Cell(bytes, i) + s) == (if i < |bytes| then [bytes[i]] else []) + FindPairs(s)
    ensures Numeric(Cell(bytes, i))
  {
    hide FindPairs, TwoDigits;
    var gap := if i == 7 then "  " else " ";
    PairsAfterSpaces(gap, s);
    if i < |bytes| {
      TwoDigitsAreNumeric(bytes[i]);
      PairsAfterByte(bytes[i], gap + s);
      assert Cell(bytes, i) + s == TwoDigits(bytes[i]) + (gap + s);
    } else {
      PairsAfterSpaces("  ", gap + s);
      assert Cell(bytes, i) + s == "  " + (gap + s);
    }
  }

  lemma CellsUnfold(bytes: seq<Byte>, i: nat)
    requires i < ROW
    ensures Cells(bytes, i) == Cell(bytes, i) + Cells(bytes, i + 1)
  {
    var all := seq(ROW - i, k requires 0 <= k < ROW - i => Cell(bytes, i + k));
    var rest := seq(ROW - i - 1, k requires 0 <= k < ROW - i - 1 => Cell(bytes, i + 1 + k));
    assert all[1..] == rest;
    assert Flatten(all) == Cell(bytes, i) + Flatten(rest);
  }

  lemma {:induction false} CellsReadBack(bytes: seq<Byte>, i: nat)
    requires |bytes| <= ROW && i <= ROW
    ensures FindPairs(Cells(bytes, i)) == if i <= |bytes| then bytes[i..] else []
    ensures Numeric(Cells(bytes, i))
    decreases ROW - i
  {
    if i == ROW {
      assert Cells(bytes, i) == " ";
    } else {
      CellsReadBack(bytes, i + 1);
      CellsUnfold(bytes, i);
      PairsAfterCell(bytes, i, Cells(bytes, i + 1));
    }
  }

  /** The offset is read as four pairs, whatever it is. */
  lemma PairsAfterOffset(n: nat, s: string)
    ensures |FindPairs(OffsetDigits(n) + s)| == OFFSET_TOKENS + |FindPairs(s)|
    ensures FindPairs(OffsetDigits(n) + s)[OFFSET_TOKENS..] == FindPairs(s)
    ensures Numeric(OffsetDigits(n))
  {
    var a, b, c, d := n / 0x100_0000 % 256, n / 0x1_0000 % 256, n / 0x100 % 256, n % 256;
    PairsAfterByte(d, s);
    PairsAfterByte(c, TwoDigits(d) + s);
    PairsAfterByte(b, TwoDigits(c) + (TwoDigits(d) + s));
    PairsAfterByte(a, TwoDigits(b) + (TwoDigits(c) + (TwoDigits(d) + s)));
    assert OffsetDigits(n) + s == TwoDigits(a) + (TwoDigits(b) + (TwoDigits(c) + (TwoDigits(d) + s)));
    TwoDigitsAreNumeric(a);
    TwoDigitsAreNumeric(b);
    TwoDigitsAreNumeric(c);
    TwoDigitsAreNumeric(d);
  }

  lemma LineDecodes(left: string, right: string)
    requires NoBar(left) && |FindPairs(left)| >= OFFSET_TOKENS
    ensures DecodeLine(left + "|" + right) == FindPairs(left)[OFFSET_TOKENS..]
  {
    var line := left + "|" + right;
    assert line[|left|] == '|' && forall k :: 0 <= k < |left| ==> line[k] == left[k];
    assert BeforeBar(line) == left;
  }

  lemma RowReadsBack(offset: nat, bytes: seq<Byte>)
    requires |bytes| <= ROW
    ensures DecodeLine(RowLine(offset, bytes)) == bytes
  {
    var digits, cells := OffsetDigits(offset), "  " + Cells(bytes, 0);
    CellsReadBack(bytes, 0);
    PairsAfterSpaces("  ", Cells(bytes, 0));
    PairsAfterOffset(offset, cells);
    LineDecodes(digits + cells, Ascii(bytes) + "|");
  }

  lemma {:induction false} CellsWidth(bytes: seq<Byte>, i: nat)
    requires i <= 16 == ROW
    ensures |Cells(bytes, i)| == 3 * (16 - i) + (if i <= 7 then 2 else 1)
    decreases 16 - i
  {
    if i == 16 {
      assert Cells(bytes, i) == " ";
    } else {
      CellsWidth(bytes, i + 1);
      CellsUnfold(bytes, i);
    }
  }

  /** The layout of `hexdump -C`: however many of the sixteen bytes a row has, its first bar is at
      column 60; then the bytes come as characters, those outside the printable ASCII range as
      dots, and another bar. */
  lemma RowLayout(offset: nat, bytes: seq<Byte>)
    requires |bytes| <= 16
    ensures var line := RowLine(offset, bytes);
      && |line| == 62 + |bytes|
      && line[60] == '|' == line[61 + |bytes|]
      && (forall i :: 0 <= i < 60 ==> line[i] != '|')
      && (forall i :: 0 <= i < |bytes| ==>
            line[61 + i] == if 32 <= bytes[i] < 127 then bytes[i] as char else '.')
  {
    var cells := Cells(bytes, 0);
    CellsWidth(bytes, 0);
    CellsReadBack(bytes, 0);
    PairsAfterOffset(offset, "");
    var line := RowLine(offset, bytes);
    assert |OffsetDigits(offset)| == 8;
    assert forall i :: 10 <= i < 60 ==> line[i] == cells[i - 10];
  }

  lemma DigitsDecodeToNothing(n: nat)
    ensures DecodeLine(OffsetDigits(n)) == []
  {
    PairsAfterOffset(n, "");
  }

  lemma RowLinesDecode(data: seq<Byte>, at: nat, starred: bool)
    requires at <= |data|
    ensures DecodeLines(RowLines(data, at, starred)) == if Repeats(data, at) then [] else RowAt(data, at)
  {
    if !Repeats(data, at) {
      RowReadsBack(at, RowAt(data, at));
      DecodeOneLine(RowLine(at, RowAt(data, at)));
    } else if !starred {
      DecodeOneLine("*");
    }
  }

  lemma {:induction false} DumpDecodesToKept(data: seq<Byte>, at: nat, starred: bool)
    ensures DecodeLines(DumpFrom(data, at, starred)) == Kept(data, at)
    decreases |data| - at
  {
    if at >= |data| {
      DigitsDecodeToNothing(|data|);
      DecodeOneLine(OffsetDigits(|data|));
    } else {
      DumpDecodesToKept(data, at + ROW, Repeats(data, at));
      RowLinesDecode(data, at, starred);
      DecodeLinesConcat(RowLines(data, at, starred), DumpFrom(data, at + ROW, Repeats(data, at)));
    }
  }

  ghost predicate NoRepeatFrom(data: seq<Byte>, row: nat) {
    forall r :: row <= r && r * ROW < |data| ==> !Repeats(data, r * ROW)
  }

  lemma NoRepeatUnfolds(data: seq<Byte>, row: nat)
    requires row * ROW < |data|
    ensures NoRepeatFrom(data, row) <==> !Repeats(data, row * ROW) && NoRepeatFrom(data, row + 1)
  {
    hide Repeats;
    if !Repeats(data, row * ROW) && NoRepeatFrom(data, row + 1) {
      forall r | row <= r && r * ROW < |data|
        ensures !Repeats(data, r * ROW)
      {
        assert r == row || row + 1 <= r;
      }
    }
  }

  lemma {:induction false} KeptIsAllIffNoRepeat(data: seq<Byte>, row: nat)
    ensures var at := row * ROW;
      (at <= |data| ==>
        && |Kept(data, at)| <= |data| - at
        && (Kept(data, at) == data[at..] <==> |Kept(data, at)| == |data| - at)
        && (Kept(data, at) == data[at..] <==> NoRepeatFrom(data, row)))
    decreases |data| - row * ROW
  {
    hide Repeats, NoRepeatFrom;
    var at := row * ROW;
    if at < |data| {
      KeptIsAllIffNoRepeat(data, row + 1);
      NoRepeatUnfolds(data, row);
      assert (row + 1) * ROW == at + ROW;
      if at + ROW <= |data| {
        assert data[at..] == RowAt(data, at) + data[at + ROW..];
      } else {
        assert RowAt(data, at) == data[at..] && Kept(data, at + ROW) == [];
        NothingRepeatsPastTheEnd(data, row + 1);
      }
    } else if at == |data| {
      NothingRepeatsPastTheEnd(data, row);
    }
  }

  lemma NothingRepeatsPastTheEnd(data: seq<Byte>, row: nat)
    requires row * ROW >= |data|
    ensures NoRepeatFrom(data, row)
  {}

  lemma {:induction false} SilentLines(lines: seq<string>)
    requires forall i :: 0 <= i < |lines| ==> NoBar(lines[i])
    ensures DecodeLines(lines) == []
  {
    if lines != [] {
      SilentLines(lines[1..]);
      DecodeLinesConcat([lines[0]], lines[1..]);
      DecodeOneLine(lines[0]);
      assert lines == [lines[0]] + lines[1..];
    }
  }

  lemma DumpBetweenSilentLines(before: seq<string>, data: seq<Byte>, after: seq<string>)
    requires forall i :: 0 <= i < |before| ==> NoBar(before[i])
    requires forall i :: 0 <= i < |after| ==> NoBar(after[i])
    ensures DecodeLines(before + Dump(data) + after) == Kept(data, 0)
  {
    DecodeLinesConcat(before + Dump(data), after);
    DecodeLinesConcat(before, Dump(data));
    SilentLines(before);
    SilentLines(after);
    if data != [] {
      DumpDecodesToKept(data, 0, false);
    }
  }

  /** Decoding the dump of any data below 4 GiB, with other output without a bar before and
      after it (the byte count the command echoes, the shell's closing lines): exactly the data
      comes back when no row repeats the row before it. Otherwise rows are lost, and then
      already the length differs, so comparing it with the announced byte count would tell. */
  lemma DecodeInvertsDumpIffNoRowRepeats(text: string, before: seq<string>, data: seq<Byte>, after: seq<string>)
    requires |data| < 0x1_0000_0000
    requires SplitLines(text) == before + Dump(data) + after
    requires forall i :: 0 <= i < |before| ==> NoBar(before[i])
    requires forall i :: 0 <= i < |after| ==> NoBar(after[i])
    ensures Decode(text) == data <==> NoRowRepeats(data)
    ensures !NoRowRepeats(data) ==> |Decode(text)| < |data|
  {
    DumpBetweenSilentLines(before, data, after);
    KeptIsAllIffNoRepeat(data, 0);
    assert data[0..] == data;
    assert !Repeats(data, 0 * ROW);
  }

  /** Whatever its bytes, a row that comes twice is downloaded once. */
  lemma DoubledRowIsHalved(row: seq<Byte>)
    requires |row| == ROW
    ensures Decode(JoinLines(Dump(row + row))) == row
  {
    var data := row + row;
    DumpIsOneLinePerEntry(data, 0, false);
    SplitJoinedLines(Dump(data));
    DumpDecodesToKept(data, 0, false);
    DoubledRowKept(row);
  }

  lemma DoubledRowKept(row: seq<Byte>)
    requires |row| == ROW
    ensures Kept(row + row, 0) == row
  {
    var data := row + row;
    assert RowAt(data, ROW) == row && RowAt(data, 0) == row;
    assert Kept(data, 2 * ROW) == [];
    assert Kept(data, ROW) == [];
  }

  lemma NumericPartsAreOneLine(a: string, b: string, right: string)
    requires Numeric(a) && Numeric(b) && OneLine(right)
    ensures OneLine(a + b + "|" + right)
  {
    var line := a + b + "|" + right;
    forall i | 0 <= i < |line|
      ensures !IsLineBreak(line[i])
    {
      assert i < |a| ==> line[i] == a[i];
      assert |a| <= i < |a + b| ==> line[i] == b[i - |a|];
      assert i > |a + b| ==> line[i] == right[i - |a + b| - 1];
    }
  }

  lemma AsciiIsOneLine(bytes: seq<Byte>)
    ensures OneLine(Ascii(bytes) + "|")
  {
    var line := Ascii(bytes) + "|";
    forall i | 0 <= i < |line|
      ensures !IsLineBreak(line[i])
    {
      assert i < |bytes| ==> line[i] == Printable(bytes[i]);
    }
  }

  lemma RowIsOneLine(offset: nat, bytes: seq<Byte>)
    requires |bytes| <= ROW
    ensures OneLine(RowLine(offset, bytes))
  {
    var digits, cells := OffsetDigits(offset), "  " + Cells(bytes, 0);
    assert Numeric(cells) by {
      CellsReadBack(bytes, 0);
    }
    PairsAfterOffset(offset, "");
    AsciiIsOneLine(bytes);
    NumericPartsAreOneLine(digits, cells, Ascii(bytes) + "|");
  }

  lemma {:induction false} DumpIsOneLinePerEntry(data: seq<Byte>, at: nat, starred: bool)
    ensures forall i :: 0 <= i < |DumpFrom(data, at, starred)| ==> OneLine(DumpFrom(data, at, starred)[i])
    decreases |data| - at
  {
    if at >= |data| {
      PairsAfterOffset(|data|, "");
    } else {
      DumpIsOneLinePerEntry(data, at + ROW, Repeats(data, at));
      RowIsOneLine(at, RowAt(data, at));
    }
  }
}
