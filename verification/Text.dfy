/** Text primitives of Python and JavaScript as far as the parsers use them. */
module Text {

  /** The characters `str.splitlines` breaks at. */
  predicate IsLineBreak(ch: char) {
    var n := ch as int;
    0x0A <= n <= 0x0D || 0x1C <= n <= 0x1E || n == 0x85 || n == 0x2028 || n == 0x2029
  }

  /** The characters `str.strip` removes. */
  predicate IsSpace(ch: char) {
    var n := ch as int;
    || 0x09 <= n <= 0x0D || 0x1C <= n <= 0x20 || n == 0x85 || n == 0xA0 || n == 0x1680
    || 0x2000 <= n <= 0x200A || n == 0x2028 || n == 0x2029 || n == 0x202F || n == 0x205F || n == 0x3000
  }

  /** The characters JavaScript's `trimStart` and `parseInt` skip. */
  predicate IsJsSpace(ch: char) {
    var n := ch as int;
    || 0x09 <= n <= 0x0D || n == 0x20 || n == 0xA0 || n == 0x1680 || 0x2000 <= n <= 0x200A
    || n == 0x2028 || n == 0x2029 || n == 0x202F || n == 0x205F || n == 0x3000 || n == 0xFEFF
  }

  function TrimStart(s: string): (r: string)
    ensures |r| <= |s|
    ensures |r| == |s| <==> (s == "" || !IsJsSpace(s[0]))
    ensures |r| == |s| ==> r == s
  {
    if s != "" && IsJsSpace(s[0]) then TrimStart(s[1..]) else s
  }

  predicate IsHex(ch: char) {
    '0' <= ch <= '9' || 'a' <= ch <= 'f'
  }

  /** Lower case of ASCII letters. */
  function LowerAscii(ch: char): char {
    if 'A' <= ch <= 'Z' then ch - 'A' + 'a' else ch
  }

  /** Position of the first `ch`, or the length of the text. */
  function IndexOf(s: string, ch: char): (i: nat)
    ensures i <= |s|
    ensures i < |s| ==> s[i] == ch
    ensures forall k :: 0 <= k < i ==> s[k] != ch
  {
    if s == "" || s[0] == ch then 0 else 1 + IndexOf(s[1..], ch)
  }

  /** Position of the first line break, or the length of the text. */
  function BreakAt(text: string): (i: nat)
    ensures i <= |text|
    ensures i < |text| ==> IsLineBreak(text[i])
    ensures forall k :: 0 <= k < i ==> !IsLineBreak(text[k])
  {
    if text == "" || IsLineBreak(text[0]) then 0 else 1 + BreakAt(text[1..])
  }

  /** `str.splitlines`: CR LF counts as one break and a final break opens no line. */
  function SplitLines(text: string): seq<string>
    decreases |text|
  {
    if text == "" then []
    else
      var i := BreakAt(text);
      if i == |text| then [text]
      else if text[i] == '\r' && i + 1 < |text| && text[i + 1] == '\n' then [text[..i]] + SplitLines(text[i + 2..])
      else [text[..i]] + SplitLines(text[i + 1..])
  }

  predicate OneLine(s: string) {
    forall i :: 0 <= i < |s| ==> !IsLineBreak(s[i])
  }

  /** Every line followed by a newline. */
  function JoinLines(lines: seq<string>): string {
    if lines == [] then "" else lines[0] + "\n" + JoinLines(lines[1..])
  }

  lemma {:induction false} SplitJoinedLines(lines: seq<string>)
    requires forall i :: 0 <= i < |lines| ==> OneLine(lines[i])
    ensures SplitLines(JoinLines(lines)) == lines
  {
    if lines != [] {
      var text, line := JoinLines(lines), lines[0];
      assert text[..|line|] == line && text[|line|] == '\n' && text[|line| + 1..] == JoinLines(lines[1..]);
      assert BreakAt(text) == |line| by {
        assert forall k :: 0 <= k < |line| ==> text[k] == line[k];
      }
      SplitJoinedLines(lines[1..]);
    }
  }

  /** A line with the break that ends it. */
  datatype Ended = Ended(line: string, end: string)

  /** One break: a single break character, or CR LF, which no other line feed may be taken for. */
  predicate IsEnd(end: string) {
    end == "\r\n" || (|end| == 1 && IsLineBreak(end[0]))
  }

  function Assembled(lines: seq<Ended>, last: string): string {
    if lines == [] then last else lines[0].line + lines[0].end + Assembled(lines[1..], last)
  }

  /** No carriage return ends a line right before an empty line that a line feed ends. */
  predicate NoHiddenPair(lines: seq<Ended>) {
    forall i :: 0 <= i < |lines| - 1 && lines[i].end == "\r" && lines[i + 1].line == "" ==> !("\n" <= lines[i + 1].end)
  }

  function Lines(ended: seq<Ended>): seq<string> {
    seq(|ended|, i requires 0 <= i < |ended| => ended[i].line)
  }

  lemma BreakComesAfter(line: string, end: string, rest: string)
    requires OneLine(line) && IsEnd(end)
    ensures var text := line + end + rest;
      BreakAt(text) == |line| && text[..|line|] == line && text[|line|] == end[0] && text[|line| + |end|..] == rest
  {
    var text := line + end + rest;
    assert text[|line|] == end[0] && forall k :: 0 <= k < |line| ==> text[k] == line[k];
  }

  lemma SplitAtEnd(line: string, end: string, rest: string)
    requires OneLine(line) && IsEnd(end) && (end == "\r" ==> !("\n" <= rest))
    ensures SplitLines(line + end + rest) == [line] + SplitLines(rest)
  {
    hide BreakAt;
    BreakComesAfter(line, end, rest);
    var text, i := line + end + rest, |line|;
    assert i + 1 < |text| ==> text[i + 1] == if |end| == 2 then end[1] else rest[0];
    assert |end| == 1 && rest != "" && rest[0] == '\n' ==> "\n" <= rest;
  }

  lemma LastLineSplits(last: string)
    requires OneLine(last)
    ensures SplitLines(last) == if last == "" then [] else [last]
  {
    assert BreakAt(last) == |last|;
  }

  /** What the first of several lines needs to be told apart from the others. */
  lemma FirstIsApart(lines: seq<Ended>, last: string)
    requires lines != [] && OneLine(last) && NoHiddenPair(lines)
    requires forall i :: 0 <= i < |lines| ==> OneLine(lines[i].line) && IsEnd(lines[i].end)
    ensures lines[0].end == "\r" ==> !("\n" <= Assembled(lines[1..], last))
    ensures NoHiddenPair(lines[1..])
  {
    hide Assembled, IsLineBreak;
    FirstOfRest(lines[1..], last);
  }

  /** However its lines are ended, a text splits into exactly these lines; what follows the last break
      is a line unless it is empty. */
  lemma {:induction false} SplitAssembledLines(lines: seq<Ended>, last: string)
    requires OneLine(last) && forall i :: 0 <= i < |lines| ==> OneLine(lines[i].line) && IsEnd(lines[i].end)
    requires NoHiddenPair(lines)
    ensures SplitLines(Assembled(lines, last)) == Lines(lines) + if last == "" then [] else [last]
  {
    hide SplitLines, IsEnd, OneLine, NoHiddenPair;
    if lines == [] {
      LastLineSplits(last);
      assert Assembled(lines, last) == last;
    } else {
      FirstIsApart(lines, last);
      SplitAssembledLines(lines[1..], last);
      SplitAtEnd(lines[0].line, lines[0].end, Assembled(lines[1..], last));
      assert Lines(lines) == [lines[0].line] + Lines(lines[1..]);
    }
  }

  /** The text after a break begins with a line feed only if its first line is empty and a line
      feed ends it. */
  lemma FirstOfRest(lines: seq<Ended>, last: string)
    requires OneLine(last) && forall i :: 0 <= i < |lines| ==> OneLine(lines[i].line) && IsEnd(lines[i].end)
    ensures var rest := Assembled(lines, last);
      rest != "" && rest[0] == '\n' ==> lines != [] && lines[0].line == "" && "\n" <= lines[0].end
  {
    if lines != [] && lines[0].line == "" {
      assert Assembled(lines, last) == lines[0].end + Assembled(lines[1..], last);
    }
  }

  function LStrip(s: string): (r: string)
    ensures |r| <= |s| && s[|s| - |r|..] == r
    ensures r != "" ==> !IsSpace(r[0])
  {
    if s != "" && IsSpace(s[0]) then LStrip(s[1..]) else s
  }

  function RStrip(s: string): (r: string)
    ensures r <= s
    ensures r != "" ==> !IsSpace(r[|r| - 1])
    ensures forall i :: |r| <= i < |s| ==> IsSpace(s[i])
  {
    if s != "" && IsSpace(s[|s| - 1]) then RStrip(s[..|s| - 1]) else s
  }

  function Strip(s: string): string {
    RStrip(LStrip(s))
  }

  predicate Trimmed(s: string) {
    s == "" || (!IsSpace(s[0]) && !IsSpace(s[|s| - 1]))
  }

  /** Blanks around a trimmed text are exactly what `strip` takes away. */
  lemma StripPadded(before: string, s: string)
    requires Trimmed(s) && forall i :: 0 <= i < |before| ==> IsSpace(before[i])
    ensures Strip(before + s) == s
  {
    if before == "" {
      assert before + s == s;
    } else {
      assert (before + s)[1..] == before[1..] + s;
      StripPadded(before[1..], s);
    }
  }
}
