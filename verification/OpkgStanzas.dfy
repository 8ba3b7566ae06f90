/** The parser of `opkg status` stanzas: `Key: value` fields, lines that begin with a blank
    continue the field before them, and blank lines end a stanza (compare section 5.1 of the
    Debian Policy Manual). */
module OpkgStanzas {
  import opened Prelude
  import opened Text

  type Stanza = map<string, string>

  // ---------------------------------------------------------------- one line

  /** What a line is to the parser. */
  datatype Line = Blank | Fold(text: string) | Entry(key: string, value: string) | Noise

  function Classify(raw: string): Line {
    var line := RStrip(raw);
    if Strip(line) == "" then Blank
    else if line != "" && (line[0] == ' ' || line[0] == '\t') then Fold(Strip(line))
    else
      var colon := IndexOf(line, ':');
      if colon == |line| then Noise else Entry(line[..colon], Strip(line[colon + 1..]))
  }

  /** The stripped text begins at place `from`; around it there are only blanks. */
  predicate StrippedAt(s: string, stripped: string, from: nat) {
    && from + |stripped| <= |s| && stripped == s[from..from + |stripped|]
    && (forall i :: 0 <= i < |s| && !(from <= i < from + |stripped|) ==> IsSpace(s[i]))
  }

  ghost predicate IsStripped(s: string, stripped: string) {
    Trimmed(stripped) && exists from: nat :: StrippedAt(s, stripped, from)
  }

  lemma {:induction false} LStripDropsBlanks(s: string)
    ensures forall i :: 0 <= i < |s| - |LStrip(s)| ==> IsSpace(s[i])
  {
    if s != "" && IsSpace(s[0]) {
      LStripDropsBlanks(s[1..]);
      assert forall i :: 1 <= i < |s| ==> s[i] == s[1..][i - 1];
    }
  }

  lemma StripStrips(s: string)
    ensures IsStripped(s, Strip(s))
  {
    LStripDropsBlanks(s);
    var left := LStrip(s);
    assert s[|s| - |left|..] == left;
    assert StrippedAt(s, Strip(s), |s| - |left|);
  }

  lemma RStripIsStripped(raw: string, stripped: string)
    requires IsStripped(RStrip(raw), stripped)
    ensures IsStripped(raw, stripped)
  {
    var from: nat :| StrippedAt(RStrip(raw), stripped, from);
    assert StrippedAt(raw, stripped, from);
  }

  predicate AllBlank(s: string) {
    forall i :: 0 <= i < |s| ==> IsSpace(s[i])
  }

  /** What each line is, read off the line itself: blank if it has nothing but blanks; else a
      continuation, of its stripped text, if it begins with a space or a tab; else a field, cut
      at its first colon, if it has one; else nothing. */
  lemma LinesAreTold(raw: string)
    ensures Classify(raw).Blank? <==> AllBlank(raw)
    ensures !AllBlank(raw) ==>
      && (Classify(raw).Fold? <==> raw[0] in {' ', '\t'})
      && (Classify(raw).Fold? ==> IsStripped(raw, Classify(raw).text))
      && (Classify(raw).Entry? <==> raw[0] !in {' ', '\t'} && ':' in raw)
      && (Classify(raw).Entry? ==>
            var key := Classify(raw).key;
            && key + ":" <= raw && ':' !in key
            && IsStripped(raw[|key| + 1..], Classify(raw).value))
  {
    hide Strip, LStrip, RStrip, IsSpace, IsStripped;
    var line := RStrip(raw);
    StripStrips(line);
    RStripIsStripped(raw, Strip(line));
    BlankIffStripped(raw);
    if !AllBlank(raw) {
      NotBlankStarts(raw);
      ColonStays(raw);
      var colon := IndexOf(line, ':');
      if colon < |line| {
        assert raw[..colon + 1] == line[..colon] + ":";
        ValueOfRaw(raw, colon + 1);
      }
    }
  }

  lemma BlankIffStripped(raw: string)
    ensures Strip(RStrip(raw)) == "" <==> AllBlank(raw)
  {
    hide Strip, LStrip, RStrip, IsSpace;
    StripStrips(RStrip(raw));
    RStripIsStripped(raw, Strip(RStrip(raw)));
    var stripped := Strip(RStrip(raw));
    var from: nat :| StrippedAt(raw, stripped, from);
    if stripped != "" {
      assert stripped[0] == raw[from];
    }
  }

  lemma NotBlankStarts(raw: string)
    requires !AllBlank(raw)
    ensures RStrip(raw) != "" && raw != "" && RStrip(raw)[0] == raw[0]
  {
    hide RStrip, IsSpace;
    var k :| 0 <= k < |raw| && !IsSpace(raw[k]);
    assert k < |RStrip(raw)|;
  }

  lemma ColonStays(raw: string)
    ensures ':' in RStrip(raw) <==> ':' in raw
  {
    hide RStrip;
    if ':' in raw {
      var c :| 0 <= c < |raw| && raw[c] == ':';
      assert c < |RStrip(raw)| && RStrip(raw)[c] == ':';
    }
  }

  lemma StrippedInLonger(s: string, more: string, stripped: string)
    requires IsStripped(s, stripped) && AllBlank(more)
    ensures IsStripped(s + more, stripped)
  {
    hide IsSpace;
    var from: nat :| StrippedAt(s, stripped, from);
    assert (s + more)[from..from + |stripped|] == s[from..from + |stripped|];
    assert StrippedAt(s + more, stripped, from);
  }

  lemma ValueOfRaw(raw: string, at: nat)
    requires at <= |RStrip(raw)|
    ensures IsStripped(raw[at..], Strip(RStrip(raw)[at..]))
  {
    hide Strip, LStrip, RStrip, IsSpace, IsStripped;
    var line := RStrip(raw);
    StripStrips(line[at..]);
    assert raw[at..] == line[at..] + raw[|line|..];
    StrippedInLonger(line[at..], raw[|line|..], Strip(line[at..]));
  }

  // ---------------------------------------------------------------- the parser

  /** The parser's variables. */
  datatype Parser = Parser(stanzas: seq<Stanza>, current: Stanza, lastKey: Option<string>)

  const EMPTY := Parser([], map[], None)

  function CloseStanza(p: Parser): Parser {
    Parser(p.stanzas + (if p.current != map[] then [p.current] else []), map[], None)
  }

  function Absorb(p: Parser, line: Line): Parser {
    match line
    case Blank => CloseStanza(p)
    case Fold(text) =>
      if p.lastKey.Some? && p.lastKey.value in p.current
      then p.(current := p.current[p.lastKey.value := p.current[p.lastKey.value] + " " + text])
      else p
    case Entry(key, value) => p.(current := p.current[key := value], lastKey := Some(key))
    case Noise => p
  }

  function AbsorbAll(p: Parser, lines: seq<Line>): Parser
    decreases |lines|
  {
    if lines == [] then p else Absorb(AbsorbAll(p, lines[..|lines| - 1]), lines[|lines| - 1])
  }

  function ParseLines(lines: seq<string>): seq<Stanza> {
    CloseStanza(AbsorbAll(EMPTY, Map(Classify, lines))).stanzas
  }

  function Parse(text: string): seq<Stanza> {
    ParseLines(SplitLines(text))
  }

  method ParseOpkgStanzas(text: string) returns (stanzas: seq<Stanza>)
    ensures stanzas == Parse(text)
  {
    hide Classify;
    var lines := SplitLines(text);
    var current: Stanza, lastKey: Option<string> := map[], None;
    stanzas := [];
    for n := 0 to |lines|
      invariant Parser(stanzas, current, lastKey) == AbsorbAll(EMPTY, Map(Classify, lines[..n]))
    {
      ghost var before := Map(Classify, lines[..n]);
      assert Map(Classify, lines[..n + 1]) == before + [Classify(lines[n])];
      AbsorbConcat(EMPTY, before, [Classify(lines[n])]);
      AbsorbOne(Parser(stanzas, current, lastKey), Classify(lines[n]));
      match Classify(lines[n])
      case Blank =>
        if current != map[] {
          stanzas := stanzas + [current];
          current := map[];
        }
        lastKey := None;
      case Fold(text) =>
        if lastKey.Some? && lastKey.value in current {
          current := current[lastKey.value := current[lastKey.value] + " " + text];
        }
      case Entry(key, value) =>
        lastKey := Some(key);
        current := current[key := value];
      case Noise =>
    }
    assert lines[..|lines|] == lines;
    if current != map[] {
      stanzas := stanzas + [current];
    }
  }

  // ---------------------------------------------------------------- laws of the parser

  lemma {:induction false} AbsorbConcat(p: Parser, a: seq<Line>, b: seq<Line>)
    ensures AbsorbAll(p, a + b) == AbsorbAll(AbsorbAll(p, a), b)
    decreases |b|
  {
    if b == [] {
      assert a + b == a;
    } else {
      AbsorbConcat(p, a, b[..|b| - 1]);
      assert (a + b)[..|a + b| - 1] == a + b[..|b| - 1];
    }
  }

  lemma AbsorbOne(p: Parser, line: Line)
    ensures AbsorbAll(p, [line]) == Absorb(p, line)
  {
    assert [line][..0] == [];
    assert AbsorbAll(p, []) == p;
  }

  lemma AbsorbBeside(done: seq<Stanza>, p: Parser, line: Line)
    ensures Absorb(p.(stanzas := done + p.stanzas), line)
         == Absorb(p, line).(stanzas := done + Absorb(p, line).stanzas)
  {
    assert done + p.stanzas + [p.current] == done + (p.stanzas + [p.current]);
  }

  lemma {:induction false} EarlierStanzasStay(done: seq<Stanza>, p: Parser, lines: seq<Line>)
    ensures AbsorbAll(p.(stanzas := done + p.stanzas), lines)
         == AbsorbAll(p, lines).(stanzas := done + AbsorbAll(p, lines).stanzas)
    decreases |lines|
  {
    if lines != [] {
      var before := lines[..|lines| - 1];
      EarlierStanzasStay(done, p, before);
      AbsorbBeside(done, AbsorbAll(p, before), lines[|lines| - 1]);
    }
  }

  lemma {:induction false} StanzasAreNotEmpty(lines: seq<Line>)
    ensures map[] !in AbsorbAll(EMPTY, lines).stanzas
    decreases |lines|
  {
    if lines != [] {
      StanzasAreNotEmpty(lines[..|lines| - 1]);
    }
  }

  lemma BlankLineClassified(line: string)
    requires Strip(RStrip(line)) == ""
    ensures Classify(line) == Blank
  {}

  /** On any input: a blank line cuts it into two parts that are parsed independently, and no
      stanza is ever empty. */
  lemma BlankLineSeparates(a: seq<string>, blank: string, b: seq<string>)
    requires Strip(RStrip(blank)) == ""
    ensures ParseLines(a + [blank] + b) == ParseLines(a) + ParseLines(b)
    ensures map[] !in ParseLines(a + [blank] + b)
  {
    hide Classify, Strip, RStrip;
    BlankLineClassified(blank);
    assert Map(Classify, a + [blank] + b) == Map(Classify, a) + [Blank] + Map(Classify, b);
    BlankSeparates(Map(Classify, a), Map(Classify, b));
  }

  lemma BlankSeparates(a: seq<Line>, b: seq<Line>)
    ensures CloseStanza(AbsorbAll(EMPTY, a + [Blank] + b)).stanzas
         == CloseStanza(AbsorbAll(EMPTY, a)).stanzas + CloseStanza(AbsorbAll(EMPTY, b)).stanzas
    ensures map[] !in CloseStanza(AbsorbAll(EMPTY, a + [Blank] + b)).stanzas
  {
    var first := CloseStanza(AbsorbAll(EMPTY, a));
    AbsorbConcat(EMPTY, a + [Blank], b);
    AbsorbConcat(EMPTY, a, [Blank]);
    AbsorbOne(AbsorbAll(EMPTY, a), Blank);
    EarlierStanzasStay(first.stanzas, EMPTY, b);
    assert first.stanzas + [] == first.stanzas;
    AbsorbBeside(first.stanzas, AbsorbAll(EMPTY, b), Blank);
    StanzasAreNotEmpty(a + [Blank] + b);
  }

  // ---------------------------------------------------------------- the printed form

  /** A field and its value in segments: the first on the key's line, the others folded. */
  datatype Field = Field(key: string, first: string, folded: seq<string>)

  predicate PlainKey(key: string) {
    && OneLine(key)
    && (forall i :: 0 <= i < |key| ==> key[i] != ':')
    && (key != "" ==> key[0] != ' ' && key[0] != '\t')
  }

  predicate PlainSegment(s: string) {
    OneLine(s) && Trimmed(s)
  }

  predicate PlainField(f: Field) {
    && PlainKey(f.key)
    && PlainSegment(f.first)
    && forall i :: 0 <= i < |f.folded| ==> PlainSegment(f.folded[i]) && f.folded[i] != ""
  }

  predicate PlainStanza(fields: seq<Field>) {
    fields != [] && forall i :: 0 <= i < |fields| ==> PlainField(fields[i])
  }

  function FoldedLine(segment: string): string {
    " " + segment
  }

  function FieldLines(f: Field): seq<string> {
    [f.key + ": " + f.first] + Map(FoldedLine, f.folded)
  }

  function StanzaLines(fields: seq<Field>): seq<string> {
    Flatten(Map(FieldLines, fields)) + [""]
  }

  function Print(stanzas: seq<seq<Field>>): string {
    JoinLines(Flatten(Map(StanzaLines, stanzas)))
  }

  /** Every folded segment after one space. */
  function Joined(first: string, folded: seq<string>): string
    decreases |folded|
  {
    if folded == [] then first else Joined(first, folded[..|folded| - 1]) + " " + folded[|folded| - 1]
  }

  function Meaning(fields: seq<Field>): Stanza
    decreases |fields|
  {
    if fields == [] then map[]
    else
      var last := fields[|fields| - 1];
      Meaning(fields[..|fields| - 1])[last.key := Joined(last.first, last.folded)]
  }

  // ---------------------------------------------------------------- printed lines, one by one

  lemma FoldedLineClassified(segment: string)
    requires PlainSegment(segment) && segment != ""
    ensures Classify(FoldedLine(segment)) == Fold(segment)
  {
    var line := FoldedLine(segment);
    assert line[|line| - 1] == segment[|segment| - 1];
    assert RStrip(line) == line;
    StripPadded(" ", segment);
  }

  lemma KeyLineIsTrimmed(key: string, first: string)
    requires Trimmed(first)
    ensures RStrip(key + ": " + first) == if first == "" then key + ":" else key + ": " + first
  {
    var raw := key + ": " + first;
    if first == "" {
      assert raw[|raw| - 1] == ' ' && raw[..|raw| - 1] == key + ":";
      assert RStrip(raw) == RStrip(key + ":");
    } else {
      assert raw[|raw| - 1] == first[|first| - 1];
    }
  }

  lemma {:induction false} LStripKeeps(s: string, at: nat)
    requires at < |s| && !IsSpace(s[at])
    ensures |LStrip(s)| >= |s| - at
  {
    if IsSpace(s[0]) {
      LStripKeeps(s[1..], at - 1);
    }
  }

  lemma ColonKeepsLine(line: string, at: nat)
    requires at < |line| && line[at] == ':'
    ensures Strip(line) != ""
  {
    LStripKeeps(line, at);
    var left := LStrip(line);
    assert left[|left| - (|line| - at)] == ':';
  }

  lemma KeyLineParts(line: string, key: string, rest: string)
    requires PlainKey(key) && line == key + ":" + rest && RStrip(line) == line
    ensures Classify(line) == Entry(key, Strip(rest))
  {
    hide Strip, RStrip;
    ColonKeepsLine(line, |key|);
    assert line[|key|] == ':' && line[..|key|] == key && line[|key| + 1..] == rest;
    assert forall k :: 0 <= k < |key| ==> line[k] == key[k];
    assert IndexOf(line, ':') == |key|;
  }

  lemma KeyLineIs(key: string, first: string)
    ensures key + ":" + (if first == "" then "" else " " + first) == if first == "" then key + ":" else key + ": " + first
  {}

  lemma KeyLineClassified(key: string, first: string)
    requires PlainKey(key) && PlainSegment(first)
    ensures Classify(key + ": " + first) == Entry(key, first)
  {
    hide Classify, Strip, RStrip;
    var rest := if first == "" then "" else " " + first;
    var line := key + ":" + rest;
    KeyLineIsTrimmed(key, first);
    KeyLineIs(key, first);
    StripPadded(if first == "" then "" else " ", first);
    assert rest == (if first == "" then "" else " ") + first;
    TrimmedLineClassified(key + ": " + first);
    KeyLineParts(line, key, rest);
  }

  lemma TrimmedLineClassified(raw: string)
    ensures RStrip(RStrip(raw)) == RStrip(raw)
    ensures Classify(RStrip(raw)) == Classify(raw)
  {
    hide Strip, LStrip, IndexOf;
    var line := RStrip(raw);
    assert RStrip(line) == line;
  }

  // ---------------------------------------------------------------- printed stanzas

  function FieldEntries(f: Field): seq<Line> {
    [Entry(f.key, f.first)] + Map((text: string) => Fold(text), f.folded)
  }

  lemma FieldLinesClassified(f: Field)
    requires PlainField(f)
    ensures Map(Classify, FieldLines(f)) == FieldEntries(f)
    ensures forall i :: 0 <= i < |FieldLines(f)| ==> OneLine(FieldLines(f)[i])
  {
    hide Classify;
    KeyLineClassified(f.key, f.first);
    forall i | 1 <= i < |FieldLines(f)|
      ensures Classify(FieldLines(f)[i]) == Fold(f.folded[i - 1]) && OneLine(FieldLines(f)[i])
    {
      assert FieldLines(f)[i] == FoldedLine(f.folded[i - 1]);
      FoldedLineClassified(f.folded[i - 1]);
    }
  }

  lemma {:induction false} FoldsAreAbsorbed(p: Parser, key: string, first: string, folded: seq<string>)
    requires p.lastKey == Some(key) && key in p.current && p.current[key] == first
    ensures AbsorbAll(p, Map((text: string) => Fold(text), folded))
         == p.(current := p.current[key := Joined(first, folded)])
    decreases |folded|
  {
    if folded == [] {
      assert p.current[key := first] == p.current;
    } else {
      var before := folded[..|folded| - 1];
      FoldsAreAbsorbed(p, key, first, before);
      assert Map((text: string) => Fold(text), folded)[..|folded| - 1] == Map((text: string) => Fold(text), before);
    }
  }

  lemma FieldIsAbsorbed(p: Parser, f: Field)
    ensures AbsorbAll(p, FieldEntries(f)) ==
            p.(current := p.current[f.key := Joined(f.first, f.folded)], lastKey := Some(f.key))
  {
    var entry := Entry(f.key, f.first);
    AbsorbConcat(p, [entry], Map((text: string) => Fold(text), f.folded));
    AbsorbOne(p, entry);
    var q := Absorb(p, entry);
    FoldsAreAbsorbed(q, f.key, f.first, f.folded);
    assert q.current[f.key := Joined(f.first, f.folded)] == p.current[f.key := Joined(f.first, f.folded)];
  }

  lemma {:induction false} FieldsAreAbsorbed(p: Parser, fields: seq<Field>)
    requires p.current == map[]
    requires forall i :: 0 <= i < |fields| ==> PlainField(fields[i])
    ensures var lines := Flatten(Map(FieldLines, fields));
      && AbsorbAll(p, Map(Classify, lines)).stanzas == p.stanzas
      && AbsorbAll(p, Map(Classify, lines)).current == Meaning(fields)
      && forall k :: 0 <= k < |lines| ==> OneLine(lines[k])
    decreases |fields|
  {
    hide Classify, FieldLines, FieldEntries, Joined;
    if fields != [] {
      hide AbsorbAll, Flatten;
      var before, last := fields[..|fields| - 1], fields[|fields| - 1];
      var lines := Flatten(Map(FieldLines, before));
      FieldsAreAbsorbed(p, before);
      assert Map(FieldLines, fields) == Map(FieldLines, before) + [FieldLines(last)];
      FlattenSnoc(Map(FieldLines, before), FieldLines(last));
      MapConcat(Classify, lines, FieldLines(last));
      FieldLinesClassified(last);
      AbsorbConcat(p, Map(Classify, lines), FieldEntries(last));
      FieldIsAbsorbed(AbsorbAll(p, Map(Classify, lines)), last);
    }
  }

  lemma MeaningIsNotEmpty(fields: seq<Field>)
    requires fields != []
    ensures Meaning(fields) != map[]
  {
    assert fields[|fields| - 1].key in Meaning(fields);
  }

  lemma StanzaIsAbsorbed(p: Parser, fields: seq<Field>)
    requires p.current == map[] && PlainStanza(fields)
    ensures AbsorbAll(p, Map(Classify, StanzaLines(fields))) == Parser(p.stanzas + [Meaning(fields)], map[], None)
    ensures forall k :: 0 <= k < |StanzaLines(fields)| ==> OneLine(StanzaLines(fields)[k])
  {
    hide Classify, FieldLines, Meaning, Flatten;
    var lines := Flatten(Map(FieldLines, fields));
    FieldsAreAbsorbed(p, fields);
    BlankLineClassified("");
    assert Map(Classify, StanzaLines(fields)) == Map(Classify, lines) + [Blank];
    AbsorbConcat(p, Map(Classify, lines), [Blank]);
    AbsorbOne(AbsorbAll(p, Map(Classify, lines)), Blank);
    MeaningIsNotEmpty(fields);
  }

  lemma {:induction false} StanzasAreAbsorbed(stanzas: seq<seq<Field>>)
    requires forall i :: 0 <= i < |stanzas| ==> PlainStanza(stanzas[i])
    ensures var lines := Flatten(Map(StanzaLines, stanzas));
      && AbsorbAll(EMPTY, Map(Classify, lines)) == Parser(Map(Meaning, stanzas), map[], None)
      && forall k :: 0 <= k < |lines| ==> OneLine(lines[k])
    decreases |stanzas|
  {
    hide Classify, StanzaLines, Meaning;
    if stanzas != [] {
      var before, last := stanzas[..|stanzas| - 1], stanzas[|stanzas| - 1];
      var lines := Flatten(Map(StanzaLines, before));
      StanzasAreAbsorbed(before);
      assert Map(StanzaLines, stanzas) == Map(StanzaLines, before) + [StanzaLines(last)];
      assert Map(Meaning, stanzas) == Map(Meaning, before) + [Meaning(last)];
      FlattenSnoc(Map(StanzaLines, before), StanzaLines(last));
      MapConcat(Classify, lines, StanzaLines(last));
      AbsorbConcat(EMPTY, Map(Classify, lines), Map(Classify, StanzaLines(last)));
      StanzaIsAbsorbed(AbsorbAll(EMPTY, Map(Classify, lines)), last);
    }
  }

  /** Parsing the printed form of any list of non-empty stanzas gives the stanzas back, every
      folded segment joined by one space. A key that comes twice means its last value, as in
      the dict the parser fills. */
  lemma ParseInvertsPrint(stanzas: seq<seq<Field>>)
    requires forall i :: 0 <= i < |stanzas| ==> PlainStanza(stanzas[i])
    ensures Parse(Print(stanzas)) == Map(Meaning, stanzas)
  {
    hide Classify, StanzaLines, Meaning, Flatten, JoinLines, SplitLines;
    StanzasAreAbsorbed(stanzas);
    SplitJoinedLines(Flatten(Map(StanzaLines, stanzas)));
  }
}
