/** Single-quoting of shell arguments, against the quoting rules of section 2.2 of the
    POSIX.1-2017 Shell Command Language.

    The tokenizer below knows blanks, backslash, single quotes and double quotes. What would
    make the shell do more than collect literal words (operators, expansions, patterns,
    comments, a newline) sends it to `Beyond`, from which no words come. */
module ShellQuote {
  import opened Prelude

  // ---------------------------------------------------------------- the quoting function

  function EscapeOne(ch: char): string {
    if ch == '\'' then "'\\''" else [ch]
  }

  /** `value.replace("'", "'\\''")`. */
  function EscapeQuotes(value: string): string {
    if value == "" then "" else EscapeOne(value[0]) + EscapeQuotes(value[1..])
  }

  function Quote(value: string): string {
    "'" + EscapeQuotes(value) + "'"
  }

  function QuoteAll(values: seq<string>): string {
    if values == [] then ""
    else if |values| == 1 then Quote(values[0])
    else Quote(values[0]) + " " + QuoteAll(values[1..])
  }

  // ---------------------------------------------------------------- the shell's tokenizer

  datatype Mode = Plain | PlainEscape | Single | Double | DoubleEscape | Beyond

  /** Finished words, the word under construction if one has begun, and the quoting mode. */
  datatype State = State(words: seq<string>, word: Option<string>, mode: Mode)

  const START := State([], None, Plain)

  predicate IsSpecial(ch: char) {
    ch in "\n|&;<>()$`*?[#~"
  }

  function Begun(s: State): string {
    if s.word.Some? then s.word.value else ""
  }

  function Collect(s: State, text: string, mode: Mode): State {
    State(s.words, Some(Begun(s) + text), mode)
  }

  function Feed(s: State, ch: char): State {
    match s.mode
    case Plain =>
      if ch == '\'' then Collect(s, "", Single)
      else if ch == '"' then Collect(s, "", Double)
      else if ch == '\\' then s.(mode := PlainEscape)
      else if ch == ' ' || ch == '\t' then
        (if s.word.Some? then State(s.words + [s.word.value], None, Plain) else s)
      else if IsSpecial(ch) then s.(mode := Beyond)
      else Collect(s, [ch], Plain)
    case PlainEscape => if ch == '\n' then s.(mode := Plain) else Collect(s, [ch], Plain)
    case Single => if ch == '\'' then s.(mode := Plain) else Collect(s, [ch], Single)
    case Double =>
      if ch == '"' then s.(mode := Plain)
      else if ch == '\\' then s.(mode := DoubleEscape)
      else if ch == '$' || ch == '`' then s.(mode := Beyond)
      else Collect(s, [ch], Double)
    case DoubleEscape =>
      if ch == '\n' then s.(mode := Double)
      else if ch in "$`\"\\" then Collect(s, [ch], Double)
      else Collect(s, ['\\', ch], Double)
    case Beyond => s
  }

  function Scan(s: State, text: string): State
    decreases |text|
  {
    if text == "" then s else Feed(Scan(s, text[..|text| - 1]), text[|text| - 1])
  }

  /** The words of a whole command line; none when a quote stays open or more than literal
      words is at stake. */
  function Words(text: string): Option<seq<string>> {
    var s := Scan(START, text);
    if !s.mode.Plain? then None
    else Some(AllWords(s))
  }

  lemma {:induction false} ScanConcat(s: State, a: string, b: string)
    ensures Scan(s, a + b) == Scan(Scan(s, a), b)
    decreases |b|
  {
    if b == "" {
      assert a + b == a;
    } else {
      ScanConcat(s, a, b[..|b| - 1]);
      assert (a + b)[..|a + b| - 1] == a + b[..|b| - 1];
    }
  }

  lemma ScanOne(s: State, ch: char)
    ensures Scan(s, [ch]) == Feed(s, ch)
  {
    assert [ch][..0] == "";
    assert Scan(s, "") == s;
  }

  /** Inside single quotes the escaped text spells the value and ends inside single quotes. */
  lemma {:induction false} EscapedTextIsLiteral(s: State, value: string)
    requires s.mode.Single? && s.word.Some?
    ensures Scan(s, EscapeQuotes(value)) == Collect(s, value, Single)
    decreases |value|
  {
    if value == "" {
      assert s.word.value + "" == s.word.value;
    } else {
      var s', rest := Collect(s, [value[0]], Single), value[1..];
      EscapedCharIsLiteral(s, value[0]);
      ScanConcat(s, EscapeOne(value[0]), EscapeQuotes(rest));
      EscapedTextIsLiteral(s', rest);
      CollectTwice(s, [value[0]], rest, Single);
      assert [value[0]] + rest == value;
    }
  }

  lemma CollectTwice(s: State, a: string, b: string, mode: Mode)
    ensures Collect(Collect(s, a, mode), b, mode) == Collect(s, a + b, mode)
  {
    assert Begun(s) + a + b == Begun(s) + (a + b);
  }

  lemma EscapedCharIsLiteral(s: State, ch: char)
    requires s.mode.Single? && s.word.Some?
    ensures Scan(s, EscapeOne(ch)) == Collect(s, [ch], Single)
  {
    if ch == '\'' {
      assert "'\\''" == ['\''] + ['\\'] + ['\''] + ['\''];
      ScanConcat(s, ['\''] + ['\\'] + ['\''], ['\'']);
      ScanConcat(s, ['\''] + ['\\'], ['\'']);
      ScanConcat(s, ['\''], ['\\']);
      ScanOne(s, '\'');
      ScanOne(s.(mode := Plain), '\\');
      ScanOne(s.(mode := PlainEscape), '\'');
      ScanOne(Collect(s, ['\''], Plain), '\'');
      assert s.word.value + ['\''] + "" == s.word.value + ['\''];
    } else {
      ScanOne(s, ch);
    }
  }

  /** Wherever the shell is outside quotes, a quoted value is collected literally, character by
      character, whatever it contains, and the shell is outside quotes again. */
  lemma QuotedValueIsLiteral(s: State, value: string)
    requires s.mode.Plain?
    ensures Scan(s, Quote(value)) == Collect(s, value, Plain)
  {
    var inside := Collect(s, "", Single);
    assert Begun(s) + "" == Begun(s);
    ScanOne(s, '\'');
    ScanConcat(s, "'", EscapeQuotes(value));
    ScanConcat(s, "'" + EscapeQuotes(value), "'");
    EscapedTextIsLiteral(inside, value);
    ScanOne(Collect(s, value, Single), '\'');
  }

  lemma QuotedArgumentIsOneWord(words: seq<string>, value: string)
    ensures Scan(State(words, None, Plain), Quote(value)) == State(words, Some(value), Plain)
    ensures Scan(State(words, None, Plain), Quote(value) + " ") == State(words + [value], None, Plain)
  {
    var start := State(words, None, Plain);
    QuotedValueIsLiteral(start, value);
    assert "" + value == value;
    ScanConcat(start, Quote(value), " ");
    ScanOne(State(words, Some(value), Plain), ' ');
  }

  function AllWords(s: State): seq<string> {
    s.words + if s.word.Some? then [s.word.value] else []
  }

  /** A quoted argument list tokenizes back to exactly that list. */
  lemma {:induction false} ArgumentsReadBack(values: seq<string>, words: seq<string>)
    ensures var s := Scan(State(words, None, Plain), QuoteAll(values));
      s.mode.Plain? && AllWords(s) == words + values
  {
    var start := State(words, None, Plain);
    if values == [] {
      assert words + values == words;
    } else {
      var v, rest := values[0], values[1..];
      QuotedArgumentIsOneWord(words, v);
      assert values == [v] + rest && words + values == words + [v] + rest;
      if rest != [] {
        ScanConcat(start, Quote(v) + " ", QuoteAll(rest));
        ArgumentsReadBack(rest, words + [v]);
      }
    }
  }

  /** One quoted value is one word, and a quoted list joined by spaces is that list of words. */
  lemma QuotingRoundTrips(value: string, values: seq<string>)
    ensures Words(Quote(value)) == Some([value])
    ensures Words(QuoteAll(values)) == Some(values)
  {
    QuotedArgumentIsOneWord([], value);
    assert [] + [value] == [value];
    ArgumentsReadBack(values, []);
    assert [] + values == values;
  }

  // ---------------------------------------------------------------- the tokenizer's other rules

  predicate ActsInDouble(ch: char) {
    ch in {'$', '`', '"', '\\'}
  }

  function EscapeOneForDouble(ch: char): string {
    if ActsInDouble(ch) then ['\\'] + [ch] else [ch]
  }

  /** A text made safe for double quotes. */
  function EscapeForDouble(text: string): string {
    if text == "" then "" else EscapeOneForDouble(text[0]) + EscapeForDouble(text[1..])
  }

  lemma EscapedOneForDoubleIsLiteral(s: State, ch: char)
    requires s.mode.Double?
    ensures Scan(s, EscapeOneForDouble(ch)) == Collect(s, [ch], Double)
  {
    hide Scan;
    ScanConcat(s, ['\\'], [ch]);
    ScanOne(s, '\\');
    ScanOne(s.(mode := DoubleEscape), ch);
    ScanOne(s, ch);
  }

  lemma {:induction false} EscapedForDoubleIsLiteral(s: State, text: string)
    requires s.mode.Double? && s.word.Some?
    ensures Scan(s, EscapeForDouble(text)) == Collect(s, text, Double)
    decreases |text|
  {
    if text == "" {
      assert s.word.value + "" == s.word.value;
    } else {
      hide Scan, Feed, EscapeOneForDouble, Begun;
      var ch, rest := text[0], text[1..];
      EscapedOneForDoubleIsLiteral(s, ch);
      ScanConcat(s, EscapeOneForDouble(ch), EscapeForDouble(rest));
      EscapedForDoubleIsLiteral(Collect(s, [ch], Double), rest);
      CollectTwice(s, [ch], rest, Double);
      assert [ch] + rest == text;
    }
  }

  /** The tokenizer reads double quotes as the standard has them: a text whose expansions, quotes and
      backslashes are escaped is collected literally, an escaped newline is dropped, a backslash
      before anything else is kept, and an expansion leaves the literal words. */
  lemma DoubleQuotesReadBack(s: State, text: string, ch: char)
    ensures s.mode.Plain? ==> Scan(s, "\"" + EscapeForDouble(text) + "\"") == Collect(s, text, Plain)
    ensures s.mode.Double? ==>
      && Scan(s, "\\\n") == s
      && (ch !in {'$', '`', '"', '\\', '\n'} ==> Scan(s, ['\\', ch]) == Collect(s, ['\\', ch], Double))
      && (ch in {'$', '`'} ==> Scan(s, [ch]).mode.Beyond?)
  {
    if s.mode.Plain? {
      var inside := Collect(s, "", Double);
      assert Begun(s) + "" == Begun(s);
      ScanOne(s, '"');
      ScanConcat(s, "\"", EscapeForDouble(text));
      ScanConcat(s, "\"" + EscapeForDouble(text), "\"");
      EscapedForDoubleIsLiteral(inside, text);
      ScanOne(Collect(s, text, Double), '"');
    } else if s.mode.Double? {
      assert "\\\n" == ['\\'] + ['\n'] && ['\\', ch] == ['\\'] + [ch];
      ScanConcat(s, ['\\'], ['\n']);
      ScanConcat(s, ['\\'], [ch]);
      ScanOne(s, '\\');
      ScanOne(s.(mode := DoubleEscape), '\n');
      ScanOne(s.(mode := DoubleEscape), ch);
      ScanOne(s, ch);
    }
  }

  /** Outside quotes the same characters, and those that end a command or start a pattern, leave the
      literal words for good; no words come of such a line. */
  lemma {:induction false} BeyondStays(s: State, ch: char, rest: string)
    requires s.mode.Plain? && ch in {'\n', '|', '&', ';', '<', '>', '(', ')', '$', '`', '*', '?', '[', '#', '~'}
    ensures Scan(s, [ch] + rest).mode.Beyond?
    decreases |rest|
  {
    ScanOne(s, ch);
    if rest != "" {
      var n := |rest| - 1;
      BeyondStays(s, ch, rest[..n]);
      assert ([ch] + rest)[..|[ch] + rest| - 1] == [ch] + rest[..n];
    } else {
      assert [ch] + rest == [ch];
    }
  }

  // ---------------------------------------------------------------- quoting in context

  /** Put `words` and the beginning of a word in front of what the rest of a line yields. */
  function Extend(words: seq<string>, begun: string, s: State): State
    requires s.words == [] ==> s.word.Some?
  {
    if s.words == [] then State(words, Some(begun + s.word.value), s.mode)
    else State(words + [begun + s.words[0]] + s.words[1..], s.word, s.mode)
  }

  /** What was read before cannot influence how the rest of the line is cut. */
  lemma {:induction false} ScanIgnoresThePast(words: seq<string>, begun: string, rest: string)
    ensures var s := Scan(State([], Some(""), Plain), rest);
      && (s.words == [] ==> s.word.Some?)
      && Scan(State(words, Some(begun), Plain), rest) == Extend(words, begun, s)
    decreases |rest|
  {
    if rest == "" {
      assert begun + "" == begun;
    } else {
      var before, ch := rest[..|rest| - 1], rest[|rest| - 1];
      ScanIgnoresThePast(words, begun, before);
      FeedExtends(words, begun, Scan(State([], Some(""), Plain), before), ch);
    }
  }

  lemma FeedExtends(words: seq<string>, begun: string, s: State, ch: char)
    requires s.words == [] ==> s.word.Some?
    ensures Feed(s, ch).words == [] ==> Feed(s, ch).word.Some?
    ensures Feed(Extend(words, begun, s), ch) == Extend(words, begun, Feed(s, ch))
  {
    if s.words == [] {
      forall text: string
        ensures begun + s.word.value + text == begun + (s.word.value + text)
      {}
    } else if s.word.Some? {
      assert (s.words + [s.word.value])[1..] == s.words[1..] + [s.word.value];
    }
  }

  /** A value quoted into a command line, whatever it contains, ends up inside one word and
      changes nothing else: the line has words or has none for all values alike, and all the
      other words, and the text around the value in its own, are the same. */
  lemma QuotedValueStaysInItsWord(before: string, value: string, after: string)
    requires Scan(START, before).mode.Plain?
    ensures var left := Scan(START, before);
      var right := Scan(State([], Some(""), Plain), after);
      var whole := Scan(START, before + Quote(value) + after);
      && whole.mode == right.mode
      && (right.words == [] ==> right.word.Some?)
      && whole == Extend(left.words, Begun(left) + value, right)
  {
    ScanConcat(START, before, Quote(value));
    ScanConcat(START, before + Quote(value), after);
    var left := Scan(START, before);
    QuotedValueIsLiteral(left, value);
    ScanIgnoresThePast(left.words, Begun(left) + value, after);
  }
}
