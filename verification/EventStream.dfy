/** The chat client's incremental reader of a Server-Sent Events stream (section 9.2.6 of the
    WHATWG HTML Standard, restricted to LF line ends and `data` fields). The network cuts the
    decoded text anywhere. */
module EventStream {
  import opened Prelude
  import opened Text

  // ---------------------------------------------------------------- one event block

  /** JavaScript's `text.split("\n")`. */
  function SplitNewlines(text: string): seq<string>
    decreases |text|
  {
    var i := IndexOf(text, '\n');
    if i == |text| then [text] else [text[..i]] + SplitNewlines(text[i + 1..])
  }

  const DATA: string := "data:"

  /** The values of the `data` fields among the lines. */
  function DataValues(lines: seq<string>): seq<string> {
    if lines == [] then []
    else if DATA <= lines[0] then [TrimStart(lines[0][|DATA|..])] + DataValues(lines[1..])
    else DataValues(lines[1..])
  }

  function JoinNewlines(parts: seq<string>): string {
    if parts == [] then "" else if |parts| == 1 then parts[0] else parts[0] + "\n" + JoinNewlines(parts[1..])
  }

  function Data(block: string): string {
    JoinNewlines(DataValues(SplitNewlines(block)))
  }

  datatype ChatEvent = Session(id: string) | Delta(content: string) | Done(reply: string) | Error(message: string)

  datatype Call = OnDelta(content: string) | OnDone(reply: string) | OnError(message: string)

  /** What `JSON.parse` makes of a text: an event, or nothing the reader reacts to. */
  type Json = string -> Option<ChatEvent>

  function ParseEvent(json: Json, block: string): Option<ChatEvent> {
    if Data(block) == "" then None else json(Data(block))
  }

  function CallsFor(event: Option<ChatEvent>): seq<Call> {
    match event
    case None => []
    case Some(Session(_)) => []
    case Some(Delta(content)) => [OnDelta(content)]
    case Some(Done(reply)) => [OnDone(reply)]
    case Some(Error(message)) => [OnError(message)]
  }

  function Calls(json: Json, blocks: seq<string>): seq<Call> {
    Flatten(Map(block => CallsFor(ParseEvent(json, block)), blocks))
  }

  // ---------------------------------------------------------------- the buffer loop

  predicate TwoNewlines(text: string, at: nat) {
    at + 1 < |text| && text[at] == '\n' && text[at + 1] == '\n'
  }

  /** Position of the first two newlines in a row, or the length of the text. */
  function BlankLineAt(text: string): (i: nat)
    ensures i <= |text|
    ensures i < |text| ==> TwoNewlines(text, i)
    ensures forall k :: 0 <= k < i ==> !TwoNewlines(text, k)
  {
    if text == "" || TwoNewlines(text, 0) then 0
    else
      var i := 1 + BlankLineAt(text[1..]);
      assert forall k :: 1 <= k <= i ==> TwoNewlines(text, k) == TwoNewlines(text[1..], k - 1);
      i
  }

  /** JavaScript's `text.split("\n\n")`: never empty, cut at the leftmost places. */
  function SplitBlocks(text: string): (parts: seq<string>)
    ensures parts != []
    decreases |text|
  {
    var i := BlankLineAt(text);
    if i == |text| then [text] else [text[..i]] + SplitBlocks(text[i + 2..])
  }

  function Blocks(text: string): seq<string> {
    var parts := SplitBlocks(text);
    parts[..|parts| - 1]
  }

  function Leftover(text: string): string {
    var parts := SplitBlocks(text);
    parts[|parts| - 1]
  }

  /** The reader after some text has arrived: the handler calls made and the text kept. */
  class Reader {
    const json: Json
    var buffer: string
    var calls: seq<Call>

    constructor (json: Json)
      ensures this.json == json && buffer == "" && calls == []
    {
      this.json, buffer, calls := json, "", [];
    }

    method Receive(chunk: string)
      modifies this
      ensures calls == old(calls) + Calls(json, Blocks(old(buffer) + chunk))
      ensures buffer == Leftover(old(buffer) + chunk)
    {
      hide ParseEvent;
      var handle := block => CallsFor(ParseEvent(json, block));
      buffer := buffer + chunk;
      var events := SplitBlocks(buffer);
      buffer := events[|events| - 1];
      events := events[..|events| - 1];
      for n := 0 to |events|
        invariant calls == old(calls) + Flatten(Map(handle, events[..n]))
        invariant buffer == Leftover(old(buffer) + chunk)
      {
        assert Map(handle, events[..n + 1]) == Map(handle, events[..n]) + [handle(events[n])];
        FlattenSnoc(Map(handle, events[..n]), handle(events[n]));
        var event := ParseEvent(json, events[n]);
        calls := calls + CallsFor(event);
      }
      assert events[..|events|] == events;
    }

    /** Until the stream ends. */
    method ReceiveAll(chunks: seq<string>)
      requires buffer == "" && calls == []
      modifies this
      ensures calls == Calls(json, Blocks(Flatten(chunks)))
      ensures buffer == Leftover(Flatten(chunks))
    {
      hide Calls, Blocks, Leftover, Flatten;
      NothingReadYet(json);
      for n := 0 to |chunks|
        invariant calls == Calls(json, Blocks(Flatten(chunks[..n])))
        invariant buffer == Leftover(Flatten(chunks[..n]))
      {
        ghost var past := Flatten(chunks[..n]);
        assert chunks[..n + 1] == chunks[..n] + [chunks[n]];
        FlattenSnoc(chunks[..n], chunks[n]);
        CutAnywhere(past, chunks[n]);
        CallsConcat(json, Blocks(past), Blocks(Leftover(past) + chunks[n]));
        Receive(chunks[n]);
      }
      assert chunks[..|chunks|] == chunks;
    }
  }

  lemma NothingReadYet(json: Json)
    ensures Blocks(Flatten<char>([])) == [] && Leftover(Flatten<char>([])) == ""
    ensures Calls(json, []) == []
  {
    assert BlankLineAt("") == 0;
  }

  lemma CallsConcat(json: Json, a: seq<string>, b: seq<string>)
    ensures Calls(json, a + b) == Calls(json, a) + Calls(json, b)
  {
    hide ParseEvent;
    var handle := block => CallsFor(ParseEvent(json, block));
    MapConcat(handle, a, b);
    FlattenConcat(Map(handle, a), Map(handle, b));
  }

  lemma BlankLineStaysFirst(a: string, b: string)
    requires BlankLineAt(a) < |a|
    ensures BlankLineAt(a + b) == BlankLineAt(a)
  {
    var i := BlankLineAt(a);
    assert forall k :: 0 <= k <= i ==> TwoNewlines(a + b, k) == TwoNewlines(a, k);
  }

  lemma NoBlankLineYet(text: string)
    requires BlankLineAt(text) == |text|
    ensures Blocks(text) == [] && Leftover(text) == text
  {
    hide BlankLineAt;
  }

  lemma SplitUnfold(text: string)
    requires BlankLineAt(text) < |text|
    ensures SplitBlocks(text) == [text[..BlankLineAt(text)]] + SplitBlocks(text[BlankLineAt(text) + 2..])
  {
    hide BlankLineAt;
  }

  lemma BlocksUnfold(text: string)
    requires BlankLineAt(text) < |text|
    ensures var i := BlankLineAt(text);
      && SplitBlocks(text) == [text[..i]] + SplitBlocks(text[i + 2..])
      && Blocks(text) == [text[..i]] + Blocks(text[i + 2..])
      && Leftover(text) == Leftover(text[i + 2..])
  {
    hide BlankLineAt, SplitBlocks;
    SplitUnfold(text);
    LastStaysLast(text[..BlankLineAt(text)], SplitBlocks(text[BlankLineAt(text) + 2..]));
  }

  lemma LastStaysLast(head: string, tail: seq<string>)
    requires tail != []
    ensures ([head] + tail)[..|tail|] == [head] + tail[..|tail| - 1]
    ensures ([head] + tail)[|tail|] == tail[|tail| - 1]
  {}

  /** Splitting what was kept together with the next chunk is splitting the whole. */
  lemma {:induction false} SplitContinues(a: string, b: string)
    ensures SplitBlocks(a + b) == Blocks(a) + SplitBlocks(Leftover(a) + b)
    decreases |a|
  {
    hide BlankLineAt, Blocks, Leftover, SplitBlocks;
    var i := BlankLineAt(a);
    if i == |a| {
      NoBlankLineYet(a);
    } else {
      BlankLineStaysFirst(a, b);
      var rest := a[i + 2..];
      SplitContinues(rest, b);
      BlocksUnfold(a);
      BlocksUnfold(a + b);
      assert (a + b)[..i] == a[..i] && (a + b)[i + 2..] == rest + b;
    }
  }

  lemma CutAnywhere(a: string, b: string)
    ensures Blocks(a + b) == Blocks(a) + Blocks(Leftover(a) + b)
    ensures Leftover(a + b) == Leftover(Leftover(a) + b)
  {
    SplitContinues(a, b);
  }

  /** Parts with a blank line after each but the last. */
  function WithBlankLines(parts: seq<string>): string
    requires parts != []
  {
    if |parts| == 1 then parts[0] else parts[0] + "\n\n" + WithBlankLines(parts[1..])
  }

  /** No newline follows a newline before place n. */
  predicate NoBlankLineBefore(text: string, n: nat) {
    forall k: nat :: k < n && k + 1 < |text| ==> !(text[k] == '\n' && text[k + 1] == '\n')
  }

  /** What the buffer loop cuts a text into: put together with blank lines the parts are the text, in
      no part is there a blank line, nor does one begin before its end, and in the rest there is
      none. Only one cutting is like that. */
  lemma {:induction false} BlocksAreBetweenBlankLines(text: string)
    ensures var blocks, rest := Blocks(text), Leftover(text);
      && WithBlankLines(blocks + [rest]) == text
      && (forall i :: 0 <= i < |blocks| ==> NoBlankLineBefore(blocks[i] + "\n\n", |blocks[i]|))
      && NoBlankLineBefore(rest, |rest|)
    decreases |text|
  {
    hide BlankLineAt, Blocks, Leftover, SplitBlocks;
    var i := BlankLineAt(text);
    if i == |text| {
      NoBlankLineYet(text);
      assert [] + [text] == [text];
      forall k: nat | k + 1 < |text|
        ensures !(text[k] == '\n' && text[k + 1] == '\n')
      {
        assert !TwoNewlines(text, k);
      }
    } else {
      var block, later := text[..i], text[i + 2..];
      BlocksUnfold(text);
      BlocksAreBetweenBlankLines(later);
      assert ([block] + Blocks(later) + [Leftover(later)])[1..] == Blocks(later) + [Leftover(later)];
      assert text == block + "\n\n" + later;
      forall k: nat | k < i && k + 1 < |block + "\n\n"|
        ensures !((block + "\n\n")[k] == '\n' && (block + "\n\n")[k + 1] == '\n')
      {
        assert !TwoNewlines(text, k);
      }
    }
  }

  /** The loop of the reader as a function of the chunks. */
  function ReadChunks(chunks: seq<string>): (seq<string>, string)
    decreases |chunks|
  {
    if chunks == [] then ([], "")
    else
      var (blocks, buffer) := ReadChunks(chunks[..|chunks| - 1]);
      var text := buffer + chunks[|chunks| - 1];
      (blocks + Blocks(text), Leftover(text))
  }

  /** Every text, cut in every way: the same event blocks in the same order and the same
      leftover as one split of the whole. In particular two cuts of one text are read alike. */
  lemma {:induction false} ReadingIgnoresCuts(chunks: seq<string>)
    ensures ReadChunks(chunks) == (Blocks(Flatten(chunks)), Leftover(Flatten(chunks)))
    decreases |chunks|
  {
    if chunks == [] {
      assert BlankLineAt("") == 0;
    } else {
      var before, last := chunks[..|chunks| - 1], chunks[|chunks| - 1];
      ReadingIgnoresCuts(before);
      FlattenSnoc(before, last);
      assert before + [last] == chunks;
      CutAnywhere(Flatten(before), last);
    }
  }

  // ---------------------------------------------------------------- end to end

  function Framed(payload: string): string {
    "data: " + payload + "\n\n"
  }

  function Stream(payloads: seq<string>): string {
    Flatten(Map(Framed, payloads))
  }

  /** One line, not empty, no blank in front. */
  predicate Deliverable(payload: string) {
    && payload != ""
    && (forall i :: 0 <= i < |payload| ==> payload[i] != '\n')
    && !IsJsSpace(payload[0])
  }

  lemma OneLineBlock(payload: string)
    requires Deliverable(payload)
    ensures Data("data: " + payload) == payload
  {
    var block := "data: " + payload;
    assert IndexOf(block, '\n') == |block|;
    assert SplitNewlines(block) == [block];
    var value := block[|DATA|..];
    assert value == " " + payload && value[1..] == payload;
    assert TrimStart(value) == TrimStart(payload) == payload;
    assert DataValues([block]) == [TrimStart(value)] + DataValues([block][1..]);
    assert DataValues([block]) == [payload];
  }

  lemma {:induction false} StreamSplits(payloads: seq<string>)
    requires forall i :: 0 <= i < |payloads| ==> Deliverable(payloads[i])
    ensures Blocks(Stream(payloads)) == Map(payload => "data: " + payload, payloads)
    ensures Leftover(Stream(payloads)) == ""
    decreases |payloads|
  {
    if payloads == [] {
      assert BlankLineAt("") == 0;
    } else {
      var before, last := payloads[..|payloads| - 1], payloads[|payloads| - 1];
      StreamSplits(before);
      assert Map(Framed, payloads) == Map(Framed, before) + [Framed(last)];
      FlattenSnoc(Map(Framed, before), Framed(last));
      CutAnywhere(Stream(before), Framed(last));
      assert "" + Framed(last) == Framed(last);
      FrameIsOneBlock(last);
    }
  }

  lemma FrameIsOneBlock(payload: string)
    requires Deliverable(payload)
    ensures Blocks(Framed(payload)) == ["data: " + payload] && Leftover(Framed(payload)) == ""
  {
    var block, text := "data: " + payload, Framed(payload);
    assert text[..|block|] == block && TwoNewlines(text, |block|);
    assert forall k :: 0 <= k < |block| ==> text[k] != '\n';
    assert BlankLineAt(text) == |block|;
    assert text[|block| + 2..] == "" && SplitBlocks("") == [""];
    assert SplitBlocks(text) == [block] + [""];
  }

  /** Any list of one-line payloads, framed and cut anywhere: each is read as one block with
      exactly that data, in order, the handlers are called for exactly those, and nothing is
      left in the buffer. */
  lemma PayloadsArriveInOrder(json: Json, payloads: seq<string>, chunks: seq<string>)
    requires forall i :: 0 <= i < |payloads| ==> Deliverable(payloads[i])
    requires Flatten(chunks) == Stream(payloads)
    ensures var (blocks, buffer) := ReadChunks(chunks);
      && Map(Data, blocks) == payloads
      && buffer == ""
      && Calls(json, blocks) == Flatten(Map(payload => CallsFor(json(payload)), payloads))
  {
    hide Blocks, Leftover, Data, ReadChunks, Flatten, CallsFor;
    ReadingIgnoresCuts(chunks);
    StreamSplits(payloads);
    var (blocks, buffer) := ReadChunks(chunks);
    forall i | 0 <= i < |payloads|
      ensures Data(blocks[i]) == payloads[i]
    {
      OneLineBlock(payloads[i]);
    }
    assert Map(block => CallsFor(ParseEvent(json, block)), blocks) == Map(payload => CallsFor(json(payload)), payloads);
  }

  function TotalLength(lines: seq<string>): nat {
    if lines == [] then 0 else 1 + |lines[0]| + TotalLength(lines[1..])
  }

  lemma {:induction false} DataIsShorter(lines: seq<string>)
    ensures lines != [] ==> TotalLength(DataValues(lines)) < TotalLength(lines)
  {
    if lines != [] {
      DataIsShorter(lines[1..]);
    }
  }

  lemma {:induction false} JoinedLength(parts: seq<string>)
    requires parts != []
    ensures |JoinNewlines(parts)| + 1 == TotalLength(parts)
  {
    if |parts| > 1 {
      JoinedLength(parts[1..]);
    }
  }

  lemma {:induction false} SplitKeepsLength(text: string)
    ensures TotalLength(SplitNewlines(text)) == |text| + 1
    ensures SplitNewlines(text) != []
    decreases |text|
  {
    var i := IndexOf(text, '\n');
    if i < |text| {
      SplitKeepsLength(text[i + 1..]);
    }
  }

  /** What a block is worth whose first line is `data: value`, with or without further lines. */
  lemma DataOfLines(value: string, rest: seq<string>)
    ensures var data := JoinNewlines(DataValues(["data: " + value] + rest));
      && (rest == [] ==> data == TrimStart(value))
      && (rest != [] ==> |data| < |value| + TotalLength(rest))
  {
    var first := "data: " + value;
    assert first[|DATA|..] == " " + value && (" " + value)[1..] == value;
    assert ([first] + rest)[1..] == rest;
    var values := DataValues([first] + rest);
    assert values == [TrimStart(value)] + DataValues(rest);
    assert values[1..] == DataValues(rest);
    JoinedLength(values);
    DataIsShorter(rest);
  }

  lemma PayloadShifted(payload: string)
    ensures var block := "data: " + payload;
      forall k :: 0 <= k < |payload| ==> block[k + 6] == payload[k]
  {}

  lemma OneLineCarries(payload: string)
    requires IndexOf("data: " + payload, '\n') == |"data: " + payload|
    ensures Data("data: " + payload) == TrimStart(payload)
  {
    hide DataValues, JoinNewlines, IndexOf;
    var block := "data: " + payload;
    assert SplitNewlines(block) == [block] + [];
    DataOfLines(payload, []);
  }

  lemma MoreLinesLose(payload: string)
    requires IndexOf("data: " + payload, '\n') < |"data: " + payload|
    ensures |Data("data: " + payload)| < |payload|
  {
    hide DataValues, JoinNewlines;
    var block := "data: " + payload;
    var i := IndexOf(block, '\n');
    assert i >= 6;
    var value, rest := payload[..i - 6], SplitNewlines(block[i + 1..]);
    FirstLine(payload, i);
    DataOfLines(value, rest);
    SplitKeepsLength(block[i + 1..]);
  }

  lemma FirstLine(payload: string, i: nat)
    requires i == IndexOf("data: " + payload, '\n') < |"data: " + payload| && i >= 6
    ensures SplitNewlines("data: " + payload) ==
            ["data: " + payload[..i - 6]] + SplitNewlines(("data: " + payload)[i + 1..])
  {
    hide IndexOf;
    assert ("data: " + payload)[..i] == "data: " + payload[..i - 6];
  }

  /** Which payloads a frame carries unaltered: those on one line that do not begin with a
      blank, and no others. (The empty one is carried but not delivered.) */
  lemma FrameCarriesExactlyOneLiners(payload: string)
    ensures Data("data: " + payload) == payload <==> payload == "" || Deliverable(payload)
  {
    hide Data, IndexOf;
    var block := "data: " + payload;
    var i := IndexOf(block, '\n');
    PayloadShifted(payload);
    if i == |block| {
      OneLineCarries(payload);
      assert forall k :: 0 <= k < |payload| ==> payload[k] == block[k + 6];
    } else {
      MoreLinesLose(payload);
      assert payload[i - 6] == '\n';
    }
  }

  // ---------------------------------------------------------------- blocks of several lines

  /** A line of a block: a `data` field, with any blanks before its value, or anything else. */
  datatype Line = DataField(pad: string, value: string) | Other(text: string)

  predicate WellFormed(line: Line) {
    match line
    case DataField(pad, value) =>
      && (forall i :: 0 <= i < |pad| ==> IsJsSpace(pad[i]) && pad[i] != '\n')
      && (forall i :: 0 <= i < |value| ==> value[i] != '\n')
      && (value != "" ==> !IsJsSpace(value[0]))
    case Other(text) =>
      && (forall i :: 0 <= i < |text| ==> text[i] != '\n')
      && (|text| < 5 || text[..5] != "data:")
  }

  function Printed(line: Line): string {
    match line
    case DataField(pad, value) => "data:" + pad + value
    case Other(text) => text
  }

  /** The lines, a newline between each and the next. */
  function Block(lines: seq<Line>): string
    requires lines != []
  {
    if |lines| == 1 then Printed(lines[0]) else Printed(lines[0]) + "\n" + Block(lines[1..])
  }

  /** The values of the fields, each on a line of its own. */
  function FieldValues(lines: seq<Line>): seq<string> {
    if lines == [] then []
    else (if lines[0].DataField? then [lines[0].value] else []) + FieldValues(lines[1..])
  }

  lemma {:induction false} TrimPadded(pad: string, value: string)
    requires forall i :: 0 <= i < |pad| ==> IsJsSpace(pad[i])
    requires value != "" ==> !IsJsSpace(value[0])
    ensures TrimStart(pad + value) == value
    decreases |pad|
  {
    if pad == "" {
      assert pad + value == value;
    } else {
      TrimPadded(pad[1..], value);
      assert (pad + value)[1..] == pad[1..] + value;
    }
  }

  lemma PrintedHasNoNewline(line: Line)
    requires WellFormed(line)
    ensures forall i :: 0 <= i < |Printed(line)| ==> Printed(line)[i] != '\n'
  {}

  lemma FirstLineSplits(first: string, rest: string)
    requires forall i :: 0 <= i < |first| ==> first[i] != '\n'
    ensures SplitNewlines(first) == [first]
    ensures SplitNewlines(first + "\n" + rest) == [first] + SplitNewlines(rest)
  {
    var text := first + "\n" + rest;
    assert IndexOf(first, '\n') == |first|;
    assert text[..|first|] == first && text[|first|] == '\n' && text[|first| + 1..] == rest;
    assert forall k :: 0 <= k < |first| ==> text[k] == first[k];
    assert IndexOf(text, '\n') == |first|;
  }

  lemma {:induction false} BlockSplits(lines: seq<Line>)
    requires lines != [] && forall i :: 0 <= i < |lines| ==> WellFormed(lines[i])
    ensures SplitNewlines(Block(lines)) == Map(Printed, lines)
  {
    hide WellFormed, Printed, SplitNewlines;
    var first := Printed(lines[0]);
    PrintedHasNoNewline(lines[0]);
    if |lines| == 1 {
      FirstLineSplits(first, "");
    } else {
      BlockSplits(lines[1..]);
      FirstLineSplits(first, Block(lines[1..]));
      assert Map(Printed, lines) == [first] + Map(Printed, lines[1..]);
    }
  }

  lemma {:induction false} FieldsAreRead(lines: seq<Line>)
    requires forall i :: 0 <= i < |lines| ==> WellFormed(lines[i])
    ensures DataValues(Map(Printed, lines)) == FieldValues(lines)
  {
    if lines != [] {
      FieldsAreRead(lines[1..]);
      var first := Printed(lines[0]);
      assert Map(Printed, lines)[1..] == Map(Printed, lines[1..]);
      match lines[0]
      case DataField(pad, value) =>
        TrimPadded(pad, value);
        assert first[|DATA|..] == pad + value && DATA <= first;
      case Other(text) =>
        assert |first| < 5 || first[..5] != DATA;
    }
  }

  /** What a block says, whatever lines it has: the values of its `data` fields, blanks in front of
      them taken off, one under the other; other lines say nothing, and a block without a field has
      no data. */
  lemma BlockSaysItsDataFields(lines: seq<Line>)
    requires lines != [] && forall i :: 0 <= i < |lines| ==> WellFormed(lines[i])
    ensures Data(Block(lines)) == JoinNewlines(FieldValues(lines))
    ensures FieldValues(lines) == [] ==> Data(Block(lines)) == ""
    ensures |FieldValues(lines)| == 1 ==> Data(Block(lines)) == FieldValues(lines)[0]
  {
    BlockSplits(lines);
    FieldsAreRead(lines);
  }
}
