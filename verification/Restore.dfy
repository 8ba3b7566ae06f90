/** Upload and restore of a staged backup. The bytes travel as `printf '\xHH...'` in chunks of
    at most 3500 characters; the restore command is sent only after the router has counted
    the bytes. The transport sends a command again when its answer is lost; so a chunk may be
    appended more than once, and it is the count that keeps such a file from being restored. */
module Restore {
  import opened Prelude
  import opened HexDump
  import opened Text

  // ---------------------------------------------------------------- the upload format

  const UPLOAD_CHUNK := 3500

  const ESCAPE_WIDTH := 4

  const BYTES_PER_CHUNK := 875

  function Escape(b: Byte): string {
    "\\x" + TwoDigits(b)
  }

  function PrintfHex(data: seq<Byte>): string {
    Flatten(Map(Escape, data))
  }

  /** What `printf` writes for a text of `\xHH` escapes; anything else is no upload format. */
  function Printf(format: string): Option<seq<Byte>>
    decreases |format|
  {
    if format == "" then Some([])
    else if |format| >= 4 && format[0] == '\\' && format[1] == 'x' && IsHex(format[2]) && IsHex(format[3]) then
      match Printf(format[4..])
      case Some(rest) => Some([HexValue(format[2]) * 16 + HexValue(format[3])] + rest)
      case None => None
    else None
  }

  /** Slice i of the text as the upload loop cuts it. */
  function Chunk(hexes: string, i: nat): string
    requires UPLOAD_CHUNK * i <= |hexes|
  {
    var from := UPLOAD_CHUNK * i;
    if from + UPLOAD_CHUNK <= |hexes| then hexes[from..from + UPLOAD_CHUNK] else hexes[from..]
  }

  function Chunks(data: seq<Byte>): nat {
    (|data| + BYTES_PER_CHUNK - 1) / BYTES_PER_CHUNK
  }

  /** How many bytes are on the router after i chunks. */
  function Sent(i: nat, length: nat): nat {
    if BYTES_PER_CHUNK * i <= length then BYTES_PER_CHUNK * i else length
  }

  lemma {:induction false} PrintfHexConcat(a: seq<Byte>, b: seq<Byte>)
    ensures PrintfHex(a + b) == PrintfHex(a) + PrintfHex(b)
  {
    MapConcat(Escape, a, b);
    FlattenConcat(Map(Escape, a), Map(Escape, b));
  }

  lemma PrintfHexCons(b: Byte, rest: seq<Byte>)
    ensures PrintfHex([b] + rest) == Escape(b) + PrintfHex(rest)
  {
    PrintfHexConcat([b], rest);
    FlattenOne(Escape(b));
    assert Map(Escape, [b]) == [Escape(b)];
  }

  lemma {:induction false} PrintfReadsBack(data: seq<Byte>)
    ensures Printf(PrintfHex(data)) == Some(data)
    ensures |PrintfHex(data)| == ESCAPE_WIDTH * |data|
  {
    if data != [] {
      var b, rest := data[0], data[1..];
      PrintfReadsBack(rest);
      PrintfHexCons(b, rest);
      assert data == [b] + rest;
      DigitReadsBack(b / 16);
      DigitReadsBack(b % 16);
      assert (Escape(b) + PrintfHex(rest))[4..] == PrintfHex(rest);
    }
  }

  /** Place i of a text begins an escape. */
  predicate IsEscape(format: string, i: nat) {
    && i + ESCAPE_WIDTH <= |format|
    && format[i] == '\\' && format[i + 1] == 'x' && IsHex(format[i + 2]) && IsHex(format[i + 3])
  }

  /** Nothing but a row of escapes is an upload format. */
  lemma {:induction false} OnlyEscapesAreRead(format: string)
    ensures Printf(format).Some? <==>
            |format| % ESCAPE_WIDTH == 0 && forall i: nat :: i < |format| / ESCAPE_WIDTH ==> IsEscape(format, ESCAPE_WIDTH * i)
    decreases |format|
  {
    if |format| >= ESCAPE_WIDTH {
      var rest := format[ESCAPE_WIDTH..];
      OnlyEscapesAreRead(rest);
      assert IsEscape(format, 0) || !IsEscape(format, ESCAPE_WIDTH * 0);
      forall i: nat | i < |rest| / ESCAPE_WIDTH
        ensures IsEscape(rest, ESCAPE_WIDTH * i) <==> IsEscape(format, ESCAPE_WIDTH * (i + 1))
      {}
      forall i: nat | 0 < i < |format| / ESCAPE_WIDTH
        ensures IsEscape(format, ESCAPE_WIDTH * i) <==> IsEscape(rest, ESCAPE_WIDTH * (i - 1))
      {}
    }
  }

  lemma SliceOfEscapes(data: seq<Byte>, from: nat, to: nat)
    requires from <= to <= |data|
    ensures |PrintfHex(data)| == ESCAPE_WIDTH * |data|
    ensures PrintfHex(data)[ESCAPE_WIDTH * from..ESCAPE_WIDTH * to] == PrintfHex(data[from..to])
  {
    var a, b, c := data[..from], data[from..to], data[to..];
    assert data == a + b + c;
    PrintfHexConcat(a + b, c);
    PrintfHexConcat(a, b);
    PrintfReadsBack(data);
    PrintfReadsBack(a);
    PrintfReadsBack(b);
  }

  /** No chunk boundary falls inside an escape: chunk i decodes to bytes 875*i up to
      875*(i+1) or the end, and the chunk that reaches the end is the last. */
  lemma ChunkDecodes(data: seq<Byte>, i: nat)
    requires UPLOAD_CHUNK * i < |PrintfHex(data)|
    ensures Sent(i, |data|) == BYTES_PER_CHUNK * i < |data|
    ensures Printf(Chunk(PrintfHex(data), i)) == Some(data[Sent(i, |data|)..Sent(i + 1, |data|)])
    ensures UPLOAD_CHUNK * (i + 1) >= |PrintfHex(data)| <==> Sent(i + 1, |data|) == |data|
  {
    PrintfReadsBack(data);
    var from, to := Sent(i, |data|), Sent(i + 1, |data|);
    SliceOfEscapes(data, from, to);
    PrintfReadsBack(data[from..to]);
    assert Chunk(PrintfHex(data), i) == PrintfHex(data)[ESCAPE_WIDTH * from..ESCAPE_WIDTH * to];
  }

  // ---------------------------------------------------------------- the router

  /** How often the transport makes an attempt at one command: once, and two retries. */
  const ATTEMPTS := 3

  /** One command as the transport runs it: attempts whose answer was lost, `lost[i]` saying how
      much of its effect the i-th had, and then, if `ok`, an attempt that was answered. Without
      an answer the upload file is left in any state whatever. */
  datatype Reply = Reply(lost: seq<nat>, ok: bool, wreck: Option<seq<Byte>>)

  function AttemptsOf(r: Reply): nat {
    |r.lost| + if r.ok then 1 else 0
  }

  type Answer = r: Reply | AttemptsOf(r) <= ATTEMPTS witness Reply([], true, None)

  /** What lost attempts at writing a chunk leave behind: one prefix of it each. */
  function Leftovers(chunk: seq<Byte>, lost: seq<nat>): seq<Byte> {
    if lost == [] then []
    else (if lost[0] <= |chunk| then chunk[..lost[0]] else chunk) + Leftovers(chunk, lost[1..])
  }

  /** How many attempts reached the router at all. */
  function Reached(lost: seq<nat>): (n: nat)
    ensures n <= |lost|
  {
    if lost == [] then 0 else (if lost[0] > 0 then 1 else 0) + Reached(lost[1..])
  }

  /** How often a command reached the router. */
  function SendsOf(r: Reply): (n: nat)
    ensures n <= AttemptsOf(r)
  {
    Reached(r.lost) + if r.ok then 1 else 0
  }

  /** The transport makes up to three attempts, all of which may have had their effect without an
      answer; an attempt without effect sends nothing, and an answered one was sent. */
  lemma {:induction false} SendsAreEffects(r: Answer)
    ensures |r.lost| <= 3 && (r.ok ==> |r.lost| <= 2)
    ensures (forall i :: 0 <= i < |r.lost| ==> r.lost[i] == 0) ==> SendsOf(r) == if r.ok then 1 else 0
    ensures (forall i :: 0 <= i < |r.lost| ==> r.lost[i] > 0) ==> SendsOf(r) == |r.lost| + if r.ok then 1 else 0
    ensures exists unanswered: Answer :: !unanswered.ok && SendsOf(unanswered) == 3
    ensures exists answered: Answer :: answered.ok && SendsOf(answered) == 3
  {
    ReachedCountsEffects(r.lost);
    ReachedCountsEffects([1, 1, 1]);
    ReachedCountsEffects([1, 1]);
    var unanswered: Answer, answered: Answer := Reply([1, 1, 1], false, None), Reply([1, 1], true, None);
    assert !unanswered.ok && SendsOf(unanswered) == 3;
    assert answered.ok && SendsOf(answered) == 3;
  }

  lemma {:induction false} ReachedCountsEffects(lost: seq<nat>)
    ensures (forall i :: 0 <= i < |lost| ==> lost[i] == 0) ==> Reached(lost) == 0
    ensures (forall i :: 0 <= i < |lost| ==> lost[i] > 0) ==> Reached(lost) == |lost|
  {
    if lost != [] {
      ReachedCountsEffects(lost[1..]);
    }
  }

  function Copies<T>(x: T, n: nat): (r: seq<T>)
    ensures |r| == n
    ensures forall i :: 0 <= i < n ==> r[i] == x
  {
    seq(n, _ => x)
  }

  class Router {
    const replies: nat -> Answer
    var asked: nat
    var file: Option<seq<Byte>>
    /** What the upload file held whenever `sysupgrade -r` was sent. */
    var dispatched: seq<Option<seq<Byte>>>

    constructor (replies: nat -> Answer)
      ensures this.replies == replies && asked == 0 && file == None && dispatched == []
    {
      this.replies := replies;
      asked, file, dispatched := 0, None, [];
    }

    /** No answer is lost between two moments. */
    ghost predicate Prompt(from: nat, to: nat) {
      forall n :: from <= n < to ==> replies(n).lost == []
    }

    /** The commands between two moments all report success. */
    ghost predicate Succeed(from: nat, to: nat) {
      forall n :: from <= n < to ==> replies(n).ok
    }

    /** What an upload of `chunks` chunks and the restore after it come to, by the replies: one
        command clears the file, one writes each chunk, one counts the bytes, one tests the archive,
        one looks for the tool, and only then one starts the restore. `fits` says whether the
        count is right. */
    ghost function Verdict(first: nat, chunks: nat, fits: bool): Result<bool, RestoreError> {
      if !replies(first).ok then Err(NotCleared)
      else if !Succeed(first + 1, first + 1 + chunks) then Err(NotUploaded)
      else if !replies(first + 1 + chunks).ok || !fits then Err(SizeMismatch)
      else if !replies(first + 2 + chunks).ok then Err(NotGzipOnRouter)
      else if !replies(first + 3 + chunks).ok then Err(NoSysupgrade)
      else Ok(replies(first + 4 + chunks).ok)
    }

    /** Every command is answered in the end, and with success. */
    ghost predicate Answering() {
      forall n :: replies(n).ok
    }

    /** Some command made this many attempts and reached the router this often. */
    ghost predicate Made(attempts: nat, sends: nat) {
      exists n :: attempts == AttemptsOf(replies(n)) && sends == SendsOf(replies(n))
    }

    ghost predicate Cooperative() {
      forall n :: replies(n).ok && replies(n).lost == []
    }

    /** A command that leaves the upload file alone. */
    method Ask() returns (ok: bool)
      modifies this`asked
      ensures asked == old(asked) + 1
      ensures ok == replies(old(asked)).ok
    {
      ok := replies(asked).ok;
      asked := asked + 1;
    }

    method Remove() returns (ok: bool)
      modifies this`asked, this`file
      ensures asked == old(asked) + 1
      ensures file == if ok then None else replies(old(asked)).wreck
      ensures ok == replies(old(asked)).ok
    {
      var reply := replies(asked);
      asked := asked + 1;
      ok := reply.ok;
      file := if ok then None else reply.wreck;
    }

    /** Redirection with `>` starts anew in every attempt; with `>>` lost attempts leave their
        part in the file, ahead of the chunk. */
    method Write(format: string, append: bool) returns (ok: bool, ghost extra: seq<Byte>)
      modifies this`asked, this`file
      ensures asked == old(asked) + 1
      ensures ok ==>
        && Printf(format).Some?
        && file == Some((if append && old(file).Some? then old(file).value else []) + extra + Printf(format).value)
      ensures ok && (!append || Prompt(old(asked), asked)) ==> extra == []
      ensures ok == (replies(old(asked)).ok && Printf(format).Some?)
      ensures !ok ==> file == replies(old(asked)).wreck
    {
      var reply := replies(asked);
      asked := asked + 1;
      var bytes := Printf(format);
      ok := reply.ok && bytes.Some?;
      extra := [];
      if !ok {
        file := reply.wreck;
      } else if append {
        var before := if file.Some? then file.value else [];
        file := Some(before + Leftovers(bytes.value, reply.lost) + bytes.value);
        extra := Leftovers(bytes.value, reply.lost);
      } else {
        file := Some(bytes.value);
        assert [] + extra + bytes.value == bytes.value;
      }
    }

    method CountBytes() returns (ok: bool, count: nat)
      modifies this`asked
      ensures asked == old(asked) + 1
      ensures count == if file.Some? then |file.value| else 0
      ensures ok == (replies(old(asked)).ok && file.Some?)
    {
      ok := Ask();
      ok := ok && file.Some?;
      count := if file.Some? then |file.value| else 0;
    }

    /** Every attempt that reaches the router starts a restore. */
    method Dispatch() returns (ok: bool, ghost attempts: nat, ghost sends: nat)
      modifies this`asked, this`dispatched
      ensures asked == old(asked) + 1
      ensures ok == replies(old(asked)).ok
      ensures attempts == AttemptsOf(replies(old(asked))) <= ATTEMPTS
      ensures sends == SendsOf(replies(old(asked)))
      ensures dispatched == old(dispatched) + Copies(file, sends)
    {
      var reply := replies(asked);
      ok := reply.ok;
      asked := asked + 1;
      attempts, sends := AttemptsOf(reply), SendsOf(reply);
      dispatched := dispatched + Copies(file, SendsOf(reply));
    }
  }

  datatype RestoreError =
    | NoTransport | NotClosed | NotCleared | NotUploaded | SizeMismatch | NotGzipOnRouter | NoSysupgrade
    | NotBase64 | NotGzip | UnknownJob | NotAwaitingConfirmation

  /** The file is at least as long as the first n bytes and, if no longer, it is those bytes. */
  predicate AtLeast(file: Option<seq<Byte>>, data: seq<Byte>, n: nat)
    requires n <= |data|
  {
    file.Some? && |file.value| >= n && (|file.value| == n ==> file.value == data[..n])
  }

  lemma AtLeastGrows(before: seq<Byte>, extra: seq<Byte>, data: seq<Byte>, n: nat, m: nat)
    requires n <= m <= |data| && AtLeast(Some(before), data, n)
    ensures AtLeast(Some(before + extra + data[n..m]), data, m)
  {
    var after := before + extra + data[n..m];
    if |after| == m {
      assert extra == [] && before == data[..n];
      assert after == data[..m];
    }
  }

  /** The upload loop. `files` lists what the router's file was after each chunk: never shorter
      than the first 875*i bytes after the i-th, and nothing but those bytes if it is no longer,
      in particular whenever no answer was lost. */
  method Upload(router: Router, data: seq<Byte>) returns (ok: bool, ghost files: seq<Option<seq<Byte>>>)
    requires router.file == None
    modifies router`asked, router`file
    ensures router.asked >= old(router.asked)
    ensures forall k :: 0 <= k < |files| ==> AtLeast(files[k], data, Sent(k + 1, |data|))
    ensures router.Prompt(old(router.asked), router.asked) ==>
      forall k :: 0 <= k < |files| ==> files[k] == Some(data[..Sent(k + 1, |data|)])
    ensures forall k :: 0 <= k < |files| ==> BYTES_PER_CHUNK * k < |data|
    ensures ok ==> Sent(|files|, |data|) == |data|
    ensures ok ==> router.file == if files == [] then None else files[|files| - 1]
    ensures files != [] ==> files[0] == Some(data[..Sent(1, |data|)])
    ensures ok <==> router.Succeed(old(router.asked), old(router.asked) + Chunks(data))
    ensures ok ==> router.asked == old(router.asked) + Chunks(data)
  {
    hide Printf, PrintfHex, Chunk, AtLeast;
    var hexes := PrintfHex(data);
    PrintfReadsBack(data);
    var i := 0;
    files := [];
    while UPLOAD_CHUNK * i < |hexes|
      invariant |files| == i <= Chunks(data) && router.asked == old(router.asked) + i
      invariant router.Succeed(old(router.asked), old(router.asked) + i)
      invariant forall k :: 0 <= k < i ==> AtLeast(files[k], data, Sent(k + 1, |data|))
      invariant router.Prompt(old(router.asked), router.asked) ==>
        forall k :: 0 <= k < i ==> files[k] == Some(data[..Sent(k + 1, |data|)])
      invariant forall k :: 0 <= k < i ==> BYTES_PER_CHUNK * k < |data|
      invariant i > 0 ==> files[0] == Some(data[..Sent(1, |data|)])
      invariant Sent(i, |data|) <= |data|
      invariant router.file == if i == 0 then None else files[i - 1]
      invariant i > 0 && UPLOAD_CHUNK * i >= |hexes| ==> Sent(i, |data|) == |data|
      decreases |hexes| - UPLOAD_CHUNK * i
    {
      ChunkDecodes(data, i);
      ghost var sent, next, start := Sent(i, |data|), Sent(i + 1, |data|), router.asked;
      ghost var before := if i == 0 then [] else FileOf(router.file, data, sent);
      ghost var extra;
      ok, extra := router.Write(Chunk(hexes, i), i != 0);
      if !ok {
        return;
      }
      assert AtLeast(Some(before), data, sent) by {
        NothingSent(data);
      }
      AtLeastGrows(before, extra, data, sent, next);
      if router.Prompt(old(router.asked), router.asked) {
        assert router.Prompt(old(router.asked), start) && router.Prompt(start, router.asked);
        assert before == data[..sent] && extra == [];
        assert before + extra + data[sent..next] == data[..next];
      }
      if i == 0 {
        assert before + extra + data[sent..next] == data[..next];
      }
      files := files + [router.file];
      i := i + 1;
    }
    ok := true;
  }

  lemma OneChunkIsAll(data: seq<Byte>, chunks: nat)
    requires 0 < |data| <= BYTES_PER_CHUNK && Sent(chunks, |data|) == |data|
    ensures chunks >= 1 && Sent(1, |data|) == |data|
    ensures chunks >= 2 ==> BYTES_PER_CHUNK * 1 >= |data|
  {}

  lemma NothingSent(data: seq<Byte>)
    ensures AtLeast(Some([]), data, 0)
  {}

  function FileOf(file: Option<seq<Byte>>, data: seq<Byte>, n: nat): (bytes: seq<Byte>)
    requires n <= |data| && AtLeast(file, data, n)
    ensures file == Some(bytes)
  {
    file.value
  }

  lemma AnsweredWasSent(r: Reply)
    ensures SendsOf(r) <= AttemptsOf(r)
    ensures r.ok ==> SendsOf(r) >= 1
    ensures r.ok && r.lost == [] ==> AttemptsOf(r) == 1
  {}

  /** Everything up to the restore command: the error of the first command that is refused, or of
      the size check, if any. When there is none the router's file is the data. */
  method PrepareRestore(router: Router, data: seq<Byte>) returns (error: Option<RestoreError>)
    modifies router`asked, router`file
    ensures router.asked > old(router.asked)
    ensures var verdict := router.Verdict(old(router.asked), Chunks(data), router.file.Some? && |router.file.value| == |data|);
      if error.Some? then verdict == Err(error.value)
      else
        && verdict.Ok?
        && router.asked == old(router.asked) + 4 + Chunks(data)
        && router.Succeed(old(router.asked), router.asked)
    ensures error.None? ==> router.file == Some(data) && data != []
    ensures router.Answering() && data != [] && (router.Cooperative() || |data| <= BYTES_PER_CHUNK) ==> error.None?
  {
    hide Printf, PrintfHex;
    var ok := router.Remove();
    if !ok {
      return Some(NotCleared);
    }
    ghost var files;
    ok, files := Upload(router, data);
    if !ok {
      return Some(NotUploaded);
    }
    assert data[..|data|] == data;
    assert router.Cooperative() && data != [] ==> router.file == Some(data);
    assert 0 < |data| <= BYTES_PER_CHUNK ==> router.file == Some(data) by {
      if 0 < |data| <= BYTES_PER_CHUNK {
        OneChunkIsAll(data, |files|);
      }
    }
    var counted, count := router.CountBytes();
    if !counted || count != |data| {
      return Some(SizeMismatch);
    }
    assert files != [] && BYTES_PER_CHUNK * 0 < |data|;
    assert router.file == Some(data);
    ok := router.Ask();
    if !ok {
      return Some(NotGzipOnRouter);
    }
    ok := router.Ask();
    if !ok {
      return Some(NoSysupgrade);
    }
    error := None;
  }

  /** The restore command is sent only when the router's file is exactly the staged bytes, and
      then at most three times in a row, once for every attempt that reaches the router; on any
      failure before it is not sent. A file lengthened by repeated chunks does not pass the
      size check, and neither does empty data. A router that does what it is told at once gets
      any other data restored once. */
  method SendRestore(router: Router, data: seq<Byte>)
    returns (result: Result<bool, RestoreError>, ghost attempts: nat, ghost sends: nat)
    modifies router
    ensures sends <= attempts <= ATTEMPTS
    ensures router.dispatched == old(router.dispatched) + Copies(Some(data), sends)
    ensures result.Ok? ==> router.file == Some(data) && data != []
    ensures result.Err? ==> attempts == 0
    ensures router.asked > old(router.asked)
    ensures result == router.Verdict(old(router.asked), Chunks(data), router.file.Some? && |router.file.value| == |data|)
    ensures result.Ok? ==>
      var last := old(router.asked) + 4 + Chunks(data);
      && router.Succeed(old(router.asked), last)
      && attempts == AttemptsOf(router.replies(last)) && sends == SendsOf(router.replies(last))
    ensures result.Ok? ==> router.Made(attempts, sends)
    ensures result == Ok(true) ==> sends >= 1
    ensures router.Answering() && data != [] && (router.Cooperative() || |data| <= BYTES_PER_CHUNK) ==> result == Ok(true)
    ensures router.Cooperative() && data != [] ==> attempts == 1
  {
    hide SendsOf, AttemptsOf, Copies;
    attempts, sends := 0, 0;
    var error := PrepareRestore(router, data);
    if error.Some? {
      return Err(error.value), 0, 0;
    }
    ghost var last := router.asked;
    var sent;
    sent, attempts, sends := router.Dispatch();
    assert attempts == AttemptsOf(router.replies(last)) && sends == SendsOf(router.replies(last));
    AnsweredWasSent(router.replies(last));
    result := Ok(sent);
  }

  /** `execute_restore`: open, send, and in any case close. When closing fails its error takes the
      place of the result, although the restore command may be on its way. */
  method ExecuteRestore(router: Router, data: seq<Byte>)
    returns (result: Result<bool, RestoreError>, ghost closed: bool, ghost attempts: nat, ghost sends: nat)
    modifies router
    ensures sends <= attempts <= ATTEMPTS
    ensures router.dispatched == old(router.dispatched) + Copies(Some(data), sends)
    ensures attempts > 0 || result.Ok? ==> router.file == Some(data) && data != []
    ensures result.Ok? ==> closed
    ensures result.Err? && closed ==> attempts == 0
    ensures !router.replies(old(router.asked)).ok ==> result == Err(NoTransport)
    ensures router.replies(old(router.asked)).ok ==>
      && router.asked > old(router.asked)
      && closed == router.replies(router.asked - 1).ok
      && result == if closed
                   then router.Verdict(old(router.asked) + 1, Chunks(data), router.file.Some? && |router.file.value| == |data|)
                   else Err(NotClosed)
    ensures attempts > 0 ==>
      var last := old(router.asked) + 5 + Chunks(data);
      && router.Succeed(old(router.asked), last)
      && attempts == AttemptsOf(router.replies(last)) && sends == SendsOf(router.replies(last))
    ensures attempts > 0 ==> router.Made(attempts, sends)
    ensures result == Ok(true) ==> attempts > 0 && sends >= 1
    ensures router.Answering() ==> closed
    ensures router.Answering() && data != [] && (router.Cooperative() || |data| <= BYTES_PER_CHUNK) ==> result == Ok(true)
    ensures router.Cooperative() && data != [] ==> attempts == 1
  {
    hide SendsOf, AttemptsOf, Copies;
    var reached := router.Ask();
    if !reached {
      return Err(NoTransport), true, 0, 0;
    }
    result, attempts, sends := SendRestore(router, data);
    var ok := router.Ask();
    closed := ok;
    if !ok {
      result := Err(NotClosed);
    }
  }
}
