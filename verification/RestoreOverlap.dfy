/** Two uploads of the same bytes at once: confirmations run in threads of their own, and all write
    to one remote file. Exactly which data such an overlap can spoil without the size check
    noticing. */
module RestoreOverlap {
  import opened Prelude
  import opened HexDump
  import opened Restore

  // ---------------------------------------------------------------- two uploads, command by command

  /** The bytes of chunks i up to j. */
  function Span(data: seq<Byte>, i: nat, j: nat): seq<Byte>
    requires i <= j
  {
    data[Sent(i, |data|)..Sent(j, |data|)]
  }

  /** A command of an upload as the router's file sees it. */
  datatype FileOp = Clear | Put(bytes: seq<Byte>, append: bool)

  function Effect(file: Option<seq<Byte>>, op: FileOp): Option<seq<Byte>> {
    match op
    case Clear => None
    case Put(bytes, append) => Some((if append then Content(file) else []) + bytes)
  }

  function Content(file: Option<seq<Byte>>): seq<Byte> {
    if file.Some? then file.value else []
  }

  /** Command k of an upload that loses no answer. */
  function Command(data: seq<Byte>, k: nat): FileOp {
    if k == 0 then Clear else Put(Span(data, k - 1, k), k > 1)
  }

  /** How many commands each of the two uploads has run, and the one file. */
  datatype Uploads = Uploads(first: nat, second: nat, file: Option<seq<Byte>>)

  function Move(data: seq<Byte>, u: Uploads, second: bool): Uploads {
    if second then
      if u.second <= Chunks(data) then Uploads(u.first, u.second + 1, Effect(u.file, Command(data, u.second))) else u
    else
      if u.first <= Chunks(data) then Uploads(u.first + 1, u.second, Effect(u.file, Command(data, u.first))) else u
  }

  /** `schedule` says whose turn it is. */
  function Run(data: seq<Byte>, u: Uploads, schedule: seq<bool>): Uploads
    decreases |schedule|
  {
    if schedule == [] then u else Run(data, Move(data, u, schedule[0]), schedule[1..])
  }

  /** The first upload is through, and the file has the right size and the wrong contents. */
  predicate PassesWrongly(data: seq<Byte>, u: Uploads) {
    && u.first == Chunks(data) + 1
    && u.file.Some? && |u.file.value| == |data| && u.file.value != data
  }

  predicate Commute(a: seq<Byte>, b: seq<Byte>) {
    a + b == b + a
  }

  /** Chunks i and i + 1 give the same bytes in either order. */
  predicate NeighboursCommute(data: seq<Byte>, i: nat) {
    Commute(Span(data, i, i + 1), Span(data, i + 1, i + 2))
  }

  ghost predicate Settled(data: seq<Byte>) {
    forall i: nat :: 1 <= i && i + 1 < Chunks(data) ==> NeighboursCommute(data, i)
  }

  // ---------------------------------------------------------------- chunks that commute

  lemma CommuteWithBoth(a: seq<Byte>, b: seq<Byte>, c: seq<Byte>)
    requires Commute(a, b) && Commute(a, c)
    ensures Commute(a, b + c) && Commute(b + c, a)
  {
    calc {
      a + (b + c);
      (a + b) + c;
      (b + a) + c;
      b + (a + c);
      b + (c + a);
      (b + c) + a;
    }
  }

  lemma ChunksBound(data: seq<Byte>, i: nat)
    ensures Sent(Chunks(data), |data|) == |data|
    ensures i < Chunks(data) ==> Sent(i, |data|) == BYTES_PER_CHUNK * i < |data|
    ensures i + 1 < Chunks(data) ==> |Span(data, i, i + 1)| == BYTES_PER_CHUNK
  {}

  lemma SpanJoins(data: seq<Byte>, i: nat, j: nat, k: nat)
    requires i <= j <= k
    ensures Span(data, i, j) + Span(data, j, k) == Span(data, i, k)
  {}

  /** Neighbours of one length that commute are equal, so all but the last chunk are. */
  lemma {:induction false} FullChunksAreEqual(data: seq<Byte>, i: nat, j: nat)
    requires Settled(data) && 1 <= i <= j && j + 1 < Chunks(data)
    ensures Span(data, i, i + 1) == Span(data, j, j + 1)
    decreases j
  {
    if i < j {
      FullChunksAreEqual(data, i, j - 1);
      var a, b := Span(data, j - 1, j), Span(data, j, j + 1);
      ChunksBound(data, j - 1);
      ChunksBound(data, j);
      assert NeighboursCommute(data, j - 1);
      assert a == (a + b)[..|a|] && b == (b + a)[..|b|];
    }
  }

  lemma ChunksCommute(data: seq<Byte>, i: nat, j: nat)
    requires Settled(data) && 1 <= i < Chunks(data) && 1 <= j < Chunks(data)
    ensures Commute(Span(data, i, i + 1), Span(data, j, j + 1))
  {
    hide Span;
    var last := Chunks(data) - 1;
    if i < last {
      FullChunksAreEqual(data, i, last - 1);
      assert NeighboursCommute(data, last - 1);
    }
    if j < last {
      FullChunksAreEqual(data, j, last - 1);
      assert NeighboursCommute(data, last - 1);
    }
    assert i < last && j < last ==> Span(data, i, i + 1) == Span(data, j, j + 1);
  }

  lemma {:induction false} ChunkAndSpanCommute(data: seq<Byte>, i: nat, j: nat, k: nat)
    requires Settled(data) && 1 <= i < Chunks(data) && 1 <= j <= k <= Chunks(data)
    ensures Commute(Span(data, j, k), Span(data, i, i + 1))
    decreases k - j
  {
    if j == k {
      assert Span(data, j, k) == [];
    } else {
      hide Span;
      ChunkAndSpanCommute(data, i, j + 1, k);
      ChunksCommute(data, i, j);
      SpanJoins(data, j, j + 1, k);
      CommuteWithBoth(Span(data, i, i + 1), Span(data, j, j + 1), Span(data, j + 1, k));
    }
  }

  lemma {:induction false} SpansCommute(data: seq<Byte>, i: nat, j: nat, k: nat, l: nat)
    requires Settled(data) && 1 <= i <= j <= Chunks(data) && 1 <= k <= l <= Chunks(data)
    ensures Commute(Span(data, i, j), Span(data, k, l))
    decreases j - i
  {
    if i == j {
      assert Span(data, i, j) == [];
    } else {
      hide Span;
      SpansCommute(data, i + 1, j, k, l);
      ChunkAndSpanCommute(data, i, k, l);
      SpanJoins(data, i, i + 1, j);
      CommuteWithBoth(Span(data, k, l), Span(data, i, i + 1), Span(data, i + 1, j));
    }
  }

  // ---------------------------------------------------------------- what the file can hold

  /** How many chunks an upload has written after so many commands. */
  function Written(commands: nat): nat {
    if commands == 0 then 0 else commands - 1
  }

  /** What the other upload has appended since chunk q. */
  predicate Since(q: nat, written: nat) {
    q <= written && (written >= 1 ==> q >= 1)
  }

  /** The first upload's first chunk was the last to start the file anew. */
  predicate Restarted(data: seq<Byte>, u: Uploads, q: nat) {
    && u.first >= 2 && Since(q, Written(u.second))
    && u.file == Some(Span(data, 0, 1) + Span(data, 1, Written(u.first)) + Span(data, q, Written(u.second)))
  }

  /** The first upload's clearing was. */
  predicate Cleared(data: seq<Byte>, u: Uploads, q: nat) {
    u.first == 1 && Since(q, Written(u.second)) && Content(u.file) == Span(data, q, Written(u.second))
  }

  ghost predicate ByFirst(data: seq<Byte>, u: Uploads) {
    (exists q: nat :: Restarted(data, u, q)) || (exists q: nat :: Cleared(data, u, q))
  }

  function Swapped(u: Uploads): Uploads {
    Uploads(u.second, u.first, u.file)
  }

  ghost predicate Traced(data: seq<Byte>, u: Uploads) {
    && u.first <= Chunks(data) + 1 && u.second <= Chunks(data) + 1
    && (u == Uploads(0, 0, None) || ByFirst(data, u) || ByFirst(data, Swapped(u)))
  }

  lemma FirstMovesFirst(data: seq<Byte>, u: Uploads)
    requires Settled(data) && Traced(data, u) && ByFirst(data, u) && 2 <= u.first <= Chunks(data)
    ensures ByFirst(data, Move(data, u, false))
  {
    hide Span, Settled;
    var q: nat :| Restarted(data, u, q);
    var k, l, u' := u.first, Written(u.second), Move(data, u, false);
    var head, mine, others, more := Span(data, 0, 1), Span(data, 1, k - 1), Span(data, q, l), Span(data, k - 1, k);
    if l >= 1 {
      ChunkAndSpanCommute(data, k - 1, q, l);
    } else {
      SpanIsEmpty(data, q, l);
    }
    SpanJoins(data, 1, k - 1, k);
    calc {
      head + mine + others + more;
      head + mine + (others + more);
      head + mine + (more + others);
      head + (mine + more) + others;
    }
    assert Restarted(data, u', q);
  }

  lemma SpanIsEmpty(data: seq<Byte>, i: nat, j: nat)
    requires i == j
    ensures Span(data, i, j) == []
  {}

  lemma FirstMovesSecond(data: seq<Byte>, u: Uploads)
    requires Traced(data, u) && ByFirst(data, Swapped(u)) && 2 <= u.first <= Chunks(data)
    ensures ByFirst(data, Swapped(Move(data, u, false)))
  {
    hide Span;
    var k, l, u' := u.first, Written(u.second), Move(data, u, false);
    var head, more := Span(data, 0, 1), Span(data, k - 1, k);
    if q: nat :| Restarted(data, Swapped(u), q) {
      var theirs := Span(data, 1, l);
      SpanJoins(data, q, k - 1, k);
      assert head + theirs + Span(data, q, k - 1) + more == head + theirs + (Span(data, q, k - 1) + more);
      assert Restarted(data, Swapped(u'), q);
    } else {
      var q: nat :| Cleared(data, Swapped(u), q);
      SpanJoins(data, q, k - 1, k);
      assert Cleared(data, Swapped(u'), q);
    }
  }

  lemma FirstStartsAnew(data: seq<Byte>, u: Uploads)
    requires Traced(data, u) && u.first < 2 && u.first <= Chunks(data)
    ensures ByFirst(data, Move(data, u, false))
  {
    hide Span;
    var u', l := Move(data, u, false), Written(u.second);
    SpanIsEmpty(data, l, l);
    SpanIsEmpty(data, 1, 1);
    if u.first == 0 {
      assert Cleared(data, u', l);
    } else {
      assert Span(data, 0, 1) + [] + [] == [] + Span(data, 0, 1);
      assert Restarted(data, u', l);
    }
  }

  lemma FirstMoves(data: seq<Byte>, u: Uploads)
    requires Settled(data) && Traced(data, u)
    ensures Traced(data, Move(data, u, false))
  {
    hide ByFirst, Span, Settled, Effect, Command;
    if u.first > Chunks(data) {
    } else if u.first < 2 {
      FirstStartsAnew(data, u);
    } else if ByFirst(data, u) {
      FirstMovesFirst(data, u);
    } else {
      FirstMovesSecond(data, u);
    }
  }

  lemma MoveKeepsTrace(data: seq<Byte>, u: Uploads, second: bool)
    requires Settled(data) && Traced(data, u)
    ensures Traced(data, Move(data, u, second))
  {
    hide ByFirst, Settled, Effect, Command;
    if second {
      FirstMoves(data, Swapped(u));
      assert Swapped(Swapped(u)) == u;
      assert Swapped(Swapped(Move(data, u, true))) == Move(data, u, true);
      assert Move(data, Swapped(u), false) == Swapped(Move(data, u, true));
    } else {
      FirstMoves(data, u);
    }
  }

  lemma {:induction false} RunKeepsTrace(data: seq<Byte>, u: Uploads, schedule: seq<bool>)
    requires Settled(data) && Traced(data, u)
    ensures Traced(data, Run(data, u, schedule))
    decreases |schedule|
  {
    if schedule != [] {
      hide Traced, Settled, Move;
      MoveKeepsTrace(data, u, schedule[0]);
      RunKeepsTrace(data, Move(data, u, schedule[0]), schedule[1..]);
    }
  }

  /** An upload that is through and started the file last has its own bytes in it, and then what the
      other appended. */
  lemma OwnFileIsRight(data: seq<Byte>, u: Uploads, q: nat)
    requires u.first == Chunks(data) + 1 && Restarted(data, u, q) && |u.file.value| == |data|
    ensures u.file.value == data
  {
    hide Span;
    var n, l := Chunks(data), Written(u.second);
    SpanJoins(data, 0, 1, n);
    WholeSpan(data);
  }

  /** In a file of the other's, of the right size, the other has caught up to where this upload was
      when the other began; then the two parts can change places. */
  lemma OthersFileIsRight(data: seq<Byte>, u: Uploads, q: nat)
    requires Settled(data) && u.first == Chunks(data) + 1 && u.second <= Chunks(data) + 1
    requires Restarted(data, Swapped(u), q) && |u.file.value| == |data|
    ensures u.file.value == data
  {
    hide Span, Settled;
    var n, l := Chunks(data), Written(u.second);
    SpanJoins(data, 0, 1, n);
    SpanJoins(data, 1, q, n);
    WholeSpan(data);
    assert |Span(data, 1, l)| == |Span(data, 1, q)|;
    SpanOfLength(data, q, l);
    SpansCommute(data, 1, q, q, n);
    var head, a, b := Span(data, 0, 1), Span(data, 1, q), Span(data, q, n);
    assert head + a + b == head + (a + b);
  }

  lemma SpanOfLength(data: seq<Byte>, q: nat, l: nat)
    requires 1 <= q <= Chunks(data) && 1 <= l <= Chunks(data) && |Span(data, 1, q)| == |Span(data, 1, l)|
    ensures Span(data, 1, q) == Span(data, 1, l)
  {}

  lemma ClearedFileIsShort(data: seq<Byte>, u: Uploads, q: nat)
    requires u.first == Chunks(data) + 1 && Cleared(data, Swapped(u), q)
    ensures data == [] || |Content(u.file)| < |data|
  {
    ChunksBound(data, 1);
  }

  lemma TraceIsRight(data: seq<Byte>, u: Uploads)
    requires Settled(data) && Traced(data, u)
    ensures !PassesWrongly(data, u)
  {
    hide Settled, Span;
    if u.first == Chunks(data) + 1 && u.file.Some? && |u.file.value| == |data| && data != [] {
      if q: nat :| Restarted(data, u, q) {
        OwnFileIsRight(data, u, q);
      } else if q: nat :| Restarted(data, Swapped(u), q) {
        OthersFileIsRight(data, u, q);
      } else if q: nat :| Cleared(data, Swapped(u), q) {
        ClearedFileIsShort(data, u, q);
      }
    }
  }

  // ---------------------------------------------------------------- the overlap that goes wrong

  function Turns(second: bool, k: nat): seq<bool> {
    seq(k, _ => second)
  }

  lemma {:induction false} RunConcat(data: seq<Byte>, u: Uploads, a: seq<bool>, b: seq<bool>)
    ensures Run(data, u, a + b) == Run(data, Run(data, u, a), b)
    decreases |a|
  {
    hide Move;
    if a == [] {
      assert a + b == b;
    } else {
      assert (a + b)[1..] == a[1..] + b;
      RunConcat(data, Move(data, u, a[0]), a[1..], b);
    }
  }

  /** One upload alone for k more chunks. */
  lemma {:induction false} Undisturbed(data: seq<Byte>, u: Uploads, second: bool, k: nat)
    requires u.file.Some?
    requires var mine := if second then u.second else u.first; 2 <= mine && mine + k <= Chunks(data) + 1
    ensures var mine := if second then u.second else u.first;
      Run(data, u, Turns(second, k)) ==
        Uploads(if second then u.first else u.first + k, if second then u.second + k else u.second,
                Some(u.file.value + Span(data, mine - 1, mine - 1 + k)))
    decreases k
  {
    hide Span;
    var mine := if second then u.second else u.first;
    if k == 0 {
      SpanIsEmpty(data, mine - 1, mine - 1);
      assert u.file.value + [] == u.file.value;
    } else {
      var next := Move(data, u, second);
      assert Turns(second, k)[1..] == Turns(second, k - 1);
      Undisturbed(data, next, second, k - 1);
      SpanJoins(data, mine - 1, mine, mine - 1 + k);
      assert u.file.value + Span(data, mine - 1, mine) + Span(data, mine, mine - 1 + k) == u.file.value + Span(data, mine - 1, mine - 1 + k);
    }
  }

  /** An upload's first chunk starts the file anew. */
  lemma FromTheFirstChunk(data: seq<Byte>, u: Uploads, second: bool, k: nat)
    requires (if second then u.second else u.first) == 1 && 1 <= k <= Chunks(data)
    ensures Run(data, u, Turns(second, k)) ==
            Uploads(if second then u.first else k + 1, if second then k + 1 else u.second, Some(Span(data, 0, k)))
  {
    hide Span;
    var next := Move(data, u, second);
    assert Turns(second, k)[1..] == Turns(second, k - 1);
    assert [] + Span(data, 0, 1) == Span(data, 0, 1);
    Undisturbed(data, next, second, k - 1);
    SpanJoins(data, 0, 1, k);
  }

  function Start(): Uploads {
    Uploads(0, 0, None)
  }

  ghost predicate Reachable(data: seq<Byte>, u: Uploads) {
    exists schedule: seq<bool> :: Run(data, Start(), schedule) == u
  }

  lemma ReachesMore(data: seq<Byte>, u: Uploads, more: seq<bool>)
    requires Reachable(data, u)
    ensures Reachable(data, Run(data, u, more))
  {
    hide Run;
    var schedule: seq<bool> :| Run(data, Start(), schedule) == u;
    RunConcat(data, Start(), schedule, more);
  }

  lemma BothCleared(data: seq<Byte>)
    ensures Reachable(data, Uploads(1, 1, None))
  {
    var one := Move(data, Start(), false);
    assert Run(data, one, [true]) == Move(data, one, true) by {
      assert [true][1..] == [];
    }
    assert Run(data, Start(), [false, true]) == Run(data, one, [true]) by {
      assert [false, true][1..] == [true];
    }
  }

  /** The first upload is ahead by one chunk when the second starts the file anew and catches up;
      then they write chunks i and i + 1 in the wrong order. */
  lemma CrossedIsReachable(data: seq<Byte>, i: nat)
    requires 1 <= i && i + 1 < Chunks(data)
    ensures var n := Chunks(data);
      Reachable(data, Uploads(n + 1, i + 2, Some(Span(data, 0, i) + Span(data, i + 1, i + 2) + Span(data, i, i + 1) + Span(data, i + 2, n))))
  {
    hide Run, Reachable, Span;
    var n := Chunks(data);
    BothCleared(data);
    var u := Uploads(1, 1, None);
    FromTheFirstChunk(data, u, false, i + 1);
    ReachesMore(data, u, Turns(false, i + 1));
    u := Uploads(i + 2, 1, Some(Span(data, 0, i + 1)));
    FromTheFirstChunk(data, u, true, i);
    ReachesMore(data, u, Turns(true, i));
    u := Uploads(i + 2, i + 1, Some(Span(data, 0, i)));
    Undisturbed(data, u, false, 1);
    ReachesMore(data, u, Turns(false, 1));
    u := Uploads(i + 3, i + 1, Some(Span(data, 0, i) + Span(data, i + 1, i + 2)));
    Undisturbed(data, u, true, 1);
    ReachesMore(data, u, Turns(true, 1));
    u := Uploads(i + 3, i + 2, Some(Span(data, 0, i) + Span(data, i + 1, i + 2) + Span(data, i, i + 1)));
    Undisturbed(data, u, false, n - i - 2);
    ReachesMore(data, u, Turns(false, n - i - 2));
  }

  lemma CrossedIsWrong(data: seq<Byte>, i: nat)
    requires 1 <= i && i + 1 < Chunks(data) && !NeighboursCommute(data, i)
    ensures var file := Span(data, 0, i) + Span(data, i + 1, i + 2) + Span(data, i, i + 1) + Span(data, i + 2, Chunks(data));
      |file| == |data| && file != data
  {
    var n := Chunks(data);
    hide Span;
    ChunksBound(data, i);
    SplitInFour(data, i);
    MiddlesAgree(Span(data, 0, i), Span(data, i, i + 1), Span(data, i + 1, i + 2), Span(data, i + 2, n));
  }

  lemma MiddlesAgree(head: seq<Byte>, a: seq<Byte>, b: seq<Byte>, tail: seq<Byte>)
    ensures head + b + a + tail == head + a + b + tail ==> Commute(a, b)
  {
    if head + b + a + tail == head + a + b + tail {
      assert (head + b + a + tail)[|head|..|head| + |a| + |b|] == b + a;
      assert (head + a + b + tail)[|head|..|head| + |a| + |b|] == a + b;
    }
  }

  lemma SplitInFour(data: seq<Byte>, i: nat)
    requires i + 1 < Chunks(data)
    ensures data == Span(data, 0, i) + Span(data, i, i + 1) + Span(data, i + 1, i + 2) + Span(data, i + 2, Chunks(data))
  {
    hide Span;
    var n := Chunks(data);
    SpanJoins(data, 0, i, i + 1);
    SpanJoins(data, 0, i + 1, i + 2);
    SpanJoins(data, 0, i + 2, n);
    ChunksBound(data, i);
    WholeSpan(data);
  }

  lemma WholeSpan(data: seq<Byte>)
    ensures Span(data, 0, Chunks(data)) == data
  {
    ChunksBound(data, 0);
  }

  /** For all data: two overlapping uploads of it can leave the one that is through with a file of
      the right size and the wrong contents if and only if two neighbouring chunks after the first
      make a difference in the other order. */
  lemma OverlapPassesWronglyIff(data: seq<Byte>)
    ensures (exists schedule: seq<bool> :: PassesWrongly(data, Run(data, Start(), schedule)))
      <==> (exists i: nat :: 1 <= i && i + 1 < Chunks(data) && !NeighboursCommute(data, i))
  {
    hide Run, PassesWrongly, NeighboursCommute, Traced;
    if i: nat :| 1 <= i && i + 1 < Chunks(data) && !NeighboursCommute(data, i) {
      WrongRun(data, i);
    } else {
      forall schedule: seq<bool>
        ensures !PassesWrongly(data, Run(data, Start(), schedule))
      {
        StartIsTraced(data);
        RunKeepsTrace(data, Start(), schedule);
        TraceIsRight(data, Run(data, Start(), schedule));
      }
    }
  }

  lemma StartIsTraced(data: seq<Byte>)
    ensures Traced(data, Start())
  {}

  lemma WrongRun(data: seq<Byte>, i: nat)
    requires 1 <= i && i + 1 < Chunks(data) && !NeighboursCommute(data, i)
    ensures exists schedule: seq<bool> :: PassesWrongly(data, Run(data, Start(), schedule))
  {
    hide Run, Span, NeighboursCommute;
    CrossedIsReachable(data, i);
    CrossedIsWrong(data, i);
    var u := Uploads(Chunks(data) + 1, i + 2,
                     Some(Span(data, 0, i) + Span(data, i + 1, i + 2) + Span(data, i, i + 1) + Span(data, i + 2, Chunks(data))));
    var schedule: seq<bool> :| Run(data, Start(), schedule) == u;
    assert PassesWrongly(data, Run(data, Start(), schedule));
  }

  /** For two full chunks that means that they differ. */
  lemma FullNeighboursCommuteIffEqual(data: seq<Byte>, i: nat)
    requires BYTES_PER_CHUNK * (i + 2) <= |data|
    ensures NeighboursCommute(data, i) <==> Span(data, i, i + 1) == Span(data, i + 1, i + 2)
  {
    var a, b := Span(data, i, i + 1), Span(data, i + 1, i + 2);
    assert a == (a + b)[..|a|] && b == (b + a)[..|b|];
  }
}
