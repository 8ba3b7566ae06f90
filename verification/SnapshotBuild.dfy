/** The snapshot built from cached and freshly run tools. One build is first described on values
    and the loops are proved against that; then come the sections of one build, what it leaves
    in the cache, its transparency, and runs of builds and clears. */
module SnapshotBuild {
  import opened Prelude
  import opened ContextCache

  // ---------------------------------------------------------------- running tools

  datatype Outcome = Returned(value: Option<string>) | Raised(error: string)

  datatype Decision = Allow | Refuse(decision: string, reason: string)

  /** What running a tool yields: the guard's refusal, or the tool's outcome. A name the registry
      does not know raises like a failing tool. */
  function ResultOf(name: string, decision: Decision, outcome: Outcome): ToolResult {
    match decision
    case Refuse(text, reason) => ToolResult(name, false, Some(text), Some(reason))
    case Allow =>
      match outcome
      case Returned(value) => ToolResult(name, true, value, None)
      case Raised(error) => ToolResult(name, false, None, Some(error))
  }

  /** The n-th tool call may turn out differently each time. */
  class Executor {
    const guard: string -> Decision
    const outcome: (string, nat) -> Outcome
    var calls: seq<string>

    constructor (guard: string -> Decision, outcome: (string, nat) -> Outcome)
      ensures this.guard == guard && this.outcome == outcome && calls == []
    {
      this.guard, this.outcome, calls := guard, outcome, [];
    }

    function ResultAt(name: string, n: nat): ToolResult {
      ResultOf(name, guard(name), outcome(name, n))
    }

    /** What the calls from `since` on returned; what the guard refuses has one answer anyway. */
    ghost predicate Answers(since: nat, answers: string -> ToolResult)
      reads this
    {
      && (forall n: nat :: since <= n < |calls| ==> ResultAt(calls[n], n) == answers(calls[n]))
      && (forall name :: guard(name).Refuse? ==> ResultAt(name, 0) == answers(name))
    }

    method ExecuteOne(name: string) returns (result: ToolResult)
      modifies this
      ensures result == ResultAt(name, |old(calls)|)
      ensures result.name == name
      ensures result.ok <==> guard(name).Allow? && outcome(name, |old(calls)|).Returned?
      ensures result.ok ==> result.value == outcome(name, |old(calls)|).value && result.error == None
      ensures guard(name).Refuse? ==> result.value == Some(guard(name).decision) && result.error == Some(guard(name).reason)
      ensures guard(name).Allow? && outcome(name, |old(calls)|).Raised? ==>
        result.value == None && result.error == Some(outcome(name, |old(calls)|).error)
      ensures calls == old(calls) + if guard(name).Allow? then [name] else []
    {
      var n := |calls|;
      if guard(name).Allow? {
        calls := calls + [name];
      }
      result := ResultOf(name, guard(name), outcome(name, n));
    }

    /** Runs the requests in order; a failure never stops the rest. */
    method Execute(requests: seq<string>) returns (results: seq<ToolResult>)
      modifies this
      ensures calls == old(calls) + Permitted(guard, requests)
      ensures |results| == |requests|
      ensures forall i :: 0 <= i < |requests| ==> Executed(this, calls, |old(calls)|, requests[i], results[i])
    {
      results := [];
      for i := 0 to |requests|
        invariant |results| == i
        invariant calls == old(calls) + Permitted(guard, requests[..i])
        invariant forall k :: 0 <= k < i ==> Executed(this, calls, |old(calls)|, requests[k], results[k])
      {
        assert requests[..i + 1][..i] == requests[..i];
        ghost var before := calls;
        var result := ExecuteOne(requests[i]);
        ExecutedStays(this, before, calls, |old(calls)|, requests[..i], results);
        assert Executed(this, calls, |old(calls)|, requests[i], result) by {
          assert guard(requests[i]).Allow? ==> calls[|before|] == requests[i];
        }
        results := results + [result];
      }
      assert requests[..|requests|] == requests;
    }
  }

  /** The result of a call of this tool no earlier than call `since`, or the guard's refusal. */
  ghost predicate Executed(executor: Executor, calls: seq<string>, since: nat, name: string, result: ToolResult) {
    if executor.guard(name).Refuse? then result == executor.ResultAt(name, 0)
    else exists n: nat :: since <= n < |calls| && calls[n] == name && result == executor.ResultAt(name, n)
  }

  lemma ExecutedStays(executor: Executor, calls: seq<string>, more: seq<string>, since: nat,
                      names: seq<string>, results: seq<ToolResult>)
    requires calls <= more && |names| == |results|
    requires forall k :: 0 <= k < |names| ==> Executed(executor, calls, since, names[k], results[k])
    ensures forall k :: 0 <= k < |names| ==> Executed(executor, more, since, names[k], results[k])
  {
    forall k | 0 <= k < |names|
      ensures Executed(executor, more, since, names[k], results[k])
    {
      if executor.guard(names[k]).Allow? {
        var n: nat :| since <= n < |calls| && calls[n] == names[k] && results[k] == executor.ResultAt(names[k], n);
        assert more[n] == names[k];
      }
    }
  }

  function Permitted(guard: string -> Decision, requests: seq<string>): seq<string>
    decreases |requests|
  {
    if requests == [] then []
    else
      var last := requests[|requests| - 1];
      Permitted(guard, requests[..|requests| - 1]) + if guard(last).Allow? then [last] else []
  }

  predicate Distinct(names: seq<string>) {
    forall i, j :: 0 <= i < j < |names| ==> names[i] != names[j]
  }

  lemma {:induction false} PermittedStaysDistinct(guard: string -> Decision, requests: seq<string>)
    requires Distinct(requests)
    ensures Distinct(Permitted(guard, requests))
    ensures forall name :: name in Permitted(guard, requests) ==> name in requests
    decreases |requests|
  {
    if requests != [] {
      var before, last := requests[..|requests| - 1], requests[|requests| - 1];
      PermittedStaysDistinct(guard, before);
      assert last !in before;
      assert last !in Permitted(guard, before);
    }
  }

  // ---------------------------------------------------------------- the snapshot

  datatype Snapshot = Snapshot(
    system: Option<string>, cpu: Option<string>, memory: Option<string>,
    storage: Option<string>, network: Option<string>, wifi: Option<string>)

  /** The value of a successful result. */
  function ValueOf(collected: map<string, ToolResult>, section: string): Option<string> {
    if section in collected && collected[section].ok then collected[section].value else None
  }

  function SnapshotOf(collected: map<string, ToolResult>): Snapshot {
    Snapshot(
      ValueOf(collected, "system"), ValueOf(collected, "cpu"), ValueOf(collected, "memory"),
      ValueOf(collected, "storage"), ValueOf(collected, "network"), ValueOf(collected, "wifi"))
  }

  /** The snapshot without a cache, when each tool has one answer: run whatever is requested. */
  function Uncached(answers: string -> ToolResult, requests: seq<string>): Snapshot {
    SnapshotOf(map name | name in requests :: answers(name))
  }

  /** `session_id or ""`. */
  function SessionId(session: Option<string>): string {
    if session.Some? then session.value else ""
  }

  class Clock {
    const reading: nat -> Time
    var taken: nat

    constructor (reading: nat -> Time)
      ensures this.reading == reading && taken == 0
    {
      this.reading, taken := reading, 0;
    }

    method Now() returns (t: Time)
      modifies this
      ensures t == reading(old(taken)) && taken == old(taken) + 1
    {
      t := reading(taken);
      taken := taken + 1;
    }
  }

  // ---------------------------------------------------------------- one build, on values

  /** What one build does: its requests, the results of the tools it ran, and the time of each
      cache operation, reads first. */
  datatype Build = Build(session: string, requests: seq<string>, results: seq<ToolResult>, times: seq<Time>)

  function ReadsOf(session: string, requests: seq<string>, times: seq<Time>): seq<Op>
    requires |times| == |requests|
  {
    seq(|requests|, i requires 0 <= i < |requests| => GetOp(Key(session, requests[i]), times[i]))
  }

  function WritesOf(session: string, results: seq<ToolResult>, times: seq<Time>): seq<Op>
    requires |times| == |results|
  {
    seq(|results|, i requires 0 <= i < |results| => SetOp(Key(session, results[i].name), times[i], results[i]))
  }

  predicate Timed(b: Build) {
    |b.times| == |b.requests| + |b.results|
  }

  function ReadOps(b: Build): seq<Op>
    requires Timed(b)
  {
    ReadsOf(b.session, b.requests, b.times[..|b.requests|])
  }

  function Ops(b: Build): seq<Op>
    requires Timed(b)
  {
    ReadOps(b) + WritesOf(b.session, b.results, b.times[|b.requests|..])
  }

  /** What the k-th of a list of reads answers. */
  function Answer(c: Cache, gets: seq<Op>, k: nat): Option<ToolResult>
    requires k < |gets| && gets[k].GetOp?
  {
    Get(ApplyAll(c, gets[..k]), gets[k].key, gets[k].now).0
  }

  predicate AllGets(gets: seq<Op>) {
    forall k :: 0 <= k < |gets| ==> gets[k].GetOp?
  }

  function Found(c: Cache, gets: seq<Op>): map<string, ToolResult>
    requires AllGets(gets)
    decreases |gets|
  {
    if gets == [] then map[]
    else
      var n := |gets| - 1;
      var answer := Answer(c, gets, n);
      if answer.Some? then Found(c, gets[..n])[gets[n].key.tool := answer.value] else Found(c, gets[..n])
  }

  function Missed(c: Cache, gets: seq<Op>): seq<string>
    requires AllGets(gets)
    decreases |gets|
  {
    if gets == [] then []
    else
      var n := |gets| - 1;
      Missed(c, gets[..n]) + if Answer(c, gets, n).None? then [gets[n].key.tool] else []
  }

  /** Results entered under their names, later ones over earlier ones. */
  function Collect(found: map<string, ToolResult>, results: seq<ToolResult>): map<string, ToolResult>
    decreases |results|
  {
    if results == [] then found
    else
      var last := results[|results| - 1];
      Collect(found, results[..|results| - 1])[last.name := last]
  }

  /** A build on this cache: one result for every missed read, under its name. */
  predicate IsBuild(c: Cache, b: Build) {
    && Timed(b)
    && var missed := Missed(c, ReadOps(b));
       |b.results| == |missed| && forall j :: 0 <= j < |missed| ==> b.results[j].name == missed[j]
  }

  function Collected(c: Cache, b: Build): map<string, ToolResult>
    requires IsBuild(c, b)
  {
    Collect(Found(c, ReadOps(b)), b.results)
  }

  // ---------------------------------------------------------------- one build, in place

  lemma ApplySnoc(c: Cache, ops: seq<Op>, op: Op)
    ensures ApplyAll(c, ops + [op]) == Apply(ApplyAll(c, ops), op)
  {
    assert (ops + [op])[..|ops|] == ops;
  }

  lemma {:induction false} ApplyConcat(c: Cache, a: seq<Op>, b: seq<Op>)
    ensures ApplyAll(c, a + b) == ApplyAll(ApplyAll(c, a), b)
    decreases |b|
  {
    if b == [] {
      assert a + b == a;
    } else {
      ApplyConcat(c, a, b[..|b| - 1]);
      ApplySnoc(c, a + b[..|b| - 1], b[|b| - 1]);
      assert a + b[..|b| - 1] + [b[|b| - 1]] == a + b;
    }
  }

  lemma ReadSnoc(c: Cache, gets: seq<Op>, op: Op)
    requires AllGets(gets) && op.GetOp?
    ensures var answer := Get(ApplyAll(c, gets), op.key, op.now).0;
      && Answer(c, gets + [op], |gets|) == answer
      && Found(c, gets + [op]) ==
           (if answer.Some? then Found(c, gets)[op.key.tool := answer.value] else Found(c, gets))
      && Missed(c, gets + [op]) == Missed(c, gets) + if answer.None? then [op.key.tool] else []
  {
    assert (gets + [op])[..|gets|] == gets;
  }

  lemma ReadsSnoc(session: string, requests: seq<string>, times: seq<Time>, name: string, now: Time)
    requires |times| == |requests|
    ensures ReadsOf(session, requests + [name], times + [now]) ==
            ReadsOf(session, requests, times) + [GetOp(Key(session, name), now)]
  {}

  lemma WritesSnoc(session: string, results: seq<ToolResult>, times: seq<Time>, result: ToolResult, now: Time)
    requires |times| == |results|
    ensures WritesOf(session, results + [result], times + [now]) ==
            WritesOf(session, results, times) + [SetOp(Key(session, result.name), now, result)]
  {}

  /** The readings `times` are the next of the clock. */
  predicate ReadOff(reading: nat -> Time, since: nat, times: seq<Time>) {
    forall i :: 0 <= i < |times| ==> times[i] == reading(since + i)
  }

  /** After the reads for `asked` at the times `times`. */
  predicate AfterReads(before: Cache, after: Cache, sid: string, asked: seq<string>, times: seq<Time>,
                       found: map<string, ToolResult>, pending: seq<string>)
  {
    && |times| == |asked|
    && var gets := ReadsOf(sid, asked, times);
       && found == Found(before, gets)
       && pending == Missed(before, gets)
       && after == ApplyAll(before, gets)
  }

  lemma NothingRead(c: Cache, sid: string)
    ensures AfterReads(c, c, sid, [], [], map[], [])
  {
    assert ReadsOf(sid, [], []) == [];
  }

  lemma ReadStep(before: Cache, after: Cache, sid: string, asked: seq<string>, times: seq<Time>,
                 found: map<string, ToolResult>, pending: seq<string>, name: string, now: Time)
    requires AfterReads(before, after, sid, asked, times, found, pending)
    ensures var (answer, after') := Get(after, Key(sid, name), now);
      AfterReads(before, after', sid, asked + [name], times + [now],
                 if answer.Some? then found[name := answer.value] else found,
                 pending + if answer.None? then [name] else [])
  {
    hide Get, Found, Missed, ApplyAll;
    var gets, op := ReadsOf(sid, asked, times), GetOp(Key(sid, name), now);
    ReadsSnoc(sid, asked, times, name, now);
    ReadSnoc(before, gets, op);
    ApplySnoc(before, gets, op);
  }

  /** The first loop of `build`: ask the cache for every request. */
  method ReadCached(cache: RouterContextCache, clock: Clock, sid: string, requests: seq<string>)
    returns (found: map<string, ToolResult>, pending: seq<string>, ghost times: seq<Time>)
    modifies cache, clock
    ensures AfterReads(old(cache.Contents()), cache.Contents(), sid, requests, times, found, pending)
    ensures ReadOff(clock.reading, old(clock.taken), times) && clock.taken == old(clock.taken) + |times|
  {
    hide AfterReads, Get;
    found, pending, times := map[], [], [];
    ghost var before := cache.Contents();
    NothingRead(before, sid);
    for i := 0 to |requests|
      invariant |times| == i && ReadOff(clock.reading, old(clock.taken), times)
      invariant clock.taken == old(clock.taken) + i
      invariant AfterReads(before, cache.Contents(), sid, requests[..i], times, found, pending)
    {
      var name := requests[i];
      assert requests[..i + 1] == requests[..i] + [name];
      ghost var after := cache.Contents();
      var now := clock.Now();
      var cached := cache.GetResult(Key(sid, name), now);
      ReadStep(before, after, sid, requests[..i], times, found, pending, name, now);
      times := times + [now];
      if cached.Some? {
        found := found[name := cached.value];
        assert pending + [] == pending;
      } else {
        pending := pending + [name];
      }
    }
    assert requests[..|requests|] == requests;
  }

  /** After `kept` was stored and collected at the times `times`. */
  predicate AfterWrites(before: Cache, after: Cache, sid: string, kept: seq<ToolResult>, times: seq<Time>,
                        found: map<string, ToolResult>, collected: map<string, ToolResult>)
  {
    && |times| == |kept|
    && collected == Collect(found, kept)
    && after == ApplyAll(before, WritesOf(sid, kept, times))
  }

  lemma NothingWritten(c: Cache, sid: string, found: map<string, ToolResult>)
    ensures AfterWrites(c, c, sid, [], [], found, found)
  {
    assert WritesOf(sid, [], []) == [];
  }

  lemma WriteStep(before: Cache, after: Cache, sid: string, kept: seq<ToolResult>, times: seq<Time>,
                  found: map<string, ToolResult>, collected: map<string, ToolResult>, result: ToolResult, now: Time)
    requires AfterWrites(before, after, sid, kept, times, found, collected)
    ensures AfterWrites(before, Store(after, Key(sid, result.name), now, result), sid,
                        kept + [result], times + [now], found, collected[result.name := result])
  {
    hide Store, ApplyAll;
    WritesSnoc(sid, kept, times, result, now);
    ApplySnoc(before, WritesOf(sid, kept, times), SetOp(Key(sid, result.name), now, result));
    assert (kept + [result])[..|kept|] == kept;
  }

  /** The second loop: store and collect what was run. */
  method KeepResults(cache: RouterContextCache, clock: Clock, sid: string, found: map<string, ToolResult>,
                     results: seq<ToolResult>)
    returns (collected: map<string, ToolResult>, ghost times: seq<Time>)
    modifies cache, clock
    ensures AfterWrites(old(cache.Contents()), cache.Contents(), sid, results, times, found, collected)
    ensures ReadOff(clock.reading, old(clock.taken), times) && clock.taken == old(clock.taken) + |times|
  {
    hide AfterWrites, Store;
    collected, times := found, [];
    ghost var before := cache.Contents();
    NothingWritten(before, sid, found);
    for i := 0 to |results|
      invariant |times| == i && ReadOff(clock.reading, old(clock.taken), times)
      invariant clock.taken == old(clock.taken) + i
      invariant AfterWrites(before, cache.Contents(), sid, results[..i], times, found, collected)
    {
      var result := results[i];
      assert results[..i + 1] == results[..i] + [result];
      ghost var after := cache.Contents();
      var now := clock.Now();
      cache.SetResult(Key(sid, result.name), now, result);
      WriteStep(before, after, sid, results[..i], times, found, collected, result, now);
      times := times + [now];
      collected := collected[result.name := result];
    }
    assert results[..|results|] == results;
  }

  lemma {:induction false} MissesStayDistinct(c: Cache, sid: string, requests: seq<string>, times: seq<Time>)
    requires |times| == |requests| && Distinct(requests)
    ensures Distinct(Missed(c, ReadsOf(sid, requests, times)))
    ensures forall name :: name in Missed(c, ReadsOf(sid, requests, times)) ==> name in requests
    decreases |requests|
  {
    if requests != [] {
      var n := |requests| - 1;
      MissesStayDistinct(c, sid, requests[..n], times[..n]);
      assert ReadsOf(sid, requests, times)[..n] == ReadsOf(sid, requests[..n], times[..n]);
      assert requests[n] !in requests[..n];
    }
  }

  lemma MissedStaysDistinct(c: Cache, b: Build)
    requires Timed(b) && Distinct(b.requests)
    ensures Distinct(Missed(c, ReadOps(b)))
  {
    MissesStayDistinct(c, b.session, b.requests, b.times[..|b.requests|]);
  }

  // ---------------------------------------------------------------- which sections come from where

  predicate Hit(c: Cache, gets: seq<Op>, name: string, k: int)
    requires AllGets(gets)
  {
    0 <= k < |gets| && gets[k].key.tool == name && Answer(c, gets, k).Some?
  }

  predicate Miss(c: Cache, gets: seq<Op>, name: string, k: int)
    requires AllGets(gets)
  {
    0 <= k < |gets| && gets[k].key.tool == name && Answer(c, gets, k).None?
  }

  lemma AnswerOfPrefix(c: Cache, gets: seq<Op>, n: nat, k: nat)
    requires AllGets(gets) && k < n <= |gets|
    ensures Answer(c, gets[..n], k) == Answer(c, gets, k)
  {
    assert gets[..n][..k] == gets[..k];
  }

  lemma {:induction false} ReadsDecide(c: Cache, gets: seq<Op>, name: string)
    requires AllGets(gets)
    ensures name in Missed(c, gets) <==> exists k :: Miss(c, gets, name, k)
    ensures name in Found(c, gets) <==> exists k :: Hit(c, gets, name, k)
    ensures name in Found(c, gets) ==>
      exists k :: Hit(c, gets, name, k) && Answer(c, gets, k) == Some(Found(c, gets)[name])
    decreases |gets|
  {
    hide Answer;
    if gets != [] {
      var n := |gets| - 1;
      ReadsDecide(c, gets[..n], name);
      forall k | 0 <= k < n
        ensures Answer(c, gets[..n], k) == Answer(c, gets, k)
        ensures Hit(c, gets[..n], name, k) <==> Hit(c, gets, name, k)
        ensures Miss(c, gets[..n], name, k) <==> Miss(c, gets, name, k)
      {
        AnswerOfPrefix(c, gets, n, k);
      }
      assert Hit(c, gets, name, n) || Miss(c, gets, name, n) || gets[n].key.tool != name;
    }
  }

  predicate Named(results: seq<ToolResult>, name: string, j: int) {
    0 <= j < |results| && results[j].name == name
  }

  lemma {:induction false} CollectDecides(found: map<string, ToolResult>, results: seq<ToolResult>, name: string)
    ensures var all := Collect(found, results);
      if exists j :: Named(results, name, j)
      then name in all && exists j :: Named(results, name, j) && all[name] == results[j]
      else (name in all <==> name in found) && (name in all ==> all[name] == found[name])
    decreases |results|
  {
    if results != [] {
      var n := |results| - 1;
      CollectDecides(found, results[..n], name);
      assert forall j :: 0 <= j < n ==> (Named(results[..n], name, j) <==> Named(results, name, j));
      assert results[n].name == name <==> Named(results, name, n);
    }
  }

  predicate MissedAt(c: Cache, b: Build, name: string, k: int)
    requires Timed(b)
  {
    Miss(c, ReadOps(b), name, k)
  }

  predicate ServedAt(c: Cache, b: Build, name: string, k: int, result: ToolResult)
    requires Timed(b)
  {
    Hit(c, ReadOps(b), name, k) && Answer(c, ReadOps(b), k) == Some(result)
  }

  /** A section was run in this build if one of its reads missed; otherwise it was not run and
      shows what a read answered. */
  lemma SectionIsServedOrRun(c: Cache, b: Build, name: string)
    requires IsBuild(c, b)
    ensures name in Collected(c, b) <==> name in b.requests
    ensures name in b.requests ==>
      var result := Collected(c, b)[name];
      if exists k :: MissedAt(c, b, name, k)
      then exists j :: Named(b.results, name, j) && result == b.results[j]
      else (forall j :: !Named(b.results, name, j)) && exists k :: ServedAt(c, b, name, k, result)
  {
    hide Answer, Found, Missed, Collect;
    var gets := ReadOps(b);
    ReadsDecide(c, gets, name);
    CollectDecides(Found(c, gets), b.results, name);
    assert forall k :: 0 <= k < |gets| ==> gets[k].key.tool == b.requests[k];
    MissedIsNamed(c, b, name);
    if name in b.requests {
      var k :| 0 <= k < |b.requests| && b.requests[k] == name;
      assert Hit(c, gets, name, k) || MissedAt(c, b, name, k);
    }
    if j :| Named(b.results, name, j) {
      var k :| MissedAt(c, b, name, k);
      assert b.requests[k] == name;
    }
    if k :| Hit(c, gets, name, k) && name in Found(c, gets) && Answer(c, gets, k) == Some(Found(c, gets)[name]) {
      assert ServedAt(c, b, name, k, Found(c, gets)[name]);
    }
  }

  lemma MissedIsNamed(c: Cache, b: Build, name: string)
    requires IsBuild(c, b)
    ensures (exists k :: MissedAt(c, b, name, k)) <==> (exists j :: Named(b.results, name, j))
  {
    hide Answer, Missed;
    var gets := ReadOps(b);
    ReadsDecide(c, gets, name);
    if j :| Named(b.results, name, j) {
      assert Missed(c, gets)[j] == name;
      var k :| Miss(c, gets, name, k);
      assert MissedAt(c, b, name, k);
    }
    if k :| MissedAt(c, b, name, k) {
      var j :| 0 <= j < |Missed(c, gets)| && Missed(c, gets)[j] == name;
      assert Named(b.results, name, j);
    }
  }

  /** The result that a requested section shows: one of this build if a read of it missed, else
      one that a read answered. */
  ghost predicate DecidesSection(c: Cache, b: Build, name: string, result: ToolResult)
    requires Timed(b)
  {
    if exists k :: MissedAt(c, b, name, k)
    then exists j :: Named(b.results, name, j) && result == b.results[j]
    else exists k :: ServedAt(c, b, name, k, result)
  }

  /** What one section shows: the value of the result that decides it, and nothing if that result is
      a failure or the section was not requested. */
  ghost predicate SectionShows(c: Cache, b: Build, name: string, shown: Option<string>)
    requires Timed(b)
  {
    if name !in b.requests then shown == None
    else exists result: ToolResult :: DecidesSection(c, b, name, result) && shown == if result.ok then result.value else None
  }

  ghost predicate SectionsShow(c: Cache, b: Build, snapshot: Snapshot)
    requires Timed(b)
  {
    && SectionShows(c, b, "system", snapshot.system)
    && SectionShows(c, b, "cpu", snapshot.cpu)
    && SectionShows(c, b, "memory", snapshot.memory)
    && SectionShows(c, b, "storage", snapshot.storage)
    && SectionShows(c, b, "network", snapshot.network)
    && SectionShows(c, b, "wifi", snapshot.wifi)
  }

  lemma SectionShowsItsResult(c: Cache, b: Build, name: string)
    requires IsBuild(c, b)
    ensures SectionShows(c, b, name, ValueOf(Collected(c, b), name))
  {
    hide Collected, Missed, ReadOps, MissedAt, ServedAt;
    SectionIsServedOrRun(c, b, name);
    if name in b.requests {
      assert DecidesSection(c, b, name, Collected(c, b)[name]);
    }
  }

  /** Each of the six sections shows what its own tool's result says, whatever the tools answer
      when. */
  lemma SectionsShowTheirResults(c: Cache, b: Build)
    requires IsBuild(c, b)
    ensures SectionsShow(c, b, SnapshotOf(Collected(c, b)))
  {
    hide Collected, SectionShows, Missed, ReadOps, ValueOf;
    SectionShowsItsResult(c, b, "system");
    SectionShowsItsResult(c, b, "cpu");
    SectionShowsItsResult(c, b, "memory");
    SectionShowsItsResult(c, b, "storage");
    SectionShowsItsResult(c, b, "network");
    SectionShowsItsResult(c, b, "wifi");
  }

  // ---------------------------------------------------------------- what a build leaves in the cache

  /** Read k asks for the key when its entry has outlived the limit. */
  predicate ExpiresAt(c: Cache, gets: seq<Op>, key: Key, k: int)
    requires key in c.entries
  {
    0 <= k < |gets| && gets[k].GetOp? && gets[k].key == key && gets[k].now - c.entries[key].storedAt > c.ttl
  }

  lemma {:induction false} ReadsOnlyPrune(c: Cache, gets: seq<Op>, key: Key)
    requires AllGets(gets)
    ensures var after := ApplyAll(c, gets);
      && after.ttl == c.ttl
      && (key in after.entries ==> key in c.entries && after.entries[key] == c.entries[key])
      && (key in c.entries && key !in after.entries ==> exists k :: ExpiresAt(c, gets, key, k))
    decreases |gets|
  {
    if gets != [] {
      var n := |gets| - 1;
      ReadsOnlyPrune(c, gets[..n], key);
      if key in c.entries {
        assert forall k :: ExpiresAt(c, gets[..n], key, k) ==> ExpiresAt(c, gets, key, k);
        assert gets[n].key == key && gets[n].now - c.entries[key].storedAt > c.ttl ==> ExpiresAt(c, gets, key, n);
      }
    }
  }

  predicate Holds(c: Cache, key: Key, result: ToolResult) {
    key in c.entries && c.entries[key].result == result
  }

  /** What was found and never missed is still there after the reads. */
  lemma {:induction false} FoundStays(c: Cache, gets: seq<Op>, sid: string, name: string)
    requires AllGets(gets) && forall k :: 0 <= k < |gets| ==> gets[k].key.session == sid
    requires name in Found(c, gets) && name !in Missed(c, gets)
    ensures Holds(ApplyAll(c, gets), Key(sid, name), Found(c, gets)[name])
    decreases |gets|
  {
    var n := |gets| - 1;
    if gets[n].key.tool != name {
      FoundStays(c, gets[..n], sid, name);
    }
  }

  /** Result j was stored under the key. */
  predicate Wrote(sid: string, results: seq<ToolResult>, times: seq<Time>, key: Key, entry: Entry, j: int)
    requires |times| == |results|
  {
    && 0 <= j < |results|
    && key == Key(sid, results[j].name) && results[j].ok && entry == Entry(times[j], results[j])
  }

  lemma WritesUnfold(c: Cache, sid: string, results: seq<ToolResult>, times: seq<Time>)
    requires |times| == |results| > 0
    ensures var n := |results| - 1;
      ApplyAll(c, WritesOf(sid, results, times)) ==
      Store(ApplyAll(c, WritesOf(sid, results[..n], times[..n])), Key(sid, results[n].name), times[n], results[n])
  {
    hide Store, WritesOf;
    var n := |results| - 1;
    WritesSnoc(sid, results[..n], times[..n], results[n], times[n]);
    ApplySnoc(c, WritesOf(sid, results[..n], times[..n]), SetOp(Key(sid, results[n].name), times[n], results[n]));
    assert results[..n] + [results[n]] == results && times[..n] + [times[n]] == times;
  }

  lemma {:induction false} WritesOnlyStore(c: Cache, sid: string, results: seq<ToolResult>, times: seq<Time>, key: Key)
    requires |times| == |results|
    ensures var after := ApplyAll(c, WritesOf(sid, results, times));
      && (key in c.entries ==> key in after.entries)
      && (key in after.entries ==>
            || (key in c.entries && after.entries[key] == c.entries[key])
            || exists j :: Wrote(sid, results, times, key, after.entries[key], j))
    decreases |results|
  {
    hide ApplyAll, WritesOf;
    if results == [] {
      NothingWritten(c, sid, map[]);
      assert times == [];
    } else {
      var n := |results| - 1;
      WritesOnlyStore(c, sid, results[..n], times[..n], key);
      WritesUnfold(c, sid, results, times);
      var after := ApplyAll(c, WritesOf(sid, results, times));
      if key in after.entries {
        assert results[n].ok && key == Key(sid, results[n].name) ==> Wrote(sid, results, times, key, after.entries[key], n);
        assert forall j :: Wrote(sid, results[..n], times[..n], key, after.entries[key], j) ==>
            Wrote(sid, results, times, key, after.entries[key], j);
      }
    }
  }

  lemma {:induction false} WritesMatchCollect(c: Cache, sid: string, results: seq<ToolResult>, times: seq<Time>,
                                              found: map<string, ToolResult>, name: string)
    requires |times| == |results|
    ensures var after, all, key := ApplyAll(c, WritesOf(sid, results, times)), Collect(found, results), Key(sid, name);
      if exists j :: Named(results, name, j)
      then name in all && (all[name].ok ==> Holds(after, key, all[name]))
      else (key in c.entries ==> key in after.entries && after.entries[key] == c.entries[key])
    decreases |results|
  {
    hide ApplyAll, WritesOf;
    if results == [] {
      NothingWritten(c, sid, map[]);
      assert times == [];
    } else {
      var n := |results| - 1;
      WritesMatchCollect(c, sid, results[..n], times[..n], found, name);
      WritesUnfold(c, sid, results, times);
      assert forall j :: 0 <= j < n ==> (Named(results[..n], name, j) <==> Named(results, name, j));
      assert results[n].name == name <==> Named(results, name, n);
    }
  }

  /** A build only drops entries of its session that it asked for and that had expired, only
      writes successes it ran itself, under its session and dated by its own clock readings,
      and leaves every success it collected in the cache. */
  lemma BuildTouchesOnlyItsSections(c: Cache, b: Build, key: Key, name: string)
    requires IsBuild(c, b)
    ensures var after := ApplyAll(c, Ops(b));
      && (key in c.entries && key !in after.entries ==>
            key.session == b.session && exists k :: ExpiresAt(c, ReadOps(b), key, k))
      && (key in after.entries ==>
            || (key in c.entries && after.entries[key] == c.entries[key])
            || exists j :: Wrote(b.session, b.results, b.times[|b.requests|..], key, after.entries[key], j))
      && (name in Collected(c, b) && Collected(c, b)[name].ok ==>
            Holds(after, Key(b.session, name), Collected(c, b)[name]))
  {
    hide ApplyAll, Found, Missed, Collect, Answer;
    var gets, times := ReadOps(b), b.times[|b.requests|..];
    var middle := ApplyAll(c, gets);
    ApplyConcat(c, gets, WritesOf(b.session, b.results, times));
    ReadsOnlyPrune(c, gets, key);
    WritesOnlyStore(middle, b.session, b.results, times, key);
    WritesMatchCollect(middle, b.session, b.results, times, Found(c, gets), name);
    if name in Collected(c, b) && !exists j :: Named(b.results, name, j) {
      CollectDecides(Found(c, gets), b.results, name);
      MissedIsNamed(c, b, name);
      ReadsDecide(c, gets, name);
      assert forall k :: Miss(c, gets, name, k) ==> MissedAt(c, b, name, k);
      FoundStays(c, gets, b.session, name);
    }
  }

  // ---------------------------------------------------------------- transparency

  /** What the cache serves in this build is what the tools would answer. */
  ghost predicate ServesAnswers(c: Cache, b: Build, answers: string -> ToolResult)
    requires Timed(b)
  {
    forall name, k, result :: ServedAt(c, b, name, k, result) ==> result == answers(name)
  }

  /** A section shows the answer of the tool of its name if that was requested and succeeds. */
  ghost predicate SectionAnswers(answers: string -> ToolResult, requests: seq<string>, name: string, shown: Option<string>) {
    shown == if name in requests && answers(name).ok then answers(name).value else None
  }

  ghost predicate SectionsAnswer(answers: string -> ToolResult, requests: seq<string>, snapshot: Snapshot) {
    && SectionAnswers(answers, requests, "system", snapshot.system)
    && SectionAnswers(answers, requests, "cpu", snapshot.cpu)
    && SectionAnswers(answers, requests, "memory", snapshot.memory)
    && SectionAnswers(answers, requests, "storage", snapshot.storage)
    && SectionAnswers(answers, requests, "network", snapshot.network)
    && SectionAnswers(answers, requests, "wifi", snapshot.wifi)
  }

  /** If every tool run in this build answers what `answers` says, and every entry it is served
      from the cache says the same, the snapshot is the one without a cache. Other calls, other
      sessions, expired entries and unrequested tools may differ at will. */
  lemma SnapshotIsUncached(c: Cache, b: Build, answers: string -> ToolResult)
    requires IsBuild(c, b) && ServesAnswers(c, b, answers)
    requires forall j :: 0 <= j < |b.results| ==> b.results[j] == answers(b.results[j].name)
    ensures SnapshotOf(Collected(c, b)) == Uncached(answers, b.requests)
    ensures SectionsAnswer(answers, b.requests, SnapshotOf(Collected(c, b)))
  {
    hide Collected, ServedAt, MissedAt;
    var all := Collected(c, b);
    forall name
      ensures name in all <==> name in b.requests
      ensures name in all ==> all[name] == answers(name)
    {
      SectionIsServedOrRun(c, b, name);
    }
    assert all == map name | name in b.requests :: answers(name);
  }

  // ---------------------------------------------------------------- `build`

  /** `build`: cached results first, then one run of the tools that are missing. The ghost
      result records the cache operations; the new cache is the old one after them, the snapshot
      is made of what the reads answered and the tools returned in this build, and distinct
      requests run each tool at most once. */
  method BuildSnapshot(cache: RouterContextCache, executor: Executor, clock: Clock,
                       session: Option<string>, requests: seq<string>)
    returns (snapshot: Snapshot, ghost b: Build)
    modifies cache, executor, clock
    ensures IsBuild(old(cache.Contents()), b)
    ensures b.session == (match session case Some(id) => id case None => "") && b.requests == requests
    ensures ReadOff(clock.reading, old(clock.taken), b.times) && clock.taken == old(clock.taken) + |b.times|
    ensures cache.Contents() == ApplyAll(old(cache.Contents()), Ops(b))
    ensures snapshot == SnapshotOf(Collected(old(cache.Contents()), b))
    ensures SectionsShow(old(cache.Contents()), b, snapshot)
    ensures executor.calls == old(executor.calls) + Permitted(executor.guard, Missed(old(cache.Contents()), ReadOps(b)))
    ensures forall j :: 0 <= j < |b.results| ==>
      Executed(executor, executor.calls, |old(executor.calls)|, b.results[j].name, b.results[j])
    ensures Distinct(requests) ==> Distinct(executor.calls[|old(executor.calls)|..])
    ensures forall answers: string -> ToolResult ::
      executor.Answers(|old(executor.calls)|, answers) && ServesAnswers(old(cache.Contents()), b, answers) ==>
        snapshot == Uncached(answers, requests) && SectionsAnswer(answers, requests, snapshot)
  {
    hide SectionsShow, SectionsAnswer, Uncached, AfterReads, AfterWrites, IsBuild, ApplyAll, Missed, Collected, ServesAnswers, Permitted, Ops, ReadOps;
    var sid := SessionId(session);
    ghost var before := cache.Contents();
    var found, pending, readTimes := ReadCached(cache, clock, sid, requests);
    ghost var middle := cache.Contents();
    var results := executor.Execute(pending);
    var collected, writeTimes := KeepResults(cache, clock, sid, found, results);
    b := Build(sid, requests, results, readTimes + writeTimes);
    PartsAreABuild(before, middle, cache.Contents(), b, readTimes, writeTimes, found, pending, collected);
    if Distinct(requests) {
      MissedStaysDistinct(before, b);
      PermittedStaysDistinct(executor.guard, pending);
      assert executor.calls[|old(executor.calls)|..] == Permitted(executor.guard, pending);
    }
    snapshot := SnapshotOf(collected);
    SectionsShowTheirResults(before, b);
    forall answers: string -> ToolResult |
      executor.Answers(|old(executor.calls)|, answers) && ServesAnswers(before, b, answers)
      ensures snapshot == Uncached(answers, requests) && SectionsAnswer(answers, requests, snapshot)
    {
      ExecutedAnswers(executor, |old(executor.calls)|, results, answers);
      SnapshotIsUncached(before, b, answers);
    }
  }

  /** The two loops together make up one build. */
  lemma PartsAreABuild(before: Cache, middle: Cache, after: Cache, b: Build, readTimes: seq<Time>, writeTimes: seq<Time>,
                       found: map<string, ToolResult>, pending: seq<string>, collected: map<string, ToolResult>)
    requires b.times == readTimes + writeTimes
    requires AfterReads(before, middle, b.session, b.requests, readTimes, found, pending)
    requires AfterWrites(middle, after, b.session, b.results, writeTimes, found, collected)
    requires |b.results| == |pending| && forall j :: 0 <= j < |pending| ==> b.results[j].name == pending[j]
    ensures IsBuild(before, b)
    ensures Timed(b) && pending == Missed(before, ReadOps(b))
    ensures collected == Collected(before, b)
    ensures after == ApplyAll(before, Ops(b))
  {
    hide ApplyAll, Collect, Found, Missed, ReadsOf, WritesOf;
    assert b.times[..|b.requests|] == readTimes && b.times[|b.requests|..] == writeTimes;
    ApplyConcat(before, ReadOps(b), WritesOf(b.session, b.results, writeTimes));
  }

  lemma ExecutedAnswers(executor: Executor, since: nat, results: seq<ToolResult>, answers: string -> ToolResult)
    requires executor.Answers(since, answers)
    requires forall j :: 0 <= j < |results| ==>
      Executed(executor, executor.calls, since, results[j].name, results[j])
    ensures forall j :: 0 <= j < |results| ==> results[j] == answers(results[j].name)
  {}

  // ---------------------------------------------------------------- runs of builds and clears

  datatype Act = ClearAct(session: Option<string>) | BuildAct(build: Build)

  function OpsOf(act: Act): seq<Op>
    requires act.BuildAct? ==> Timed(act.build)
  {
    match act
    case ClearAct(session) => [ClearOp(session)]
    case BuildAct(b) => Ops(b)
  }

  predicate AllTimed(acts: seq<Act>) {
    forall i :: 0 <= i < |acts| && acts[i].BuildAct? ==> Timed(acts[i].build)
  }

  function Log(acts: seq<Act>): seq<Op>
    requires AllTimed(acts)
    decreases |acts|
  {
    if acts == [] then [] else Log(acts[..|acts| - 1]) + OpsOf(acts[|acts| - 1])
  }

  /** Builds of any sessions and clears, one after the other, on a cache that was empty at first. */
  predicate IsHistory(acts: seq<Act>, ttl: Time) {
    && AllTimed(acts)
    && forall i :: 0 <= i < |acts| && acts[i].BuildAct? ==> IsBuild(Run(Log(acts[..i]), ttl), acts[i].build)
  }

  lemma {:induction false} LogExtends(acts: seq<Act>, i: nat)
    requires AllTimed(acts) && i <= |acts|
    ensures Log(acts[..i]) <= Log(acts)
    decreases |acts|
  {
    if i == |acts| {
      assert acts[..i] == acts;
    } else {
      LogExtends(acts[..|acts| - 1], i);
      assert acts[..|acts| - 1][..i] == acts[..i];
    }
  }

  lemma {:induction false} TimelyBefore(ops: seq<Op>, n: nat, now: Time)
    requires Timely(ops, now) && n < |ops| && !ops[n].ClearOp?
    ensures Timely(ops[..n], ops[n].now)
    decreases |ops|
  {
    var before, last := ops[..|ops| - 1], ops[|ops| - 1];
    if n < |ops| - 1 {
      TimelyBefore(before, n, if last.ClearOp? then now else last.now);
      assert before[..n] == ops[..n];
    }
  }

  lemma {:induction false} ReadsStoreNothing(log: seq<Op>, gets: seq<Op>, key: Key)
    requires AllGets(gets)
    ensures LastStored(log + gets, key) == LastStored(log, key)
    decreases |gets|
  {
    if gets == [] {
      assert log + gets == log;
    } else {
      assert (log + gets)[..|log + gets| - 1] == log + gets[..|gets| - 1];
      ReadsStoreNothing(log, gets[..|gets| - 1], key);
    }
  }

  lemma {:induction false} StoredAreSuccesses(ops: seq<Op>, key: Key)
    ensures LastStored(ops, key).Some? ==> LastStored(ops, key).value.result.ok
    decreases |ops|
  {
    if ops != [] {
      StoredAreSuccesses(ops[..|ops| - 1], key);
    }
  }

  /** A read of a build answers what was fresh when the build began. */
  lemma AnswerIsFresh(ops: seq<Op>, log: seq<Op>, gets: seq<Op>, k: nat, ttl: Time, now: Time)
    requires AllGets(gets) && k < |gets| && log + gets <= ops && Timely(ops, now)
    ensures Answer(Run(log, ttl), gets, k) == Fresh(log, gets[k].key, gets[k].now, ttl)
  {
    hide LastStored, Timely, ApplyAll, Get;
    var n := |log| + k;
    assert ops[n] == (log + gets)[n] == gets[k];
    assert ops[..n] == (log + gets)[..n] == log + gets[..k];
    TimelyBefore(ops, n, now);
    ApplyConcat(Cache(ttl, map[], 0, 0), log, gets[..k]);
    GetIsFreshestStore(log + gets[..k], gets[k].key, gets[k].now, ttl);
    ReadsStoreNothing(log, gets[..k], gets[k].key);
  }

  predicate StaleAt(log: seq<Op>, b: Build, name: string, ttl: Time, k: int)
    requires Timed(b)
  {
    0 <= k < |b.requests| && b.requests[k] == name && Fresh(log, Key(b.session, name), b.times[k], ttl).None?
  }

  predicate NeverBack(reading: nat -> Time, since: nat, until: nat) {
    forall i, j :: since <= i <= j <= until ==> reading(i) <= reading(j)
  }

  lemma NeverBackStep(reading: nat -> Time, since: nat, n: nat)
    requires NeverBack(reading, since, since + n + 1)
    ensures NeverBack(reading, since, since + n)
    ensures reading(since + n) <= reading(since + n + 1)
  {}

  lemma {:induction false} TimelyLonger(log: seq<Op>, ops: seq<Op>, reading: nat -> Time, since: nat)
    requires Timely(log, reading(since)) && NeverBack(reading, since, since + |ops|)
    requires forall i :: 0 <= i < |ops| ==> !ops[i].ClearOp? && ops[i].now == reading(since + i)
    ensures Timely(log + ops, reading(since + |ops|))
    decreases |ops|
  {
    hide NeverBack;
    if ops == [] {
      assert log + ops == log;
    } else {
      var n := |ops| - 1;
      NeverBackStep(reading, since, n);
      TimelyLonger(log, ops[..n], reading, since);
      assert log + ops == log + ops[..n] + [ops[n]];
      TimelySnoc(log + ops[..n], ops[n], reading(since + n), reading(since + n + 1));
    }
  }

  lemma TimelySnoc(log: seq<Op>, op: Op, now: Time, later: Time)
    requires Timely(log, now) && !op.ClearOp? && op.now == now <= later
    ensures Timely(log + [op], later)
  {
    assert (log + [op])[..|log|] == log;
  }

  /** What a build or a clear on the cache of a history adds to it is again a history, and its
      log gives the new cache. */
  lemma HistoryGrows(acts: seq<Act>, act: Act, ttl: Time)
    requires IsHistory(acts, ttl)
    requires act.BuildAct? ==> IsBuild(Run(Log(acts), ttl), act.build)
    ensures IsHistory(acts + [act], ttl)
    ensures Run(Log(acts + [act]), ttl) == ApplyAll(Run(Log(acts), ttl), OpsOf(act))
  {
    hide Missed, Run, OpsOf, ReadOps;
    LogSnoc(acts, act);
    var all := acts + [act];
    assert all[..|acts|] == acts;
    forall i | 0 <= i < |all| && all[i].BuildAct?
      ensures IsBuild(Run(Log(all[..i]), ttl), all[i].build)
    {
      assert i < |acts| ==> all[..i] == acts[..i];
    }
    RunConcat(Log(acts), OpsOf(act), ttl);
  }

  /** Under a clock that never goes back every build keeps the log in order. */
  lemma BuildStaysTimely(log: seq<Op>, b: Build, reading: nat -> Time, since: nat)
    requires Timed(b) && ReadOff(reading, since, b.times) && NeverBack(reading, since, since + |b.times|)
    requires Timely(log, reading(since))
    ensures Timely(log + Ops(b), reading(since + |b.times|))
  {
    hide Timely, NeverBack;
    TimelyLonger(log, Ops(b), reading, since);
  }

  lemma RunConcat(a: seq<Op>, b: seq<Op>, ttl: Time)
    ensures Run(a + b, ttl) == ApplyAll(Run(a, ttl), b)
  {
    ApplyConcat(Cache(ttl, map[], 0, 0), a, b);
  }

  /** Over every run of builds and clears under a nondecreasing clock, whatever the tools answer
      when: a section is served exactly when, at each of its reads, some success was stored in
      the same session at most the time limit ago with no clear since, and then it is the last
      one stored; otherwise it shows a result of a tool run in this very build. */
  lemma SectionsAreFreshOrJustRun(acts: seq<Act>, i: nat, name: string, ttl: Time, now: Time)
    requires IsHistory(acts, ttl) && Timely(Log(acts), now)
    requires i < |acts| && acts[i].BuildAct? && name in acts[i].build.requests
    ensures var b, log := acts[i].build, Log(acts[..i]);
      && name in Collected(Run(log, ttl), b)
      && var result := Collected(Run(log, ttl), b)[name];
         if exists k :: StaleAt(log, b, name, ttl, k)
         then exists j :: Named(b.results, name, j) && result == b.results[j]
         else
           && (forall j :: !Named(b.results, name, j))
           && LastStored(log, Key(b.session, name)).Some?
           && result == LastStored(log, Key(b.session, name)).value.result
           && result.ok
           && (forall k :: 0 <= k < |b.requests| && b.requests[k] == name ==>
                 b.times[k] - LastStored(log, Key(b.session, name)).value.storedAt <= ttl)
  {
    hide Answer, Collected, IsBuild, LastStored, Timely, Run;
    var b, log := acts[i].build, Log(acts[..i]);
    var c, gets, key := Run(log, ttl), ReadOps(b), Key(b.session, name);
    SectionIsServedOrRun(c, b, name);
    BuildIsLogged(acts, i);
    forall k | 0 <= k < |b.requests| && b.requests[k] == name
      ensures Answer(c, gets, k) == Fresh(log, key, b.times[k], ttl)
      ensures MissedAt(c, b, name, k) <==> StaleAt(log, b, name, ttl, k)
    {
      AnswerIsFresh(Log(acts), log, gets, k, ttl, now);
    }
    if k :| StaleAt(log, b, name, ttl, k) {
      assert MissedAt(c, b, name, k);
    } else {
      assert !exists k :: MissedAt(c, b, name, k);
      var result := Collected(c, b)[name];
      var k :| ServedAt(c, b, name, k, result);
      assert !StaleAt(log, b, name, ttl, k);
      StoredAreSuccesses(log, key);
      forall k | 0 <= k < |b.requests| && b.requests[k] == name
        ensures b.times[k] - LastStored(log, key).value.storedAt <= ttl
      {
        assert !StaleAt(log, b, name, ttl, k);
      }
    }
  }

  lemma BuildIsLogged(acts: seq<Act>, i: nat)
    requires AllTimed(acts) && i < |acts| && acts[i].BuildAct?
    ensures Log(acts[..i]) + ReadOps(acts[i].build) <= Log(acts)
  {
    hide Log, Ops, ReadOps;
    var b := acts[i].build;
    LogExtends(acts, i + 1);
    LogSnoc(acts[..i], acts[i]);
    assert acts[..i + 1] == acts[..i] + [acts[i]];
    OpsParts(b, Log(acts[..i]), Log(acts));
  }

  lemma OpsParts(b: Build, log: seq<Op>, all: seq<Op>)
    requires Timed(b) && log + Ops(b) <= all
    ensures log + ReadOps(b) <= all
  {
    hide ReadsOf, WritesOf;
    PrefixOfPrefix(log, ReadOps(b), WritesOf(b.session, b.results, b.times[|b.requests|..]), all);
  }

  lemma PrefixOfPrefix(a: seq<Op>, b: seq<Op>, c: seq<Op>, all: seq<Op>)
    requires a + (b + c) <= all
    ensures a + b <= all
  {
    assert a + (b + c) == a + b + c;
  }

  lemma LogSnoc(acts: seq<Act>, act: Act)
    requires AllTimed(acts) && (act.BuildAct? ==> Timed(act.build))
    ensures AllTimed(acts + [act]) && Log(acts + [act]) == Log(acts) + OpsOf(act)
  {
    hide OpsOf;
    assert (acts + [act])[..|acts|] == acts;
  }
}
