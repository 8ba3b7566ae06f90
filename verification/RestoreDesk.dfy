/** Restore jobs side by side: every upload has its own job, all jobs dispatch to one router, and
    their calls come in any order. A job that is created later is one that nobody calls before. */
module RestoreDesk {
  import opened Prelude
  import opened HexDump
  import opened Restore
  import opened RestoreJobs

  // ---------------------------------------------------------------- several jobs on one router

  datatype Tagged = Tagged(id: string, call: Call)

  datatype Logged = Logged(id: string, file: Option<seq<Byte>>)

  /** All jobs, and every restore that was sent with the job that sent it. */
  datatype Desk = Desk(jobs: map<string, Job>, log: seq<Logged>)

  function Mine(log: seq<Logged>, id: string): seq<Option<seq<Byte>>>
    decreases |log|
  {
    if log == [] then []
    else Mine(log[..|log| - 1], id) + if log[|log| - 1].id == id then [log[|log| - 1].file] else []
  }

  function ViewOf(d: Desk, id: string): RestoreView {
    RestoreView(if id in d.jobs then Some(d.jobs[id]) else None, Mine(d.log, id))
  }

  function CallsOf(tagged: seq<Tagged>, id: string): seq<Call>
    decreases |tagged|
  {
    if tagged == [] then []
    else CallsOf(tagged[..|tagged| - 1], id) + if tagged[|tagged| - 1].id == id then [tagged[|tagged| - 1].call] else []
  }

  /** A call on one job: its own step, and nothing for the others. */
  ghost predicate DeskStep(decode: Decoder, t: Tagged, d: Desk, d': Desk) {
    && CallStep(decode, t.call, ViewOf(d, t.id), ViewOf(d', t.id))
    && d.log <= d'.log
    && forall other :: other != t.id ==> ViewOf(d', other) == ViewOf(d, other)
  }

  function NewDesk(ids: seq<string>): Desk {
    Desk(map id | id in ids :: Job(Queued, false, Nothing), [])
  }

  ghost predicate IsDeskRun(decode: Decoder, ids: seq<string>, tagged: seq<Tagged>, desks: seq<Desk>) {
    && |desks| == |tagged| + 1
    && desks[0] == NewDesk(ids)
    && forall i :: 0 <= i < |tagged| ==> DeskStep(decode, tagged[i], desks[i], desks[i + 1])
  }

  /** What a call does to its job does not depend on what was dispatched before, by whichever job;
      so a step of the class, whose router counts all dispatches, is a step on the desk. */
  lemma StepIsLocal(decode: Decoder, call: Call, job: Option<Job>, job': Option<Job>, before: seq<Option<seq<Byte>>>,
                    mine: seq<Option<seq<Byte>>>, more: seq<Option<seq<Byte>>>)
    requires CallStep(decode, call, RestoreView(job, before), RestoreView(job', before + more))
    ensures CallStep(decode, call, RestoreView(job, mine), RestoreView(job', mine + more))
  {
    var v, v' := RestoreView(job, before), RestoreView(job', before + more);
    var w, w' := RestoreView(job, mine), RestoreView(job', mine + more);
    if v'.dispatched == v.dispatched {
      assert more == [] && mine + more == mine;
    }
    if call.ConfirmCall? && v' != v && v' != Spoilt(v) {
      var sends: nat :| sends <= call.attempts && SentStep(decode, call.closed, sends, v, v');
      var payload := Payload(decode, job.value);
      assert (before + more)[|before|..] == (before + Copies(payload, sends))[|before|..];
      assert more == Copies(payload, sends);
      assert SentStep(decode, call.closed, sends, w, w');
    }
  }

  lemma DeskRunUnfold(decode: Decoder, ids: seq<string>, tagged: seq<Tagged>, desks: seq<Desk>)
    requires tagged != [] && IsDeskRun(decode, ids, tagged, desks)
    ensures var n := |tagged| - 1;
      && |desks| == n + 2
      && IsDeskRun(decode, ids, tagged[..n], desks[..n + 1])
      && DeskStep(decode, tagged[n], desks[n], desks[n + 1])
  {
    hide DeskStep;
  }

  /** Each job sees a run of its own calls. */
  lemma {:induction false} JobSeesItsOwnRun(decode: Decoder, ids: seq<string>, tagged: seq<Tagged>, desks: seq<Desk>, id: string)
    returns (views: seq<RestoreView>)
    requires id in ids && IsDeskRun(decode, ids, tagged, desks)
    ensures IsRun(decode, CallsOf(tagged, id), views)
    ensures views[|CallsOf(tagged, id)|] == ViewOf(desks[|tagged|], id)
    decreases |tagged|
  {
    if tagged == [] {
      views := [Start()];
    } else {
      hide CallStep, IsRun, IsDeskRun, ViewOf;
      var n := |tagged| - 1;
      DeskRunUnfold(decode, ids, tagged, desks);
      views := JobSeesItsOwnRun(decode, ids, tagged[..n], desks[..n + 1], id);
      RunLength(decode, CallsOf(tagged[..n], id), views);
      if tagged[n].id == id {
        ExtendRun(decode, CallsOf(tagged[..n], id), views, tagged[n].call, ViewOf(desks[n + 1], id));
        views := views + [ViewOf(desks[n + 1], id)];
      }
    }
  }

  lemma RunLength(decode: Decoder, calls: seq<Call>, views: seq<RestoreView>)
    requires IsRun(decode, calls, views)
    ensures |views| == |calls| + 1
  {}

  /** Any number of jobs on one router, their calls in any order: what each job dispatches is its
      own accepted uploads in order, each in one go, and no job exceeds its own maximum. */
  lemma JobsDoNotInterfere(decode: Decoder, ids: seq<string>, tagged: seq<Tagged>, desks: seq<Desk>, id: string)
    returns (counts: seq<nat>)
    requires id in ids && IsDeskRun(decode, ids, tagged, desks)
    ensures |counts| == |Accepted(decode, CallsOf(tagged, id))|
    ensures Mine(desks[|tagged|].log, id) == Stretch(Accepted(decode, CallsOf(tagged, id)), counts)
    ensures forall i :: 0 <= i < |counts| ==> counts[i] <= Tops(decode, CallsOf(tagged, id))[i]
    ensures |Mine(desks[|tagged|].log, id)| <= Most(decode, CallsOf(tagged, id))
  {
    hide IsRun, IsDeskRun, Stretch, Tops, Accepted, Booked, Most;
    var views := JobSeesItsOwnRun(decode, ids, tagged, desks, id);
    RunLength(decode, CallsOf(tagged, id), views);
    counts := EachUploadIsRestoredInOneGo(decode, CallsOf(tagged, id), views);
    RunStaysWithinMost(decode, CallsOf(tagged, id), views);
  }

  lemma CallExtends(decode: Decoder, call: Call, v: RestoreView, v': RestoreView)
    requires CallStep(decode, call, v, v')
    ensures v.dispatched <= v'.dispatched
    ensures v.job.Some? <==> v'.job.Some?
    ensures v.job.None? ==> v' == v
  {}

  lemma {:induction false} MineConcat(log: seq<Logged>, more: seq<Logged>, id: string)
    ensures Mine(log + more, id) == Mine(log, id) + Mine(more, id)
    decreases |more|
  {
    if more == [] {
      assert log + more == log;
    } else {
      var n := |more| - 1;
      MineConcat(log, more[..n], id);
      assert (log + more)[..|log + more| - 1] == log + more[..n];
    }
  }

  function LogAs(id: string, files: seq<Option<seq<Byte>>>): seq<Logged> {
    seq(|files|, i requires 0 <= i < |files| => Logged(id, files[i]))
  }

  lemma {:induction false} MineOfLog(id: string, files: seq<Option<seq<Byte>>>, other: string)
    ensures Mine(LogAs(id, files), other) == if other == id then files else []
    decreases |files|
  {
    if files != [] {
      var n := |files| - 1;
      MineOfLog(id, files[..n], other);
      assert LogAs(id, files)[..n] == LogAs(id, files[..n]);
      assert files == files[..n] + [files[n]];
    }
  }

  /** The desk after a job has moved on to the view `v'`. */
  function Moved(d: Desk, id: string, v': RestoreView): Desk
    requires ViewOf(d, id).dispatched <= v'.dispatched && v'.job.Some?
  {
    Desk(d.jobs[id := v'.job.value], d.log + LogAs(id, v'.dispatched[|ViewOf(d, id).dispatched|..]))
  }

  lemma MovedIsAStep(decode: Decoder, t: Tagged, d: Desk, v': RestoreView)
    requires ViewOf(d, t.id).job.Some? && CallStep(decode, t.call, ViewOf(d, t.id), v')
    ensures ViewOf(d, t.id).dispatched <= v'.dispatched && v'.job.Some?
    ensures DeskStep(decode, t, d, Moved(d, t.id, v')) && ViewOf(Moved(d, t.id, v'), t.id) == v'
  {
    hide CallStep, Mine;
    CallExtends(decode, t.call, ViewOf(d, t.id), v');
    var more := v'.dispatched[|ViewOf(d, t.id).dispatched|..];
    forall other
      ensures Mine(Moved(d, t.id, v').log, other) == Mine(d.log, other) + if other == t.id then more else []
    {
      MineConcat(d.log, LogAs(t.id, more), other);
      MineOfLog(t.id, more, other);
    }
    assert Mine(d.log, t.id) + more == v'.dispatched;
  }

  lemma UnknownJobStays(decode: Decoder, t: Tagged, d: Desk)
    requires ViewOf(d, t.id).job.None?
    ensures DeskStep(decode, t, d, d)
  {}

  lemma ExtendDeskRun(decode: Decoder, ids: seq<string>, tagged: seq<Tagged>, desks: seq<Desk>, t: Tagged, d: Desk)
    requires IsDeskRun(decode, ids, tagged, desks) && DeskStep(decode, t, desks[|tagged|], d)
    ensures IsDeskRun(decode, ids, tagged + [t], desks + [d])
  {
    hide DeskStep;
    var all, seen := tagged + [t], desks + [d];
    forall i | 0 <= i < |all|
      ensures DeskStep(decode, all[i], seen[i], seen[i + 1])
    {
      assert i < |tagged| ==> DeskStep(decode, tagged[i], desks[i], desks[i + 1]);
    }
  }

  /** A run of its own calls for every job. */
  predicate RunsOf(decode: Decoder, ids: seq<string>, tagged: seq<Tagged>, runs: map<string, seq<RestoreView>>) {
    forall i :: 0 <= i < |ids| ==>
      && ids[i] in runs
      && IsRun(decode, CallsOf(tagged, ids[i]), runs[ids[i]])
      && |runs[ids[i]]| == |CallsOf(tagged, ids[i])| + 1
  }

  ghost predicate Shows(d: Desk, ids: seq<string>, runs: map<string, seq<RestoreView>>) {
    && (forall id :: id in ids && id in runs && runs[id] != [] ==> ViewOf(d, id) == runs[id][|runs[id]| - 1])
    && (forall id :: id !in ids ==> ViewOf(d, id) == RestoreView(None, []))
  }

  /** One call less: the run of its job is one step shorter. */
  lemma RunsBefore(decode: Decoder, ids: seq<string>, before: seq<Tagged>, t: Tagged, runs: map<string, seq<RestoreView>>)
    requires t.id in ids && RunsOf(decode, ids, before + [t], runs)
    ensures var run := runs[t.id];
      && |run| >= 2
      && RunsOf(decode, ids, before, runs[t.id := run[..|run| - 1]])
      && CallStep(decode, t.call, run[|run| - 2], run[|run| - 1])
      && run[|run| - 2].job.Some?
  {
    hide CallStep, IsRun, CallsOf;
    var run, calls := runs[t.id], CallsOf(before, t.id);
    CallsOfNext(before, t, t.id);
    assert (calls + [t.call])[..|calls|] == calls;
    RunUnfold(decode, calls + [t.call], run);
    RunHasJob(decode, calls, run[..|calls| + 1]);
    var shorter := runs[t.id := run[..|run| - 1]];
    forall i | 0 <= i < |ids|
      ensures ids[i] in shorter && IsRun(decode, CallsOf(before, ids[i]), shorter[ids[i]])
      ensures |shorter[ids[i]]| == |CallsOf(before, ids[i])| + 1
    {
      CallsOfNext(before, t, ids[i]);
    }
  }

  lemma CallsOfNext(before: seq<Tagged>, t: Tagged, id: string)
    ensures CallsOf(before + [t], id) == if t.id == id then CallsOf(before, id) + [t.call] else CallsOf(before, id)
  {
    assert (before + [t])[..|before|] == before;
  }

  lemma RunsElsewhere(decode: Decoder, ids: seq<string>, before: seq<Tagged>, t: Tagged, runs: map<string, seq<RestoreView>>)
    requires t.id !in ids && RunsOf(decode, ids, before + [t], runs)
    ensures RunsOf(decode, ids, before, runs)
  {
    hide IsRun;
    forall i | 0 <= i < |ids|
      ensures IsRun(decode, CallsOf(before, ids[i]), runs[ids[i]])
      ensures |runs[ids[i]]| == |CallsOf(before, ids[i])| + 1
    {
      CallsOfNext(before, t, ids[i]);
    }
  }

  lemma ShowsNext(decode: Decoder, ids: seq<string>, t: Tagged, d: Desk, d': Desk, runs: map<string, seq<RestoreView>>)
    requires t.id in ids && t.id in runs && |runs[t.id]| >= 2
    requires Shows(d, ids, runs[t.id := runs[t.id][..|runs[t.id]| - 1]])
    requires DeskStep(decode, t, d, d') && ViewOf(d', t.id) == runs[t.id][|runs[t.id]| - 1]
    ensures Shows(d', ids, runs)
  {
    hide ViewOf, CallStep;
  }

  /** Runs of the single jobs can be put together in any order of the calls. */
  lemma {:induction false} RunsCombine(decode: Decoder, ids: seq<string>, tagged: seq<Tagged>, runs: map<string, seq<RestoreView>>)
    returns (desks: seq<Desk>)
    requires RunsOf(decode, ids, tagged, runs)
    ensures IsDeskRun(decode, ids, tagged, desks) && |desks| == |tagged| + 1
    ensures Shows(desks[|tagged|], ids, runs)
    decreases |tagged|
  {
    if tagged == [] {
      desks := [NewDesk(ids)];
    } else {
      hide CallStep, IsRun, IsDeskRun, DeskStep, ViewOf, Moved, RunsOf, Shows;
      var n, t := |tagged| - 1, tagged[|tagged| - 1];
      assert tagged[..n] + [t] == tagged;
      var next;
      if t.id in ids {
        RunsBefore(decode, ids, tagged[..n], t, runs);
        var run := runs[t.id];
        desks := RunsCombine(decode, ids, tagged[..n], runs[t.id := run[..|run| - 1]]);
        next := CombinedStep(decode, ids, t, desks[n], runs);
      } else {
        RunsElsewhere(decode, ids, tagged[..n], t, runs);
        desks := RunsCombine(decode, ids, tagged[..n], runs);
        next := desks[n];
        UnknownShows(decode, ids, t, next, runs);
      }
      ExtendDeskRun(decode, ids, tagged[..n], desks, t, next);
      desks := desks + [next];
    }
  }

  lemma CombinedStep(decode: Decoder, ids: seq<string>, t: Tagged, d: Desk, runs: map<string, seq<RestoreView>>)
    returns (next: Desk)
    requires t.id in ids && t.id in runs && |runs[t.id]| >= 2
    requires Shows(d, ids, runs[t.id := runs[t.id][..|runs[t.id]| - 1]])
    requires var run := runs[t.id];
      CallStep(decode, t.call, run[|run| - 2], run[|run| - 1]) && run[|run| - 2].job.Some?
    ensures DeskStep(decode, t, d, next) && Shows(next, ids, runs)
  {
    hide CallStep, DeskStep, ViewOf, Moved;
    var run := runs[t.id];
    assert run[..|run| - 1][|run| - 2] == run[|run| - 2];
    assert ViewOf(d, t.id) == run[|run| - 2];
    MovedIsAStep(decode, t, d, run[|run| - 1]);
    next := Moved(d, t.id, run[|run| - 1]);
    ShowsNext(decode, ids, t, d, next, runs);
  }

  lemma UnknownShows(decode: Decoder, ids: seq<string>, t: Tagged, d: Desk, runs: map<string, seq<RestoreView>>)
    requires t.id !in ids && Shows(d, ids, runs)
    ensures DeskStep(decode, t, d, d)
  {
    UnknownJobStays(decode, t, d);
  }

  lemma DeskRunLength(decode: Decoder, ids: seq<string>, tagged: seq<Tagged>, desks: seq<Desk>)
    requires IsDeskRun(decode, ids, tagged, desks)
    ensures |desks| == |tagged| + 1
  {}

  lemma {:induction false} RunHasJob(decode: Decoder, calls: seq<Call>, views: seq<RestoreView>)
    requires IsRun(decode, calls, views)
    ensures |views| == |calls| + 1 && views[|calls|].job.Some?
    decreases |calls|
  {
    if calls != [] {
      hide CallStep;
      RunUnfold(decode, calls, views);
      RunHasJob(decode, calls[..|calls| - 1], views[..|calls|]);
      CallExtends(decode, calls[|calls| - 1], views[|calls| - 1], views[|calls|]);
    }
  }

  // ---------------------------------------------------------------- the total over all jobs

  function Total(decode: Decoder, ids: seq<string>, tagged: seq<Tagged>): nat {
    if ids == [] then 0 else Most(decode, CallsOf(tagged, ids[0])) + Total(decode, ids[1..], tagged)
  }

  function AllMine(log: seq<Logged>, ids: seq<string>): nat {
    if ids == [] then 0 else |Mine(log, ids[0])| + AllMine(log, ids[1..])
  }

  predicate DistinctIds(ids: seq<string>) {
    forall i, j :: 0 <= i < j < |ids| ==> ids[i] != ids[j]
  }

  lemma {:induction false} OneMore(log: seq<Logged>, last: Logged, ids: seq<string>)
    requires DistinctIds(ids)
    ensures AllMine(log + [last], ids) == AllMine(log, ids) + if last.id in ids then 1 else 0
    decreases |ids|
  {
    assert (log + [last])[..|log|] == log;
    if ids != [] {
      OneMore(log, last, ids[1..]);
      assert ids[0] !in ids[1..];
    }
  }

  lemma {:induction false} LogAddsUp(log: seq<Logged>, ids: seq<string>)
    requires DistinctIds(ids) && forall i :: 0 <= i < |log| ==> log[i].id in ids
    ensures |log| == AllMine(log, ids)
    decreases |log|
  {
    if log == [] {
      NothingMine(ids);
    } else {
      var n := |log| - 1;
      LogAddsUp(log[..n], ids);
      OneMore(log[..n], log[n], ids);
      assert log[..n] + [log[n]] == log;
    }
  }

  lemma {:induction false} NothingMine(ids: seq<string>)
    ensures AllMine([], ids) == 0
  {
    if ids != [] {
      NothingMine(ids[1..]);
    }
  }

  lemma {:induction false} OthersLogNothing(decode: Decoder, ids: seq<string>, tagged: seq<Tagged>, desks: seq<Desk>, id: string)
    requires id !in ids && IsDeskRun(decode, ids, tagged, desks)
    ensures ViewOf(desks[|tagged|], id) == RestoreView(None, [])
    decreases |tagged|
  {
    if tagged != [] {
      hide CallStep, IsDeskRun, ViewOf;
      var n := |tagged| - 1;
      DeskRunUnfold(decode, ids, tagged, desks);
      OthersLogNothing(decode, ids, tagged[..n], desks[..n + 1], id);
      if tagged[n].id == id {
        CallExtends(decode, tagged[n].call, ViewOf(desks[n], id), ViewOf(desks[n + 1], id));
      }
    }
  }

  lemma {:induction false} LoggedIsMine(log: seq<Logged>, i: nat)
    requires i < |log|
    ensures Mine(log, log[i].id) != []
    decreases |log|
  {
    if i < |log| - 1 {
      LoggedIsMine(log[..|log| - 1], i);
    }
  }

  lemma LogIsOfJobs(decode: Decoder, ids: seq<string>, tagged: seq<Tagged>, desks: seq<Desk>)
    requires DistinctIds(ids) && IsDeskRun(decode, ids, tagged, desks)
    ensures |desks[|tagged|].log| == AllMine(desks[|tagged|].log, ids)
  {
    hide IsDeskRun, AllMine;
    DeskRunLength(decode, ids, tagged, desks);
    var log := desks[|tagged|].log;
    forall i | 0 <= i < |log|
      ensures log[i].id in ids
    {
      LoggedIsMine(log, i);
      if log[i].id !in ids {
        OthersLogNothing(decode, ids, tagged, desks, log[i].id);
      }
    }
    LogAddsUp(log, ids);
  }

  lemma {:induction false} TotalsCompare(decode: Decoder, ids: seq<string>, tagged: seq<Tagged>, log: seq<Logged>)
    ensures (forall id :: id in ids ==> |Mine(log, id)| <= Most(decode, CallsOf(tagged, id))) ==> AllMine(log, ids) <= Total(decode, ids, tagged)
    ensures (forall id :: id in ids ==> |Mine(log, id)| == Most(decode, CallsOf(tagged, id))) ==> AllMine(log, ids) == Total(decode, ids, tagged)
    decreases |ids|
  {
    hide Most, Mine, CallsOf;
    if ids != [] {
      TotalsCompare(decode, ids[1..], tagged, log);
      assert ids[0] in ids && forall id :: id in ids[1..] ==> id in ids;
    }
  }

  function Restores(desks: seq<Desk>): nat {
    if desks == [] then 0 else |desks[|desks| - 1].log|
  }

  /** Over all runs of any given calls on any number of jobs, in their order, the greatest number of
      restores sent to the router is the sum of what the jobs allow singly. */
  lemma TotalIsTheMaximum(decode: Decoder, ids: seq<string>, tagged: seq<Tagged>)
    requires DistinctIds(ids)
    ensures forall desks: seq<Desk> :: IsDeskRun(decode, ids, tagged, desks) ==> Restores(desks) <= Total(decode, ids, tagged)
    ensures exists desks: seq<Desk> :: IsDeskRun(decode, ids, tagged, desks) && Restores(desks) == Total(decode, ids, tagged)
  {
    hide IsDeskRun, IsRun, AllMine, Total, Most, Mine, Accepted, Tops, Stretch;
    forall desks: seq<Desk> | IsDeskRun(decode, ids, tagged, desks)
      ensures Restores(desks) <= Total(decode, ids, tagged)
    {
      DeskRunLength(decode, ids, tagged, desks);
      LogIsOfJobs(decode, ids, tagged, desks);
      forall id | id in ids
        ensures |Mine(desks[|tagged|].log, id)| <= Most(decode, CallsOf(tagged, id))
      {
        var counts := JobsDoNotInterfere(decode, ids, tagged, desks, id);
      }
      TotalsCompare(decode, ids, tagged, desks[|tagged|].log);
    }
    var runs := BusyRunsOf(decode, ids, tagged);
    var desks := RunsCombine(decode, ids, tagged, runs);
    LogIsOfJobs(decode, ids, tagged, desks);
    TotalsCompare(decode, ids, tagged, desks[|tagged|].log);
    assert IsDeskRun(decode, ids, tagged, desks) && Restores(desks) == Total(decode, ids, tagged);
  }

  lemma {:induction false} BusyRunsOf(decode: Decoder, ids: seq<string>, tagged: seq<Tagged>) returns (runs: map<string, seq<RestoreView>>)
    ensures RunsOf(decode, ids, tagged, runs)
    ensures forall id :: id in ids ==> id in runs && Dispatches(runs[id]) == Most(decode, CallsOf(tagged, id)) && runs[id] != []
    decreases |ids|
  {
    hide IsRun, Most, CallsOf;
    if ids == [] {
      runs := map[];
    } else {
      runs := BusyRunsOf(decode, ids[1..], tagged);
      var busy, poised := BusyRuns(decode, CallsOf(tagged, ids[0]));
      RunLength(decode, CallsOf(tagged, ids[0]), busy);
      forall i | 0 < i < |ids|
        ensures ids[i] in runs && IsRun(decode, CallsOf(tagged, ids[i]), runs[ids[i]])
        ensures |runs[ids[i]]| == |CallsOf(tagged, ids[i])| + 1
      {
        assert ids[1..][i - 1] == ids[i];
      }
      runs := runs[ids[0] := busy];
    }
  }
}
