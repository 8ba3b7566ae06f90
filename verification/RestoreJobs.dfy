/** Staged restore jobs: an upload is validated and held until it is confirmed, and a confirmation
    runs the restore. What any sequence of such calls can dispatch is counted exactly. */
module RestoreJobs {
  import opened Prelude
  import opened HexDump
  import opened Restore

  // ---------------------------------------------------------------- staged jobs

  datatype JobStatus = Queued | Running | Succeeded | Failed

  /** What a job's result dict holds: nothing, a staged upload, or the outcome that took its
      place. */
  datatype JobResult = Nothing | Staged(name: string, base64: string, size: nat) | Finished(name: string, ok: bool)

  datatype Job = Job(status: JobStatus, pending: bool, result: JobResult)

  /** Decoding of base64; the empty text decodes to no bytes. */
  type Decoder = d: string -> Option<seq<Byte>> | d("") == Some([]) witness (s: string) => Some([])

  predicate IsGzip(data: seq<Byte>) {
    [0x1F, 0x8B] <= data
  }

  function StageRestore(decode: Decoder, base64: string): Result<seq<Byte>, RestoreError> {
    match decode(base64)
    case None => Err(NotBase64)
    case Some(data) => if IsGzip(data) then Ok(data) else Err(NotGzip)
  }

  /** The bytes a confirmation would restore; without a staged upload there are none. */
  function Payload(decode: Decoder, job: Job): Option<seq<Byte>> {
    decode(if job.result.Staged? then job.result.base64 else "")
  }

  /** A staged upload of one chunk. */
  predicate SmallPayload(decode: Decoder, job: Job) {
    Payload(decode, job).Some? && 0 < |Payload(decode, job).value| <= BYTES_PER_CHUNK
  }

  /** The name a staged upload goes by. */
  function StagedName(job: Job): string {
    if job.result.Staged? && job.result.name != "" then job.result.name else "restore.tar.gz"
  }

  /** What a confirmation comes to, by the router's replies from `first` on: opening, the verdict of
      everything in between, and closing. */
  ghost function ConfirmVerdict(router: Router, payload: Option<seq<Byte>>, first: nat, closed: bool): Result<bool, RestoreError>
    reads router
  {
    if payload.None? then Err(NotBase64)
    else if !router.replies(first).ok then Err(NoTransport)
    else if !closed then Err(NotClosed)
    else router.Verdict(first + 1, Chunks(payload.value), router.file.Some? && |router.file.value| == |payload.value|)
  }

  /** A job that succeeds takes the restore's answer for its result; any error only marks it as
      failed. */
  predicate ConfirmedAs(job: Job, job': Job, verdict: Result<bool, RestoreError>) {
    match verdict
    case Err(_) => job' == Job(Failed, job.pending, job.result)
    case Ok(ok) =>
      && job'.status == Succeeded && job'.pending == job.pending
      && job'.result.Finished? && job'.result.ok == ok
      && match job.result
         case Staged(name, _, _) => job'.result.name == if name == "" then "restore.tar.gz" else name
         case _ => job'.result.name == "restore.tar.gz"
  }

  /** An upload is accepted exactly when it is base64 of a text that begins with the two bytes of a
      gzip file. */
  lemma StagingAcceptsExactlyGzip(decode: Decoder, base64: string)
    ensures StageRestore(decode, base64) ==
      match decode(base64)
      case None => Err(NotBase64)
      case Some(data) => if |data| >= 2 && data[0] == 31 && data[1] == 139 then Ok(data) else Err(NotGzip)
  {}

  predicate SentAs(payload: Option<seq<Byte>>, sends: nat, before: seq<Option<seq<Byte>>>, after: seq<Option<seq<Byte>>>) {
    after == before + Copies(payload, sends)
  }

  /** The guarded part of a confirmation: decode what is staged and restore it. */
  method RunRestore(router: Router, payload: Option<seq<Byte>>)
    returns (result: Result<bool, RestoreError>, ghost closed: bool, ghost made: nat, ghost sends: nat)
    modifies router
    ensures sends <= made <= ATTEMPTS && SentAs(payload, sends, old(router.dispatched), router.dispatched)
    ensures made > 0 || result.Ok? ==> payload.Some? && payload != Some([])
    ensures result == ConfirmVerdict(router, payload, old(router.asked), closed)
    ensures result.Err? && closed ==> made == 0
    ensures result.Ok? ==> closed
    ensures router.dispatched != old(router.dispatched) ==>
      payload.Some? && router.Succeed(old(router.asked), old(router.asked) + 5 + Chunks(payload.value))
    ensures router.Cooperative() && payload !in {None, Some([])} ==> result == Ok(true) && made == 1
    ensures router.Cooperative() ==> closed && made <= 1
    ensures router.Answering() && payload.Some? && 0 < |payload.value| <= BYTES_PER_CHUNK ==>
      result == Ok(true) && router.Made(made, sends)
  {
    hide Chunks, SendsOf, AttemptsOf;
    if payload.None? {
      NoCopies(payload, router.dispatched);
      return Err(NotBase64), true, 0, 0;
    }
    result, closed, made, sends := ExecuteRestore(router, payload.value);
    NoCopies(payload, old(router.dispatched));
  }

  lemma NoCopies(payload: Option<seq<Byte>>, before: seq<Option<seq<Byte>>>)
    ensures SentAs(payload, 0, before, before)
  {}

  class ManagementJobs {
    const decode: Decoder
    const router: Router
    var jobs: map<string, Job>

    constructor (decode: Decoder, router: Router)
      ensures this.decode == decode && this.router == router && jobs == map[]
    {
      this.decode, this.router, jobs := decode, router, map[];
    }

    method CreateJob(id: string)
      modifies this`jobs
      ensures jobs == old(jobs)[id := Job(Queued, false, Nothing)]
    {
      jobs := jobs[id := Job(Queued, false, Nothing)];
    }

    method Transition(id: string, status: JobStatus, result: Option<JobResult>) returns (r: Result<Job, RestoreError>)
      modifies this`jobs
      ensures id !in old(jobs) ==> r == Err(UnknownJob) && jobs == old(jobs)
      ensures id in old(jobs) ==>
        var job := old(jobs)[id];
        var job' := Job(status, job.pending, if result.Some? then result.value else job.result);
        r == Ok(job') && jobs == old(jobs)[id := job']
    {
      if id !in jobs {
        return Err(UnknownJob);
      }
      var job := jobs[id].(status := status);
      if result.Some? {
        job := job.(result := result.value);
      }
      jobs := jobs[id := job];
      return Ok(job);
    }

    method StageRestoreJob(id: string, name: string, base64: string) returns (r: Result<Job, RestoreError>)
      modifies this`jobs
      ensures StageStep(decode, name, base64, old(View(id)), View(id))
      ensures forall other :: other != id ==> (other in jobs <==> other in old(jobs))
      ensures forall other :: other != id && other in jobs ==> jobs[other] == old(jobs)[other]
      ensures r.Ok? <==> StageRestore(decode, base64).Ok? && id in old(jobs)
      ensures if r.Ok? then id in jobs && r.value == jobs[id]
              else r.error == if StageRestore(decode, base64).Err? then StageRestore(decode, base64).error else UnknownJob
    {
      var staged := StageRestore(decode, base64);
      if staged.Err? {
        return Err(staged.error);
      }
      r := Transition(id, Running, Some(Staged(name, base64, |staged.value|)));
      if r.Ok? {
        jobs := jobs[id := jobs[id].(pending := true)];
        r := Ok(jobs[id]);
      }
    }

    /** `closed` and `attempts` say how the connection fared: whether closing it succeeded, and how
        many attempts the transport made at the restore command. */
    method ConfirmRestoreJob(id: string) returns (r: Result<Job, RestoreError>, ghost closed: bool, ghost attempts: Attempts)
      modifies this`jobs, router
      ensures ConfirmStep(decode, closed, attempts, old(View(id)), View(id))
      ensures router.Cooperative() ==> closed && attempts == 1
      ensures forall other :: other != id ==> (other in jobs <==> other in old(jobs))
      ensures forall other :: other != id && other in jobs ==> jobs[other] == old(jobs)[other]
      ensures r.Err? <==> id !in old(jobs) || !old(jobs)[id].pending
      ensures r.Err? ==> r.error == if id !in old(jobs) then UnknownJob else NotAwaitingConfirmation
      ensures r.Ok? ==> id in jobs && r.value == jobs[id]
      ensures r.Ok? ==> ConfirmedAs(old(jobs)[id], jobs[id],
                                    ConfirmVerdict(router, Payload(decode, old(jobs)[id]), old(router.asked), closed))
      ensures r.Ok? && router.Cooperative() && Payload(decode, old(jobs)[id]) !in {None, Some([])} ==>
                jobs[id].status == Succeeded
      ensures router.dispatched != old(router.dispatched) ==>
        && id in old(jobs) && Payload(decode, old(jobs)[id]).Some?
        && router.Succeed(old(router.asked), old(router.asked) + 5 + Chunks(Payload(decode, old(jobs)[id]).value))
      ensures r.Ok? && router.Answering() && SmallPayload(decode, old(jobs)[id]) ==>
        && jobs[id].status == Succeeded
        && exists made, sends :: router.Made(made, sends) && SentAs(Payload(decode, old(jobs)[id]), sends, old(router.dispatched), router.dispatched)
    {
      closed, attempts := true, 1;
      if id !in jobs {
        return Err(UnknownJob), true, 1;
      }
      var job := jobs[id];
      if !job.pending {
        return Err(NotAwaitingConfirmation), true, 1;
      }
      ghost var before := View(id);
      var name := StagedName(job);
      var data := Payload(decode, job);
      r := Transition(id, Running, None);
      ghost var made, sends;
      var result;
      result, closed, made, sends := RunRestore(router, data);
      attempts := if made > 0 then made else 1;
      if result.Ok? {
        r := Transition(id, Succeeded, Some(Finished(name, result.value)));
        assert SentStep(decode, closed, sends, before, View(id));
      } else {
        r := Transition(id, Failed, None);
        if made > 0 {
          assert SentStep(decode, closed, sends, before, View(id));
        } else {
          assert View(id) == Spoilt(before);
        }
      }
    }

    function View(id: string): RestoreView
      reads this, router
    {
      RestoreView(if id in jobs then Some(jobs[id]) else None, router.dispatched)
    }
  }

  // ---------------------------------------------------------------- runs of stage and confirm

  /** What a run of calls on one job is about: the job, and every dispatch so far. */
  datatype RestoreView = RestoreView(job: Option<Job>, dispatched: seq<Option<seq<Byte>>>)

  type Attempts = n: nat | 1 <= n <= ATTEMPTS witness 1

  /** How a confirmation's connection fares is given from outside: `closed` is false when closing
      it fails, `attempts` is how many attempts the transport makes at the restore command
      if the call gets that far; one, unless an answer is lost. */
  datatype Call = StageCall(name: string, base64: string) | ConfirmCall(closed: bool, attempts: Attempts)

  predicate StageStep(decode: Decoder, name: string, base64: string, v: RestoreView, v': RestoreView) {
    && v'.dispatched == v.dispatched
    && v'.job == (match StageRestore(decode, base64)
                  case Ok(data) =>
                    if v.job.Some? then Some(Job(Running, true, Staged(name, base64, |data|))) else None
                  case Err(_) => v.job)
  }

  /** A failed confirmation. */
  function Spoilt(v: RestoreView): RestoreView
    requires v.job.Some?
  {
    v.(job := Some(v.job.value.(status := Failed)))
  }

  /** A confirmation that got as far as the restore command, which reached the router `sends`
      times. */
  predicate SentStep(decode: Decoder, closed: bool, sends: nat, v: RestoreView, v': RestoreView)
    requires v.job.Some?
  {
    var payload := Payload(decode, v.job.value);
    && payload.Some? && payload != Some([])
    && v'.dispatched == v.dispatched + Copies(payload, sends)
    && if closed
       then v'.job.Some? && v'.job.value.status == Succeeded && v'.job.value.pending && v'.job.value.result.Finished?
       else v'.job == Spoilt(v).job
  }

  predicate ConfirmStep(decode: Decoder, closed: bool, attempts: Attempts, v: RestoreView, v': RestoreView) {
    if v.job.None? || !v.job.value.pending then v' == v
    else v' == Spoilt(v) || exists sends: nat :: sends <= attempts && SentStep(decode, closed, sends, v, v')
  }

  predicate CallStep(decode: Decoder, call: Call, v: RestoreView, v': RestoreView) {
    match call
    case StageCall(name, base64) => StageStep(decode, name, base64, v, v')
    case ConfirmCall(closed, attempts) => ConfirmStep(decode, closed, attempts, v, v')
  }

  /** `views` are the states between the calls. */
  predicate IsRun(decode: Decoder, calls: seq<Call>, views: seq<RestoreView>) {
    && |views| == |calls| + 1
    && views[0] == RestoreView(Some(Job(Queued, false, Nothing)), [])
    && forall i :: 0 <= i < |calls| ==> CallStep(decode, calls[i], views[i], views[i + 1])
  }

  /** The uploads that passed validation, in order. */
  function Accepted(decode: Decoder, calls: seq<Call>): seq<Option<seq<Byte>>>
    decreases |calls|
  {
    if calls == [] then []
    else
      var before, last := Accepted(decode, calls[..|calls| - 1]), calls[|calls| - 1];
      if last.StageCall? && StageRestore(decode, last.base64).Ok?
      then before + [Some(StageRestore(decode, last.base64).value)]
      else before
  }

  lemma {:induction false} AcceptedAreGzip(decode: Decoder, calls: seq<Call>)
    ensures forall i :: 0 <= i < |Accepted(decode, calls)| ==>
              Accepted(decode, calls)[i].Some? && IsGzip(Accepted(decode, calls)[i].value)
    decreases |calls|
  {
    if calls != [] {
      AcceptedAreGzip(decode, calls[..|calls| - 1]);
    }
  }

  // ---------------------------------------------------------------- what is dispatched

  predicate Accepts(decode: Decoder, call: Call) {
    call.StageCall? && StageRestore(decode, call.base64).Ok?
  }

  /** A staged payload is always the last accepted upload; only accepted uploads are dispatched. */
  predicate OnlyUploads(decode: Decoder, accepted: seq<Option<seq<Byte>>>, v: RestoreView) {
    && v.job.Some?
    && (v.job.value.result.Staged? ==> accepted != [] && accepted[|accepted| - 1] == Payload(decode, v.job.value))
    && forall i :: 0 <= i < |v.dispatched| ==> v.dispatched[i] in accepted
  }

  /** Whatever fails, only uploads that passed validation are ever dispatched, all of them
      gzip-prefixed. */
  lemma {:induction false} OnlyAcceptedUploadsAreDispatched(decode: Decoder, calls: seq<Call>, views: seq<RestoreView>)
    requires IsRun(decode, calls, views)
    ensures OnlyUploads(decode, Accepted(decode, calls), views[|calls|])
    ensures forall upload :: upload in views[|calls|].dispatched ==> upload.Some? && IsGzip(upload.value)
    decreases |calls|
  {
    AcceptedAreGzip(decode, calls);
    if calls != [] {
      var n := |calls| - 1;
      OnlyAcceptedUploadsAreDispatched(decode, calls[..n], views[..n + 1]);
      assert CallStep(decode, calls[n], views[n], views[n + 1]);
    }
  }

  /** Every entry as often as its count says, in order. */
  function Stretch<T>(items: seq<T>, counts: seq<nat>): seq<T>
    requires |items| == |counts|
  {
    if items == [] then []
    else
      var n := |items| - 1;
      Stretch(items[..n], counts[..n]) + Copies(items[n], counts[n])
  }

  lemma StretchSnoc<T>(items: seq<T>, counts: seq<nat>, item: T, count: nat)
    requires |items| == |counts|
    ensures Stretch(items + [item], counts + [count]) == Stretch(items, counts) + Copies(item, count)
  {
    assert (items + [item])[..|items|] == items && (counts + [count])[..|counts|] == counts;
  }

  lemma StretchMore<T>(items: seq<T>, counts: seq<nat>, more: nat)
    requires |items| == |counts| > 0
    ensures var n := |items| - 1;
      Stretch(items, counts[n := counts[n] + more]) == Stretch(items, counts) + Copies(items[n], more)
  {
    var n := |items| - 1;
    assert counts[n := counts[n] + more][..n] == counts[..n];
    assert Copies(items[n], counts[n] + more) == Copies(items[n], counts[n]) + Copies(items[n], more);
  }

  function Sum(s: seq<nat>): nat {
    if s == [] then 0 else Sum(s[..|s| - 1]) + s[|s| - 1]
  }

  lemma {:induction false} StretchLength<T>(items: seq<T>, counts: seq<nat>)
    requires |items| == |counts|
    ensures |Stretch(items, counts)| == Sum(counts)
    decreases |items|
  {
    if items != [] {
      StretchLength(items[..|items| - 1], counts[..|items| - 1]);
    }
  }

  lemma {:induction false} SumGrows(a: seq<nat>, b: seq<nat>)
    requires |a| == |b| && forall i :: 0 <= i < |a| ==> a[i] <= b[i]
    ensures Sum(a) <= Sum(b)
    decreases |a|
  {
    if a != [] {
      SumGrows(a[..|a| - 1], b[..|a| - 1]);
    }
  }

  /** What the confirmations of the last accepted upload whose closing failed can have sent: they
      leave the upload staged. */
  function Spent(decode: Decoder, calls: seq<Call>): nat
    decreases |calls|
  {
    if calls == [] then 0
    else
      var before, last := calls[..|calls| - 1], calls[|calls| - 1];
      if last.StageCall? then if Accepts(decode, last) then 0 else Spent(decode, before)
      else Spent(decode, before) + if last.closed || Accepted(decode, before) == [] then 0 else last.attempts
  }

  function Raise(tops: seq<nat>, used: nat): (raised: seq<nat>)
    requires tops != []
    ensures |raised| == |tops|
    ensures forall i :: 0 <= i < |tops| ==> tops[i] <= raised[i]
    ensures used <= raised[|raised| - 1]
  {
    var n := |tops| - 1;
    if used > tops[n] then tops[n := used] else tops
  }

  function NextTops(decode: Decoder, tops: seq<nat>, spent: nat, call: Call): seq<nat> {
    if Accepts(decode, call) then tops + [0]
    else if call.StageCall? || tops == [] then tops
    else Raise(tops, spent + call.attempts)
  }

  /** For every accepted upload how often it can be dispatched: as often as one of its confirmations
      makes attempts, on top of what earlier ones that left it staged can have sent. */
  function Tops(decode: Decoder, calls: seq<Call>): (tops: seq<nat>)
    ensures |tops| == |Accepted(decode, calls)|
    decreases |calls|
  {
    if calls == [] then []
    else
      var before := calls[..|calls| - 1];
      NextTops(decode, Tops(decode, before), Spent(decode, before), calls[|calls| - 1])
  }

  /** What was dispatched, upload by upload. A staged payload is the last accepted upload, and has
      been dispatched at most by confirmations that left it staged. */
  predicate Ledger(decode: Decoder, accepted: seq<Option<seq<Byte>>>, counts: seq<nat>, tops: seq<nat>, spent: nat, v: RestoreView) {
    && |counts| == |accepted| == |tops|
    && v.job.Some?
    && v.dispatched == Stretch(accepted, counts)
    && (forall i :: 0 <= i < |counts| ==> counts[i] <= tops[i])
    && (v.job.value.result.Staged? ==>
          && accepted != []
          && accepted[|accepted| - 1] == Payload(decode, v.job.value)
          && counts[|counts| - 1] <= spent)
  }

  lemma StageKeepsLedger(decode: Decoder, call: Call, accepted: seq<Option<seq<Byte>>>, counts: seq<nat>, tops: seq<nat>, spent: nat,
                         v: RestoreView, v': RestoreView)
    requires call.StageCall? && CallStep(decode, call, v, v') && Ledger(decode, accepted, counts, tops, spent, v)
    ensures if Accepts(decode, call)
      then Ledger(decode, accepted + [Some(StageRestore(decode, call.base64).value)], counts + [0], tops + [0], 0, v')
      else Ledger(decode, accepted, counts, tops, spent, v')
  {
    if Accepts(decode, call) {
      StretchSnoc(accepted, counts, Some(StageRestore(decode, call.base64).value), 0);
    }
  }

  lemma ConfirmKeepsLedger(decode: Decoder, call: Call, accepted: seq<Option<seq<Byte>>>, counts: seq<nat>, tops: seq<nat>, spent: nat,
                           v: RestoreView, v': RestoreView) returns (next: seq<nat>)
    requires call.ConfirmCall? && CallStep(decode, call, v, v') && Ledger(decode, accepted, counts, tops, spent, v)
    ensures Ledger(decode, accepted, next, if accepted == [] then tops else Raise(tops, spent + call.attempts),
                   spent + if call.closed || accepted == [] then 0 else call.attempts, v')
  {
    hide Stretch;
    if v' == v || v' == Spoilt(v) {
      next := counts;
    } else {
      var sends: nat :| sends <= call.attempts && SentStep(decode, call.closed, sends, v, v');
      assert v.job.value.result.Staged?;
      var n := |counts| - 1;
      StretchMore(accepted, counts, sends);
      next := counts[n := counts[n] + sends];
    }
  }

  lemma RunUnfold(decode: Decoder, calls: seq<Call>, views: seq<RestoreView>)
    requires calls != [] && IsRun(decode, calls, views)
    ensures var n := |calls| - 1;
      && |views| == n + 2
      && IsRun(decode, calls[..n], views[..n + 1])
      && CallStep(decode, calls[n], views[n], views[n + 1])
  {
    hide CallStep;
  }

  lemma AcceptedUnfold(decode: Decoder, before: seq<Call>, call: Call)
    ensures var accepted := Accepted(decode, before);
      Accepted(decode, before + [call]) ==
        if Accepts(decode, call) then accepted + [Some(StageRestore(decode, call.base64).value)] else accepted
  {
    hide StageRestore;
    assert (before + [call])[..|before|] == before;
  }

  lemma SpentUnfold(decode: Decoder, before: seq<Call>, call: Call)
    ensures Spent(decode, before + [call]) ==
            if Accepts(decode, call) then 0
            else Spent(decode, before) + if call.StageCall? || call.closed || Accepted(decode, before) == [] then 0 else call.attempts
  {
    hide StageRestore, Accepted;
    assert (before + [call])[..|before|] == before;
  }

  lemma TopsUnfold(decode: Decoder, before: seq<Call>, call: Call)
    ensures Tops(decode, before + [call]) == NextTops(decode, Tops(decode, before), Spent(decode, before), call)
  {
    hide Accepted, Spent, NextTops;
    assert (before + [call])[..|before|] == before;
  }

  lemma AcceptedCallsStage(decode: Decoder, call: Call)
    ensures Accepts(decode, call) ==> call.StageCall?
  {
    hide StageRestore;
  }

  /** The ledger of the calls made so far. */
  predicate Booked(decode: Decoder, calls: seq<Call>, counts: seq<nat>, v: RestoreView) {
    Ledger(decode, Accepted(decode, calls), counts, Tops(decode, calls), Spent(decode, calls), v)
  }

  lemma StageIsBooked(decode: Decoder, before: seq<Call>, call: Call, counts: seq<nat>, v: RestoreView, v': RestoreView)
    returns (next: seq<nat>)
    requires call.StageCall? && Booked(decode, before, counts, v) && CallStep(decode, call, v, v')
    ensures Booked(decode, before + [call], next, v')
  {
    hide CallStep, Ledger, StageRestore, Accepts, Accepted, Spent, Tops;
    AcceptedUnfold(decode, before, call);
    SpentUnfold(decode, before, call);
    TopsUnfold(decode, before, call);
    StageKeepsLedger(decode, call, Accepted(decode, before), counts, Tops(decode, before), Spent(decode, before), v, v');
    next := if Accepts(decode, call) then counts + [0] else counts;
  }

  lemma ConfirmIsBooked(decode: Decoder, before: seq<Call>, call: Call, counts: seq<nat>, v: RestoreView, v': RestoreView)
    returns (next: seq<nat>)
    requires call.ConfirmCall? && Booked(decode, before, counts, v) && CallStep(decode, call, v, v')
    ensures Booked(decode, before + [call], next, v')
  {
    hide CallStep, Ledger, StageRestore, Accepts, Accepted, Spent, Tops, Raise;
    AcceptedUnfold(decode, before, call);
    SpentUnfold(decode, before, call);
    TopsUnfold(decode, before, call);
    AcceptedCallsStage(decode, call);
    next := ConfirmKeepsLedger(decode, call, Accepted(decode, before), counts, Tops(decode, before), Spent(decode, before), v, v');
  }

  /** In every run of stage and confirm calls on one job, whatever fails: what is dispatched is every
      accepted upload in order and unaltered, all its dispatches in one go, and none more often
      than its confirmations allow. */
  lemma {:induction false} EachUploadIsRestoredInOneGo(decode: Decoder, calls: seq<Call>, views: seq<RestoreView>)
    returns (counts: seq<nat>)
    requires IsRun(decode, calls, views)
    ensures |counts| == |Accepted(decode, calls)|
    ensures views[|calls|].dispatched == Stretch(Accepted(decode, calls), counts)
    ensures forall i :: 0 <= i < |counts| ==> counts[i] <= Tops(decode, calls)[i]
    ensures Booked(decode, calls, counts, views[|calls|])
    decreases |calls|
  {
    if calls == [] {
      counts := [];
      assert Ledger(decode, [], [], [], 0, views[0]);
    } else {
      hide CallStep, IsRun, Booked, Stretch, Tops, Accepted;
      var n := |calls| - 1;
      var before, call := calls[..n], calls[n];
      RunUnfold(decode, calls, views);
      counts := EachUploadIsRestoredInOneGo(decode, before, views[..n + 1]);
      assert before + [call] == calls;
      if call.StageCall? {
        counts := StageIsBooked(decode, before, call, counts, views[n], views[n + 1]);
      } else {
        counts := ConfirmIsBooked(decode, before, call, counts, views[n], views[n + 1]);
      }
      BookedSays(decode, calls, counts, views[n + 1]);
    }
  }

  lemma BookedSays(decode: Decoder, calls: seq<Call>, counts: seq<nat>, v: RestoreView)
    requires Booked(decode, calls, counts, v)
    ensures |counts| == |Accepted(decode, calls)| && v.dispatched == Stretch(Accepted(decode, calls), counts)
    ensures forall i :: 0 <= i < |counts| ==> counts[i] <= Tops(decode, calls)[i]
  {}

  // ---------------------------------------------------------------- how often per job

  function Start(): RestoreView {
    RestoreView(Some(Job(Queued, false, Nothing)), [])
  }

  lemma ExtendRun(decode: Decoder, calls: seq<Call>, views: seq<RestoreView>, call: Call, v: RestoreView)
    requires IsRun(decode, calls, views) && CallStep(decode, call, views[|calls|], v)
    ensures IsRun(decode, calls + [call], views + [v])
  {
    hide CallStep;
    var all, seen := calls + [call], views + [v];
    forall i | 0 <= i < |all|
      ensures CallStep(decode, all[i], seen[i], seen[i + 1])
    {
      assert i < |calls| ==> CallStep(decode, calls[i], views[i], views[i + 1]);
    }
  }

  /** The staged payload can be confirmed. */
  predicate Ready(decode: Decoder, v: RestoreView) {
    && v.job.Some? && v.job.value.pending && v.job.value.result.Staged?
    && Payload(decode, v.job.value).Some? && IsGzip(Payload(decode, v.job.value).value)
  }

  /** What a call leaves behind when every confirmation in it fails before the restore command. */
  function Idle(decode: Decoder, call: Call, v: RestoreView): RestoreView
    requires v.job.Some?
  {
    match call
    case ConfirmCall(_, _) => if v.job.value.pending then Spoilt(v) else v
    case StageCall(name, base64) =>
      match StageRestore(decode, base64)
      case Ok(data) => v.(job := Some(Job(Running, true, Staged(name, base64, |data|))))
      case Err(_) => v
  }

  lemma IdleIsAStep(decode: Decoder, call: Call, v: RestoreView)
    requires v.job.Some?
    ensures CallStep(decode, call, v, Idle(decode, call, v))
    ensures Idle(decode, call, v).dispatched == v.dispatched && Idle(decode, call, v).job.Some?
    ensures Ready(decode, v) || Accepts(decode, call) ==> Ready(decode, Idle(decode, call, v))
  {}

  /** What a confirmation leaves behind when the restore command reaches the router. */
  function Dispatched(decode: Decoder, closed: bool, sends: nat, v: RestoreView): RestoreView
    requires Ready(decode, v)
  {
    var job := v.job.value;
    RestoreView(
      Some(if closed then job.(status := Succeeded, result := Finished(job.result.name, true)) else job.(status := Failed)),
      v.dispatched + Copies(Payload(decode, job), sends))
  }

  lemma SentIsAStep(decode: Decoder, call: Call, sends: nat, v: RestoreView)
    requires call.ConfirmCall? && Ready(decode, v) && sends <= call.attempts
    ensures CallStep(decode, call, v, Dispatched(decode, call.closed, sends, v))
    ensures |Dispatched(decode, call.closed, sends, v).dispatched| == |v.dispatched| + sends
    ensures Dispatched(decode, call.closed, sends, v).job.Some?
    ensures !call.closed ==> Ready(decode, Dispatched(decode, call.closed, sends, v))
  {
    assert SentStep(decode, call.closed, sends, v, Dispatched(decode, call.closed, sends, v));
  }

  /** What the last accepted upload can be dispatched in all. */
  function Top(decode: Decoder, calls: seq<Call>): nat {
    if Tops(decode, calls) == [] then 0 else Tops(decode, calls)[|Tops(decode, calls)| - 1]
  }

  function Most(decode: Decoder, calls: seq<Call>): nat {
    Sum(Tops(decode, calls))
  }

  lemma SumSnoc(s: seq<nat>, x: nat)
    ensures Sum(s + [x]) == Sum(s) + x
  {
    assert (s + [x])[..|s|] == s;
  }

  lemma TopIsATerm(tops: seq<nat>)
    ensures Sum(tops) >= if tops == [] then 0 else tops[|tops| - 1]
  {}

  lemma SumRaise(tops: seq<nat>, used: nat)
    requires tops != []
    ensures var n := |tops| - 1;
      && Raise(tops, used)[n] == (if used > tops[n] then used else tops[n])
      && Sum(Raise(tops, used)) == Sum(tops) - tops[n] + Raise(tops, used)[n]
  {
    var n := |tops| - 1;
    assert Raise(tops, used)[..n] == tops[..n];
  }

  /** How one call changes the greatest number of dispatches. */
  lemma MostUnfold(decode: Decoder, before: seq<Call>, call: Call)
    ensures var calls := before + [call];
      && Most(decode, before) >= Top(decode, before)
      && Most(decode, calls) >= Top(decode, calls)
      && (call.StageCall? ==>
            && Most(decode, calls) == Most(decode, before)
            && Top(decode, calls) == if Accepts(decode, call) then 0 else Top(decode, before))
      && (call.ConfirmCall? ==>
            var used := Spent(decode, before) + call.attempts;
            && Top(decode, calls) == (if Accepted(decode, before) != [] && used > Top(decode, before) then used else Top(decode, before))
            && Most(decode, calls) == Most(decode, before) - Top(decode, before) + Top(decode, calls))
  {
    hide Accepts, Tops, Spent, Accepted, Sum, Raise;
    var tops, used := Tops(decode, before), Spent(decode, before) + if call.ConfirmCall? then call.attempts else 0;
    TopsUnfold(decode, before, call);
    AcceptedCallsStage(decode, call);
    TopIsATerm(tops);
    TopIsATerm(Tops(decode, before + [call]));
    if call.StageCall? {
      SumSnoc(tops, 0);
    } else if tops != [] {
      SumRaise(tops, used);
    }
  }

  /** Two runs: `busy` dispatches each upload as often as it can be, `poised` has dispatched the last
      one only in confirmations that left it staged, and is ready for another. */
  lemma {:induction false} BusyRuns(decode: Decoder, calls: seq<Call>) returns (busy: seq<RestoreView>, poised: seq<RestoreView>)
    ensures IsRun(decode, calls, busy) && IsRun(decode, calls, poised)
    ensures busy[|calls|].job.Some? && poised[|calls|].job.Some?
    ensures |busy[|calls|].dispatched| == Most(decode, calls)
    ensures Most(decode, calls) >= Top(decode, calls)
    ensures |poised[|calls|].dispatched| == Most(decode, calls) - Top(decode, calls) + Spent(decode, calls)
    ensures Accepted(decode, calls) != [] ==> Ready(decode, poised[|calls|])
    decreases |calls|
  {
    hide Idle, Dispatched, CallStep, Ready, StageRestore, Most, Top, Tops;
    if calls == [] {
      busy, poised := [Start()], [Start()];
      NothingCalled(decode);
    } else {
      var n, call := |calls| - 1, calls[|calls| - 1];
      assert calls[..n] + [call] == calls;
      MostUnfold(decode, calls[..n], call);
      var busyBefore, poisedBefore := BusyRuns(decode, calls[..n]);
      var idleBusy, idlePoised := Idle(decode, call, busyBefore[n]), Idle(decode, call, poisedBefore[n]);
      IdleIsAStep(decode, call, busyBefore[n]);
      IdleIsAStep(decode, call, poisedBefore[n]);
      ExtendRun(decode, calls[..n], busyBefore, call, idleBusy);
      ExtendRun(decode, calls[..n], poisedBefore, call, idlePoised);
      busy, poised := busyBefore + [idleBusy], poisedBefore + [idlePoised];
      if Accepts(decode, call) {
        poised := busy;
      } else if call.ConfirmCall? && Accepted(decode, calls[..n]) != [] {
        var sent := Dispatched(decode, call.closed, call.attempts, poisedBefore[n]);
        SentIsAStep(decode, call, call.attempts, poisedBefore[n]);
        ExtendRun(decode, calls[..n], poisedBefore, call, sent);
        if Top(decode, calls) > Top(decode, calls[..n]) {
          busy := poisedBefore + [sent];
        }
        if !call.closed {
          poised := poisedBefore + [sent];
        }
      }
    }
  }

  lemma NothingCalled(decode: Decoder)
    ensures Most(decode, []) == 0 && Top(decode, []) == 0
  {}

  function Dispatches(views: seq<RestoreView>): nat {
    if views == [] then 0 else |views[|views| - 1].dispatched|
  }

  /** Over all runs of any given calls the greatest number of dispatches is the sum, over the
      accepted uploads, of what their confirmations allow. */
  lemma MostIsTheMaximum(decode: Decoder, calls: seq<Call>)
    ensures forall views: seq<RestoreView> :: IsRun(decode, calls, views) ==> Dispatches(views) <= Most(decode, calls)
    ensures exists views: seq<RestoreView> :: IsRun(decode, calls, views) && Dispatches(views) == Most(decode, calls)
  {
    forall views: seq<RestoreView> | IsRun(decode, calls, views)
      ensures Dispatches(views) <= Most(decode, calls)
    {
      RunStaysWithinMost(decode, calls, views);
    }
    var busy, poised := BusyRuns(decode, calls);
    assert IsRun(decode, calls, busy) && Dispatches(busy) == Most(decode, calls);
  }

  lemma RunStaysWithinMost(decode: Decoder, calls: seq<Call>, views: seq<RestoreView>)
    requires IsRun(decode, calls, views)
    ensures |views[|calls|].dispatched| <= Most(decode, calls)
  {
    hide Stretch, Sum, Tops, Accepted, Booked, CallStep;
    var counts := EachUploadIsRestoredInOneGo(decode, calls, views);
    StretchLength(Accepted(decode, calls), counts);
    SumGrows(counts, Tops(decode, calls));
  }

  // ---------------------------------------------------------------- when at most once

  /** The last upload was confirmed in a call whose connection could not be closed. */
  predicate Dirty(decode: Decoder, calls: seq<Call>)
    decreases |calls|
  {
    if calls == [] then false
    else
      var before, last := calls[..|calls| - 1], calls[|calls| - 1];
      if last.StageCall? then !Accepts(decode, last) && Dirty(decode, before)
      else Dirty(decode, before) || (!last.closed && Accepted(decode, before) != [])
  }

  /** No confirmation follows one whose closing failed, unless another upload comes between. */
  predicate NoRepeat(decode: Decoder, calls: seq<Call>)
    decreases |calls|
  {
    if calls == [] then true
    else
      var before, last := calls[..|calls| - 1], calls[|calls| - 1];
      NoRepeat(decode, before) && (last.ConfirmCall? ==> !Dirty(decode, before))
  }

  /** The last accepted upload was not confirmed yet. */
  predicate Open(decode: Decoder, calls: seq<Call>)
    decreases |calls|
  {
    if calls == [] then false
    else
      var last := calls[|calls| - 1];
      last.StageCall? && (Accepts(decode, last) || Open(decode, calls[..|calls| - 1]))
  }

  /** How many accepted uploads are confirmed before the next is accepted. */
  function Rounds(decode: Decoder, calls: seq<Call>): nat
    decreases |calls|
  {
    if calls == [] then 0
    else
      var before := calls[..|calls| - 1];
      Rounds(decode, before) + if calls[|calls| - 1].ConfirmCall? && Open(decode, before) then 1 else 0
  }

  /** An accepted upload and a later confirmation. */
  predicate OneRound(decode: Decoder, calls: seq<Call>, i: int, j: int) {
    0 <= i < j < |calls| && Accepts(decode, calls[i]) && calls[j].ConfirmCall?
  }

  /** An accepted upload, a confirmation, another accepted upload, another confirmation. */
  predicate TwoRounds(decode: Decoder, calls: seq<Call>, i: int, j: int, k: int, l: int) {
    OneRound(decode, calls, i, j) && j < k && OneRound(decode, calls, k, l)
  }

  predicate LastUpload(decode: Decoder, calls: seq<Call>, k: int) {
    0 <= k < |calls| && Accepts(decode, calls[k]) && forall j :: k < j < |calls| ==> calls[j].StageCall?
  }

  lemma {:induction false} OpenIffUnconfirmed(decode: Decoder, calls: seq<Call>)
    ensures Open(decode, calls) <==> exists k :: LastUpload(decode, calls, k)
    decreases |calls|
  {
    if calls != [] {
      var n := |calls| - 1;
      OpenIffUnconfirmed(decode, calls[..n]);
      if k :| LastUpload(decode, calls, k) {
        assert k == n || LastUpload(decode, calls[..n], k);
      }
      if Open(decode, calls) {
        if Accepts(decode, calls[n]) {
          assert LastUpload(decode, calls, n);
        } else {
          var k :| LastUpload(decode, calls[..n], k);
          assert LastUpload(decode, calls, k);
        }
      }
    }
  }

  lemma {:induction false} RoundIffConfirmed(decode: Decoder, calls: seq<Call>)
    ensures Rounds(decode, calls) >= 1 <==> exists i, j :: OneRound(decode, calls, i, j)
    decreases |calls|
  {
    if calls != [] {
      var n := |calls| - 1;
      RoundIffConfirmed(decode, calls[..n]);
      OpenIffUnconfirmed(decode, calls[..n]);
      if i, j :| OneRound(decode, calls[..n], i, j) {
        assert OneRound(decode, calls, i, j);
      }
      if k :| LastUpload(decode, calls[..n], k) && calls[n].ConfirmCall? {
        assert OneRound(decode, calls, k, n);
      }
      if i, j :| OneRound(decode, calls, i, j) {
        if j < n {
          assert OneRound(decode, calls[..n], i, j);
        } else {
          RoundOrOpen(decode, calls[..n], i);
        }
      }
    }
  }

  /** After an accepted upload some later confirmation closes its round, or it is open. */
  lemma {:induction false} RoundOrOpen(decode: Decoder, calls: seq<Call>, i: nat)
    requires i < |calls| && Accepts(decode, calls[i])
    ensures Open(decode, calls) || exists j :: OneRound(decode, calls, i, j)
    decreases |calls|
  {
    var n := |calls| - 1;
    if calls[n].ConfirmCall? {
      assert OneRound(decode, calls, i, n);
    } else if i < n {
      RoundOrOpen(decode, calls[..n], i);
      if j :| OneRound(decode, calls[..n], i, j) {
        assert OneRound(decode, calls, i, j);
      }
    }
  }

  lemma SecondRound(decode: Decoder, before: seq<Call>, last: Call, i: int, j: int, k: int, l: int)
    requires TwoRounds(decode, before + [last], i, j, k, l)
    ensures (exists m :: TwoRounds(decode, before, i, j, k, m)) || (last.ConfirmCall? && OneRound(decode, before, i, j) && Open(decode, before))
  {
    hide Accepts, Open;
    assert forall n :: 0 <= n < |before| ==> (before + [last])[n] == before[n];
    if l < |before| {
      assert TwoRounds(decode, before, i, j, k, l);
    } else {
      assert OneRound(decode, before, i, j);
      RoundOrOpen(decode, before, k);
      if m :| OneRound(decode, before, k, m) {
        assert TwoRounds(decode, before, i, j, k, m);
      }
    }
  }

  lemma {:induction false} TwoRoundsOrFewer(decode: Decoder, calls: seq<Call>)
    ensures Rounds(decode, calls) >= 2 <==> exists i, j, k, l :: TwoRounds(decode, calls, i, j, k, l)
    decreases |calls|
  {
    hide StageRestore, Open;
    if calls != [] {
      var n := |calls| - 1;
      var before := calls[..n];
      assert before + [calls[n]] == calls;
      TwoRoundsOrFewer(decode, before);
      RoundIffConfirmed(decode, before);
      OpenIffUnconfirmed(decode, before);
      if i, j, k, l :| TwoRounds(decode, before, i, j, k, l) {
        assert TwoRounds(decode, calls, i, j, k, l);
      }
      if i, j, k, l :| TwoRounds(decode, calls, i, j, k, l) {
        SecondRound(decode, before, calls[n], i, j, k, l);
      }
      if Rounds(decode, before) >= 1 && Open(decode, before) && calls[n].ConfirmCall? {
        var i, j :| OneRound(decode, before, i, j);
        var k :| LastUpload(decode, before, k);
        assert TwoRounds(decode, calls, i, j, k, n);
      }
    }
  }

  /** A confirmation of an accepted upload that needs more than one attempt. */
  predicate Resends(decode: Decoder, calls: seq<Call>, i: int, j: int) {
    OneRound(decode, calls, i, j) && calls[j].attempts > 1
  }

  lemma {:induction false} UploadedIffAccepted(decode: Decoder, calls: seq<Call>)
    ensures Accepted(decode, calls) != [] <==> exists i :: 0 <= i < |calls| && Accepts(decode, calls[i])
    decreases |calls|
  {
    if calls != [] {
      UploadedIffAccepted(decode, calls[..|calls| - 1]);
    }
  }

  lemma {:induction false} MostGrows(decode: Decoder, calls: seq<Call>, n: nat)
    requires n <= |calls|
    ensures Most(decode, calls[..n]) <= Most(decode, calls)
    decreases |calls|
  {
    if n == |calls| {
      assert calls[..n] == calls;
    } else {
      hide Most, Top, Accepts;
      var before, last := calls[..|calls| - 1], calls[|calls| - 1];
      MostGrows(decode, before, n);
      assert before[..n] == calls[..n] && before + [last] == calls;
      MostUnfold(decode, before, last);
    }
  }

  /** An upload counts at least as often as any of its confirmations makes attempts. */
  lemma RoundCounts(decode: Decoder, calls: seq<Call>, i: int, j: int)
    requires OneRound(decode, calls, i, j)
    ensures Most(decode, calls) >= calls[j].attempts
  {
    hide Most, Top;
    var before := calls[..j];
    assert before[i] == calls[i] && before + [calls[j]] == calls[..j + 1];
    UploadedIffAccepted(decode, before);
    MostUnfold(decode, before, calls[j]);
    MostGrows(decode, calls, j + 1);
  }

  lemma {:induction false} DirtyIsSpent(decode: Decoder, calls: seq<Call>)
    ensures Dirty(decode, calls) <==> Spent(decode, calls) > 0
    ensures Dirty(decode, calls) ==> Accepted(decode, calls) != []
    decreases |calls|
  {
    if calls != [] {
      hide StageRestore;
      DirtyIsSpent(decode, calls[..|calls| - 1]);
    }
  }

  lemma {:induction false} RepeatCounts(decode: Decoder, calls: seq<Call>)
    requires !NoRepeat(decode, calls)
    ensures Most(decode, calls) >= 2
    decreases |calls|
  {
    hide Most, Top;
    var n := |calls| - 1;
    assert calls[..n] + [calls[n]] == calls;
    if NoRepeat(decode, calls[..n]) {
      DirtyIsSpent(decode, calls[..n]);
      MostUnfold(decode, calls[..n], calls[n]);
    } else {
      RepeatCounts(decode, calls[..n]);
      MostGrows(decode, calls, n);
    }
  }

  /** How often one upload can be dispatched when nobody confirms again after a failed closing. */
  function Limit(calls: seq<Call>): nat {
    if forall i :: 0 <= i < |calls| && calls[i].ConfirmCall? ==> calls[i].attempts == 1 then 1 else ATTEMPTS
  }

  lemma LimitGrows(calls: seq<Call>)
    requires calls != []
    ensures 1 <= Limit(calls[..|calls| - 1]) <= Limit(calls)
    ensures calls[|calls| - 1].ConfirmCall? ==> calls[|calls| - 1].attempts <= Limit(calls)
  {}

  lemma {:induction false} TopsStayWithinLimit(decode: Decoder, calls: seq<Call>)
    requires NoRepeat(decode, calls)
    ensures forall i :: 0 <= i < |Tops(decode, calls)| ==> Tops(decode, calls)[i] <= Limit(calls)
    decreases |calls|
  {
    if calls != [] {
      hide StageRestore, Limit, Tops;
      var n := |calls| - 1;
      TopsStayWithinLimit(decode, calls[..n]);
      LimitGrows(calls);
      DirtyIsSpent(decode, calls[..n]);
      assert calls[..n] + [calls[n]] == calls;
      TopsUnfold(decode, calls[..n], calls[n]);
    } else {
      assert Tops(decode, calls) == [];
    }
  }

  /** When nobody confirms again after a failed closing each upload is dispatched at most three
      times, and at most once if every restore command is answered at the first attempt. */
  lemma WithoutRepeatsAtMostThrice(decode: Decoder, calls: seq<Call>)
    requires NoRepeat(decode, calls)
    ensures forall i :: 0 <= i < |Tops(decode, calls)| ==> Tops(decode, calls)[i] <= 3
    ensures (forall i :: 0 <= i < |calls| && calls[i].ConfirmCall? ==> calls[i].attempts == 1) ==>
              forall i :: 0 <= i < |Tops(decode, calls)| ==> Tops(decode, calls)[i] <= 1
  {
    hide Tops;
    TopsStayWithinLimit(decode, calls);
  }

  /** Without any of this every confirmed upload counts once. */
  lemma {:induction false} RoundsCountOnce(decode: Decoder, calls: seq<Call>)
    requires NoRepeat(decode, calls) && !exists i, j :: Resends(decode, calls, i, j)
    ensures Most(decode, calls) == Rounds(decode, calls)
    ensures Top(decode, calls) == if Accepted(decode, calls) == [] || Open(decode, calls) then 0 else 1
    ensures Open(decode, calls) ==> Accepted(decode, calls) != []
    decreases |calls|
  {
    if calls == [] {
      NothingCalled(decode);
    } else {
      hide StageRestore, Most, Top;
      var n := |calls| - 1;
      assert calls[..n] + [calls[n]] == calls;
      forall i, j
        ensures !Resends(decode, calls[..n], i, j)
      {
        assert Resends(decode, calls[..n], i, j) ==> Resends(decode, calls, i, j);
      }
      RoundsCountOnce(decode, calls[..n]);
      DirtyIsSpent(decode, calls[..n]);
      MostUnfold(decode, calls[..n], calls[n]);
      UploadedIffAccepted(decode, calls[..n]);
      if calls[n].ConfirmCall? && Accepted(decode, calls[..n]) != [] {
        var i :| 0 <= i < n && Accepts(decode, calls[..n][i]);
        assert OneRound(decode, calls, i, n);
        assert !Resends(decode, calls, i, n);
      }
    }
  }

  /** A job may be confirmed and staged again, and an answer may be lost, so at most once per job
      does not hold in general. Exactly when it does: no confirmation follows one whose closing
      failed without another upload in between, no two accepted uploads are each followed by a
      confirmation before the next, and every confirmation of an accepted upload that gets as far
      as the restore command is answered at the first attempt. */
  lemma AtMostOncePerJobIff(decode: Decoder, calls: seq<Call>)
    ensures (forall views: seq<RestoreView> :: IsRun(decode, calls, views) ==> Dispatches(views) <= 1)
      <==>
      && NoRepeat(decode, calls)
      && (!exists i, j, k, l :: TwoRounds(decode, calls, i, j, k, l))
      && (!exists i, j :: Resends(decode, calls, i, j))
  {
    hide IsRun, TwoRounds, Most;
    MostIsTheMaximum(decode, calls);
    TwoRoundsOrFewer(decode, calls);
    if !NoRepeat(decode, calls) {
      RepeatCounts(decode, calls);
    } else if i, j :| Resends(decode, calls, i, j) {
      RoundCounts(decode, calls, i, j);
    } else {
      RoundsCountOnce(decode, calls);
    }
  }

  lemma {:induction false} CleanClosingNeverRepeats(decode: Decoder, calls: seq<Call>)
    requires forall i :: 0 <= i < |calls| && calls[i].ConfirmCall? ==> calls[i].closed
    ensures !Dirty(decode, calls) && NoRepeat(decode, calls)
    decreases |calls|
  {
    if calls != [] {
      CleanClosingNeverRepeats(decode, calls[..|calls| - 1]);
    }
  }

  lemma {:induction false} NoRepeatBefore(decode: Decoder, calls: seq<Call>, n: nat)
    requires n <= |calls|
    ensures NoRepeat(decode, calls) ==> NoRepeat(decode, calls[..n])
    decreases |calls|
  {
    if n == |calls| {
      assert calls[..n] == calls;
    } else {
      NoRepeatBefore(decode, calls[..|calls| - 1], n);
      assert calls[..|calls| - 1][..n] == calls[..n];
    }
  }

  lemma {:induction false} StillUploaded(decode: Decoder, calls: seq<Call>)
    requires calls != [] && Accepts(decode, calls[0])
    ensures Accepted(decode, calls) != []
    decreases |calls|
  {
    if |calls| > 1 {
      StillUploaded(decode, calls[..|calls| - 1]);
    }
  }

  lemma ConfirmedAgain(decode: Decoder, calls: seq<Call>)
    requires |calls| >= 3 && Accepts(decode, calls[0])
    requires calls[|calls| - 1].ConfirmCall? && calls[|calls| - 2].ConfirmCall? && !calls[|calls| - 2].closed
    ensures !NoRepeat(decode, calls)
  {
    var before := calls[..|calls| - 1];
    StillUploaded(decode, before[..|before| - 1]);
    assert Dirty(decode, before);
  }

  /** One accepted upload and then confirmations, as the route makes them. */
  predicate JobPerUpload(decode: Decoder, calls: seq<Call>) {
    calls != [] && Accepts(decode, calls[0]) && forall i :: 0 < i < |calls| ==> calls[i].ConfirmCall?
  }

  lemma JobRepeatsIff(decode: Decoder, calls: seq<Call>)
    requires JobPerUpload(decode, calls)
    ensures NoRepeat(decode, calls) <==> forall i :: 0 < i < |calls| - 1 ==> calls[i].closed
  {
    if i :| 0 < i < |calls| - 1 && !calls[i].closed {
      NoRepeatBefore(decode, calls, i + 2);
      ConfirmedAgain(decode, calls[..i + 2]);
    } else {
      CleanClosingNeverRepeats(decode, calls[..|calls| - 1]);
    }
  }

  lemma JobHasOneRound(decode: Decoder, calls: seq<Call>)
    requires JobPerUpload(decode, calls)
    ensures !exists i, j, k, l :: TwoRounds(decode, calls, i, j, k, l)
    ensures (exists i, j :: Resends(decode, calls, i, j)) <==> exists j :: 0 < j < |calls| && calls[j].attempts > 1
  {
    hide StageRestore;
    if j :| 0 < j < |calls| && calls[j].attempts > 1 {
      assert Resends(decode, calls, 0, j);
    }
  }

  /** The route creates a job for every upload. One accepted upload and then confirmations restore
      at most once, whatever else happens, exactly when every confirmation but the last manages to
      close its connection and every restore command is answered at the first attempt. */
  lemma JobPerUploadRestoresOnceIff(decode: Decoder, calls: seq<Call>)
    requires JobPerUpload(decode, calls)
    ensures (forall views: seq<RestoreView> :: IsRun(decode, calls, views) ==> Dispatches(views) <= 1)
      <==>
      && (forall i :: 0 < i < |calls| - 1 ==> calls[i].closed)
      && (forall i :: 0 < i < |calls| ==> calls[i].attempts == 1)
  {
    hide IsRun, TwoRounds, Resends, NoRepeat;
    AtMostOncePerJobIff(decode, calls);
    JobRepeatsIff(decode, calls);
    JobHasOneRound(decode, calls);
  }

  function Restaged(name: string, base64: string): seq<Call> {
    [StageCall(name, base64), ConfirmCall(true, 1), StageCall(name, base64), ConfirmCall(true, 1)]
  }

  function Retried(name: string, base64: string): seq<Call> {
    [StageCall(name, base64), ConfirmCall(false, 1), ConfirmCall(true, 1)]
  }

  function Resent(name: string, base64: string): seq<Call> {
    [StageCall(name, base64), ConfirmCall(true, 2)]
  }

  /** The three ways to restore more than once through one job, for any valid upload: stage it again
      after a success, confirm again after a closing that failed, or lose one answer to the
      restore command. */
  lemma RestoredTwice(decode: Decoder, name: string, base64: string)
    requires StageRestore(decode, base64).Ok?
    ensures exists views: seq<RestoreView> :: IsRun(decode, Restaged(name, base64), views) && Dispatches(views) > 1
    ensures exists views: seq<RestoreView> :: IsRun(decode, Retried(name, base64), views) && Dispatches(views) > 1
    ensures exists views: seq<RestoreView> :: IsRun(decode, Resent(name, base64), views) && Dispatches(views) > 1
  {
    hide IsRun, Rounds;
    var again, retry, resent := Restaged(name, base64), Retried(name, base64), Resent(name, base64);
    assert TwoRounds(decode, again, 0, 1, 2, 3);
    AtMostOncePerJobIff(decode, again);
    assert retry[..2][..1] == [StageCall(name, base64)];
    assert Accepted(decode, retry[..2][..1]) == [Some(StageRestore(decode, base64).value)];
    assert Dirty(decode, retry[..2]);
    AtMostOncePerJobIff(decode, retry);
    assert Resends(decode, resent, 0, 1);
    AtMostOncePerJobIff(decode, resent);
  }

  /** A router that hears every command twice, because its first answer is always lost. */
  function Echoing(): (replies: nat -> Answer)
    ensures forall n :: AttemptsOf(replies(n)) == SendsOf(replies(n)) == 2 && replies(n).ok
  {
    var reply: Answer := Reply([1], true, None);
    assert Reached([1]) == 1;
    _ => reply
  }

  /** One such run: the calls of the route for any valid upload of one chunk restore it twice. */
  method LostAnswerRestoresTwice(decode: Decoder, id: string, name: string, base64: string) returns (jobs: ManagementJobs)
    requires StageRestore(decode, base64).Ok? && |StageRestore(decode, base64).value| <= BYTES_PER_CHUNK
    ensures var upload := Some(StageRestore(decode, base64).value);
      jobs.router.dispatched == [upload, upload]
    ensures id in jobs.jobs && jobs.jobs[id].status == Succeeded
  {
    var router := new Router(Echoing());
    jobs := new ManagementJobs(decode, router);
    jobs.CreateJob(id);
    ghost var created := jobs.View(id);
    var r := jobs.StageRestoreJob(id, name, base64);
    assert StageStep(decode, name, base64, created, jobs.View(id));
    ghost var staged := jobs.jobs[id];
    assert SmallPayload(decode, staged);
    ghost var closed, attempts;
    r, closed, attempts := jobs.ConfirmRestoreJob(id);
    ghost var made, sends :| router.Made(made, sends) && SentAs(Payload(decode, staged), sends, [], router.dispatched);
    assert sends == 2;
  }
}
