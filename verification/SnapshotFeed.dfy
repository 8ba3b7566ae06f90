/** The live dashboard feed: a polling task, worker threads that outlive a cancelled
    task, and one-slot conflating queues.

    `Service` holds the fields of the service; the functions on it say what one call
    does. `World` adds what surrounds the service (worker threads, consumers, stops in
    progress) and `Step` interleaves atomic events in any order. A call of `_frame` or
    `_broadcast_disconnected`, and a worker's read of source and connection, are atomic.
    The class `SnapshotService` at the end updates the fields in place and is proved
    against the functions. */
module SnapshotFeed {
  import opened Prelude

  datatype Source = Ssh | Local | Simulated | Unset

  datatype Connection = Connection(host: string, device: Option<string>)

  datatype Snapshot = Snapshot(body: string)

  datatype Frame = Frame(
    sequence: nat, source: Source, device: string, connected: bool,
    error: Option<string>, snapshot: Option<Snapshot>)

  type QueueId = nat
  type WorkerId = nat

  /** Where the polling task stands. A task that the service cancels is `NoTask`: it is dropped
      in the same breath and never reaches another publish. A task that something else ended is
      `Ended`: the service still refers to it. */
  datatype Task = NoTask | Ended | Sleeping | Awaiting(worker: WorkerId) | Framed(update: Frame) | Raised(error: string)

  datatype Service = Service(
    connection: Option<Connection>, source: Source, device: string,
    latest: Option<Frame>, sequence: nat, task: Task,
    subscribers: set<QueueId>, queues: seq<seq<Frame>>)

  // ---------------------------------------------------------------- calls

  /** Python's `text or fallback`. */
  function OrElse(text: Option<string>, fallback: string): string {
    if text.Some? && text.value != "" then text.value else fallback
  }

  function DeviceOf(c: Connection): string {
    OrElse(c.device, c.host)
  }

  /** Put on a one-slot queue, dropping the queued frame when there is one. */
  function Send(queue: seq<Frame>, f: Frame): seq<Frame> {
    if |queue| < 1 then queue + [f] else queue[1..] + [f]
  }

  function Deliver(queues: seq<seq<Frame>>, to: set<QueueId>, f: Frame): seq<seq<Frame>> {
    seq(|queues|, i requires 0 <= i < |queues| => if i in to then Send(queues[i], f) else queues[i])
  }

  /** The frame `_frame` builds: a missing snapshot is taken over from the latest frame. */
  function NextFrame(
    s: Service, connected: bool, source: Option<Source>, device: Option<string>,
    error: Option<string>, snapshot: Option<Snapshot>): Frame
  {
    Frame(
      s.sequence + 1,
      if source.Some? then source.value else s.source,
      OrElse(device, if s.latest.Some? then s.latest.value.device else s.device),
      connected,
      error,
      if snapshot.None? && s.latest.Some? then s.latest.value.snapshot else snapshot)
  }

  function Install(s: Service, f: Frame): Service {
    s.(sequence := f.sequence, latest := Some(f))
  }

  function DownFrame(s: Service, error: string): Frame {
    NextFrame(s, false, None, None, Some(error), None)
  }

  function UpFrame(s: Service, source: Source, device: string, snapshot: Snapshot): Frame {
    NextFrame(s, true, Some(source), Some(device), None, Some(snapshot))
  }

  function Publish(s: Service, f: Frame): Service {
    s.(queues := Deliver(s.queues, s.subscribers, f))
  }

  function GoneFrame(s: Service, reason: string): Frame {
    Frame(s.sequence + 1, Unset, s.device, false, Some(reason), None)
  }

  function BroadcastDisconnected(s: Service, reason: string): Service {
    var f := GoneFrame(s, reason);
    Publish(Install(s, f), f)
  }

  function Configure(s: Service, c: Connection): Service {
    s.(connection := Some(c), source := Ssh, device := DeviceOf(c), latest := None)
  }

  function Clear(s: Service, reason: string): Service {
    BroadcastDisconnected(s.(connection := None, source := Unset, latest := None, task := NoTask), reason)
  }

  function Start(s: Service): Service {
    if s.source.Unset? || !(s.task.NoTask? || s.task.Ended?) then s else s.(task := Sleeping)
  }

  predicate Within(order: seq<QueueId>, count: nat) {
    forall i :: 0 <= i < |order| ==> order[i] < count
  }

  /** One turn of the loop in `stop`: a new frame for one queue. */
  function SayGoodbye(s: Service, q: QueueId): Service
    requires q < |s.queues|
  {
    var f := DownFrame(s, "service shutting down");
    var s' := Install(s, f);
    s'.(queues := s'.queues[q := Send(s'.queues[q], f)])
  }

  function Goodbyes(s: Service, order: seq<QueueId>): (r: Service)
    requires Within(order, |s.queues|)
    ensures |r.queues| == |s.queues| && r.subscribers == s.subscribers
    decreases |order|
  {
    if order == [] then s else Goodbyes(SayGoodbye(s, order[0]), order[1..])
  }

  /** `order` lists the subscriber set; Python leaves the order open. */
  predicate Lists(order: seq<QueueId>, queues: set<QueueId>) {
    && (forall i :: 0 <= i < |order| ==> order[i] in queues)
    && (forall q :: q in queues ==> q in order)
    && (forall i, j :: 0 <= i < j < |order| ==> order[i] != order[j])
  }

  predicate Sound(s: Service) {
    forall q :: q in s.subscribers ==> q < |s.queues|
  }

  function FinishStop(s: Service, order: seq<QueueId>): Service
    requires Sound(s) && Lists(order, s.subscribers)
  {
    Goodbyes(s, order).(subscribers := {})
  }

  // ---------------------------------------------------------------- interleavings

  /** A worker has been handed to the thread pool, or has read source and connection.
      `epoch` records how many times the connection had been set or cleared by then. */
  datatype Worker = Spawned | Running(source: Source, device: string, epoch: nat)

  /** `received` is what each queue's consumer took; `epoch` counts configure and clear
      calls; `origin` is the epoch in which the last installed snapshot was begun. */
  datatype World = World(
    svc: Service, workers: map<WorkerId, Worker>, received: seq<seq<Frame>>,
    stopping: nat, epoch: nat, origin: nat)

  datatype Outcome = Collected(snapshot: Snapshot) | Failed(error: string)

  datatype Event =
    | StartCall
    | StopBegin
    | StopEnd(order: seq<QueueId>)
    | Subscribe
    | Unsubscribe(queue: QueueId)
    | ConfigureCall(connection: Connection)
    | ClearCall(reason: string)
    | Poll(worker: WorkerId)
    | Read(worker: WorkerId)
    | Finish(worker: WorkerId, outcome: Outcome)
    | FrameError
    | Broadcast
    | TaskEnds
    | Consume(queue: QueueId)

  predicate Enabled(w: World, e: Event) {
    match e
    case StopEnd(order) => w.stopping > 0 && Sound(w.svc) && Lists(order, w.svc.subscribers)
    case Poll(id) => w.svc.task.Sleeping? && id !in w.workers
    case Read(id) => id in w.workers && w.workers[id].Spawned?
    case Finish(id, _) => id in w.workers && w.workers[id].Running?
    case FrameError => w.svc.task.Raised?
    case Broadcast => w.svc.task.Framed?
    case TaskEnds => !w.svc.task.NoTask?
    case Consume(q) => q < |w.svc.queues| && q < |w.received| && w.svc.queues[q] != []
    case _ => true
  }

  /** The source and device a worker works with. */
  function Captured(s: Service, epoch: nat): Worker {
    Running(s.source,
            if !s.source.Simulated? && s.connection.Some? then DeviceOf(s.connection.value) else s.device,
            epoch)
  }

  /** True when this event puts a newly collected snapshot into the latest frame. */
  predicate Installs(w: World, e: Event) {
    e.Finish? && Enabled(w, e) && !w.workers[e.worker].source.Unset? && e.outcome.Collected?
  }

  /** The worker returns or raises. The task hears of it only while it still awaits it. */
  function FinishWorker(w: World, id: WorkerId, outcome: Outcome): World
    requires Enabled(w, Finish(id, outcome))
  {
    var s, worker := w.svc, w.workers[id];
    var rest := w.(workers := w.workers - {id});
    if worker.source.Unset? then
      var f := DownFrame(s, "No router configured");
      rest.(svc := Resume(Install(s, f), id, Framed(f)))
    else match outcome
      case Failed(error) => rest.(svc := Resume(s, id, Raised(error)))
      case Collected(snapshot) =>
        var f := UpFrame(s, worker.source, worker.device, snapshot);
        rest.(svc := Resume(Install(s, f), id, Framed(f)), origin := worker.epoch)
  }

  function Resume(s: Service, id: WorkerId, next: Task): Service {
    if s.task == Awaiting(id) then s.(task := next) else s
  }

  /** A failed collection is framed; worker threads may frame before it is published. */
  function FrameRaised(s: Service): Service
    requires s.task.Raised?
  {
    var f := DownFrame(s, s.task.error);
    Install(s, f).(task := Framed(f))
  }

  /** The task's publish. */
  function PublishTask(s: Service): Service
    requires s.task.Framed?
  {
    Publish(s, s.task.update).(task := Sleeping)
  }

  /** One event; an event that is not enabled leaves the world as it is. */
  function Step(w: World, e: Event): World {
    if !Enabled(w, e) then w
    else match e
      case StartCall => w.(svc := Start(w.svc))
      case StopBegin => w.(svc := w.svc.(task := NoTask), stopping := w.stopping + 1)
      case StopEnd(order) => w.(svc := FinishStop(w.svc, order), stopping := w.stopping - 1)
      case Subscribe =>
        w.(svc := w.svc.(queues := w.svc.queues + [[]], subscribers := w.svc.subscribers + {|w.svc.queues|}),
           received := w.received + [[]])
      case Unsubscribe(q) => w.(svc := w.svc.(subscribers := w.svc.subscribers - {q}))
      case ConfigureCall(c) => w.(svc := Configure(w.svc, c), epoch := w.epoch + 1)
      case ClearCall(reason) => w.(svc := Clear(w.svc, reason), epoch := w.epoch + 1)
      case Poll(id) => w.(svc := w.svc.(task := Awaiting(id)), workers := w.workers[id := Spawned])
      case Read(id) => w.(workers := w.workers[id := Captured(w.svc, w.epoch)])
      case Finish(id, outcome) => FinishWorker(w, id, outcome)
      case FrameError => w.(svc := FrameRaised(w.svc))
      case Broadcast => w.(svc := PublishTask(w.svc))
      case TaskEnds => w.(svc := w.svc.(task := Ended))
      case Consume(q) =>
        var queue := w.svc.queues[q];
        w.(svc := w.svc.(queues := w.svc.queues[q := queue[1..]]),
           received := w.received[q := w.received[q] + [queue[0]]])
  }

  function Run(w: World, es: seq<Event>): World
    decreases |es|
  {
    if es == [] then w else Step(Run(w, es[..|es| - 1]), es[|es| - 1])
  }

  function Initial(connection: Option<Connection>, source: Source, device: string): World {
    World(Service(connection, source, device, None, 0, NoTask, {}, []), map[], [], 0, 0, 0)
  }

  // ---------------------------------------------------------------- safety of every run

  predicate Rising(frames: seq<Frame>) {
    forall i, j :: 0 <= i < j < |frames| ==> frames[i].sequence < frames[j].sequence
  }

  predicate Below(frames: seq<Frame>, bound: nat) {
    forall i :: 0 <= i < |frames| ==> frames[i].sequence < bound
  }

  predicate CarriesSnapshot(f: Frame) {
    f.connected ==> f.snapshot.Some?
  }

  /** One consumer's stream: what it took so far, then what waits in its slot. */
  predicate Orderly(received: seq<Frame>, queue: seq<Frame>, counter: nat) {
    && |queue| <= 1
    && Rising(received + queue)
    && Below(received + queue, counter + 1)
    && (forall i :: 0 <= i < |received + queue| ==> CarriesSnapshot((received + queue)[i]))
  }

  predicate LatestSound(s: Service) {
    s.latest.Some? ==> s.latest.value.sequence == s.sequence && CarriesSnapshot(s.latest.value)
  }

  predicate PendingSound(w: World) {
    w.svc.task.Framed? ==>
      && w.svc.task.update.sequence <= w.svc.sequence
      && CarriesSnapshot(w.svc.task.update)
      && forall q :: q in w.svc.subscribers && q < |w.svc.queues| && q < |w.received| ==>
           Below(w.received[q] + w.svc.queues[q], w.svc.task.update.sequence)
  }

  predicate Invariant(w: World) {
    && |w.received| == |w.svc.queues|
    && Sound(w.svc)
    && LatestSound(w.svc)
    && PendingSound(w)
    && forall q :: 0 <= q < |w.received| ==> Orderly(w.received[q], w.svc.queues[q], w.svc.sequence)
  }

  lemma SendFillsTheSlot(queue: seq<Frame>, f: Frame)
    requires |queue| <= 1
    ensures Send(queue, f) == [f]
  {
    if |queue| == 1 {
      assert queue[1..] == [];
    } else {
      assert queue == [];
    }
  }

  lemma SendKeepsOrder(received: seq<Frame>, queue: seq<Frame>, f: Frame, counter: nat)
    requires Orderly(received, queue, counter)
    requires Below(received + queue, f.sequence) && CarriesSnapshot(f)
    ensures forall counter' :: counter' >= counter && counter' >= f.sequence ==>
              Orderly(received, Send(queue, f), counter')
  {
    SendFillsTheSlot(queue, f);
    var before, after := received + queue, received + Send(queue, f);
    assert after == received + [f];
    assert forall i :: 0 <= i < |received| ==> after[i] == before[i];
  }

  lemma DeliverKeepsInvariant(w: World, s: Service, f: Frame)
    requires Invariant(w)
    requires s.queues == w.svc.queues && s.subscribers == w.svc.subscribers
    requires s.sequence >= w.svc.sequence && s.sequence >= f.sequence
    requires LatestSound(s) && CarriesSnapshot(f) && !s.task.Framed?
    requires forall q :: q in s.subscribers ==> Below(w.received[q] + w.svc.queues[q], f.sequence)
    ensures Invariant(w.(svc := Publish(s, f)))
  {
    var s' := Publish(s, f);
    forall q | 0 <= q < |w.received|
      ensures Orderly(w.received[q], s'.queues[q], s'.sequence)
    {
      if q in s.subscribers {
        SendKeepsOrder(w.received[q], w.svc.queues[q], f, w.svc.sequence);
      }
    }
  }

  lemma {:induction false} GoodbyesKeepOrder(w: World, s: Service, order: seq<QueueId>)
    requires Invariant(w.(svc := s)) && !s.task.Framed?
    requires Within(order, |s.queues|)
    ensures Invariant(w.(svc := Goodbyes(s, order)))
    ensures !Goodbyes(s, order).task.Framed?
    decreases |order|
  {
    if order != [] {
      var q, s' := order[0], SayGoodbye(s, order[0]);
      SendKeepsOrder(w.received[q], s.queues[q], s'.latest.value, s.sequence);
      assert forall p :: 0 <= p < |w.received| && p != q ==> s'.queues[p] == s.queues[p];
      assert Invariant(w.(svc := s'));
      GoodbyesKeepOrder(w, s', order[1..]);
    }
  }

  /** The frame a task is about to publish is not needed for the farewells: they empty the
      subscriber set, so that frame can no longer reach a queue that got a later one. */
  lemma StopKeepsInvariant(w: World, order: seq<QueueId>)
    requires Invariant(w) && Enabled(w, StopEnd(order))
    ensures Invariant(Step(w, StopEnd(order)))
  {
    var idle := w.svc.(task := NoTask);
    GoodbyesKeepOrder(w, idle, order);
    GoodbyesIgnoreTask(w.svc, order);
  }

  lemma {:induction false} GoodbyesIgnoreTask(s: Service, order: seq<QueueId>)
    requires Within(order, |s.queues|)
    ensures Goodbyes(s, order) == Goodbyes(s.(task := NoTask), order).(task := s.task)
    ensures Goodbyes(s, order).sequence >= s.sequence
    decreases |order|
  {
    if order != [] {
      GoodbyesIgnoreTask(SayGoodbye(s, order[0]), order[1..]);
      assert SayGoodbye(s.(task := NoTask), order[0]) == SayGoodbye(s, order[0]).(task := NoTask);
    }
  }

  lemma ConsumeKeepsInvariant(w: World, q: QueueId)
    requires Invariant(w) && Enabled(w, Consume(q))
    ensures Invariant(Step(w, Consume(q)))
  {
    var w' := Step(w, Consume(q));
    assert w.svc.queues[q] == [w.svc.queues[q][0]];
    assert w'.received[q] + w'.svc.queues[q] == w.received[q] + w.svc.queues[q];
    forall p | 0 <= p < |w'.received|
      ensures Orderly(w'.received[p], w'.svc.queues[p], w'.svc.sequence)
    {}
  }

  lemma SubscribeKeepsInvariant(w: World)
    requires Invariant(w)
    ensures Invariant(Step(w, Subscribe))
  {
    var w' := Step(w, Subscribe);
    forall q | 0 <= q < |w'.received|
      ensures Orderly(w'.received[q], w'.svc.queues[q], w'.svc.sequence)
    {
      if q < |w.received| {
        assert w'.received[q] == w.received[q] && w'.svc.queues[q] == w.svc.queues[q];
      }
    }
  }

  /** An event that touches no queue keeps the invariant when it keeps the rest of it. */
  lemma QuietKeepsInvariant(w: World, w': World)
    requires Invariant(w)
    requires w'.received == w.received && w'.svc.queues == w.svc.queues
    requires w'.svc.subscribers <= w.svc.subscribers && w'.svc.sequence >= w.svc.sequence
    requires LatestSound(w'.svc) && PendingSound(w')
    ensures Invariant(w')
  {
    forall q | 0 <= q < |w'.received|
      ensures Orderly(w'.received[q], w'.svc.queues[q], w'.svc.sequence)
    {
      assert Orderly(w.received[q], w.svc.queues[q], w.svc.sequence);
    }
  }

  lemma FinishKeepsInvariant(w: World, id: WorkerId, outcome: Outcome)
    requires Invariant(w) && Enabled(w, Finish(id, outcome))
    ensures Invariant(Step(w, Finish(id, outcome)))
  {
    var w' := Step(w, Finish(id, outcome));
    if w'.svc.task.Framed? {
      forall q | q in w.svc.subscribers && q < |w.svc.queues| && q < |w.received|
        ensures Below(w.received[q] + w.svc.queues[q], w'.svc.task.update.sequence)
      {
        assert Orderly(w.received[q], w.svc.queues[q], w.svc.sequence);
      }
    }
    QuietKeepsInvariant(w, w');
  }

  lemma FrameErrorKeepsInvariant(w: World)
    requires Invariant(w) && Enabled(w, FrameError)
    ensures Invariant(Step(w, FrameError))
  {
    var w' := Step(w, FrameError);
    forall q | q in w.svc.subscribers && q < |w.svc.queues| && q < |w.received|
      ensures Below(w.received[q] + w.svc.queues[q], w'.svc.task.update.sequence)
    {
      assert Orderly(w.received[q], w.svc.queues[q], w.svc.sequence);
    }
    QuietKeepsInvariant(w, w');
  }

  lemma BroadcastKeepsInvariant(w: World)
    requires Invariant(w) && Enabled(w, Broadcast)
    ensures Invariant(Step(w, Broadcast))
  {
    DeliverKeepsInvariant(w, w.svc.(task := Sleeping), w.svc.task.update);
  }

  lemma ClearKeepsInvariant(w: World, reason: string)
    requires Invariant(w)
    ensures Invariant(Step(w, ClearCall(reason)))
  {
    var s := w.svc.(connection := None, source := Unset, latest := None, task := NoTask);
    var f := GoneFrame(s, reason);
    DeliverKeepsInvariant(w, Install(s, f), f);
  }

  lemma StepKeepsInvariant(w: World, e: Event)
    requires Invariant(w)
    ensures Invariant(Step(w, e))
  {
    if Enabled(w, e) {
      match e
      case StopEnd(order) => StopKeepsInvariant(w, order);
      case ClearCall(reason) => ClearKeepsInvariant(w, reason);
      case FrameError => FrameErrorKeepsInvariant(w);
      case Broadcast => BroadcastKeepsInvariant(w);
      case Consume(q) => ConsumeKeepsInvariant(w, q);
      case Subscribe => SubscribeKeepsInvariant(w);
      case Finish(id, outcome) => FinishKeepsInvariant(w, id, outcome);
      case _ => QuietKeepsInvariant(w, Step(w, e));
    }
  }

  lemma {:induction false} RunKeepsInvariant(w: World, es: seq<Event>)
    requires Invariant(w)
    ensures Invariant(Run(w, es))
    decreases |es|
  {
    if es != [] {
      RunKeepsInvariant(w, es[..|es| - 1]);
      StepKeepsInvariant(Run(w, es[..|es| - 1]), es[|es| - 1]);
    }
  }

  /** In every interleaving each consumer takes strictly increasing sequence numbers, every
      queue holds at most one frame and it is newer than all taken before, a connected
      frame carries a snapshot, and the latest frame bears the counter. */
  lemma FeedIsSafe(connection: Option<Connection>, source: Source, device: string, es: seq<Event>)
    ensures var w := Run(Initial(connection, source, device), es);
      && |w.received| == |w.svc.queues|
      && (forall q :: 0 <= q < |w.received| ==>
            && |w.svc.queues[q]| <= 1
            && (forall i, j :: 0 <= i < j < |w.received[q]| ==> w.received[q][i].sequence < w.received[q][j].sequence)
            && (forall i :: 0 <= i < |w.received[q]| && w.svc.queues[q] != [] ==>
                  w.received[q][i].sequence < w.svc.queues[q][0].sequence)
            && (forall i :: 0 <= i < |w.received[q]| ==> CarriesSnapshot(w.received[q][i])))
      && (w.svc.latest.Some? ==>
            w.svc.latest.value.sequence == w.svc.sequence && CarriesSnapshot(w.svc.latest.value))
  {
    var w := Run(Initial(connection, source, device), es);
    RunKeepsInvariant(Initial(connection, source, device), es);
    forall q | 0 <= q < |w.received|
      ensures forall i :: 0 <= i < |w.received[q]| ==>
                (w.received[q] + w.svc.queues[q])[i] == w.received[q][i]
      ensures w.svc.queues[q] != [] ==>
                (w.received[q] + w.svc.queues[q])[|w.received[q]|] == w.svc.queues[q][0]
    {}
  }

  /** Right after a broadcast every subscribed queue holds exactly the broadcast frame, and
      a queue that is not subscribed keeps what it held. */
  lemma BroadcastReachesEveryQueue(w: World, e: Event)
    requires Invariant(w) && Enabled(w, e) && (e.Broadcast? || e.ClearCall?)
    ensures var w' := Step(w, e);
      exists f: Frame ::
        && (if e.Broadcast? then f == w.svc.task.update
            else w'.svc.latest == Some(f) && f.sequence == w.svc.sequence + 1 && !f.connected)
        && forall q :: 0 <= q < |w.svc.queues| ==>
             w'.svc.queues[q] == if q in w.svc.subscribers then [f] else w.svc.queues[q]
  {
    var w' := Step(w, e);
    var f := if e.Broadcast? then w.svc.task.update else w'.svc.latest.value;
    forall q | 0 <= q < |w.svc.queues|
      ensures w'.svc.queues[q] == if q in w.svc.subscribers then [f] else w.svc.queues[q]
    {
      assert Orderly(w.received[q], w.svc.queues[q], w.svc.sequence);
    }
  }

  /** What `stop` sends: the queue at place k of the order gets the k-th new number and
      nothing else changes. */
  lemma {:induction false} GoodbyesNumberTheQueues(s: Service, order: seq<QueueId>)
    requires Within(order, |s.queues|) && forall i :: 0 <= i < |order| ==> |s.queues[order[i]]| <= 1
    requires forall i, j :: 0 <= i < j < |order| ==> order[i] != order[j]
    ensures var r := Goodbyes(s, order);
      && r.sequence == s.sequence + |order|
      && (forall k :: 0 <= k < |order| ==>
            && |r.queues[order[k]]| == 1
            && r.queues[order[k]][0].sequence == s.sequence + k + 1
            && !r.queues[order[k]][0].connected)
      && (forall q :: 0 <= q < |s.queues| && q !in order ==> r.queues[q] == s.queues[q])
    decreases |order|
  {
    if order != [] {
      var s' := SayGoodbye(s, order[0]);
      GoodbyesNumberTheQueues(s', order[1..]);
      var r := Goodbyes(s, order);
      assert order[0] !in order[1..];
      assert forall k :: 1 <= k < |order| ==> order[k] == order[1..][k - 1];
    }
  }

  // ---------------------------------------------------------------- which snapshot is kept

  predicate Resets(e: Event) {
    e.ConfigureCall? || e.ClearCall?
  }

  /** The snapshot of the last successful collection that was framed after the last configure
      or clear, read off the run from its end. */
  function LastInstalled(w: World, es: seq<Event>): Option<Snapshot>
    decreases |es|
  {
    if es == [] then None
    else
      var before, e := Run(w, es[..|es| - 1]), es[|es| - 1];
      if Resets(e) then None
      else if Installs(before, e) then Some(e.outcome.snapshot)
      else LastInstalled(w, es[..|es| - 1])
  }

  function Kept(s: Service): Option<Snapshot> {
    if s.latest.Some? then s.latest.value.snapshot else None
  }

  lemma {:induction false} GoodbyesKeepSnapshot(s: Service, order: seq<QueueId>)
    requires Within(order, |s.queues|)
    ensures Kept(Goodbyes(s, order)) == Kept(s)
    decreases |order|
  {
    if order != [] {
      GoodbyesKeepSnapshot(SayGoodbye(s, order[0]), order[1..]);
    }
  }

  lemma StepKeepsSnapshot(w: World, e: Event)
    ensures Kept(Step(w, e).svc) ==
            if Resets(e) then None else if Installs(w, e) then Some(e.outcome.snapshot) else Kept(w.svc)
  {
    if Enabled(w, e) && e.StopEnd? {
      GoodbyesKeepSnapshot(w.svc, e.order);
    }
  }

  /** Failures, disconnections, stops and publishes never lose or alter the retained
      snapshot; only a configure or clear drops it. */
  lemma {:induction false} LatestKeepsLastInstalled(
    connection: Option<Connection>, source: Source, device: string, es: seq<Event>)
    ensures Kept(Run(Initial(connection, source, device), es).svc)
         == LastInstalled(Initial(connection, source, device), es)
    decreases |es|
  {
    if es != [] {
      var before := es[..|es| - 1];
      LatestKeepsLastInstalled(connection, source, device, before);
      StepKeepsSnapshot(Run(Initial(connection, source, device), before), es[|es| - 1]);
    }
  }

  /** The retained snapshot, if any, was begun under the connection now in force. */
  predicate Current(w: World) {
    Kept(w.svc).Some? ==> w.origin == w.epoch
  }

  /** No worker is out that read a source to collect from. */
  predicate NoCollectorOut(w: World) {
    forall id :: id in w.workers && w.workers[id].Running? ==> w.workers[id].source.Unset?
  }

  predicate CollectorsCurrent(w: World) {
    forall id :: id in w.workers && w.workers[id].Running? && !w.workers[id].source.Unset? ==>
      w.workers[id].epoch == w.epoch
  }

  lemma {:induction false} StaysCurrent(w: World, es: seq<Event>)
    requires Current(w) && CollectorsCurrent(w)
    requires forall i :: 0 <= i < |es| ==> !Resets(es[i])
    ensures Current(Run(w, es)) && CollectorsCurrent(Run(w, es))
    decreases |es|
  {
    if es != [] {
      StaysCurrent(w, es[..|es| - 1]);
      StepKeepsSnapshot(Run(w, es[..|es| - 1]), es[|es| - 1]);
    }
  }

  predicate EpochsPast(w: World) {
    forall id :: id in w.workers && w.workers[id].Running? ==> w.workers[id].epoch <= w.epoch
  }

  lemma {:induction false} RunKeepsEpochsPast(w: World, es: seq<Event>)
    requires EpochsPast(w)
    ensures EpochsPast(Run(w, es))
    decreases |es|
  {
    if es != [] {
      RunKeepsEpochsPast(w, es[..|es| - 1]);
    }
  }

  /** Neither configure nor clear waits for a worker. At any reachable moment, the feed can
      be trusted after such a call to serve only data of the connection then in force,
      whatever happens until the next one, exactly when no collecting worker is out at
      the moment of the call. */
  lemma ResetIsCleanIffNoCollectorOut(
    connection: Option<Connection>, source: Source, device: string, past: seq<Event>, e: Event)
    requires Resets(e)
    ensures var w := Run(Initial(connection, source, device), past);
      (forall es: seq<Event> :: (forall i :: 0 <= i < |es| ==> !Resets(es[i])) ==> Current(Run(Step(w, e), es)))
      <==> NoCollectorOut(w)
  {
    var w := Run(Initial(connection, source, device), past);
    RunKeepsEpochsPast(Initial(connection, source, device), past);
    var w' := Step(w, e);
    StepKeepsSnapshot(w, e);
    if NoCollectorOut(w) {
      forall es: seq<Event> | forall i :: 0 <= i < |es| ==> !Resets(es[i])
        ensures Current(Run(w', es))
      {
        StaysCurrent(w', es);
      }
    } else {
      var id :| id in w.workers && w.workers[id].Running? && !w.workers[id].source.Unset?;
      var late := [Finish(id, Collected(Snapshot("")))];
      assert Run(w', late[..0]) == w';
      assert Run(w', late) == Step(w', late[0]);
      assert !Current(Run(w', late));
    }
  }

  lemma RunSnoc(w: World, es: seq<Event>, e: Event)
    ensures Run(w, es + [e]) == Step(Run(w, es), e)
  {
    assert (es + [e])[..|es|] == es;
  }

  /** A first poll whose worker has read source and connection. */
  function FirstPoll(id: WorkerId): seq<Event> {
    [StartCall, Poll(id), Read(id)]
  }

  lemma FirstPollIsOut(connection: Option<Connection>, device: string, id: WorkerId)
    ensures var w := Initial(connection, Ssh, device);
      Run(w, FirstPoll(id)) == w.(svc := w.svc.(task := Awaiting(id)), workers := map[id := Captured(w.svc, 0)])
  {
    var w := Initial(connection, Ssh, device);
    assert [] + [StartCall] == [StartCall];
    assert [StartCall] + [Poll(id)] == [StartCall, Poll(id)];
    assert [StartCall, Poll(id)] + [Read(id)] == FirstPoll(id);
    RunSnoc(w, [], StartCall);
    RunSnoc(w, [StartCall], Poll(id));
    RunSnoc(w, [StartCall, Poll(id)], Read(id));
    assert Run(w, [StartCall, Poll(id)]).workers == map[id := Spawned];
  }

  /** It happens: a worker reads the old connection, a new one is configured, the worker comes
      back, and the feed retains the old router's snapshot. */
  lemma StaleSnapshotIsRetained(connection: Option<Connection>, device: string, id: WorkerId, c: Connection, stale: Snapshot)
    ensures var w := Run(Initial(connection, Ssh, device), FirstPoll(id));
      var after := Step(Step(w, ConfigureCall(c)), Finish(id, Collected(stale)));
      && !NoCollectorOut(w)
      && Kept(after.svc) == Some(stale) && after.svc.connection == Some(c) && !Current(after)
  {
    hide Run;
    FirstPollIsOut(connection, device, id);
    var w := Run(Initial(connection, Ssh, device), FirstPoll(id));
    assert id in w.workers && w.workers[id].Running?;
    var w' := Step(w, ConfigureCall(c));
    assert w'.workers == w.workers && w'.epoch == 1;
    var after := Step(w', Finish(id, Collected(stale)));
    assert after.origin == 0 && after.svc.latest.value.snapshot == Some(stale);
  }

  // ---------------------------------------------------------------- what a frame says

  /** The event frames something: a collection that ended, a disconnect or a farewell. */
  predicate Frames(w: World, e: Event) {
    Enabled(w, e) &&
    match e
    case Finish(id, outcome) => w.workers[id].source.Unset? || outcome.Collected?
    case FrameError => true
    case ClearCall(_) => true
    case StopEnd(order) => order != []
    case _ => false
  }

  /** The given name is shown; without one, the name last shown; without that, the service's. */
  predicate ShowsDevice(s: Service, name: string, shown: string) {
    && (name != "" ==> shown == name)
    && (name == "" && s.latest.Some? ==> shown == s.latest.value.device)
    && (name == "" && s.latest.None? ==> shown == s.device)
  }

  /** A collection that succeeds is framed as connected, without an error, with the source and
      device that the worker had read and the snapshot that it collected. The task goes on to
      publish this very frame if it still awaits this worker. */
  lemma SuccessIsShownConnected(w: World, e: Event)
    requires Installs(w, e)
    ensures var s, s', worker := w.svc, Step(w, e).svc, w.workers[e.worker];
      && s'.latest.Some?
      && s'.latest.value.connected
      && s'.latest.value.error == None
      && s'.latest.value.source == worker.source
      && ShowsDevice(s, worker.device, s'.latest.value.device)
      && s'.latest.value.snapshot == Some(e.outcome.snapshot)
      && s'.latest.value.sequence == s.sequence + 1 == s'.sequence
      && s'.task == (if s.task == Awaiting(e.worker) then Framed(s'.latest.value) else s.task)
  {}

  /** The latest frame is a new one that reports `error` and keeps what else was shown. */
  predicate ReportsError(s: Service, error: string, s': Service) {
    && s'.latest.Some?
    && !s'.latest.value.connected
    && s'.latest.value.error == Some(error)
    && s'.latest.value.source == s.source
    && ShowsDevice(s, "", s'.latest.value.device)
    && s'.latest.value.snapshot == Kept(s)
    && s'.latest.value.sequence == s.sequence + 1 == s'.sequence
  }

  /** A poll without a router, and one that fails, are shown as disconnected with their reasons; a
      failure only by the task that awaits the worker, and in a step of its own. */
  lemma FailureIsShownDisconnected(w: World, e: Event)
    requires Enabled(w, e) && (e.Finish? || e.FrameError?) && !Installs(w, e)
    ensures var s, s' := w.svc, Step(w, e).svc;
      if e.FrameError? then ReportsError(s, s.task.error, s') && s'.task == Framed(s'.latest.value)
      else if w.workers[e.worker].source.Unset? then
        && ReportsError(s, "No router configured", s')
        && s'.task == if s.task == Awaiting(e.worker) then Framed(s'.latest.value) else s.task
      else s' == if s.task == Awaiting(e.worker) then s.(task := Raised(e.outcome.error)) else s
  {}

  /** A disconnect is shown without a snapshot and under the service's own name. */
  lemma ClearIsShownDisconnected(w: World, reason: string)
    ensures var s, s' := w.svc, Step(w, ClearCall(reason)).svc;
      && s'.latest == Some(Frame(s.sequence + 1, Unset, s.device, false, Some(reason), None))
      && s'.sequence == s.sequence + 1
      && s'.connection == None && s'.source == Unset && s'.task == NoTask
      && s'.device == s.device && s'.subscribers == s.subscribers
  {}

  lemma {:induction false} GoodbyesAreShown(s: Service, order: seq<QueueId>)
    requires Within(order, |s.queues|) && order != []
    ensures var r := Goodbyes(s, order);
      && r.latest.Some?
      && !r.latest.value.connected
      && r.latest.value.error == Some("service shutting down")
      && r.latest.value.source == s.source && r.source == s.source && r.device == s.device
      && ShowsDevice(s, "", r.latest.value.device)
    decreases |order|
  {
    if |order| > 1 {
      GoodbyesAreShown(SayGoodbye(s, order[0]), order[1..]);
    }
  }

  /** Event n of the run put a newly collected snapshot into the latest frame. */
  predicate InstallsAt(start: World, es: seq<Event>, n: nat) {
    n < |es| && Installs(Run(start, es[..n]), es[n])
  }

  /** The latest frame right after event n. */
  function LatestAfter(start: World, es: seq<Event>, n: nat): Option<Frame>
    requires n < |es|
  {
    Step(Run(start, es[..n]), es[n]).svc.latest
  }

  /** Nothing was framed or reset after event n. */
  predicate QuietSince(start: World, es: seq<Event>, n: nat) {
    forall m: nat :: n < m < |es| ==> !Frames(Run(start, es[..m]), es[m]) && !Resets(es[m])
  }

  lemma QuietKeepsLatest(w: World, e: Event)
    requires !Frames(w, e) && !Resets(e)
    ensures Step(w, e).svc.latest == w.svc.latest
  {}

  lemma FramingIsConnectedIffInstalling(w: World, e: Event)
    requires Frames(w, e)
    ensures Step(w, e).svc.latest.Some?
    ensures Step(w, e).svc.latest.value.connected <==> Installs(w, e)
  {
    if e.StopEnd? {
      GoodbyesAreShown(w.svc, e.order);
    }
  }

  lemma InstallsFrames(w: World, e: Event)
    ensures Installs(w, e) ==> Frames(w, e) && !Resets(e)
  {}

  lemma OneEventMore(start: World, es: seq<Event>, e: Event)
    ensures forall n: nat :: n < |es| ==>
      && (InstallsAt(start, es + [e], n) <==> InstallsAt(start, es, n))
      && LatestAfter(start, es + [e], n) == LatestAfter(start, es, n)
      && (QuietSince(start, es + [e], n) <==> QuietSince(start, es, n) && !Frames(Run(start, es), e) && !Resets(e))
    ensures InstallsAt(start, es + [e], |es|) <==> Installs(Run(start, es), e)
    ensures LatestAfter(start, es + [e], |es|) == Step(Run(start, es), e).svc.latest
    ensures QuietSince(start, es + [e], |es|)
  {
    hide Run, Step, Installs, Frames;
    var all := es + [e];
    assert all[..|es|] == es && all[|es|] == e;
    assert forall m: nat :: m < |es| ==> all[..m] == es[..m] && all[m] == es[m];
  }

  /** In every run the latest frame is connected if and only if the last event that framed anything
      put a newly collected snapshot into it and no reset came since; and then it is the frame of
      that event. */
  lemma {:induction false} LatestIsConnectedIffLastFramingInstalled(
    connection: Option<Connection>, source: Source, device: string, es: seq<Event>)
    ensures var start := Initial(connection, source, device);
      var latest := Run(start, es).svc.latest;
      && ((latest.Some? && latest.value.connected) <==> exists n: nat :: InstallsAt(start, es, n) && QuietSince(start, es, n))
      && forall n: nat :: InstallsAt(start, es, n) && QuietSince(start, es, n) ==> latest == LatestAfter(start, es, n)
    decreases |es|
  {
    if es != [] {
      hide Run, Step, Installs, Frames, InstallsAt, QuietSince, LatestAfter;
      var start, last := Initial(connection, source, device), |es| - 1;
      var before, e := es[..last], es[last];
      LatestIsConnectedIffLastFramingInstalled(connection, source, device, before);
      assert before + [e] == es;
      RunSnoc(start, before, e);
      OneEventMore(start, before, e);
      var w := Run(start, before);
      if Frames(w, e) {
        FramingIsConnectedIffInstalling(w, e);
        assert InstallsAt(start, es, last) <==> Installs(w, e);
      } else if Resets(e) {
        ConfigureShowsNothing(w, e);
        InstallsFrames(w, e);
      } else {
        QuietKeepsLatest(w, e);
        InstallsFrames(w, e);
      }
    } else {
      assert Run(Initial(connection, source, device), es).svc.latest == None;
    }
  }

  lemma ConfigureShowsNothing(w: World, e: Event)
    requires Resets(e) && !Frames(w, e)
    ensures Step(w, e).svc.latest == None
  {}

  /** The frame is shown, waits somewhere or was taken. */
  ghost predicate Appears(w: World, f: Frame) {
    || w.svc.latest == Some(f)
    || w.svc.task == Framed(f)
    || (exists q: nat :: q < |w.svc.queues| && f in w.svc.queues[q])
    || (exists q: nat :: q < |w.received| && f in w.received[q])
  }

  /** A connected frame has no error, and a disconnected one says why. */
  predicate Honest(f: Frame) {
    f.connected <==> f.error.None?
  }

  ghost predicate Accounted(start: World, es: seq<Event>, f: Frame) {
    && Honest(f)
    && (f.connected ==> exists n: nat :: InstallsAt(start, es, n) && LatestAfter(start, es, n) == Some(f))
  }

  lemma {:induction false} GoodbyesAddNoOther(s: Service, order: seq<QueueId>, q: nat, f: Frame)
    requires Within(order, |s.queues|) && q < |s.queues| && f in Goodbyes(s, order).queues[q]
    ensures f in s.queues[q] || (!f.connected && Honest(f))
    decreases |order|
  {
    if order != [] {
      GoodbyesAddNoOther(SayGoodbye(s, order[0]), order[1..], q, f);
    }
  }

  lemma StopAddsNoOther(w: World, order: seq<QueueId>, f: Frame)
    requires Enabled(w, StopEnd(order)) && Appears(Step(w, StopEnd(order)), f)
    ensures Appears(w, f) || (Honest(f) && !f.connected)
  {
    hide Goodbyes;
    var s' := Step(w, StopEnd(order)).svc;
    GoodbyesIgnoreTask(w.svc, order);
    if q: nat :| q < |s'.queues| && f in s'.queues[q] {
      GoodbyesAddNoOther(w.svc, order, q, f);
    } else if s'.latest == Some(f) {
      if order == [] {
        NoGoodbyes(w.svc);
      } else {
        GoodbyesAreShown(w.svc, order);
      }
    } else {
      GoodbyesKeepTask(w.svc, order);
    }
  }

  lemma {:induction false} GoodbyesKeepTask(s: Service, order: seq<QueueId>)
    requires Within(order, |s.queues|)
    ensures Goodbyes(s, order).task == s.task
    decreases |order|
  {
    if order != [] {
      GoodbyesKeepTask(SayGoodbye(s, order[0]), order[1..]);
    }
  }

  /** A frame that appears was there before, or reports an error, or was just installed. */
  lemma StepAddsNoOther(w: World, e: Event, f: Frame)
    requires |w.received| == |w.svc.queues| && Appears(Step(w, e), f)
    ensures Appears(w, f) || (Honest(f) && (f.connected ==> Installs(w, e) && Step(w, e).svc.latest == Some(f)))
  {
    hide Goodbyes;
    if Enabled(w, e) {
      match e
      case StopEnd(order) => StopAddsNoOther(w, order, f);
      case Consume(q) =>
        assert w.svc.queues[q][0] in w.svc.queues[q];
        assert forall g :: g in w.svc.queues[q][1..] ==> g in w.svc.queues[q];
      case _ =>
    }
  }

  /** Whatever any client of any run takes, is about to take or is shown: a connected frame is the one
      that a successful collection of this run was framed as, and every other says what is wrong. */
  lemma {:induction false} ConnectedFramesWereCollected(
    connection: Option<Connection>, source: Source, device: string, es: seq<Event>, f: Frame)
    requires Appears(Run(Initial(connection, source, device), es), f)
    ensures Accounted(Initial(connection, source, device), es, f)
    decreases |es|
  {
    var start := Initial(connection, source, device);
    if es != [] {
      hide Run, Step, Installs, InstallsAt, LatestAfter, Appears, Honest;
      var last := |es| - 1;
      var before, e := es[..last], es[last];
      assert before + [e] == es;
      RunSnoc(start, before, e);
      OneEventMore(start, before, e);
      RunKeepsInvariant(start, before);
      QueuesMatch(Run(start, before));
      StepAddsNoOther(Run(start, before), e, f);
      if Appears(Run(start, before), f) {
        ConnectedFramesWereCollected(connection, source, device, before, f);
        if n: nat :| InstallsAt(start, before, n) && LatestAfter(start, before, n) == Some(f) {
          InstallsInRange(start, before, n);
          assert InstallsAt(start, es, n) && LatestAfter(start, es, n) == Some(f);
        }
      } else if f.connected {
        assert InstallsAt(start, es, last) && LatestAfter(start, es, last) == Some(f);
      }
    }
  }

  lemma QueuesMatch(w: World)
    requires Invariant(w)
    ensures |w.received| == |w.svc.queues|
  {}

  lemma InstallsInRange(start: World, es: seq<Event>, n: nat)
    requires InstallsAt(start, es, n)
    ensures n < |es|
  {}

  /** The name of the router that a worker reads in `s`: a connection's own name if it has one, else its
      host; without a connection, or simulated, the service's. */
  predicate NamesRouter(s: Service, name: string) {
    if s.connection.None? || s.source.Simulated? then name == s.device
    else if s.connection.value.device in {None, Some("")} then name == s.connection.value.host
    else Some(name) == s.connection.value.device
  }

  lemma {:induction false} WorkerStaysOut(w: World, id: WorkerId, es: seq<Event>)
    requires id in w.workers && w.workers[id].Running?
    requires forall i :: 0 <= i < |es| ==> !(es[i].Finish? && es[i].worker == id)
    ensures id in Run(w, es).workers && Run(w, es).workers[id] == w.workers[id]
    decreases |es|
  {
    if es != [] {
      WorkerStaysOut(w, id, es[..|es| - 1]);
    }
  }

  /** Whatever happens while a worker is out, its collection is framed under the source and the name of
      the router that was configured when it read them. */
  lemma CollectionNamesTheRouterRead(w: World, id: WorkerId, es: seq<Event>, snapshot: Snapshot)
    requires Enabled(w, Read(id)) && !w.svc.source.Unset?
    requires forall i :: 0 <= i < |es| ==> !(es[i].Finish? && es[i].worker == id)
    ensures var later := Run(Step(w, Read(id)), es);
      var s' := Step(later, Finish(id, Collected(snapshot))).svc;
      && s'.latest.Some? && s'.latest.value.connected
      && s'.latest.value.snapshot == Some(snapshot)
      && s'.latest.value.source == w.svc.source
      && exists name :: NamesRouter(w.svc, name) && ShowsDevice(later.svc, name, s'.latest.value.device)
  {
    hide Run;
    var read := Step(w, Read(id));
    WorkerStaysOut(read, id, es);
    var later, finish := Run(read, es), Finish(id, Collected(snapshot));
    assert Installs(later, finish);
    SuccessIsShownConnected(later, finish);
    assert NamesRouter(w.svc, later.workers[id].device);
  }

  /** Configuring names the router by its connection, and the feed starts anew under it. */
  lemma ConfigureIsInForce(w: World, c: Connection)
    ensures var s, s' := w.svc, Step(w, ConfigureCall(c)).svc;
      && s'.connection == Some(c) && s'.source == Ssh && s'.latest == None
      && NamesRouter(s', s'.device)
      && s'.sequence == s.sequence && s'.task == s.task && s'.subscribers == s.subscribers && s'.queues == s.queues
  {}

  // ---------------------------------------------------------------- the task and its stops

  /** How many of the run's stops have begun, or have come to their end. */
  function Begun(es: seq<Event>): nat
    decreases |es|
  {
    if es == [] then 0 else Begun(es[..|es| - 1]) + if es[|es| - 1].StopBegin? then 1 else 0
  }

  function Done(start: World, es: seq<Event>): nat
    decreases |es|
  {
    if es == [] then 0
    else
      var before, e := es[..|es| - 1], es[|es| - 1];
      Done(start, before) + if e.StopEnd? && Enabled(Run(start, before), e) then 1 else 0
  }

  /** Every end of a stop has its beginning. */
  lemma {:induction false} StopsArePaired(connection: Option<Connection>, source: Source, device: string, es: seq<Event>)
    ensures var start := Initial(connection, source, device);
      Done(start, es) <= Begun(es) && Run(start, es).stopping == Begun(es) - Done(start, es)
    decreases |es|
  {
    if es != [] {
      StopsArePaired(connection, source, device, es[..|es| - 1]);
    }
  }

  /** A task that was stopped, cleared or has ended neither polls nor publishes again; `start` sets a
      new one going, if there is a source, and leaves a living one alone. A stop that has begun can
      come to its end. */
  lemma NoTaskUntilStart(w: World, e: Event, id: WorkerId)
    requires Enabled(w, e) && (e.StopBegin? || e.ClearCall? || e.TaskEnds?)
    ensures var w' := Step(w, e);
      && !Enabled(w', Poll(id)) && !Enabled(w', Broadcast) && !Enabled(w', FrameError)
      && Step(w', StartCall).svc.task == (if w'.svc.source.Unset? then w'.svc.task else Sleeping)
      && (e.StopBegin? ==> w' == w.(svc := w.svc.(task := w'.svc.task), stopping := w.stopping + 1) && !Enabled(w', TaskEnds))
      && (e.TaskEnds? ==> w'.svc == w.svc.(task := w'.svc.task) && Enabled(w', TaskEnds))
    ensures !w.svc.task.NoTask? && !w.svc.task.Ended? ==> Step(w, StartCall) == w
    ensures e.StopBegin? && Sound(w.svc) ==>
      forall order :: Lists(order, w.svc.subscribers) ==> Enabled(Step(w, e), StopEnd(order))
  {}

  // ---------------------------------------------------------------- what a new client sees

  /** A dashboard client subscribes and then reads the latest frame, which it is sent first if
      there is one. Both are done without a pause of the event loop, but worker threads go on
      in between. */
  function Hello(w: World): seq<Frame> {
    if w.svc.latest.Some? then [w.svc.latest.value] else []
  }

  predicate OnlyWorkers(es: seq<Event>) {
    forall i :: 0 <= i < |es| ==> es[i].Read? || es[i].Finish?
  }

  /** The world in which a client that subscribed in `w` reads the latest frame. */
  function Greeted(w: World, between: seq<Event>): World {
    Run(Step(w, Subscribe), between)
  }

  predicate Above(frames: seq<Frame>, floor: nat) {
    forall i :: 0 <= i < |frames| ==> frames[i].sequence > floor
  }

  /** Whatever reaches this queue from now on is numbered above `floor`. */
  predicate OnlyNewer(w: World, q: QueueId, floor: nat) {
    && q < |w.received| == |w.svc.queues|
    && w.svc.sequence >= floor
    && Above(w.received[q], floor) && Above(w.svc.queues[q], floor)
    && (w.svc.task.Framed? ==> w.svc.task.update.sequence > floor)
  }

  lemma {:induction false} GoodbyesAreNewer(s: Service, order: seq<QueueId>, q: QueueId, floor: nat)
    requires Within(order, |s.queues|) && q < |s.queues|
    requires s.sequence >= floor && Above(s.queues[q], floor)
    ensures Goodbyes(s, order).sequence >= floor && Above(Goodbyes(s, order).queues[q], floor)
    ensures Goodbyes(s, order).task == s.task
    decreases |order|
  {
    if order != [] {
      GoodbyesAreNewer(SayGoodbye(s, order[0]), order[1..], q, floor);
    }
  }

  lemma PublishIsNewer(w: World, s: Service, f: Frame, q: QueueId, floor: nat)
    requires OnlyNewer(w, q, floor) && f.sequence > floor
    requires s.queues == w.svc.queues && s.sequence >= floor && !s.task.Framed?
    ensures OnlyNewer(w.(svc := Publish(s, f)), q, floor)
  {}

  lemma StepKeepsOnlyNewer(w: World, e: Event, q: QueueId, floor: nat)
    requires OnlyNewer(w, q, floor)
    ensures OnlyNewer(Step(w, e), q, floor)
  {
    hide Goodbyes, Deliver, Publish, Send;
    if Enabled(w, e) {
      match e
      case StopEnd(order) => GoodbyesAreNewer(w.svc, order, q, floor);
      case ClearCall(reason) =>
        var s := w.svc.(connection := None, source := Unset, latest := None, task := NoTask);
        var f := GoneFrame(s, reason);
        PublishIsNewer(w, Install(s, f), f, q, floor);
      case Broadcast => PublishTaskIsNewer(w, q, floor);
      case _ =>
    }
  }

  lemma PublishTaskIsNewer(w: World, q: QueueId, floor: nat)
    requires OnlyNewer(w, q, floor) && Enabled(w, Broadcast)
    ensures OnlyNewer(w.(svc := PublishTask(w.svc)), q, floor)
  {
    hide Deliver;
    PublishIsNewer(w, w.svc.(task := Sleeping), w.svc.task.update, q, floor);
  }

  lemma {:induction false} RunKeepsOnlyNewer(w: World, es: seq<Event>, q: QueueId, floor: nat)
    requires OnlyNewer(w, q, floor)
    ensures OnlyNewer(Run(w, es), q, floor)
    decreases |es|
  {
    if es != [] {
      RunKeepsOnlyNewer(w, es[..|es| - 1], q, floor);
      StepKeepsOnlyNewer(Run(w, es[..|es| - 1]), es[|es| - 1], q, floor);
    }
  }

  /** What the client of queue `q` sees that reads the latest frame in `w`: this frame, then the
      frames it takes from the queue, then the one that waits there. */
  function Stream(w: World, q: QueueId, es: seq<Event>): seq<Frame> {
    var later := Run(w, es);
    if q < |later.received| && q < |later.svc.queues| then Hello(w) + later.received[q] + later.svc.queues[q] else []
  }

  /** A queue nobody has put anything on yet. */
  predicate Untouched(w: World, q: QueueId) {
    && Invariant(w)
    && q < |w.received| == |w.svc.queues|
    && q in w.svc.subscribers
    && w.received[q] == [] && w.svc.queues[q] == []
  }

  lemma WorkerLeavesQueues(w: World, e: Event, q: QueueId)
    requires Untouched(w, q) && (e.Read? || e.Finish?)
    ensures Untouched(Step(w, e), q)
  {
    hide Invariant;
    StepKeepsInvariant(w, e);
    assert Step(w, e).svc.queues == w.svc.queues && Step(w, e).received == w.received;
  }

  lemma {:induction false} WorkersLeaveQueues(w: World, es: seq<Event>, q: QueueId)
    requires Untouched(w, q) && OnlyWorkers(es)
    ensures Untouched(Run(w, es), q)
    decreases |es|
  {
    if es != [] {
      hide Untouched, Step;
      WorkersLeaveQueues(w, es[..|es| - 1], q);
      WorkerLeavesQueues(Run(w, es[..|es| - 1]), es[|es| - 1], q);
    }
  }

  lemma StreamRises(w: World, q: QueueId, es: seq<Event>)
    requires Untouched(w, q) && !(w.svc.latest.Some? && w.svc.task.Framed?)
    ensures Rising(Stream(w, q, es))
  {
    hide Run, Step;
    RunKeepsInvariant(w, es);
    var later := Run(w, es);
    RunKeepsQueue(w, es, q);
    var rest := later.received[q] + later.svc.queues[q];
    assert Orderly(later.received[q], later.svc.queues[q], later.svc.sequence);
    assert Stream(w, q, es) == Hello(w) + rest;
    if w.svc.latest.Some? {
      RunKeepsOnlyNewer(w, es, q, w.svc.sequence);
      assert Above(rest, w.svc.sequence);
    } else {
      assert Hello(w) + rest == rest;
    }
  }

  lemma SubscribeOpensQueue(w: World)
    requires Invariant(w)
    ensures Untouched(Step(w, Subscribe), |w.svc.queues|)
  {
    SubscribeKeepsInvariant(w);
  }

  lemma {:induction false} RunKeepsQueue(w: World, es: seq<Event>, q: QueueId)
    requires Invariant(w) && q < |w.received|
    ensures q < |Run(w, es).received| == |Run(w, es).svc.queues|
    decreases |es|
  {
    RunKeepsInvariant(w, es);
    if es != [] {
      RunKeepsQueue(w, es[..|es| - 1], q);
      RunKeepsInvariant(w, es[..|es| - 1]);
    }
  }

  /** At any reachable moment, whatever workers do between `subscribe` and `latest`: the client
      sees rising numbers, hello frame included, whatever happens afterwards, exactly when at
      `latest` there is no hello frame or the polling task has no frame waiting to be published. */
  lemma HelloIsInOrderIffNothingPending(
    connection: Option<Connection>, source: Source, device: string, past: seq<Event>, between: seq<Event>)
    requires OnlyWorkers(between)
    ensures var before := Run(Initial(connection, source, device), past);
      var w, q := Greeted(before, between), |before.svc.queues|;
      (forall es: seq<Event> :: Rising(Stream(w, q, es))) <==> !(w.svc.latest.Some? && w.svc.task.Framed?)
  {
    hide Run, Step;
    var before := Run(Initial(connection, source, device), past);
    RunKeepsInvariant(Initial(connection, source, device), past);
    var w, q := Greeted(before, between), |before.svc.queues|;
    SubscribeOpensQueue(before);
    WorkersLeaveQueues(Step(before, Subscribe), between, q);
    if w.svc.latest.Some? && w.svc.task.Framed? {
      PendingFrameRepeats(w, q);
      assert !Rising(Stream(w, q, [Broadcast]));
    } else {
      forall es: seq<Event>
        ensures Rising(Stream(w, q, es))
      {
        StreamRises(w, q, es);
      }
    }
  }

  lemma PendingFrameRepeats(w: World, q: QueueId)
    requires Untouched(w, q) && w.svc.latest.Some? && w.svc.task.Framed?
    ensures Stream(w, q, [Broadcast]) == [w.svc.latest.value, w.svc.task.update]
    ensures !Rising(Stream(w, q, [Broadcast]))
  {
    var later := Step(w, Broadcast);
    RunSnoc(w, [], Broadcast);
    assert [] + [Broadcast] == [Broadcast];
    assert later.received[q] == [] && later.svc.queues[q] == [w.svc.task.update];
    var stream := Stream(w, q, [Broadcast]);
    assert stream == [w.svc.latest.value, w.svc.task.update];
    assert stream[0].sequence >= stream[1].sequence;
  }

  /** It happens, and with nothing pending at the subscription: the first worker returns between
      `subscribe` and `latest`, and the hello frame is the one that the queue then brings again. */
  lemma HelloCanRepeat(connection: Option<Connection>, device: string, id: WorkerId, snapshot: Snapshot)
    ensures var before := Run(Initial(connection, Ssh, device), FirstPoll(id));
      var w := Greeted(before, [Finish(id, Collected(snapshot))]);
      && before.svc.latest.None? && !before.svc.task.Framed?
      && Hello(w) != []
      && Stream(w, |before.svc.queues|, [Broadcast]) == Hello(w) + Hello(w)
  {
    hide Run, Stream;
    var last := Finish(id, Collected(snapshot));
    FirstPollIsOut(connection, device, id);
    var before := Run(Initial(connection, Ssh, device), FirstPoll(id));
    RunKeepsInvariant(Initial(connection, Ssh, device), FirstPoll(id));
    SubscribeOpensQueue(before);
    var subscribed := Step(before, Subscribe);
    RunSnoc(subscribed, [], last);
    NothingRun(subscribed);
    assert [] + [last] == [last];
    WorkersLeaveQueues(subscribed, [last], |before.svc.queues|);
    PendingFrameRepeats(Run(subscribed, [last]), |before.svc.queues|);
  }

  lemma NothingRun(w: World)
    ensures Run(w, []) == w
  {}

  // ---------------------------------------------------------------- the service object

  /** The service as it updates its fields; each method is one uninterrupted stretch of a
      call. `stop` awaits the cancelled task, so it is two stretches. */
  class SnapshotService {
    var connection: Option<Connection>
    var source: Source
    var device: string
    var latest: Option<Frame>
    var sequence: nat
    var task: Task
    var subscribers: set<QueueId>
    var queues: seq<seq<Frame>>

    function State(): Service
      reads this
    {
      Service(connection, source, device, latest, sequence, task, subscribers, queues)
    }

    constructor (connection: Option<Connection>, source: Source, device: string)
      ensures State() == Initial(connection, source, device).svc
    {
      this.connection, this.source, this.device := connection, source, device;
      latest, sequence, task, subscribers, queues := None, 0, NoTask, {}, [];
    }

    method MakeFrame(connected: bool, from: Option<Source>, of: Option<string>,
                     error: Option<string>, snapshot: Option<Snapshot>) returns (f: Frame)
      modifies this`sequence, this`latest
      ensures f == NextFrame(old(State()), connected, from, of, error, snapshot)
      ensures State() == Install(old(State()), f)
    {
      var kept := snapshot;
      if snapshot.None? && latest.Some? {
        kept := latest.value.snapshot;
      }
      sequence := sequence + 1;
      var shownSource := if from.Some? then from.value else source;
      var shownDevice := OrElse(of, if latest.Some? then latest.value.device else device);
      f := Frame(sequence, shownSource, shownDevice, connected, error, kept);
      latest := Some(f);
    }

    method PutLatest(q: QueueId, f: Frame)
      requires q < |queues|
      modifies this`queues
      ensures queues == old(queues)[q := Send(old(queues)[q], f)]
    {
      if |queues[q]| < 1 {
        queues := queues[q := queues[q] + [f]];
      } else {
        queues := queues[q := queues[q][1..]];
        queues := queues[q := queues[q] + [f]];
      }
    }

    method PublishUpdate(f: Frame)
      requires Sound(State())
      modifies this`queues
      ensures State() == Publish(old(State()), f)
    {
      var todo := subscribers;
      while todo != {}
        invariant todo <= subscribers
        invariant queues == Deliver(old(queues), subscribers - todo, f)
        decreases todo
      {
        var q :| q in todo;
        PutLatest(q, f);
        todo := todo - {q};
      }
      assert subscribers - todo == subscribers;
    }

    /** The first half of the tail of `_run`: a worker's error becomes a frame. */
    method FrameOutcome()
      requires task.Raised?
      modifies this
      ensures State() == FrameRaised(old(State()))
    {
      var f := MakeFrame(false, None, None, Some(task.error), None);
      task := Framed(f);
    }

    /** The second half: publish. */
    method PublishOutcome()
      requires Sound(State()) && task.Framed?
      modifies this
      ensures State() == PublishTask(old(State()))
    {
      PublishUpdate(task.update);
      task := Sleeping;
    }

    method AnnounceDisconnected(reason: string)
      requires Sound(State())
      modifies this`sequence, this`latest, this`queues
      ensures State() == BroadcastDisconnected(old(State()), reason)
    {
      sequence := sequence + 1;
      var f := Frame(sequence, Unset, device, false, Some(reason), None);
      latest := Some(f);
      PublishUpdate(f);
    }

    method ConfigureConnection(c: Connection)
      modifies this`connection, this`source, this`device, this`latest
      ensures State() == Configure(old(State()), c)
    {
      connection, source, device, latest := Some(c), Ssh, DeviceOf(c), None;
    }

    method ClearConnection(reason: string)
      requires Sound(State())
      modifies this
      ensures State() == Clear(old(State()), reason)
    {
      connection, source, latest := None, Unset, None;
      if !task.NoTask? {
        task := NoTask;
      }
      AnnounceDisconnected(reason);
    }

    method StartPolling()
      modifies this`task
      ensures State() == Start(old(State()))
    {
      if source.Unset? {
        return;
      }
      if task.NoTask? || task.Ended? {
        task := Sleeping;
      }
    }

    method AddSubscriber() returns (q: QueueId)
      requires Sound(State())
      modifies this`queues, this`subscribers
      ensures q == |old(queues)| && q !in old(subscribers)
      ensures State() == old(State()).(queues := old(queues) + [[]], subscribers := old(subscribers) + {q})
    {
      q := |queues|;
      queues := queues + [[]];
      subscribers := subscribers + {q};
    }

    method SendGoodbye(q: QueueId)
      requires q < |queues|
      modifies this`sequence, this`latest, this`queues
      ensures State() == SayGoodbye(old(State()), q)
    {
      var f := MakeFrame(false, None, None, Some("service shutting down"), None);
      PutLatest(q, f);
    }

    /** `stop` up to its await. */
    method BeginStop()
      modifies this`task
      ensures State() == old(State()).(task := NoTask)
    {
      task := NoTask;
    }

    /** `stop` after its await: one new frame per queue, in an order Python leaves open. */
    method EndStop() returns (order: seq<QueueId>)
      requires Sound(State())
      modifies this
      ensures Lists(order, old(subscribers))
      ensures forall q :: q in order <==> q in old(subscribers)
      ensures forall i, j :: 0 <= i < j < |order| ==> order[i] != order[j]
      ensures State() == FinishStop(old(State()), order)
    {
      hide SayGoodbye, Goodbyes;
      var todo := subscribers;
      order := [];
      NoGoodbyes(State());
      while todo != {}
        invariant todo <= subscribers == old(subscribers)
        invariant Lists(order, subscribers - todo)
        invariant Within(order, |old(queues)|)
        invariant State() == Goodbyes(old(State()), order)
        decreases todo
      {
        var q :| q in todo;
        GoodbyesSnoc(old(State()), order, q);
        SendGoodbye(q);
        OneMore(subscribers, todo, q);
        ListsSnoc(order, subscribers - todo, q);
        order := order + [q];
        todo := todo - {q};
      }
      assert subscribers - todo == subscribers;
      subscribers := {};
    }
  }

  lemma ListsSnoc(order: seq<QueueId>, queues: set<QueueId>, q: QueueId)
    requires Lists(order, queues) && q !in queues
    ensures Lists(order + [q], queues + {q})
  {
    var longer := order + [q];
    assert longer[|order|] == q;
    forall p | p in queues
      ensures p in longer
    {
      var i :| 0 <= i < |order| && order[i] == p;
      assert longer[i] == p;
    }
  }

  lemma OneMore(all: set<QueueId>, todo: set<QueueId>, q: QueueId)
    requires q in todo && todo <= all
    ensures all - (todo - {q}) == all - todo + {q}
  {}

  lemma NoGoodbyes(s: Service)
    ensures Goodbyes(s, []) == s
  {}

  lemma {:induction false} GoodbyesSnoc(s: Service, order: seq<QueueId>, q: QueueId)
    requires Within(order + [q], |s.queues|) && Within(order, |s.queues|)
    ensures q < |s.queues|
    ensures Goodbyes(s, order + [q]) == SayGoodbye(Goodbyes(s, order), q)
    decreases |order|
  {
    assert (order + [q])[|order|] == q;
    if order == [] {
      NoGoodbyes(SayGoodbye(s, q));
    } else {
      assert (order + [q])[1..] == order[1..] + [q];
      GoodbyesSnoc(SayGoodbye(s, order[0]), order[1..], q);
    }
  }
}
