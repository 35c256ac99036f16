/** The goroutines of StartConsuming as one step system: fetch loops route messages to the worker
    queue or the batch channel, workers and the batch aggregator acknowledge, the committer receives
    (cdmp-mini/internal/pkg/server/consumer.go:567-763, 1028-1293). Nothing cancels the context. */
module Pipeline {
  import opened Kafka

  // Where a fetch loop is with the message it holds.
  datatype RoutePC =
    | Check(late: bool)   // is the batch channel nearly full? (create only; `late`: after the timeout)
    | Try(late: bool)     // non-blocking send to the batch channel (create only)
    | Offer               // send to the workers or give up after 10 ms
    | Late                // the 10 ms are over
    | TryLate             // non-blocking send to the batch channel (delete and update)
    | Block               // send to the workers however long it takes

  datatype Fetcher = Fetcher(held: seq<Message>, pc: RoutePC, nextWorker: int, done: bool)

  datatype Worker = Free | Processing(job: Job) | Reporting(ack: Ack) | Stopped

  // Buffers of the aggregator in flush order, and what it is doing.
  datatype Activity = Selecting | Flushing(stage: nat, handed: bool, closing: bool) | Ended
  datatype Aggregator = Aggregator(buffers: seq<seq<Item>>, doing: Activity)

  datatype Config = Config(readers: nat, workers: nat, jobCap: nat, batchCap: nat, ackCap: nat) {
    predicate Valid() { workers >= 1 && batchCap >= 1 }
  }

  datatype State = State(
    fetchers: seq<Fetcher>,
    jobs: seq<Job>,
    workers: seq<Worker>,
    batchCh: seq<Item>,
    agg: Aggregator,
    acks: seq<Ack>,
    received: seq<Ack>,        // what the committer has taken from the ack channel
    jobsClosed: bool,          // jobs and batchCh are closed together
    acksClosed: bool,
    // history
    fetched: seq<Message>,
    worked: seq<Message>,      // processed by a worker without error
    handed: seq<(Operation, Message)>,  // given to the batch function of that operation
    ignored: seq<Item>)        // fell into the aggregator's default branch

  function Init(c: Config): State {
    State(seq(c.readers, i => Fetcher([], Offer, if c.workers > 0 then i % c.workers else 0, false)), [],
          seq(c.workers, _ => Free), [], Aggregator([[], [], []], Selecting), [], [], false, false, [], [], [], [])
  }

  datatype Action =
    | Fetch(reader: nat, msg: Message) | Advance(reader: nat) | Timeout(reader: nat) | StopFetching(reader: nat)
    | TakeJob(worker: nat) | Finish(worker: nat, ok: bool) | Report(worker: nat) | StopWorker(worker: nat)
    | Receive(flush: bool) | Tick | SeeClosed | Flush
    | CloseQueues | CloseAcks
    | CommitterReceives

  predicate NearFull(cap: nat, len: nat) {
    var margin := if cap / 8 < 1 then 1 else cap / 8;
    cap - len <= margin
  }

  // ---- fetch loops ----

  function SetFetcher(s: State, i: nat, f: Fetcher): State
    requires i < |s.fetchers|
  {
    s.(fetchers := s.fetchers[i := f])
  }

  function SendBatch(s: State, i: nat): State
    requires i < |s.fetchers| && |s.fetchers[i].held| == 1
  {
    var f := s.fetchers[i];
    SetFetcher(s.(batchCh := s.batchCh + [Item(f.held[0].op, f.held[0], i)]), i, f.(held := []))
  }

  function SendJob(c: Config, s: State, i: nat): State
    requires i < |s.fetchers| && |s.fetchers[i].held| == 1 && c.workers > 0
  {
    var f := s.fetchers[i];
    SetFetcher(s.(jobs := s.jobs + [Job(f.held[0], f.nextWorker, i)]), i,
               f.(held := [], nextWorker := (f.nextWorker + 1) % c.workers))
  }

  // The batch channel would not take the message.
  function GiveUp(s: State, i: nat, late: bool): State
    requires i < |s.fetchers|
  {
    SetFetcher(s, i, s.fetchers[i].(pc := if late then Block else Offer))
  }

  /** One step of the routing code at lines 1251-1290. */
  function Route(c: Config, s: State, i: nat): (t: State)
    requires c.Valid() && i < |s.fetchers| && |s.fetchers[i].held| == 1
    ensures t.agg == s.agg && t.workers == s.workers
  {
    var f := s.fetchers[i];
    var m := f.held[0];
    match f.pc
    case Check(late) =>
      if NearFull(c.batchCap, |s.batchCh|) then GiveUp(s, i, late) else SetFetcher(s, i, f.(pc := Try(late)))
    case Try(late) => if |s.batchCh| < c.batchCap then SendBatch(s, i) else GiveUp(s, i, late)
    case Late =>
      SetFetcher(s, i, f.(pc := if m.op == Create then Check(true)
                                else if m.op in {Delete, Update} then TryLate else Block))
    case TryLate => if |s.batchCh| < c.batchCap then SendBatch(s, i) else GiveUp(s, i, true)
    case _ => if |s.jobs| < c.jobCap then SendJob(c, s, i) else s
  }

  function FetcherStep(c: Config, s: State, a: Action): (t: State)
    requires c.Valid() && (a.Fetch? || a.Advance? || a.Timeout? || a.StopFetching?)
    ensures t.agg == s.agg && t.workers == s.workers
  {
    var i := a.reader;
    if i >= |s.fetchers| || s.fetchers[i].done then s
    else
      var f := s.fetchers[i];
      match a
      case Fetch(_, m) =>
        if f.held != [] then s
        else SetFetcher(s.(fetched := s.fetched + [m]), i,
                        f.(held := [m], pc := if m.op == Create then Check(false) else Offer))
      case Advance(_) => if |f.held| == 1 then Route(c, s, i) else s
      case Timeout(_) => if |f.held| == 1 && f.pc == Offer then SetFetcher(s, i, f.(pc := Late)) else s
      case StopFetching(_) => if f.held == [] then SetFetcher(s, i, f.(done := true)) else s
  }

  // ---- workers ----

  function WorkerStep(c: Config, s: State, a: Action): (t: State)
    requires a.TakeJob? || a.Finish? || a.Report? || a.StopWorker?
    ensures t.agg == s.agg && |t.workers| == |s.workers|
  {
    var w := a.worker;
    if w >= |s.workers| then s
    else
      match (a, s.workers[w])
      case (TakeJob(_), Free) =>
        if s.jobs == [] then s
        else s.(jobs := s.jobs[1..], workers := s.workers[w := Processing(s.jobs[0])])
      case (Finish(_, ok), Processing(job)) =>
        s.(workers := s.workers[w := Reporting(Ack(job.msg, job.workerID, job.readerIdx, ok))],
           worked := if ok then s.worked + [job.msg] else s.worked)
      case (Report(_), Reporting(ack)) =>
        if |s.acks| < c.ackCap then s.(acks := s.acks + [ack], workers := s.workers[w := Free]) else s
      case (StopWorker(_), Free) =>
        if s.jobs == [] && s.jobsClosed then s.(workers := s.workers[w := Stopped]) else s
      case _ => s
  }

  // ---- aggregator ----

  function Tagged(op: Operation, items: seq<Item>): seq<(Operation, Message)> {
    seq(|items|, i requires 0 <= i < |items| => (op, items[i].msg))
  }

  function AggregatorStep(c: Config, s: State, a: Action): (t: State)
    requires |s.agg.buffers| == 3 && (a.Receive? || a.Tick? || a.SeeClosed? || a.Flush?)
    ensures |t.agg.buffers| == 3 && t.workers == s.workers
  {
    match (a, s.agg.doing)
    case (Receive(flush), Selecting) =>
      if s.batchCh == [] then s
      else
        var item := s.batchCh[0];
        var stage := StageOf(item.op);
        var taken := s.(batchCh := s.batchCh[1..]);
        if stage < 0 then taken.(ignored := s.ignored + [item])
        else taken.(agg := Aggregator(s.agg.buffers[stage := s.agg.buffers[stage] + [item]],
                                      if flush then Flushing(0, false, false) else Selecting))
    case (Tick, Selecting) => s.(agg := s.agg.(doing := Flushing(0, false, false)))
    case (SeeClosed, Selecting) =>
      if s.batchCh == [] && s.jobsClosed then s.(agg := s.agg.(doing := Flushing(0, false, true))) else s
    case (Flush, Flushing(stage, handed, closing)) =>
      if stage >= 3 then s.(agg := s.agg.(doing := if closing then Ended else Selecting))
      else
        var buffer := s.agg.buffers[stage];
        if buffer == [] then s.(agg := s.agg.(doing := Flushing(stage + 1, false, closing)))
        else if !handed then
          s.(agg := s.agg.(doing := Flushing(stage, true, closing)), handed := s.handed + Tagged(OpOf(stage), buffer))
        else if |s.acks| < c.ackCap then
          s.(agg := s.agg.(buffers := s.agg.buffers[stage := buffer[1..]]),
             acks := s.acks + [Ack(buffer[0].msg, -1, buffer[0].readerIdx, true)])
        else s
    case _ => s
  }

  // ---- the whole ----

  predicate AllFetchersDone(s: State) { forall i :: 0 <= i < |s.fetchers| ==> s.fetchers[i].done }

  predicate AllWorkersStopped(s: State) { forall i :: 0 <= i < |s.workers| ==> s.workers[i] == Stopped }

  function ControlStep(s: State, a: Action): State
    requires a.CloseQueues? || a.CloseAcks? || a.CommitterReceives?
  {
    match a
    case CloseQueues => if AllFetchersDone(s) then s.(jobsClosed := true) else s
    case CloseAcks => if s.jobsClosed && AllWorkersStopped(s) && s.agg.doing == Ended then s.(acksClosed := true) else s
    case CommitterReceives => if s.acks == [] then s else s.(acks := s.acks[1..], received := s.received + [s.acks[0]])
  }

  /** One atomic step of some goroutine; an action that is not enabled changes nothing. */
  function Step(c: Config, s: State, a: Action): (t: State)
    requires c.Valid() && |s.agg.buffers| == 3
    ensures |t.agg.buffers| == 3 && |t.workers| == |s.workers|
  {
    match a
    case Fetch(_, _) => FetcherStep(c, s, a) case Advance(_) => FetcherStep(c, s, a)
    case Timeout(_) => FetcherStep(c, s, a) case StopFetching(_) => FetcherStep(c, s, a)
    case TakeJob(_) => WorkerStep(c, s, a) case Finish(_, _) => WorkerStep(c, s, a)
    case Report(_) => WorkerStep(c, s, a) case StopWorker(_) => WorkerStep(c, s, a)
    case Receive(_) => AggregatorStep(c, s, a) case Tick => AggregatorStep(c, s, a)
    case SeeClosed => AggregatorStep(c, s, a) case Flush => AggregatorStep(c, s, a)
    case CloseQueues => ControlStep(s, a) case CloseAcks => ControlStep(s, a)
    case CommitterReceives => ControlStep(s, a)
  }

  /** The state after any interleaving; every list of actions is a run. */
  function Exec(c: Config, run: seq<Action>): (s: State)
    requires c.Valid()
    ensures |s.agg.buffers| == 3 && |s.workers| == c.workers
  {
    if run == [] then Init(c) else Step(c, Exec(c, run[..|run|-1]), run[|run|-1])
  }
}
