/** Over every interleaving of the consumer's goroutines no message is lost, duplicated or committed
    without having been processed. */
module PipelineSafety {
  import opened Kafka
  import opened Counting
  import opened Pipeline
  import Committer

  // ---- how often a message is at a place ----

  function Held(f: Fetcher, m: Message): nat { if f.held == [] then 0 else Same(f.held[0], m) }
  function OfJob(j: Job, m: Message): nat { Same(j.msg, m) }
  function OfItem(i: Item, m: Message): nat { Same(i.msg, m) }
  function OfHanded(h: (Operation, Message), m: Message): nat { Same(h.1, m) }
  function AtWorker(w: Worker, m: Message): nat {
    match w case Processing(job) => Same(job.msg, m) case Reporting(ack) => Same(ack.message, m) case _ => 0
  }
  function OkAtWorker(w: Worker, m: Message): nat { if w.Reporting? then OfOkAck(w.ack, m) else 0 }

  ghost function Buffered(agg: Aggregator, m: Message): nat
    requires |agg.buffers| == 3
  {
    Sum(agg.buffers[0], m, OfItem) + Sum(agg.buffers[1], m, OfItem) + Sum(agg.buffers[2], m, OfItem)
  }

  // Handed to the batch function, not yet acknowledged.
  ghost function InBatch(agg: Aggregator, m: Message): nat
    requires |agg.buffers| == 3
  {
    match agg.doing
    case Flushing(stage, true, _) => if stage < 3 then Sum(agg.buffers[stage], m, OfItem) else 0
    case _ => 0
  }

  /** How often `m` is anywhere between the reader and the committer, or taken by the committer. */
  ghost function Everywhere(s: State, m: Message): nat
    requires |s.agg.buffers| == 3
  {
    Sum(s.fetchers, m, Held) + Sum(s.jobs, m, OfJob) + Sum(s.workers, m, AtWorker) + Sum(s.batchCh, m, OfItem)
    + Buffered(s.agg, m) + Sum(s.acks, m, OfAck) + Sum(s.received, m, OfAck)
  }

  /** Successful acknowledgements of `m`, sent or about to be sent. */
  ghost function Succeeding(s: State, m: Message): nat
    requires |s.agg.buffers| == 3
  {
    Sum(s.workers, m, OkAtWorker) + InBatch(s.agg, m) + Sum(s.acks, m, OfOkAck) + Sum(s.received, m, OfOkAck)
  }

  // ---- the shape of reachable states ----

  ghost predicate FetcherOk(f: Fetcher) {
    && |f.held| <= 1
    && (f.done ==> f.held == [])
    && (f.held != [] ==>
          && (f.pc.Check? || f.pc.Try? ==> f.held[0].op == Create)
          && (f.pc.TryLate? ==> f.held[0].op in {Delete, Update}))
  }

  ghost predicate FetchersOk(fs: seq<Fetcher>) { forall i :: 0 <= i < |fs| ==> FetcherOk(fs[i]) }

  ghost predicate ItemOk(i: Item) { i.op == i.msg.op && StageOf(i.op) >= 0 }

  ghost predicate ChannelOk(ch: seq<Item>) { forall i :: 0 <= i < |ch| ==> ItemOk(ch[i]) }

  ghost predicate BufferOk(b: seq<Item>, op: Operation) { forall i :: 0 <= i < |b| ==> b[i].msg.op == op }

  ghost predicate HandedOk(hs: seq<(Operation, Message)>) {
    forall i :: 0 <= i < |hs| ==> hs[i].0 == hs[i].1.op && StageOf(hs[i].0) >= 0
  }

  ghost predicate BuffersOk(agg: Aggregator) {
    && |agg.buffers| == 3
    && (forall k :: 0 <= k < 3 ==> BufferOk(agg.buffers[k], OpOf(k)))
  }

  // Once the final flush has begun, the stages behind it stay empty.
  ghost predicate DrainOk(agg: Aggregator, batchCh: seq<Item>, closed: bool)
    requires |agg.buffers| == 3
  {
    match agg.doing
    case Flushing(stage, _, true) =>
      batchCh == [] && closed && (forall k :: 0 <= k < 3 && k < stage ==> agg.buffers[k] == [])
    case Ended => batchCh == [] && closed && (forall k :: 0 <= k < 3 ==> agg.buffers[k] == [])
    case _ => true
  }

  ghost predicate ClosingOk(s: State) {
    && (s.jobsClosed ==> AllFetchersDone(s))
    && (forall i :: 0 <= i < |s.workers| && s.workers[i].Stopped? ==> s.jobs == [] && s.jobsClosed)
    && (s.acksClosed ==> s.jobsClosed && AllWorkersStopped(s) && s.agg.doing.Ended?)
  }

  ghost predicate Shape(s: State) {
    && FetchersOk(s.fetchers) && ChannelOk(s.batchCh) && BuffersOk(s.agg) && HandedOk(s.handed)
    && s.ignored == []
    && DrainOk(s.agg, s.batchCh, s.jobsClosed)
    && ClosingOk(s)
  }

  ghost predicate Conserved(s: State, m: Message)
    requires |s.agg.buffers| == 3
  {
    Everywhere(s, m) == Sum(s.fetched, m, Same)
  }

  ghost predicate Accounted(s: State, m: Message)
    requires |s.agg.buffers| == 3
  {
    Succeeding(s, m) == Sum(s.worked, m, Same) + Sum(s.handed, m, OfHanded)
  }

  // ---- fetch loops ----

  lemma RouteShape(c: Config, s: State, i: nat)
    requires c.Valid() && Shape(s) && i < |s.fetchers| && |s.fetchers[i].held| == 1 && !s.fetchers[i].done
    ensures Shape(Route(c, s, i))
  {
  }

  lemma FetcherShape(c: Config, s: State, a: Action)
    requires c.Valid() && Shape(s) && (a.Fetch? || a.Advance? || a.Timeout? || a.StopFetching?)
    ensures Shape(FetcherStep(c, s, a))
  {
    if a.Advance? && a.reader < |s.fetchers| && !s.fetchers[a.reader].done && |s.fetchers[a.reader].held| == 1 {
      RouteShape(c, s, a.reader);
    }
  }

  // `t` has the same messages as `s` everywhere except at the places named in the lemmas below.
  ghost predicate Moves(s: State, t: State, m: Message)
    requires |s.agg.buffers| == 3 && |t.agg.buffers| == 3
  {
    && (Conserved(s, m) ==> Conserved(t, m))
    && (Accounted(s, m) ==> Accounted(t, m))
  }

  lemma SetFetcherMoves(s: State, i: nat, f: Fetcher, m: Message)
    requires |s.agg.buffers| == 3 && i < |s.fetchers|
    ensures Held(s.fetchers[i], m) == Held(f, m) ==> Moves(s, SetFetcher(s, i, f), m)
  {
    SumUpdate(s.fetchers, i, f, m, Held);
  }

  lemma SendJobMoves(c: Config, s: State, i: nat, m: Message)
    requires |s.agg.buffers| == 3 && i < |s.fetchers| && |s.fetchers[i].held| == 1 && c.workers > 0
    ensures Moves(s, SendJob(c, s, i), m)
  {
    var f := s.fetchers[i];
    SumUpdate(s.fetchers, i, f.(held := [], nextWorker := (f.nextWorker + 1) % c.workers), m, Held);
    SumPush(s.jobs, [Job(f.held[0], f.nextWorker, i)], m, OfJob);
  }

  lemma SendBatchMoves(s: State, i: nat, m: Message)
    requires |s.agg.buffers| == 3 && i < |s.fetchers| && |s.fetchers[i].held| == 1
    ensures Moves(s, SendBatch(s, i), m)
  {
    var f := s.fetchers[i];
    SumUpdate(s.fetchers, i, f.(held := []), m, Held);
    SumPush(s.batchCh, [Item(f.held[0].op, f.held[0], i)], m, OfItem);
  }

  lemma FetchMoves(s: State, i: nat, f: Fetcher, msg: Message, m: Message)
    requires |s.agg.buffers| == 3 && i < |s.fetchers| && s.fetchers[i].held == [] && f.held == [msg]
    ensures Moves(s, SetFetcher(s.(fetched := s.fetched + [msg]), i, f), m)
  {
    SumUpdate(s.fetchers, i, f, m, Held);
    SumPush(s.fetched, [msg], m, Same);
  }

  lemma {:induction false} RouteMoves(c: Config, s: State, i: nat, m: Message)
    requires c.Valid() && |s.agg.buffers| == 3 && i < |s.fetchers| && |s.fetchers[i].held| == 1
    ensures Moves(s, Route(c, s, i), m)
  {
    var t := Route(c, s, i);
    if t == SendJob(c, s, i) {
      SendJobMoves(c, s, i, m);
    } else if t == SendBatch(s, i) {
      SendBatchMoves(s, i, m);
    } else if t != s {
      assert t == SetFetcher(s, i, s.fetchers[i].(pc := t.fetchers[i].pc));
      SetFetcherMoves(s, i, t.fetchers[i], m);
    }
  }

  lemma FetcherMoves(c: Config, s: State, a: Action, m: Message)
    requires c.Valid() && |s.agg.buffers| == 3 && (a.Fetch? || a.Advance? || a.Timeout? || a.StopFetching?)
    ensures Moves(s, FetcherStep(c, s, a), m)
  {
    var i := a.reader;
    if i < |s.fetchers| && !s.fetchers[i].done {
      var t := FetcherStep(c, s, a);
      if a.Fetch? && s.fetchers[i].held == [] {
        FetchMoves(s, i, t.fetchers[i], a.msg, m);
      } else if a.Advance? && |s.fetchers[i].held| == 1 {
        RouteMoves(c, s, i, m);
      } else if t != s {
        SetFetcherMoves(s, i, t.fetchers[i], m);
      }
    }
  }

  // ---- workers ----

  lemma WorkerShape(c: Config, s: State, a: Action)
    requires Shape(s) && (a.TakeJob? || a.Finish? || a.Report? || a.StopWorker?)
    ensures Shape(WorkerStep(c, s, a))
  {
  }

  lemma TakeJobMoves(s: State, w: nat, m: Message)
    requires |s.agg.buffers| == 3 && w < |s.workers| && s.workers[w].Free? && s.jobs != []
    ensures Moves(s, s.(jobs := s.jobs[1..], workers := s.workers[w := Processing(s.jobs[0])]), m)
  {
    SumUpdate(s.workers, w, Processing(s.jobs[0]), m, AtWorker);
    SumUpdate(s.workers, w, Processing(s.jobs[0]), m, OkAtWorker);
  }

  lemma FinishMoves(s: State, w: nat, ack: Ack, m: Message)
    requires |s.agg.buffers| == 3 && w < |s.workers| && s.workers[w].Processing? && s.workers[w].job.msg == ack.message
    ensures Moves(s, s.(workers := s.workers[w := Reporting(ack)],
                        worked := if ack.ok then s.worked + [ack.message] else s.worked), m)
  {
    SumUpdate(s.workers, w, Reporting(ack), m, AtWorker);
    SumUpdate(s.workers, w, Reporting(ack), m, OkAtWorker);
    SumPush(s.worked, [ack.message], m, Same);
  }

  lemma ReportMoves(s: State, w: nat, m: Message)
    requires |s.agg.buffers| == 3 && w < |s.workers| && s.workers[w].Reporting?
    ensures Moves(s, s.(acks := s.acks + [s.workers[w].ack], workers := s.workers[w := Free]), m)
  {
    SumUpdate(s.workers, w, Free, m, AtWorker);
    SumUpdate(s.workers, w, Free, m, OkAtWorker);
    SumPush(s.acks, [s.workers[w].ack], m, OfAck);
    SumPush(s.acks, [s.workers[w].ack], m, OfOkAck);
  }

  lemma StopMoves(s: State, w: nat, m: Message)
    requires |s.agg.buffers| == 3 && w < |s.workers| && s.workers[w].Free?
    ensures Moves(s, s.(workers := s.workers[w := Stopped]), m)
  {
    SumUpdate(s.workers, w, Stopped, m, AtWorker);
    SumUpdate(s.workers, w, Stopped, m, OkAtWorker);
  }

  lemma WorkerMoves(c: Config, s: State, a: Action, m: Message)
    requires |s.agg.buffers| == 3 && (a.TakeJob? || a.Finish? || a.Report? || a.StopWorker?)
    ensures Moves(s, WorkerStep(c, s, a), m)
  {
    var w := a.worker;
    if w < |s.workers| && WorkerStep(c, s, a) != s {
      match a
      case TakeJob(_) => TakeJobMoves(s, w, m);
      case Finish(_, ok) =>
        var job := s.workers[w].job;
        FinishMoves(s, w, Ack(job.msg, job.workerID, job.readerIdx, ok), m);
      case Report(_) => ReportMoves(s, w, m);
      case StopWorker(_) => StopMoves(s, w, m);
    }
  }

  // ---- aggregator ----

  ghost predicate OwnOperation(s: State) {
    ChannelOk(s.batchCh) && BuffersOk(s.agg) && HandedOk(s.handed) && s.ignored == []
  }

  lemma ReceiveKeepsOperations(c: Config, s: State, a: Action)
    requires OwnOperation(s) && a.Receive?
    ensures OwnOperation(AggregatorStep(c, s, a))
  {
  }

  lemma FlushKeepsOperations(c: Config, s: State, a: Action)
    requires OwnOperation(s) && a.Flush?
    ensures OwnOperation(AggregatorStep(c, s, a))
  {
  }

  lemma AggregatorKeepsOperations(c: Config, s: State, a: Action)
    requires OwnOperation(s) && (a.Receive? || a.Tick? || a.SeeClosed? || a.Flush?)
    ensures OwnOperation(AggregatorStep(c, s, a))
  {
    if a.Receive? {
      ReceiveKeepsOperations(c, s, a);
    } else if a.Flush? {
      FlushKeepsOperations(c, s, a);
    }
  }

  lemma AggregatorKeepsDrain(c: Config, s: State, a: Action)
    requires |s.agg.buffers| == 3 && DrainOk(s.agg, s.batchCh, s.jobsClosed) && ClosingOk(s)
    requires a.Receive? || a.Tick? || a.SeeClosed? || a.Flush?
    ensures var t := AggregatorStep(c, s, a); DrainOk(t.agg, t.batchCh, t.jobsClosed) && ClosingOk(t)
  {
  }

  lemma AggregatorShape(c: Config, s: State, a: Action)
    requires Shape(s) && (a.Receive? || a.Tick? || a.SeeClosed? || a.Flush?)
    ensures Shape(AggregatorStep(c, s, a))
  {
    AggregatorKeepsOperations(c, s, a);
    AggregatorKeepsDrain(c, s, a);
  }

  lemma {:induction false} TaggedCount(op: Operation, items: seq<Item>, m: Message)
    ensures Sum(Tagged(op, items), m, OfHanded) == Sum(items, m, OfItem)
  {
    if items != [] {
      assert Tagged(op, items)[1..] == Tagged(op, items[1..]);
      TaggedCount(op, items[1..], m);
    }
  }

  lemma ReceiveMoves(s: State, stage: nat, doing: Activity, m: Message)
    requires |s.agg.buffers| == 3 && s.batchCh != [] && stage < 3 && s.agg.doing.Selecting?
    requires doing == Selecting || doing == Flushing(0, false, false)
    ensures Moves(s, s.(batchCh := s.batchCh[1..],
                        agg := Aggregator(s.agg.buffers[stage := s.agg.buffers[stage] + [s.batchCh[0]]], doing)), m)
  {
    SumPush(s.agg.buffers[stage], [s.batchCh[0]], m, OfItem);
  }

  lemma HandMoves(s: State, stage: nat, closing: bool, m: Message)
    requires |s.agg.buffers| == 3 && stage < 3 && s.agg.doing == Flushing(stage, false, closing)
    ensures Moves(s, s.(agg := s.agg.(doing := Flushing(stage, true, closing)),
                        handed := s.handed + Tagged(OpOf(stage), s.agg.buffers[stage])), m)
  {
    TaggedCount(OpOf(stage), s.agg.buffers[stage], m);
    SumPush(s.handed, Tagged(OpOf(stage), s.agg.buffers[stage]), m, OfHanded);
  }

  lemma BatchAckMoves(s: State, stage: nat, ack: Ack, m: Message)
    requires |s.agg.buffers| == 3 && stage < 3
    requires s.agg.doing.Flushing? && s.agg.doing.handed && s.agg.doing.stage == stage
    requires s.agg.buffers[stage] != [] && ack.ok && ack.message == s.agg.buffers[stage][0].msg
    ensures Moves(s, s.(agg := s.agg.(buffers := s.agg.buffers[stage := s.agg.buffers[stage][1..]]),
                        acks := s.acks + [ack]), m)
  {
    SumPush(s.acks, [ack], m, OfAck);
    SumPush(s.acks, [ack], m, OfOkAck);
  }

  lemma AggregatorMoves(c: Config, s: State, a: Action, m: Message)
    requires Shape(s) && (a.Receive? || a.Tick? || a.SeeClosed? || a.Flush?)
    ensures Moves(s, AggregatorStep(c, s, a), m)
  {
    if a.Receive? && s.agg.doing.Selecting? && s.batchCh != [] {
      assert ItemOk(s.batchCh[0]);
      ReceiveMoves(s, StageOf(s.batchCh[0].op), AggregatorStep(c, s, a).agg.doing, m);
    } else if a.Flush? && s.agg.doing.Flushing? && s.agg.doing.stage < 3 {
      var stage := s.agg.doing.stage;
      var buffer := s.agg.buffers[stage];
      if buffer != [] && !s.agg.doing.handed {
        HandMoves(s, stage, s.agg.doing.closing, m);
      } else if buffer != [] {
        BatchAckMoves(s, stage, Ack(buffer[0].msg, -1, buffer[0].readerIdx, true), m);
      }
    }
  }

  // ---- closing and committing ----

  lemma ControlShape(s: State, a: Action)
    requires Shape(s) && (a.CloseQueues? || a.CloseAcks? || a.CommitterReceives?)
    ensures Shape(ControlStep(s, a))
  {
  }

  lemma ControlMoves(s: State, a: Action, m: Message)
    requires |s.agg.buffers| == 3 && (a.CloseQueues? || a.CloseAcks? || a.CommitterReceives?)
    ensures Moves(s, ControlStep(s, a), m)
  {
    if a.CommitterReceives? && s.acks != [] {
      SumPush(s.received, [s.acks[0]], m, OfAck);
      SumPush(s.received, [s.acks[0]], m, OfOkAck);
    }
  }

  // ---- runs ----

  lemma {:induction false} RunShape(c: Config, run: seq<Action>)
    requires c.Valid()
    ensures Shape(Exec(c, run))
  {
    if run != [] {
      RunShape(c, run[..|run|-1]);
      var s, a := Exec(c, run[..|run|-1]), run[|run|-1];
      if a.Fetch? || a.Advance? || a.Timeout? || a.StopFetching? { FetcherShape(c, s, a); }
      else if a.TakeJob? || a.Finish? || a.Report? || a.StopWorker? { WorkerShape(c, s, a); }
      else if a.Receive? || a.Tick? || a.SeeClosed? || a.Flush? { AggregatorShape(c, s, a); }
      else { ControlShape(s, a); }
    }
  }

  lemma InitCounts(c: Config, m: Message)
    requires c.Valid()
    ensures Conserved(Init(c), m) && Accounted(Init(c), m)
  {
    var s := Init(c);
    SumIsZero(s.fetchers, m, Held);
    SumIsZero(s.workers, m, AtWorker);
    SumIsZero(s.workers, m, OkAtWorker);
  }

  lemma {:induction false} RunKeeps(c: Config, run: seq<Action>, m: Message)
    requires c.Valid()
    ensures Shape(Exec(c, run)) && Conserved(Exec(c, run), m) && Accounted(Exec(c, run), m)
  {
    RunShape(c, run);
    if run == [] {
      InitCounts(c, m);
    } else {
      RunKeeps(c, run[..|run|-1], m);
      var s, a := Exec(c, run[..|run|-1]), run[|run|-1];
      if a.Fetch? || a.Advance? || a.Timeout? || a.StopFetching? { FetcherMoves(c, s, a, m); }
      else if a.TakeJob? || a.Finish? || a.Report? || a.StopWorker? { WorkerMoves(c, s, a, m); }
      else if a.Receive? || a.Tick? || a.SeeClosed? || a.Flush? { AggregatorMoves(c, s, a, m); }
      else { ControlMoves(s, a, m); }
    }
  }

  // ---- what every interleaving guarantees ----

  /** Conservation: a message is held as often as it was fetched, by the fetch loops, the job queue, the
      workers, the batch channel, the aggregator, the ack channel, or the committer, which in turn has it as
      failed, committed, dropped or waiting. Fetched once means exactly one place. */
  lemma {:induction false} EveryMessageHasOnePlace(c: Config, run: seq<Action>, accepts: Committer.Accepts, m: Message)
    requires c.Valid()
    ensures var s := Exec(c, run);
            Sum(s.fetched, m, Same) ==
            Sum(s.fetchers, m, Held) + Sum(s.jobs, m, OfJob) + Sum(s.workers, m, AtWorker) + Sum(s.batchCh, m, OfItem)
            + Buffered(s.agg, m) + Sum(s.acks, m, OfAck) + Committer.Placed(Committer.Run(s.received, accepts), m)
  {
    RunKeeps(c, run, m);
    Committer.EveryAckHasOnePlace(Exec(c, run).received, accepts, m);
  }

  lemma {:induction false} Occurs<T(!new)>(xs: seq<T>, m: Message, weight: (T, Message) -> nat)
    ensures Sum(xs, m, weight) > 0 <==> exists i :: 0 <= i < |xs| && weight(xs[i], m) > 0
  {
    if xs != [] {
      Occurs(xs[1..], m, weight);
      if Sum(xs[1..], m, weight) > 0 {
        var i :| 0 <= i < |xs[1..]| && weight(xs[1..][i], m) > 0;
        assert weight(xs[i + 1], m) > 0;
      }
      if i :| 0 < i < |xs| && weight(xs[i], m) > 0 {
        assert weight(xs[1..][i - 1], m) > 0;
      }
    }
  }

  /** Only what a worker processed without error, or what was given to the batch function of its own
      operation, is ever committed. */
  lemma CommittedWasProcessed(c: Config, run: seq<Action>, accepts: Committer.Accepts, p: int, a: Ack)
    requires c.Valid() && p in Committer.Run(Exec(c, run).received, accepts).lanes
    requires a in Committer.Run(Exec(c, run).received, accepts).lanes[p].committed
    ensures a.ok && (a.message in Exec(c, run).worked || (a.message.op, a.message) in Exec(c, run).handed)
  {
    var s, m := Exec(c, run), a.message;
    RunKeeps(c, run, m);
    Committer.CommitsAreConsecutive(s.received, accepts, p);
    var i :| 0 <= i < |s.received| && s.received[i] == a;
    assert OfOkAck(s.received[i], m) > 0;
    Occurs(s.received, m, OfOkAck);
    Occurs(s.worked, m, Same);
    Occurs(s.handed, m, OfHanded);
    if j :| 0 <= j < |s.handed| && OfHanded(s.handed[j], m) > 0 {
      assert s.handed[j] == (m.op, m);
    }
  }

  // The ack behind a committed offset.
  ghost predicate CoveredBy(s: State, p: int, o: int, a: Ack) {
    && a in s.received && a.ok && a.Partition() == p && a.Offset() == o
    && (a.message in s.worked || (a.message.op, a.message) in s.handed)
  }

  ghost predicate Covered(s: State, p: int, o: int) { exists a :: CoveredBy(s, p, o, a) }

  /** A commit of an offset covers all lower ones. From the first successfully acknowledged offset on, each offset up
      to the last committed one has carried a message that was worked without error or handed over. */
  lemma CommitCoversProcessed(c: Config, run: seq<Action>, accepts: Committer.Accepts, p: int, o: int)
    requires c.Valid() && p in Committer.Run(Exec(c, run).received, accepts).lanes
    requires Committer.Successes(Exec(c, run).received, p) != []
    requires Committer.Successes(Exec(c, run).received, p)[0].Offset() <= o
             < Committer.Run(Exec(c, run).received, accepts).lanes[p].next
    ensures Covered(Exec(c, run), p, o)
  {
    var s := Exec(c, run);
    var lane := Committer.Run(s.received, accepts).lanes[p];
    Committer.CommitsAreConsecutive(s.received, accepts, p);
    var a := lane.committed[o - Committer.Successes(s.received, p)[0].Offset()];
    CommittedWasProcessed(c, run, accepts, p, a);
    assert CoveredBy(s, p, o, a);
  }

  /** The aggregator's default branch is unreachable, and each batch function only ever sees its own operation. */
  lemma BatchesAreHomogeneous(c: Config, run: seq<Action>)
    requires c.Valid()
    ensures Exec(c, run).ignored == []
    ensures forall h :: h in Exec(c, run).handed ==> h.0 == h.1.op && StageOf(h.0) >= 0
  {
    RunShape(c, run);
  }

  /** Once the ack channel is closed and empty, everything that was fetched has reached the committer. */
  lemma ShutdownDrains(c: Config, run: seq<Action>, m: Message)
    requires c.Valid() && Exec(c, run).acksClosed && Exec(c, run).acks == []
    ensures Sum(Exec(c, run).received, m, OfAck) == Sum(Exec(c, run).fetched, m, Same)
  {
    var s := Exec(c, run);
    RunKeeps(c, run, m);
    assert s.workers[0].Stopped?;
    forall i | 0 <= i < |s.fetchers| ensures Held(s.fetchers[i], m) == 0 { assert FetcherOk(s.fetchers[i]); }
    SumIsZero(s.fetchers, m, Held);
    SumIsZero(s.workers, m, AtWorker);
  }
}
