/** The channels between the goroutines of StartConsuming: queues of bounded length on which nothing is sent once they
    are closed, and through which every message keeps the reader that fetched it
    (cdmp-mini/internal/pkg/server/consumer.go:567-763, 1245-1290). */
module PipelineChannels {
  import opened Kafka
  import opened Pipeline
  import PipelineSafety

  // ---- queues ----

  // At most one more entry, at the end.
  predicate Grows<T(==)>(before: seq<T>, after: seq<T>) { before <= after && |after| <= |before| + 1 }

  predicate Takes(s: State, a: Action) {
    a.TakeJob? && a.worker < |s.workers| && s.workers[a.worker].Free? && s.jobs != []
  }

  predicate Collects(s: State, a: Action) { a.Receive? && s.agg.doing.Selecting? && s.batchCh != [] }

  /** Whatever goroutine takes a step, a free worker that takes a job gets the oldest one, and otherwise the queue only
      grows at its end. */
  lemma JobsAreAQueue(c: Config, s: State, a: Action)
    requires c.Valid() && |s.agg.buffers| == 3
    ensures var t := Step(c, s, a);
            if Takes(s, a) then s.jobs == [s.jobs[0]] + t.jobs && t.workers[a.worker] == Processing(s.jobs[0])
            else Grows(s.jobs, t.jobs)
  {
  }

  /** The aggregator gets the oldest item, and files it behind the others of its operation. */
  lemma ItemsAreAQueue(c: Config, s: State, a: Action)
    requires c.Valid() && |s.agg.buffers| == 3
    ensures var t := Step(c, s, a);
            if Collects(s, a) then
              && s.batchCh == [s.batchCh[0]] + t.batchCh
              && (var k := StageOf(s.batchCh[0].op);
                  k >= 0 ==> t.agg.buffers == s.agg.buffers[k := s.agg.buffers[k] + [s.batchCh[0]]])
            else Grows(s.batchCh, t.batchCh)
  {
  }

  /** The committer gets the oldest acknowledgement, and no other step gives it one. */
  lemma AcksAreAQueue(c: Config, s: State, a: Action)
    requires c.Valid() && |s.agg.buffers| == 3
    ensures var t := Step(c, s, a);
            if a == CommitterReceives && s.acks != [] then
              s.acks == [s.acks[0]] + t.acks && t.received == s.received + [s.acks[0]]
            else Grows(s.acks, t.acks) && t.received == s.received
  {
  }

  // ---- bounds and closing ----

  predicate Bounded(c: Config, s: State) { |s.jobs| <= c.jobCap && |s.batchCh| <= c.batchCap && |s.acks| <= c.ackCap }

  lemma FetcherStaysBounded(c: Config, s: State, a: Action)
    requires c.Valid() && Bounded(c, s) && (a.Fetch? || a.Advance? || a.Timeout? || a.StopFetching?)
    ensures Bounded(c, FetcherStep(c, s, a))
  {
  }

  lemma AggregatorStaysBounded(c: Config, s: State, a: Action)
    requires |s.agg.buffers| == 3 && Bounded(c, s) && (a.Receive? || a.Tick? || a.SeeClosed? || a.Flush?)
    ensures Bounded(c, AggregatorStep(c, s, a))
  {
  }

  lemma StepStaysBounded(c: Config, s: State, a: Action)
    requires c.Valid() && |s.agg.buffers| == 3 && Bounded(c, s)
    ensures Bounded(c, Step(c, s, a))
  {
    if a.Fetch? || a.Advance? || a.Timeout? || a.StopFetching? {
      FetcherStaysBounded(c, s, a);
    } else if a.Receive? || a.Tick? || a.SeeClosed? || a.Flush? {
      AggregatorStaysBounded(c, s, a);
    }
  }

  /** In every run no channel ever holds more than its capacity. */
  lemma {:induction false} ChannelsStayBounded(c: Config, run: seq<Action>)
    requires c.Valid()
    ensures |Exec(c, run).jobs| <= c.jobCap
    ensures |Exec(c, run).batchCh| <= c.batchCap
    ensures |Exec(c, run).acks| <= c.ackCap
  {
    if run != [] {
      ChannelsStayBounded(c, run[..|run|-1]);
      StepStaysBounded(c, Exec(c, run[..|run|-1]), run[|run|-1]);
    }
  }

  lemma ClosedStep(c: Config, s: State, a: Action)
    requires c.Valid() && PipelineSafety.Shape(s)
    ensures var t := Step(c, s, a);
            && (s.jobsClosed ==> t.jobsClosed && |t.jobs| <= |s.jobs| && |t.batchCh| <= |s.batchCh|)
            && (s.acksClosed ==> t.acksClosed && |t.acks| <= |s.acks|)
  {
    if s.jobsClosed { assert forall i :: 0 <= i < |s.fetchers| ==> s.fetchers[i].done; }
    if s.acksClosed { assert forall i :: 0 <= i < |s.workers| ==> s.workers[i] == Stopped; }
  }

  /** In every run nothing is sent on a channel that has been closed, which would be a panic, and none is closed twice
      or opened again. */
  lemma NothingIsSentOnClosed(c: Config, run: seq<Action>, a: Action)
    requires c.Valid()
    ensures var s, t := Exec(c, run), Exec(c, run + [a]);
            && (s.jobsClosed ==> t.jobsClosed && |t.jobs| <= |s.jobs| && |t.batchCh| <= |s.batchCh|)
            && (s.acksClosed ==> t.acksClosed && |t.acks| <= |s.acks|)
  {
    PipelineSafety.RunShape(c, run);
    assert (run + [a])[..|run|] == run;
    ClosedStep(c, Exec(c, run), a);
  }

  // ---- readers ----

  predicate Fetched(run: seq<Action>, m: Message, reader: int) { reader >= 0 && Action.Fetch(reader, m) in run }

  predicate FetchedAck(run: seq<Action>, a: Ack) { Fetched(run, a.message, a.readerIdx) }

  predicate FetchedAcks(run: seq<Action>, acks: seq<Ack>) { forall k :: 0 <= k < |acks| ==> FetchedAck(run, acks[k]) }

  predicate FetchedItems(run: seq<Action>, items: seq<Item>) {
    forall k :: 0 <= k < |items| ==> Fetched(run, items[k].msg, items[k].readerIdx)
  }

  predicate FetchedWorker(run: seq<Action>, w: Worker) {
    match w
    case Processing(job) => Fetched(run, job.msg, job.readerIdx)
    case Reporting(ack) => FetchedAck(run, ack)
    case _ => true
  }

  // Every message is with the reader that fetched it.
  ghost predicate Origins(run: seq<Action>, s: State) {
    && |s.agg.buffers| == 3
    && (forall i :: 0 <= i < |s.fetchers| && s.fetchers[i].held != [] ==> Fetched(run, s.fetchers[i].held[0], i))
    && (forall k :: 0 <= k < |s.jobs| ==> Fetched(run, s.jobs[k].msg, s.jobs[k].readerIdx))
    && (forall w :: 0 <= w < |s.workers| ==> FetchedWorker(run, s.workers[w]))
    && FetchedItems(run, s.batchCh)
    && (forall k :: 0 <= k < 3 ==> FetchedItems(run, s.agg.buffers[k]))
    && FetchedAcks(run, s.acks) && FetchedAcks(run, s.received)
  }

  lemma OriginsLater(run: seq<Action>, s: State, a: Action)
    requires Origins(run, s)
    ensures Origins(run + [a], s)
  {
    assert forall x :: x in run ==> x in run + [a];
  }

  lemma SendJobKeepsOrigins(c: Config, s: State, i: nat, run: seq<Action>)
    requires c.Valid() && i < |s.fetchers| && |s.fetchers[i].held| == 1 && Origins(run, s)
    ensures Origins(run, SendJob(c, s, i))
  {
  }

  lemma SendBatchKeepsOrigins(s: State, i: nat, run: seq<Action>)
    requires i < |s.fetchers| && |s.fetchers[i].held| == 1 && Origins(run, s)
    ensures Origins(run, SendBatch(s, i))
  {
  }

  // Another place in the code, or no message.
  lemma SetFetcherKeepsOrigins(s: State, i: nat, f: Fetcher, run: seq<Action>)
    requires i < |s.fetchers| && Origins(run, s) && (f.held != [] ==> Fetched(run, f.held[0], i))
    ensures Origins(run, SetFetcher(s, i, f))
  {
  }

  lemma RouteKeepsOrigins(c: Config, s: State, i: nat, run: seq<Action>)
    requires c.Valid() && i < |s.fetchers| && |s.fetchers[i].held| == 1 && Origins(run, s)
    ensures Origins(run, Route(c, s, i))
  {
    var pc := s.fetchers[i].pc;
    if (pc.Try? || pc == TryLate) && |s.batchCh| < c.batchCap {
      SendBatchKeepsOrigins(s, i, run);
    } else if pc == Offer || pc == Block {
      SendJobKeepsOrigins(c, s, i, run);
    } else {
      SetFetcherKeepsOrigins(s, i, Route(c, s, i).fetchers[i], run);
    }
  }

  lemma FetcherKeepsOrigins(c: Config, s: State, a: Action, run: seq<Action>)
    requires c.Valid() && (a.Fetch? || a.Advance? || a.Timeout? || a.StopFetching?) && Origins(run, s) && a in run
    ensures Origins(run, FetcherStep(c, s, a))
  {
    if a.Advance? && a.reader < |s.fetchers| && !s.fetchers[a.reader].done && |s.fetchers[a.reader].held| == 1 {
      RouteKeepsOrigins(c, s, a.reader, run);
    }
  }

  lemma WorkerKeepsOrigins(c: Config, s: State, a: Action, run: seq<Action>)
    requires a.TakeJob? || a.Finish? || a.Report? || a.StopWorker?
    requires Origins(run, s)
    ensures Origins(run, WorkerStep(c, s, a))
  {
    if a.worker < |s.workers| { assert FetchedWorker(run, s.workers[a.worker]); }
  }

  lemma ReceiveKeepsOrigins(c: Config, s: State, a: Action, run: seq<Action>)
    requires a.Receive? && Origins(run, s)
    ensures Origins(run, AggregatorStep(c, s, a))
  {
  }

  lemma FlushKeepsOrigins(c: Config, s: State, run: seq<Action>)
    requires Origins(run, s)
    ensures Origins(run, AggregatorStep(c, s, Flush))
  {
  }

  lemma AggregatorKeepsOrigins(c: Config, s: State, a: Action, run: seq<Action>)
    requires a.Receive? || a.Tick? || a.SeeClosed? || a.Flush?
    requires Origins(run, s)
    ensures Origins(run, AggregatorStep(c, s, a))
  {
    if a.Receive? { ReceiveKeepsOrigins(c, s, a, run); } else if a.Flush? { FlushKeepsOrigins(c, s, run); }
  }

  lemma StepKeepsOrigins(c: Config, s: State, a: Action, run: seq<Action>)
    requires c.Valid() && Origins(run, s) && a in run
    ensures Origins(run, Step(c, s, a))
  {
    if a.Fetch? || a.Advance? || a.Timeout? || a.StopFetching? { FetcherKeepsOrigins(c, s, a, run); }
    else if a.TakeJob? || a.Finish? || a.Report? || a.StopWorker? { WorkerKeepsOrigins(c, s, a, run); }
    else if a.Receive? || a.Tick? || a.SeeClosed? || a.Flush? { AggregatorKeepsOrigins(c, s, a, run); }
  }

  lemma {:induction false} RunKeepsOrigins(c: Config, run: seq<Action>)
    requires c.Valid()
    ensures Origins(run, Exec(c, run))
  {
    if run != [] {
      var rest, a := run[..|run|-1], run[|run|-1];
      RunKeepsOrigins(c, rest);
      OriginsLater(rest, Exec(c, rest), a);
      assert run == rest + [a];
      StepKeepsOrigins(c, Exec(c, rest), a, run);
    }
  }

  /** An acknowledgement that reaches the committer, from a worker or from a batch, names the reader that fetched its
      message: the commit goes through the right one. */
  lemma AcksKeepTheirReader(c: Config, run: seq<Action>, a: Ack)
    requires c.Valid() && a in Exec(c, run).received
    ensures a.readerIdx >= 0 && Action.Fetch(a.readerIdx, a.message) in run
  {
    RunKeepsOrigins(c, run);
    var k :| 0 <= k < |Exec(c, run).received| && Exec(c, run).received[k] == a;
    assert FetchedAck(run, Exec(c, run).received[k]);
  }
}
