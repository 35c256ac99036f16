/** Shutting down succeeds under every schedule: once the fetch loops have returned, whatever the other goroutines do,
    and however the remaining jobs end, brings the empty and closed ack channel nearer
    (cdmp-mini/internal/pkg/server/consumer.go:729-763). */
module PipelineShutdown {
  import opened Kafka
  import opened Counting
  import opened Pipeline
  import opened PipelineRuns
  import PipelineSafety

  // ---- what is left to do ----

  function WorkerLeft(w: Worker): nat {
    match w case Free => 1 case Processing(_) => 3 case Reporting(_) => 2 case Stopped => 0
  }

  function WorkersLeft(ws: seq<Worker>): nat {
    if ws == [] then 0 else WorkerLeft(ws[0]) + WorkersLeft(ws[1..])
  }

  lemma {:induction false} WorkersLeftUpdate(ws: seq<Worker>, i: nat, w: Worker)
    requires i < |ws|
    ensures WorkersLeft(ws[i := w]) + WorkerLeft(ws[i]) == WorkersLeft(ws) + WorkerLeft(w)
  {
    if i == 0 {
      assert ws[0 := w][1..] == ws[1..];
    } else {
      assert ws[i := w][1..] == ws[1..][i-1 := w];
      WorkersLeftUpdate(ws[1..], i - 1, w);
    }
  }

  function Work(s: State): nat { 3 * |s.jobs| + WorkersLeft(s.workers) }

  function Buffers(agg: Aggregator): nat
    requires |agg.buffers| == 3
  {
    |agg.buffers[0]| + |agg.buffers[1]| + |agg.buffers[2]|
  }

  // How far the aggregator is from its end, buffers aside; a flush that does not close comes before the closing one.
  function Rank(doing: Activity): nat {
    match doing
    case Ended => 0
    case Selecting => 10
    case Flushing(stage, handed, closing) =>
      (if closing then 1 else 11) + (if stage < 3 then 2 * (3 - stage) else 0) + (if handed then 0 else 1)
  }

  predicate Over(s: State) { s.acksClosed && s.acks == [] }

  /** Nearer to the end, by the first of these that differs. */
  predicate Before(t: State, s: State)
    requires |t.agg.buffers| == 3 && |s.agg.buffers| == 3
  {
    if t.jobsClosed != s.jobsClosed then t.jobsClosed
    else if Work(t) != Work(s) then Work(t) < Work(s)
    else if |t.batchCh| != |s.batchCh| then |t.batchCh| < |s.batchCh|
    else if Buffers(t.agg) != Buffers(s.agg) then Buffers(t.agg) < Buffers(s.agg)
    else if Rank(t.agg.doing) != Rank(s.agg.doing) then Rank(t.agg.doing) < Rank(s.agg.doing)
    else if t.acksClosed != s.acksClosed then t.acksClosed
    else |t.acks| < |s.acks|
  }

  // ---- every step of every other goroutine makes progress ----

  predicate OfFetcher(a: Action) { a.Fetch? || a.Advance? || a.Timeout? || a.StopFetching? }

  // A worker moves on, and takes a job when it was free.
  lemma WorkerMoves(s: State, t: State, w: nat, next: Worker)
    requires |s.agg.buffers| == 3 && t.agg == s.agg && w < |s.workers| && t.workers == s.workers[w := next]
    requires t.jobsClosed == s.jobsClosed
    requires 3 * |t.jobs| + WorkerLeft(next) < 3 * |s.jobs| + WorkerLeft(s.workers[w])
    ensures Before(t, s)
  {
    WorkersLeftUpdate(s.workers, w, next);
  }

  lemma TakeJobProgress(c: Config, s: State, w: nat)
    requires c.Valid() && |s.agg.buffers| == 3 && Step(c, s, TakeJob(w)) != s
    ensures Before(Step(c, s, TakeJob(w)), s)
  {
    WorkerMoves(s, Step(c, s, TakeJob(w)), w, Processing(s.jobs[0]));
  }

  lemma FinishProgress(c: Config, s: State, w: nat, ok: bool)
    requires c.Valid() && |s.agg.buffers| == 3 && Step(c, s, Finish(w, ok)) != s
    ensures Before(Step(c, s, Finish(w, ok)), s)
  {
    var job := s.workers[w].job;
    WorkerMoves(s, Step(c, s, Finish(w, ok)), w, Reporting(Ack(job.msg, job.workerID, job.readerIdx, ok)));
  }

  lemma ReportProgress(c: Config, s: State, w: nat)
    requires c.Valid() && |s.agg.buffers| == 3 && Step(c, s, Report(w)) != s
    ensures Before(Step(c, s, Report(w)), s)
  {
    WorkerMoves(s, Step(c, s, Report(w)), w, Free);
  }

  lemma StopProgress(c: Config, s: State, w: nat)
    requires c.Valid() && |s.agg.buffers| == 3 && Step(c, s, StopWorker(w)) != s
    ensures Before(Step(c, s, StopWorker(w)), s)
  {
    WorkerMoves(s, Step(c, s, StopWorker(w)), w, Stopped);
  }

  lemma FlushProgress(c: Config, s: State)
    requires c.Valid() && |s.agg.buffers| == 3 && Step(c, s, Flush) != s
    ensures Before(Step(c, s, Flush), s)
  {
  }

  lemma ReceiveProgress(c: Config, s: State, flush: bool)
    requires c.Valid() && |s.agg.buffers| == 3 && Step(c, s, Receive(flush)) != s
    ensures Before(Step(c, s, Receive(flush)), s)
  {
  }

  lemma SeeClosedProgress(c: Config, s: State)
    requires c.Valid() && |s.agg.buffers| == 3 && Step(c, s, SeeClosed) != s
    ensures Before(Step(c, s, SeeClosed), s)
  {
  }

  lemma ControlProgress(c: Config, s: State, a: Action)
    requires c.Valid() && |s.agg.buffers| == 3 && Step(c, s, a) != s
    requires a.CloseQueues? || a.CloseAcks? || a.CommitterReceives?
    ensures Before(Step(c, s, a), s)
  {
  }

  /** Whatever goroutine but a fetch loop takes a step, and whatever comes of a job: the end is nearer. Only a tick can
      set the aggregator back, by one flush. */
  lemma EveryStepMakesProgress(c: Config, s: State, a: Action)
    requires c.Valid() && |s.agg.buffers| == 3 && !OfFetcher(a) && Step(c, s, a) != s
    ensures a.Tick? ==> Step(c, s, a) == s.(agg := s.agg.(doing := Flushing(0, false, false)))
    ensures !a.Tick? ==> Before(Step(c, s, a), s)
  {
    if a.TakeJob? { TakeJobProgress(c, s, a.worker); }
    else if a.Finish? { FinishProgress(c, s, a.worker, a.ok); }
    else if a.Report? { ReportProgress(c, s, a.worker); }
    else if a.StopWorker? { StopProgress(c, s, a.worker); }
    else if a.Receive? { ReceiveProgress(c, s, a.flush); }
    else if a.SeeClosed? { SeeClosedProgress(c, s); }
    else if a.Flush? { FlushProgress(c, s); }
    else if !a.Tick? { ControlProgress(c, s, a); }
  }

  lemma FetchersStay(c: Config, s: State, a: Action)
    requires c.Valid() && |s.agg.buffers| == 3 && !OfFetcher(a)
    ensures Step(c, s, a).fetchers == s.fetchers && Step(c, s, a).fetched == s.fetched
  {
  }

  // ---- some step is always due ----

  function FirstRunning(ws: seq<Worker>): (i: nat)
    ensures i <= |ws| && (i < |ws| ==> !ws[i].Stopped?) && (forall j :: 0 <= j < i ==> ws[j].Stopped?)
  {
    if ws == [] || !ws[0].Stopped? then 0 else 1 + FirstRunning(ws[1..])
  }

  predicate Due(c: Config, s: State, a: Action)
    requires c.Valid() && |s.agg.buffers| == 3
  {
    !OfFetcher(a) && Step(c, s, a) != s
  }

  // One that is due: the committer takes what there is, then the workers finish, then the aggregator.
  function Next(s: State, ok: bool): Action {
    var w := FirstRunning(s.workers);
    if !s.jobsClosed then CloseQueues
    else if s.acks != [] then CommitterReceives
    else if w < |s.workers| then
      (match s.workers[w]
       case Processing(_) => Finish(w, ok)
       case Reporting(_) => Report(w)
       case _ => if s.jobs == [] then StopWorker(w) else TakeJob(w))
    else if s.agg.doing.Flushing? then Flush
    else if s.agg.doing == Ended then CloseAcks
    else if s.batchCh == [] then SeeClosed
    else Receive(false)
  }

  lemma WorkerIsDue(c: Config, s: State, ok: bool)
    requires c.Valid() && c.ackCap >= 1 && |s.agg.buffers| == 3
    requires s.jobsClosed && s.acks == [] && FirstRunning(s.workers) < |s.workers|
    ensures Due(c, s, Next(s, ok)) && !Next(s, ok).Tick?
  {
    var w := FirstRunning(s.workers);
    assert Step(c, s, Next(s, ok)).workers[w] != s.workers[w];
  }

  lemma AggregatorIsDue(c: Config, s: State, ok: bool)
    requires c.Valid() && c.ackCap >= 1 && |s.agg.buffers| == 3
    requires s.jobsClosed && s.acks == [] && FirstRunning(s.workers) == |s.workers| && s.agg.doing != Ended
    ensures Due(c, s, Next(s, ok)) && !Next(s, ok).Tick?
  {
    assert Step(c, s, Next(s, ok)).agg != s.agg || |Step(c, s, Next(s, ok)).batchCh| < |s.batchCh|;
  }

  /** Until the ack channel is closed and empty some goroutine can go on; there is no deadlock. */
  lemma SomethingIsDue(c: Config, s: State, ok: bool)
    requires c.Valid() && c.ackCap >= 1 && |s.agg.buffers| == 3 && AllFetchersDone(s) && !Over(s)
    ensures Due(c, s, Next(s, ok)) && !Next(s, ok).Tick?
  {
    if s.jobsClosed && s.acks == [] {
      if FirstRunning(s.workers) < |s.workers| {
        WorkerIsDue(c, s, ok);
      } else if s.agg.doing != Ended {
        AggregatorIsDue(c, s, ok);
      } else {
        assert Step(c, s, CloseAcks).acksClosed;
      }
    } else if !s.jobsClosed {
      assert Step(c, s, CloseQueues).jobsClosed;
    } else {
      assert |Step(c, s, CommitterReceives).acks| < |s.acks|;
    }
  }

  // ---- every schedule ends ----

  /** Chooses the next step of a shutdown in which at most `k` more ticks come in. No state comes twice with the same
      number of ticks, so every schedule, with every outcome of every job, is such a choice. */
  type Scheduler = (State, nat) -> Action

  ghost predicate Chooses(c: Config, pick: Scheduler)
    requires c.Valid()
  {
    forall s: State, k: nat | |s.agg.buffers| == 3 && AllFetchersDone(s) && !Over(s) ::
      Due(c, s, pick(s, k)) && (pick(s, k).Tick? ==> k > 0)
  }

  ghost function Shutdown(c: Config, s: State, k: nat, pick: Scheduler): (acts: seq<Action>)
    requires c.Valid() && |s.agg.buffers| == 3 && AllFetchersDone(s) && Chooses(c, pick)
    decreases !s.jobsClosed, Work(s), |s.batchCh|, Buffers(s.agg), k, Rank(s.agg.doing), !s.acksClosed, |s.acks|
  {
    if Over(s) then []
    else
      var a := pick(s, k);
      EveryStepMakesProgress(c, s, a);
      FetchersStay(c, s, a);
      [a] + Shutdown(c, Step(c, s, a), if a.Tick? then k - 1 else k, pick)
  }

  lemma {:induction false} ShutdownEnds(c: Config, s: State, k: nat, pick: Scheduler)
    requires c.Valid() && |s.agg.buffers| == 3 && AllFetchersDone(s) && Chooses(c, pick)
    ensures var t := From(c, s, Shutdown(c, s, k, pick));
            Over(t) && t.fetched == s.fetched
    decreases !s.jobsClosed, Work(s), |s.batchCh|, Buffers(s.agg), k, Rank(s.agg.doing), !s.acksClosed, |s.acks|
  {
    if !Over(s) {
      var a := pick(s, k);
      EveryStepMakesProgress(c, s, a);
      FetchersStay(c, s, a);
      var rest := Shutdown(c, Step(c, s, a), if a.Tick? then k - 1 else k, pick);
      ShutdownEnds(c, Step(c, s, a), if a.Tick? then k - 1 else k, pick);
      assert ([a] + rest)[1..] == rest;
    }
  }

  /** From every reachable state in which the fetch loops have returned, every schedule of the other goroutines, with
      any outcomes of the remaining jobs and any number of ticks, closes the ack channel and empties it; and by then
      everything that was fetched has reached the committer. */
  lemma ShutdownCompletes(c: Config, run: seq<Action>, k: nat, pick: Scheduler, m: Message)
    requires c.Valid() && AllFetchersDone(Exec(c, run)) && Chooses(c, pick)
    ensures var t := Exec(c, run + Shutdown(c, Exec(c, run), k, pick));
            && t.acksClosed && t.acks == []
            && Sum(t.received, m, OfAck) == Sum(Exec(c, run).fetched, m, Same)
  {
    var rest := Shutdown(c, Exec(c, run), k, pick);
    ShutdownEnds(c, Exec(c, run), k, pick);
    ExecFrom(c, run, rest);
    PipelineSafety.ShutdownDrains(c, run + rest, m);
  }

  /** There are such schedules, for any outcomes of the jobs: the goroutines never block each other. */
  lemma SchedulesExist(c: Config, ok: State -> bool)
    requires c.Valid() && c.ackCap >= 1
    ensures Chooses(c, (s, k) => Next(s, ok(s)))
  {
    var pick: Scheduler := (s, k) => Next(s, ok(s));
    forall s: State, k: nat | |s.agg.buffers| == 3 && AllFetchersDone(s) && !Over(s)
      ensures Due(c, s, pick(s, k)) && (pick(s, k).Tick? ==> k > 0)
    {
      SomethingIsDue(c, s, ok(s));
    }
  }
}
