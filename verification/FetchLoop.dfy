/** The routing code of a fetch loop, with its own channel sends and all other goroutines running in between: every
    statement that another goroutine can see is one step of the system in Pipeline
    (cdmp-mini/internal/pkg/server/consumer.go:1028-1293). */
module FetchLoop {
  import opened Kafka
  import opened Pipeline
  import opened PipelineRuns

  // What the other goroutines do at each moment, and whether the 10 ms are over by then.
  datatype World = World(others: nat -> seq<Action>, timesOut: nat -> bool)

  datatype Sent = ToWorkers | ToBatch | Waiting

  predicate Foreign(a: Action, i: nat) {
    a.Fetch? || a.Advance? || a.Timeout? || a.StopFetching? ==> a.reader != i
  }

  lemma ForeignStep(c: Config, s: State, a: Action, i: nat)
    requires c.Valid() && |s.agg.buffers| == 3 && i < |s.fetchers| && Foreign(a, i)
    ensures |Step(c, s, a).fetchers| == |s.fetchers| && Step(c, s, a).fetchers[i] == s.fetchers[i]
  {
    if a.Fetch? || a.Advance? || a.Timeout? || a.StopFetching? { OtherFetcherStep(c, s, a, i); }
  }

  lemma OtherFetcherStep(c: Config, s: State, a: Action, i: nat)
    requires c.Valid() && i < |s.fetchers| && (a.Fetch? || a.Advance? || a.Timeout? || a.StopFetching?) && a.reader != i
    ensures |FetcherStep(c, s, a).fetchers| == |s.fetchers| && FetcherStep(c, s, a).fetchers[i] == s.fetchers[i]
  {
  }

  // Where the routing code goes when it sends nothing: after the 10 ms, after the first look at the batch channel, and
  // when the 10 ms end.
  lemma Jumps(c: Config, s: State, i: nat, m: Message)
    requires c.Valid() && |s.agg.buffers| == 3 && i < |s.fetchers| && s.fetchers[i].held == [m] && !s.fetchers[i].done
    ensures var f := s.fetchers[i];
            && (f.pc == Late ==> Step(c, s, Advance(i)) == SetFetcher(s, i, f.(pc := LatePlace(m))))
            && (f.pc.Check? ==>
                  Step(c, s, Advance(i)) == SetFetcher(s, i, f.(pc := CheckPlace(c, |s.batchCh|, f.pc.late))))
            && (f.pc == Offer ==> Step(c, s, Timeout(i)) == SetFetcher(s, i, f.(pc := Late)))
  {
  }

  // What fetching does.
  lemma Fetches(c: Config, s: State, i: nat, m: Message)
    requires c.Valid() && |s.agg.buffers| == 3 && i < |s.fetchers| && s.fetchers[i].held == [] && !s.fetchers[i].done
    ensures Step(c, s, Fetch(i, m))
         == SetFetcher(s.(fetched := s.fetched + [m]), i,
                       Fetcher([m], if m.op == Create then Check(false) else Offer, s.fetchers[i].nextWorker, false))
  {
  }

  // What it does when it sends.
  lemma Sends(c: Config, s: State, i: nat, m: Message)
    requires c.Valid() && |s.agg.buffers| == 3 && i < |s.fetchers| && s.fetchers[i].held == [m] && !s.fetchers[i].done
    ensures var f, t := s.fetchers[i], Step(c, s, Advance(i));
            && (f.pc.Try? || f.pc == TryLate ==>
                  t == if |s.batchCh| < c.batchCap then SendBatch(s, i)
                       else GiveUp(s, i, f.pc != Try(false)))
            && (f.pc == Offer || f.pc == Block ==> t == if |s.jobs| < c.jobCap then SendJob(c, s, i) else s)
  {
  }

  function CheckPlace(c: Config, waiting: nat, late: bool): RoutePC {
    if !NearFull(c.batchCap, waiting) then Try(late) else if late then Block else Offer
  }

  function LatePlace(m: Message): RoutePC {
    if m.op == Create then Check(true) else if m.op in {Delete, Update} then TryLate else Block
  }

  /** Nearly full means: one free place, or no more than an eighth of them. */
  lemma NearFullMeans(cap: nat, len: nat)
    ensures NearFull(cap, len) <==> cap - len <= 1 || 8 * (cap - len) <= cap
  {
  }

  // ---- what a reader has sent in a run, read off the channels ----

  datatype Shipment = ByJob(job: Job) | ByBatch(item: Item) {
    function Msg(): Message { if ByJob? then job.msg else item.msg }
    function Reader(): int { if ByJob? then job.readerIdx else item.readerIdx }
  }

  function SentBy(s: State, t: State, a: Action, i: nat): seq<Shipment> {
    if a != Advance(i) then []
    else if |t.jobs| > |s.jobs| then [ByJob(t.jobs[|t.jobs| - 1])]
    else if |t.batchCh| > |s.batchCh| then [ByBatch(t.batchCh[|t.batchCh| - 1])]
    else []
  }

  // `ships[k]` is what reader i has sent in the first k steps.
  ghost predicate SentTo(run: seq<Action>, states: seq<State>, ships: seq<seq<Shipment>>, i: nat, k: nat)
    requires k < |run| && |states| == |ships| == |run| + 1
  {
    ships[k + 1] == ships[k] + SentBy(states[k], states[k + 1], run[k], i)
  }

  ghost predicate AreShipments(run: seq<Action>, states: seq<State>, ships: seq<seq<Shipment>>, i: nat) {
    && |states| == |ships| == |run| + 1 && ships[0] == []
    && forall k :: 0 <= k < |run| ==> SentTo(run, states, ships, i, k)
  }

  lemma ShipmentsSnoc(run: seq<Action>, states: seq<State>, ships: seq<seq<Shipment>>, a: Action, t: State, i: nat)
    requires AreShipments(run, states, ships, i)
    ensures AreShipments(run + [a], states + [t], ships + [ships[|run|] + SentBy(states[|run|], t, a, i)], i)
  {
    var all, after := run + [a], states + [t];
    var more := ships + [ships[|run|] + SentBy(states[|run|], t, a, i)];
    forall k | 0 <= k < |all| ensures SentTo(all, after, more, i, k) {
      if k < |run| { assert SentTo(run, states, ships, i, k); }
    }
  }

  function ShipmentOf(m: Message, worker: int, i: nat, sent: Sent): seq<Shipment> {
    match sent
    case ToWorkers => [ByJob(Job(m, worker, i))]
    case ToBatch => [ByBatch(Item(m.op, m, i))]
    case Waiting => []
  }

  /** These shipments are these messages, from reader i; only create, delete and update went to the batches. */
  predicate Carries(sends: seq<Shipment>, msgs: seq<Message>, i: nat) {
    && |sends| == |msgs|
    && (forall k :: 0 <= k < |sends| ==> sends[k].Msg() == msgs[k] && sends[k].Reader() == i)
    && (forall k :: 0 <= k < |sends| && sends[k].ByBatch? ==>
          sends[k].item.op == msgs[k].op && StageOf(msgs[k].op) >= 0)
  }

  // The workers the jobs among these shipments were meant for.
  function Workers(sends: seq<Shipment>): seq<int> {
    if sends == [] then []
    else
      var last := sends[|sends|-1];
      Workers(sends[..|sends|-1]) + (if last.ByJob? then [last.job.workerID] else [])
  }

  function After(worker: int, workers: nat): int { if worker + 1 == workers then 0 else worker + 1 }

  lemma NextTurn(worker: int, workers: nat)
    requires 0 <= worker < workers
    ensures (worker + 1) % workers == After(worker, workers)
  {
  }

  /** The jobs go to the workers in turn, beginning with `first`; the turn is then at `next`. */
  predicate InTurn(sends: seq<Shipment>, first: int, next: int, workers: nat) {
    var ws := Workers(sends);
    && (if ws == [] then next == first else ws[0] == first && next == After(ws[|ws|-1], workers))
    && forall k :: 0 <= k < |ws| - 1 ==> ws[k + 1] == After(ws[k], workers)
  }

  lemma InTurnMore(sends: seq<Shipment>, one: seq<Shipment>, first: int, worker: int, next: int, workers: nat)
    requires InTurn(sends, first, worker, workers) && |one| <= 1
    requires if one != [] && one[0].ByJob? then one[0].job.workerID == worker && next == After(worker, workers)
             else next == worker
    ensures InTurn(sends + one, first, next, workers)
  {
    if one == [] {
      assert sends + one == sends;
    } else {
      assert (sends + one)[..|sends|] == sends;
    }
  }

  /** A send to the batch channel that does not wait: the steps at which the code looks whether it is nearly full, if it
      does, and at which it sends. */
  datatype Chance = Never | IfRoom(send: nat) | IfNotNearFull(look: nat, send: nat)

  // What each operation is given when the 10 ms are over.
  predicate SecondChance(op: Operation, chance: Chance) {
    match op case Create => chance.IfNotNearFull? case Other(_) => chance == Never case _ => chance.IfRoom?
  }

  lemma SentMore(before: seq<Shipment>, sends: seq<Shipment>, one: seq<Shipment>, msgs: seq<Message>, routed: nat,
                 i: nat)
    requires routed < |msgs| && Carries(sends, msgs[..routed], i)
    requires Carries(one, [], i) || Carries(one, [msgs[routed]], i)
    ensures (before + sends) + one == before + (sends + one)
    ensures Carries(sends + one, if one == [] then msgs[..routed] else msgs[..routed + 1], i)
  {
    assert one == [] ==> sends + one == sends;
  }

  class Loop {
    const c: Config
    const i: nat              // readerIdx
    const world: World
    var clock: nat
    // the channels
    var jobs: seq<Job>
    var batchCh: seq<Item>
    // this loop: the message fetched and not yet sent, the next worker, and the place in the code
    var held: seq<Message>
    var nextWorker: int
    var pc: RoutePC
    // the other goroutines
    var rest: State
    ghost var trace: seq<Action>
    ghost var states: seq<State>
    ghost var ships: seq<seq<Shipment>>

    function View(): State
      requires i < |rest.fetchers|
      reads this
    {
      rest.(jobs := jobs, batchCh := batchCh, fetchers := rest.fetchers[i := Fetcher(held, pc, nextWorker, false)])
    }

    /** The channels and this loop are where the steps so far have taken them. */
    ghost predicate Valid()
      reads this
    {
      && c.Valid() && i < |rest.fetchers| && 0 <= nextWorker < c.workers
      && IsRun(c, trace, states) && View() == states[|trace|] && AreShipments(trace, states, ships, i)
    }

    // The chance is taken: the channel is not nearly full at the look, if there is one, and has room at the send.
    ghost predicate Taken(chance: Chance)
      reads this
    {
      match chance
      case Never => false
      case IfRoom(send) => send < |states| && |states[send].batchCh| < c.batchCap
      case IfNotNearFull(look, send) =>
        && look <= send < |states|
        && !NearFull(c.batchCap, |states[look].batchCh|) && |states[send].batchCh| < c.batchCap
    }

    // A chance that has been.
    ghost predicate Past(chance: Chance)
      reads this
    {
      match chance
      case Never => true
      case IfRoom(send) => send < |states|
      case IfNotNearFull(look, send) => look <= send < |states|
    }

    twostate lemma StaysTaken(chance: Chance)
      requires old(Past(chance)) && old(states) <= states
      ensures Past(chance) && (Taken(chance) <==> old(Taken(chance)))
    {
    }

    // All that this loop has sent.
    ghost function Shipped(): seq<Shipment>
      reads this
    {
      if ships == [] then [] else ships[|ships| - 1]
    }

    ghost predicate Holding(m: Message, place: RoutePC)
      reads this
    {
      held == [m] && pc == place
    }

    /** The message is the last entry of one channel, with this loop as its reader, or still held; and of all that this
        loop ever sent, it comes next. */
    twostate predicate Delivered(m: Message, sent: Sent)
      requires c.Valid()
      reads this
    {
      && old(trace) <= trace && old(states) <= states
      && held == (if sent.Waiting? then [m] else [])
      && nextWorker == (if sent.ToWorkers? then After(old(nextWorker), c.workers) else old(nextWorker))
      && (sent.ToWorkers? ==> jobs != [] && jobs[|jobs| - 1] == Job(m, old(nextWorker), i))
      && (sent.ToBatch? ==> batchCh != [] && batchCh[|batchCh| - 1] == Item(m.op, m, i))
      && Shipped() == old(Shipped()) + ShipmentOf(m, old(nextWorker), i, sent)
    }

    constructor (c: Config, i: nat, world: World)
      requires c.Valid() && i < c.readers
      ensures Valid() && this.c == c && this.i == i && View() == Init(c) && Shipped() == [] && held == []
      ensures nextWorker == i % c.workers
    {
      this.c, this.i, this.world, clock := c, i, world, 0;
      jobs, batchCh, held, nextWorker, pc, rest := [], [], [], i % c.workers, Offer, Init(c);
      trace, states, ships := [], [Init(c)], [[]];
    }

    // The statements since `before` were the step `a` of the system.
    ghost method Did(before: State, a: Action)
      requires c.Valid() && i < |rest.fetchers| && 0 <= nextWorker < c.workers
      requires IsRun(c, trace, states) && before == states[|trace|] && AreShipments(trace, states, ships, i)
      requires View() == Step(c, before, a)
      modifies this`trace, this`states, this`ships
      ensures Valid() && trace == old(trace) + [a] && states == old(states) + [View()]
      ensures Shipped() == old(Shipped()) + SentBy(before, View(), a, i)
    {
      RunSnoc(c, trace, states, a, View());
      ShipmentsSnoc(trace, states, ships, a, View(), i);
      ships := ships + [Shipped() + SentBy(before, View(), a, i)];
      trace, states := trace + [a], states + [View()];
    }

    /** Time passes for this loop: others ran, it did not. */
    twostate predicate Passed()
      reads this
    {
      && old(trace) <= trace && old(states) <= states && Shipped() == old(Shipped())
      && held == old(held) && pc == old(pc) && nextWorker == old(nextWorker)
    }

    method Interfere()
      requires Valid()
      modifies this
      ensures Valid() && Passed() && clock == old(clock) + 1
    {
      clock := clock + 1;
      var steps := world.others(clock);
      for k := 0 to |steps|
        invariant Valid() && Passed() && clock == old(clock) + 1
      {
        if Foreign(steps[k], i) { OtherStep(steps[k]); }
      }
    }

    method OtherStep(a: Action)
      requires Valid() && Foreign(a, i)
      modifies this`rest, this`jobs, this`batchCh, this`trace, this`states, this`ships
      ensures Valid() && Passed()
    {
      ghost var before := View();
      ForeignStep(c, before, a, i);
      rest := Step(c, View(), a);
      jobs, batchCh := rest.jobs, rest.batchCh;
      Did(before, a);
    }

    // `jobs <- job`, which has room.
    method PutJob(m: Message)
      requires Valid() && held == [m] && (pc == Offer || pc == Block) && |jobs| < c.jobCap
      modifies this`jobs, this`held, this`nextWorker, this`trace, this`states, this`ships
      ensures Valid() && Delivered(m, ToWorkers)
    {
      ghost var before := View();
      Sends(c, before, i, m);
      NextTurn(nextWorker, c.workers);
      jobs := jobs + [Job(m, nextWorker, i)];
      held := [];
      nextWorker := (nextWorker + 1) % c.workers;
      assert View() == Pipeline.SendJob(c, before, i);
      Did(before, Advance(i));
      assert old(Shipped()) + [ByJob(Job(m, old(nextWorker), i))] == Shipped();
    }

    // `select { case batchCh <- item: default: }`; `otherwise` is where the default leads.
    method TryPutBatch(m: Message, otherwise: RoutePC) returns (sent: Sent)
      requires Valid() && held == [m]
      requires (pc == Try(false) && otherwise == Offer) || ((pc == Try(true) || pc == TryLate) && otherwise == Block)
      modifies this`batchCh, this`held, this`pc, this`trace, this`states, this`ships
      ensures Valid() && Delivered(m, sent)
      ensures sent == if |old(batchCh)| < c.batchCap then ToBatch else Waiting
      ensures sent.Waiting? ==> pc == otherwise
      ensures trace == old(trace) + [Advance(i)] && states[|trace| - 1].batchCh == old(batchCh)
    {
      if |batchCh| < c.batchCap {
        PutBatch(m);
        return ToBatch;
      }
      ghost var before := View();
      Sends(c, before, i, m);
      pc := otherwise;
      Did(before, Advance(i));
      assert Shipped() == old(Shipped());
      return Waiting;
    }

    // `batchCh <- item`, which has room.
    method PutBatch(m: Message)
      requires Valid() && held == [m] && (pc.Try? || pc == TryLate) && |batchCh| < c.batchCap
      modifies this`batchCh, this`held, this`trace, this`states, this`ships
      ensures Valid() && Delivered(m, ToBatch)
      ensures trace == old(trace) + [Advance(i)] && states[|trace| - 1].batchCh == old(batchCh)
    {
      ghost var before := View();
      Sends(c, before, i, m);
      batchCh := batchCh + [Item(m.op, m, i)];
      held := [];
      assert View() == Pipeline.SendBatch(before, i);
      Did(before, Advance(i));
      assert old(Shipped()) + [ByBatch(Item(m.op, m, i))] == Shipped();
    }

    // The code goes on without sending anything.
    method GoTo(m: Message, place: RoutePC, ghost a: Action)
      requires Valid() && held == [m]
      requires if a == Timeout(i) then pc == Offer && place == Late
               else if pc == Late then a == Advance(i) && place == LatePlace(m)
               else a == Advance(i) && pc.Check? && place == CheckPlace(c, |batchCh|, pc.late)
      modifies this`pc, this`trace, this`states, this`ships
      ensures Valid() && pc == place && trace == old(trace) + [a] && old(states) <= states
      ensures Shipped() == old(Shipped())
    {
      ghost var before := View();
      Jumps(c, before, i, m);
      pc := place;
      Did(before, a);
      assert Shipped() == old(Shipped());
    }

    /** tryEnqueueCreateBatch never waits. The message goes into the batch channel exactly when that is not nearly full
        at the look and still has room at the send. */
    method TryEnqueueCreateBatch(m: Message, late: bool) returns (sent: Sent, ghost chance: Chance)
      requires Valid() && Holding(m, Check(late))
      modifies this
      ensures Valid() && Delivered(m, sent) && !sent.ToWorkers?
      ensures sent.Waiting? ==> Holding(m, if late then Block else Offer)
      ensures chance.IfNotNearFull? && |old(trace)| <= chance.look && Past(chance)
      ensures sent.ToBatch? <==> Taken(chance)
    {
      ghost var look;
      var full;
      full, look := CheckRoom(m, late);
      if full { return Waiting, IfNotNearFull(look, look); }
      sent := TryLater(m, if late then Block else Offer);
      chance := IfNotNearFull(look, |trace| - 1);
    }

    // batchNearFull.
    method CheckRoom(m: Message, late: bool) returns (full: bool, ghost at: nat)
      requires Valid() && Holding(m, Check(late))
      modifies this
      ensures Valid() && Delivered(m, Waiting) && |old(trace)| <= at < |trace|
      ensures full == NearFull(c.batchCap, |states[at].batchCh|)
      ensures Holding(m, CheckPlace(c, |states[at].batchCh|, late))
    {
      Interfere();
      at := |trace|;
      full := NearFull(c.batchCap, |batchCh|);
      GoTo(m, CheckPlace(c, |batchCh|, late), Advance(i));
    }

    // A send that does not wait; others may have come first.
    method TryLater(m: Message, otherwise: RoutePC) returns (sent: Sent)
      requires Valid() && held == [m]
      requires (pc == Try(false) && otherwise == Offer) || ((pc == Try(true) || pc == TryLate) && otherwise == Block)
      modifies this
      ensures Valid() && Delivered(m, sent) && !sent.ToWorkers? && |old(trace)| < |trace|
      ensures sent.Waiting? ==> Holding(m, otherwise)
      ensures sent.ToBatch? <==> |states[|trace| - 1].batchCh| < c.batchCap
    {
      Interfere();
      sent := TryPutBatch(m, otherwise);
    }

    // A send to the workers, tried for `rounds` moments; with `timed` only until the 10 ms are over.
    method SendJob(m: Message, timed: bool, rounds: nat) returns (sent: Sent, expired: bool)
      requires Valid() && Holding(m, if timed then Offer else Block)
      modifies this
      ensures Valid() && Delivered(m, sent) && !sent.ToBatch?
      ensures sent.Waiting? ==> Holding(m, if expired then Late else if timed then Offer else Block)
      ensures expired ==> timed && sent.Waiting? && world.timesOut(clock)
      ensures sent.Waiting? && !expired ==> Waited(timed, rounds)
    {
      for k := 0 to rounds
        invariant Valid() && Passed() && clock == old(clock) + k && Waited(timed, k)
      {
        sent, expired := TryJob(m, timed);
        if sent.ToWorkers? || expired { return; }
      }
      return Waiting, false;
    }

    // For so many moments the 10 ms were not over.
    predicate Waited(timed: bool, rounds: nat)
      reads this
    {
      timed ==> forall k: nat :: clock - rounds < k <= clock ==> !world.timesOut(k)
    }

    // One moment of that send.
    method TryJob(m: Message, timed: bool) returns (sent: Sent, expired: bool)
      requires Valid() && Holding(m, if timed then Offer else Block)
      modifies this
      ensures Valid() && Delivered(m, sent) && !sent.ToBatch? && (expired ==> timed && sent.Waiting?)
      ensures sent.Waiting? ==> if expired then Holding(m, Late) else Passed()
      ensures clock == old(clock) + 1 && (expired ==> world.timesOut(clock))
      ensures timed && sent.Waiting? && !expired ==> !world.timesOut(clock)
    {
      Interfere();
      if |jobs| < c.jobCap {
        PutJob(m);
        return ToWorkers, false;
      }
      if timed && world.timesOut(clock) {
        GoTo(m, Late, Timeout(i));
        return Waiting, true;
      }
      return Waiting, false;
    }

    /** The routing of one message, watched for at most `rounds` moments in each waiting send. A create has a chance of
        the batch channel at once, and a second one when the 10 ms are over without a worker taking the job; deletes and
        updates have only that second one, and need not look whether the channel is nearly full; nothing else ever goes
        there. A message goes into the batch channel exactly when one of its chances is taken; a job that no worker
        takes is given up as soon as the 10 ms are over; and only a job moves the turn to the next worker. */
    method RouteMessage(m: Message, rounds: nat)
      returns (sent: Sent, expired: bool, ghost early: Chance, ghost late: Chance)
      requires Valid() && Holding(m, if m.op == Create then Check(false) else Offer)
      modifies this
      ensures Valid() && Delivered(m, sent)
      ensures if m.op == Create then early.IfNotNearFull? else early == Never
      ensures if expired then SecondChance(m.op, late) else late == Never
      ensures sent.ToBatch? <==> Taken(early) || Taken(late)
      ensures Taken(early) ==> !expired
      ensures sent.Waiting? && !expired ==> Waited(true, rounds)
    {
      early, late, expired := Never, Never, false;
      if m.op == Create {
        sent, early := TryEnqueueCreateBatch(m, false);
        if sent.ToBatch? { return; }
      }
      label Tried:
      sent, expired, late := RouteJob(m, rounds);
      StaysTaken@Tried(early);
    }

    // The job, and what follows when it is not taken within 10 ms.
    method RouteJob(m: Message, rounds: nat) returns (sent: Sent, expired: bool, ghost late: Chance)
      requires Valid() && Holding(m, Offer)
      modifies this
      ensures Valid() && Delivered(m, sent)
      ensures if expired then SecondChance(m.op, late) else late == Never
      ensures Past(late) && (sent.ToBatch? <==> Taken(late))
      ensures sent.Waiting? && !expired ==> Waited(true, rounds)
    {
      late := Never;
      sent, expired := SendJob(m, true, rounds);
      if expired { sent, late := RouteLate(m, rounds); }
    }

    // After the 10 ms.
    method RouteLate(m: Message, rounds: nat) returns (sent: Sent, ghost chance: Chance)
      requires Valid() && Holding(m, Late)
      modifies this
      ensures Valid() && Delivered(m, sent)
      ensures SecondChance(m.op, chance)
      ensures Past(chance) && (sent.ToBatch? <==> Taken(chance))
    {
      GoLate(m);
      sent, chance := TryBatchLate(m);
      label Tried:
      if sent.Waiting? {
        var expired;
        sent, expired := SendJob(m, false, rounds);
      }
      StaysTaken@Tried(chance);
    }

    method GoLate(m: Message)
      requires Valid() && Holding(m, Late)
      modifies this
      ensures Valid() && Delivered(m, Waiting) && Holding(m, LatePlace(m))
    {
      Interfere();
      GoTo(m, LatePlace(m), Advance(i));
    }

    // The batch channel's second chance, by operation.
    method TryBatchLate(m: Message) returns (sent: Sent, ghost chance: Chance)
      requires Valid() && Holding(m, LatePlace(m))
      modifies this
      ensures Valid() && Delivered(m, sent) && !sent.ToWorkers?
      ensures sent.Waiting? ==> Holding(m, Block)
      ensures SecondChance(m.op, chance)
      ensures Past(chance) && (sent.ToBatch? <==> Taken(chance))
    {
      if m.op == Create {
        sent, chance := TryEnqueueCreateBatch(m, true);
      } else if m.op in {Delete, Update} {
        sent := TryLater(m, Block);
        chance := IfRoom(|trace| - 1);
      } else {
        sent, chance := Waiting, Never;
      }
    }

    // FetchMessage.
    method Fetch(m: Message)
      requires Valid() && held == []
      modifies this`held, this`pc, this`rest, this`trace, this`states, this`ships
      ensures Valid() && old(trace) <= trace && old(states) <= states && Shipped() == old(Shipped())
      ensures nextWorker == old(nextWorker)
      ensures Holding(m, if m.op == Create then Check(false) else Offer)
    {
      ghost var before := View();
      Fetches(c, before, i, m);
      held := [m];
      pc := if m.op == Create then Check(false) else Offer;
      rest := rest.(fetched := rest.fetched + [m]);
      Did(before, Action.Fetch(i, m));
      assert Shipped() == old(Shipped());
    }

    /** The loop: fetch and route, message after message, as long as none is stuck. What it has sent since is exactly
        these messages, each once and in this order, with this loop as their reader, and its jobs are meant for the
        workers in turn. */
    method Run(msgs: seq<Message>, rounds: nat) returns (routed: nat, ghost sends: seq<Shipment>)
      requires Valid() && held == []
      modifies this
      ensures Valid() && old(trace) <= trace && routed <= |msgs|
      ensures held == if routed < |msgs| then [msgs[routed]] else []
      ensures Shipped() == old(Shipped()) + sends && Carries(sends, msgs[..routed], i)
      ensures InTurn(sends, old(nextWorker), nextWorker, c.workers)
    {
      routed, sends := 0, [];
      while routed < |msgs|
        invariant Valid() && old(trace) <= trace && routed <= |msgs|
        invariant held == []
        invariant Shipped() == old(Shipped()) + sends && Carries(sends, msgs[..routed], i)
        invariant InTurn(sends, old(nextWorker), nextWorker, c.workers)
      {
        ghost var worker := nextWorker;
        ghost var one;
        var sent;
        sent, one := FetchAndRoute(msgs[routed], rounds);
        SentMore(old(Shipped()), sends, one, msgs, routed, i);
        InTurnMore(sends, one, old(nextWorker), worker, nextWorker, c.workers);
        sends := sends + one;
        if sent.Waiting? { return; }
        routed := routed + 1;
      }
    }

    // One round of the loop.
    method FetchAndRoute(m: Message, rounds: nat) returns (sent: Sent, ghost one: seq<Shipment>)
      requires Valid() && held == []
      modifies this
      ensures Valid() && old(trace) <= trace && held == (if sent.Waiting? then [m] else [])
      ensures Shipped() == old(Shipped()) + one && Carries(one, if sent.Waiting? then [] else [m], i)
      ensures if one != [] && one[0].ByJob?
              then one[0].job.workerID == old(nextWorker) && nextWorker == After(old(nextWorker), c.workers)
              else nextWorker == old(nextWorker)
    {
      Interfere();
      Fetch(m);
      ghost var worker := nextWorker;
      var expired;
      ghost var early, late;
      sent, expired, early, late := RouteMessage(m, rounds);
      one := ShipmentOf(m, worker, i, sent);
    }
  }
}
