/** The audit manager: a bounded history of recent events and a channel from which one loop feeds the sinks
    (cdmp-mini/internal/pkg/audit/manager.go:267-385). */
module Audit {
  import opened Wrappers

  datatype Event = Event(occurredAt: Option<int>, content: string)

  function Stamped(e: Event, now: int): Event {
    if e.occurredAt.None? then e.(occurredAt := Some(now)) else e
  }

  function LastN<T>(s: seq<T>, n: nat): seq<T> { if |s| <= n then s else s[|s| - n..] }

  lemma LastNSnoc<T>(s: seq<T>, x: T, n: nat)
    requires 0 < n
    ensures LastN(s + [x], n) == if |s| >= n then LastN(s, n)[1..] + [x] else s + [x]
  {
  }

  // ---- the class ----

  // copy(a, a[1:])
  method ShiftLeft<T>(a: array<T>)
    modifies a
    ensures forall j :: 0 <= j < a.Length - 1 ==> a[j] == old(a[j + 1])
  {
    var i := 0;
    while i < a.Length - 1
      invariant 0 <= i && (i == 0 || i < a.Length)
      invariant forall j :: 0 <= j < i ==> a[j] == old(a[j + 1])
      invariant forall j :: i <= j < a.Length ==> a[j] == old(a[j])
    {
      a[i] := a[i + 1];
      i := i + 1;
    }
  }

  datatype Sent = Ignored | Accepted | Dropped | Panicked

  class Manager {
    const enabled: bool
    const bufferSize: nat
    const recent: array<Event>   // the buffer of the slice; its length is RecentBuffer
    var count: nat               // the length of the slice
    var queue: seq<Event>        // the channel
    var closed: bool
    var sinks: seq<seq<Event>>   // what each sink was given
    ghost var submitted: seq<Event>
    ghost var accepted: seq<Event>

    ghost predicate Valid()
      reads this, recent
    {
      && 0 < recent.Length && 0 < bufferSize
      && count <= recent.Length
      && recent[..count] == LastN(submitted, recent.Length)
      && |queue| <= bufferSize
      && forall k :: 0 <= k < |sinks| ==> sinks[k] + queue == accepted
    }

    constructor (enabled: bool, bufferSize: nat, recentBuffer: nat, sinkCount: nat)
      requires 0 < bufferSize && 0 < recentBuffer
      ensures Valid() && fresh(recent)
      ensures this.enabled == enabled && this.bufferSize == bufferSize && recent.Length == recentBuffer
      ensures submitted == [] && accepted == [] && |sinks| == sinkCount && !closed
    {
      this.enabled := enabled;
      this.bufferSize := bufferSize;
      recent := new Event[recentBuffer](_ => Event(None, ""));
      count := 0;
      queue := [];
      closed := false;
      sinks := seq(sinkCount, _ => []);
      submitted, accepted := [], [];
    }

    method AppendRecent(e: Event)
      requires Valid()
      modifies recent, this`count, this`submitted
      ensures Valid()
      ensures submitted == old(submitted) + [e]
    {
      ghost var before := recent[..count];
      if count >= recent.Length {
        ShiftLeft(recent);
        recent[count - 1] := e;
        assert recent[..count] == before[1..] + [e];
      } else {
        recent[count] := e;
        count := count + 1;
        assert recent[..count] == before + [e];
      }
      LastNSnoc(submitted, e, recent.Length);
      submitted := submitted + [e];
    }

    /** The latest events, newest first: as many as asked for and kept. */
    method Recent(limit: int) returns (result: seq<Event>)
      requires Valid()
      ensures !enabled || limit <= 0 ==> result == []
      ensures enabled && limit > 0 ==>
                && |result| == Min(limit, Min(recent.Length, |submitted|))
                && forall i :: 0 <= i < |result| ==> result[i] == submitted[|submitted| - 1 - i]
    {
      if !enabled || limit <= 0 || count == 0 { return []; }
      var n := if limit > count then count else limit;
      result := [];
      for i := 0 to n
        invariant |result| == i
        invariant forall j :: 0 <= j < i ==> result[j] == recent[..count][count - 1 - j]
      {
        result := result + [recent[count - 1 - i]];
      }
    }

    method Submit(event: Event, now: int) returns (sent: Sent)
      requires Valid()
      modifies this`count, this`queue, this`submitted, this`accepted, recent
      ensures Valid()
      ensures sent == if !enabled then Ignored else if closed then Panicked
                      else if |old(queue)| < bufferSize then Accepted else Dropped
      ensures submitted == old(submitted) + if enabled then [Stamped(event, now)] else []
      ensures accepted == old(accepted) + if sent.Accepted? then [Stamped(event, now)] else []
      ensures enabled ==> submitted[|submitted| - 1].content == event.content
      ensures enabled ==> submitted[|submitted| - 1].occurredAt ==
                          if event.occurredAt.Some? then event.occurredAt else Some(now)
    {
      if !enabled { return Ignored; }
      var cloned := Stamped(event, now);
      AppendRecent(cloned);
      if closed { return Panicked; }
      if |queue| < bufferSize {
        ghost var waiting := queue;
        queue := queue + [cloned];
        forall k | 0 <= k < |sinks| ensures sinks[k] + queue == accepted + [cloned] {
          assert sinks[k] + (waiting + [cloned]) == (sinks[k] + waiting) + [cloned];
        }
        accepted := accepted + [cloned];
        return Accepted;
      }
      return Dropped;
    }

    method Dispatch(e: Event)
      modifies this`sinks
      ensures |sinks| == |old(sinks)|
      ensures forall k :: 0 <= k < |sinks| ==> sinks[k] == old(sinks)[k] + [e]
    {
      for i := 0 to |sinks|
        invariant |sinks| == |old(sinks)|
        invariant forall k :: 0 <= k < i ==> sinks[k] == old(sinks)[k] + [e]
        invariant forall k :: i <= k < |sinks| ==> sinks[k] == old(sinks)[k]
      {
        sinks := sinks[i := sinks[i] + [e]];
      }
    }

    /** The loop after cancellation: every event still in the channel goes to every sink. */
    method Drain()
      requires Valid() && closed
      modifies this`queue, this`sinks
      ensures Valid() && queue == []
      ensures |sinks| == |old(sinks)| && forall k :: 0 <= k < |sinks| ==> sinks[k] == accepted
    {
      while queue != []
        invariant Valid() && |sinks| == |old(sinks)|
        decreases |queue|
      {
        var e := queue[0];
        ghost var waiting, before := queue, sinks;
        queue := queue[1..];
        Dispatch(e);
        forall k | 0 <= k < |sinks| ensures sinks[k] + queue == accepted {
          assert before[k] + waiting == accepted && waiting == [e] + queue;
          assert (before[k] + [e]) + queue == before[k] + ([e] + queue);
        }
      }
      forall k | 0 <= k < |sinks| ensures sinks[k] == accepted {
        assert sinks[k] + queue == accepted;
      }
    }
  }

  function Min(a: int, b: int): int { if a < b then a else b }

  // ---- concurrent runs ----

  // The loop: at its select, in the final `range`, in the middle of a dispatch, or returned.
  datatype Phase = Selecting | Draining | Dispatching(e: Event, next: nat, draining: bool) | Returned

  datatype Config = Config(recentBuffer: nat, bufferSize: nat, sinks: nat)

  datatype State = State(
    recent: seq<Event>,
    submitting: seq<Event>,   // calls of Submit between appendRecent and their send
    queue: seq<Event>,
    cancelled: bool,
    closed: bool,
    phase: Phase,
    logs: seq<seq<Event>>,    // what each sink was given
    submitted: seq<Event>,
    accepted: seq<Event>,
    dropped: seq<Event>,
    panicked: seq<Event>)     // sends on the closed channel

  datatype Action =
    | Append(e: Event)
    | Send(i: nat)
    | Cancel
    | Close
    | Receive
    | SeeCancelled
    | Write

  function Start(cfg: Config): State {
    State([], [], [], false, false, Selecting, seq(cfg.sinks, _ => []), [], [], [], [])
  }

  function Appended(recent: seq<Event>, e: Event, n: nat): seq<Event> {
    if |recent| >= n && recent != [] then recent[1..] + [e] else recent + [e]
  }

  /** One step of one goroutine; an action that is not due changes nothing. */
  function Step(s: State, a: Action, cfg: Config): State {
    match a
    case Append(e) =>
      s.(recent := Appended(s.recent, e, cfg.recentBuffer),
         submitting := s.submitting + [e], submitted := s.submitted + [e])
    case Send(i) => if i < |s.submitting| then AfterSend(s, i, cfg) else s
    case Cancel => s.(cancelled := true)
    case Close => if s.cancelled then s.(closed := true) else s
    case Receive => AfterReceive(s)
    case SeeCancelled => if s.phase.Selecting? && s.cancelled then s.(phase := Draining) else s
    case Write => if s.phase.Dispatching? then AfterWrite(s) else s
  }

  function AfterSend(s: State, i: nat, cfg: Config): State
    requires i < |s.submitting|
  {
    var e := s.submitting[i];
    var t := s.(submitting := s.submitting[..i] + s.submitting[i + 1..]);
    if s.closed then t.(panicked := s.panicked + [e])
    else if |s.queue| < cfg.bufferSize then t.(queue := s.queue + [e], accepted := s.accepted + [e])
    else t.(dropped := s.dropped + [e])
  }

  function AfterReceive(s: State): State {
    if !s.phase.Selecting? && !s.phase.Draining? then s
    else if s.queue != [] then s.(queue := s.queue[1..], phase := Dispatching(s.queue[0], 0, s.phase.Draining?))
    else if s.closed then s.(phase := Returned)
    else s
  }

  function AfterWrite(s: State): State
    requires s.phase.Dispatching?
  {
    var Dispatching(e, next, draining) := s.phase;
    if next < |s.logs| then s.(logs := s.logs[next := s.logs[next] + [e]], phase := Dispatching(e, next + 1, draining))
    else s.(phase := if draining then Draining else Selecting)
  }

  function Run(run: seq<Action>, cfg: Config): State
    decreases |run|
  {
    if run == [] then Start(cfg) else Step(Run(run[..|run| - 1], cfg), run[|run| - 1], cfg)
  }

  // What the loop has taken but not yet given to sink k.
  function InHand(phase: Phase, k: nat): seq<Event> {
    if phase.Dispatching? && phase.next <= k then [phase.e] else []
  }

  ghost predicate Fed(s: State, k: nat)
    requires k < |s.logs|
  {
    s.logs[k] + InHand(s.phase, k) + s.queue == s.accepted
  }

  ghost predicate Inv(s: State, cfg: Config) {
    && |s.logs| == cfg.sinks
    && (forall k :: 0 <= k < |s.logs| ==> Fed(s, k))
    && s.recent == LastN(s.submitted, cfg.recentBuffer)
    && (s.phase.Returned? ==> s.closed && s.queue == [])
  }

  lemma SendKeepsFed(s: State, i: nat, cfg: Config, k: nat)
    requires i < |s.submitting| && k < |s.logs| && Fed(s, k)
    ensures Fed(AfterSend(s, i, cfg), k)
  {
    var e := s.submitting[i];
    assert s.logs[k] + InHand(s.phase, k) + (s.queue + [e]) == (s.logs[k] + InHand(s.phase, k) + s.queue) + [e];
  }

  lemma ReceiveKeepsFed(s: State, k: nat)
    requires k < |s.logs| && Fed(s, k)
    ensures Fed(AfterReceive(s), k)
  {
    if s.queue != [] {
      assert s.queue == [s.queue[0]] + s.queue[1..];
      assert s.logs[k] + [] + ([s.queue[0]] + s.queue[1..]) == s.logs[k] + [s.queue[0]] + s.queue[1..];
    }
  }

  lemma WriteKeepsFed(s: State, k: nat)
    requires k < |s.logs| && Fed(s, k) && s.phase.Dispatching?
    ensures Fed(AfterWrite(s), k)
  {
    var e := s.phase.e;
    assert s.logs[k] + [e] + s.queue == (s.logs[k] + [e]) + [] + s.queue;
  }

  lemma StepKeepsInv(s: State, a: Action, cfg: Config)
    requires 0 < cfg.recentBuffer && Inv(s, cfg)
    ensures Inv(Step(s, a, cfg), cfg)
  {
    var t := Step(s, a, cfg);
    forall k | 0 <= k < |t.logs| ensures Fed(t, k) {
      assert Fed(s, k);
      if a.Send? && a.i < |s.submitting| { SendKeepsFed(s, a.i, cfg, k); }
      if a.Receive? { ReceiveKeepsFed(s, k); }
      if a.Write? && s.phase.Dispatching? { WriteKeepsFed(s, k); }
    }
    if a.Append? { LastNSnoc(s.submitted, a.e, cfg.recentBuffer); }
  }

  lemma {:induction false} RunKeepsInv(run: seq<Action>, cfg: Config)
    requires 0 < cfg.recentBuffer
    ensures Inv(Run(run, cfg), cfg)
    decreases |run|
  {
    if run != [] {
      RunKeepsInv(run[..|run| - 1], cfg);
      StepKeepsInv(Run(run[..|run| - 1], cfg), run[|run| - 1], cfg);
    } else {
      var s := Start(cfg);
      forall k | 0 <= k < |s.logs| ensures Fed(s, k) {
        assert s.logs[k] == [];
      }
    }
  }

  /** However submits interleave, the history is exactly the last RecentBuffer submitted events, in order. */
  lemma {:induction false} RecentIsLastSubmitted(run: seq<Action>, cfg: Config)
    requires 0 < cfg.recentBuffer
    ensures Run(run, cfg).recent == LastN(Run(run, cfg).submitted, cfg.recentBuffer)
  {
    RunKeepsInv(run, cfg);
  }

  /** Every sink is given the accepted events once each and in order; at most the last few are still to come.
      When the loop has returned, every sink has had all of them. */
  lemma SinksGetAcceptedEvents(run: seq<Action>, cfg: Config, k: nat)
    requires 0 < cfg.recentBuffer && k < cfg.sinks
    ensures var s := Run(run, cfg);
            && |s.logs| == cfg.sinks
            && s.logs[k] <= s.accepted
            && |s.accepted| <= |s.logs[k]| + |s.queue| + 1
            && (s.phase.Returned? ==> s.closed && s.logs[k] == s.accepted)
  {
    RunKeepsInv(run, cfg);
    var s := Run(run, cfg);
    assert Fed(s, k);
    assert s.logs[k] + InHand(s.phase, k) + s.queue == s.logs[k] + (InHand(s.phase, k) + s.queue);
  }

  function Times(s: seq<Event>, e: Event): nat {
    if s == [] then 0 else (if s[0] == e then 1 else 0) + Times(s[1..], e)
  }

  lemma {:induction false} TimesJoin(s: seq<Event>, t: seq<Event>, e: Event)
    ensures Times(s + t, e) == Times(s, e) + Times(t, e)
  {
    if s == [] {
      assert s + t == t;
    } else {
      assert (s + t)[1..] == s[1..] + t;
      TimesJoin(s[1..], t, e);
    }
  }

  function Accounted(s: State, e: Event): nat {
    Times(s.accepted, e) + Times(s.dropped, e) + Times(s.panicked, e) + Times(s.submitting, e)
  }

  lemma TimesRemove(s: seq<Event>, i: nat, e: Event)
    requires i < |s|
    ensures Times(s[..i] + s[i + 1..], e) + Times([s[i]], e) == Times(s, e)
  {
    var before, sent, after := s[..i], [s[i]], s[i + 1..];
    assert s == before + (sent + after);
    TimesJoin(before, sent + after, e);
    TimesJoin(sent, after, e);
    TimesJoin(before, after, e);
  }

  lemma SendKeepsAccount(s: State, i: nat, cfg: Config, e: Event)
    requires i < |s.submitting|
    ensures Accounted(AfterSend(s, i, cfg), e) == Accounted(s, e)
  {
    var sent := [s.submitting[i]];
    TimesRemove(s.submitting, i, e);
    if s.closed {
      TimesJoin(s.panicked, sent, e);
    } else if |s.queue| < cfg.bufferSize {
      TimesJoin(s.accepted, sent, e);
    } else {
      TimesJoin(s.dropped, sent, e);
    }
  }

  // Every submitted event is in one place.
  predicate Balanced(s: State, e: Event) { Times(s.submitted, e) == Accounted(s, e) }

  lemma AppendKeepsBalance(s: State, a: Action, cfg: Config, e: Event)
    requires a.Append? && Balanced(s, e)
    ensures Balanced(Step(s, a, cfg), e)
  {
    TimesJoin(s.submitted, [a.e], e);
    TimesJoin(s.submitting, [a.e], e);
  }

  function Books(s: State): seq<seq<Event>> { [s.submitted, s.accepted, s.dropped, s.panicked, s.submitting] }

  lemma OthersKeepBooks(s: State, a: Action, cfg: Config)
    requires !a.Append? && !a.Send?
    ensures Books(Step(s, a, cfg)) == Books(s)
  {
  }

  lemma StepKeepsBalance(s: State, a: Action, cfg: Config, e: Event)
    requires Balanced(s, e)
    ensures Balanced(Step(s, a, cfg), e)
  {
    if a.Append? {
      AppendKeepsBalance(s, a, cfg, e);
    } else if a.Send? {
      if a.i < |s.submitting| { SendKeepsAccount(s, a.i, cfg, e); }
      assert Step(s, a, cfg).submitted == s.submitted;
    } else {
      OthersKeepBooks(s, a, cfg);
    }
  }

  /** Every submitted event is accepted, dropped for a full channel, refused by the closed one, or still on
      its way to the send; none is lost or doubled. */
  lemma {:induction false} EverySubmitIsAccountedFor(run: seq<Action>, cfg: Config, e: Event)
    ensures Balanced(Run(run, cfg), e)
    decreases |run|
  {
    if run != [] {
      EverySubmitIsAccountedFor(run[..|run| - 1], cfg, e);
      StepKeepsBalance(Run(run[..|run| - 1], cfg), run[|run| - 1], cfg, e);
    }
  }

  // At some step of the run the channel was open and full.
  ghost predicate WasFull(run: seq<Action>, cfg: Config)
    decreases |run|
  {
    && run != []
    && (WasFull(run[..|run| - 1], cfg) || OpenAndFull(Run(run[..|run| - 1], cfg), cfg))
  }

  predicate OpenAndFull(s: State, cfg: Config) { !s.closed && |s.queue| == cfg.bufferSize }

  lemma StepDropsOnlyWhenFull(s: State, a: Action, cfg: Config)
    requires |s.queue| <= cfg.bufferSize
    ensures var t := Step(s, a, cfg);
            && |t.queue| <= cfg.bufferSize && (s.closed ==> t.closed)
            && (t.dropped == s.dropped || OpenAndFull(s, cfg)) && (t.panicked == s.panicked || s.closed)
  {
  }

  /** In every run the channel keeps to its capacity, an event is dropped only if the open channel was full at some
      step, and a send panics only if the channel has been closed. */
  lemma {:induction false} DropsOnlyWhenFull(run: seq<Action>, cfg: Config)
    ensures |Run(run, cfg).queue| <= cfg.bufferSize
    ensures Run(run, cfg).dropped != [] ==> WasFull(run, cfg)
    ensures Run(run, cfg).panicked != [] ==> Run(run, cfg).closed
    decreases |run|
  {
    if run != [] {
      DropsOnlyWhenFull(run[..|run| - 1], cfg);
      StepDropsOnlyWhenFull(Run(run[..|run| - 1], cfg), run[|run| - 1], cfg);
    }
  }

  /** Nothing is accepted once the channel is closed. */
  lemma {:induction false} ClosedAcceptsNothing(s: State, run: seq<Action>, cfg: Config)
    requires s.closed
    ensures From(s, run, cfg).closed && From(s, run, cfg).accepted == s.accepted
    decreases |run|
  {
    if run != [] { ClosedAcceptsNothing(s, run[..|run| - 1], cfg); }
  }

  function From(s: State, run: seq<Action>, cfg: Config): State
    decreases |run|
  {
    if run == [] then s else Step(From(s, run[..|run| - 1], cfg), run[|run| - 1], cfg)
  }

  // ---- the drain ends ----

  // The steps the loop still needs: `sinks + 3` for each queued event, and the rest of the phase it is in.
  function Left(s: State): nat {
    |s.queue| * (|s.logs| + 3) +
    match s.phase
    case Returned => 0
    case Draining => 1
    case Selecting => 2
    case Dispatching(_, next, _) => if next <= |s.logs| then 3 + |s.logs| - next else 3
  }

  predicate OfLoop(a: Action) { a.Receive? || a.SeeCancelled? || a.Write? }

  lemma LessByOne(n: nat, w: nat)
    requires 0 < n
    ensures (n - 1) * w + w == n * w
  {
  }

  /** Every step the loop takes brings its return nearer, or the select at which it waits for the next event; it waits
      only at an empty channel that is not closed. */
  lemma LoopMakesProgress(s: State, a: Action, cfg: Config)
    requires OfLoop(a)
    ensures Step(s, a, cfg) != s ==> Left(Step(s, a, cfg)) < Left(s)
    ensures Step(s, if s.phase.Dispatching? then Write else Receive, cfg) == s <==>
            s.phase.Returned? || (!s.phase.Dispatching? && s.queue == [] && !s.closed)
  {
    if s.queue != [] { LessByOne(|s.queue|, |s.logs| + 3); }
    if s.phase.Dispatching? {
      assert AfterWrite(s).phase != s.phase;
    }
  }

  function DrainRun(s: State, cfg: Config): seq<Action>
    requires s.closed
    decreases Left(s)
  {
    if s.phase.Returned? then []
    else
      var a := if s.phase.Dispatching? then Write else Receive;
      LoopMakesProgress(s, a, cfg);
      [a] + DrainRun(Step(s, a, cfg), cfg)
  }

  lemma {:induction false} FromCons(s: State, a: Action, run: seq<Action>, cfg: Config)
    ensures From(s, [a] + run, cfg) == From(Step(s, a, cfg), run, cfg)
    decreases |run|
  {
    var all := [a] + run;
    if run == [] {
      assert all == [a] && all[..0] == [];
    } else {
      FromCons(s, a, run[..|run| - 1], cfg);
      assert all[..|all| - 1] == [a] + run[..|run| - 1];
    }
  }

  lemma {:induction false} DrainReturns(s: State, cfg: Config)
    requires s.closed
    ensures From(s, DrainRun(s, cfg), cfg).phase.Returned?
    decreases Left(s)
  {
    if !s.phase.Returned? {
      var a := if s.phase.Dispatching? then Write else Receive;
      LoopMakesProgress(s, a, cfg);
      DrainReturns(Step(s, a, cfg), cfg);
      FromCons(s, a, DrainRun(Step(s, a, cfg), cfg), cfg);
    }
  }

  lemma {:induction false} FromKeepsInv(s: State, run: seq<Action>, cfg: Config)
    requires 0 < cfg.recentBuffer && Inv(s, cfg)
    ensures Inv(From(s, run, cfg), cfg)
    decreases |run|
  {
    if run != [] {
      FromKeepsInv(s, run[..|run| - 1], cfg);
      StepKeepsInv(From(s, run[..|run| - 1], cfg), run[|run| - 1], cfg);
    }
  }

  /** Whatever a run was doing when Shutdown closed the channel, the loop's own steps bring it to its return,
      with every event accepted by then given to every sink. */
  lemma ShutdownDeliversEverything(run: seq<Action>, cfg: Config, k: nat)
    requires 0 < cfg.recentBuffer && k < cfg.sinks && Run(run, cfg).closed
    ensures var s := Run(run, cfg);
            var t := From(s, DrainRun(s, cfg), cfg);
            t.phase.Returned? && |t.logs| == cfg.sinks && t.logs[k] == s.accepted
  {
    var s := Run(run, cfg);
    var t := From(s, DrainRun(s, cfg), cfg);
    RunKeepsInv(run, cfg);
    DrainReturns(s, cfg);
    FromKeepsInv(s, DrainRun(s, cfg), cfg);
    ClosedAcceptsNothing(s, DrainRun(s, cfg), cfg);
    assert Fed(t, k);
    assert t.logs[k] + [] + [] == t.logs[k];
  }
}
