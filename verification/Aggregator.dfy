/** runBatchAggregator: collects create, delete and update messages, hands each batch to its database
    function and then acknowledges it (cdmp-mini/internal/pkg/server/consumer.go:765-1026). */
module Aggregator {
  import opened Kafka
  import opened Wrappers

  // ---- parameters (lines 794-825, 851-901); durations in nanoseconds ----

  const MILLISECOND := 1_000_000
  const CREATE_FAST_FLUSH := 25 * MILLISECOND

  datatype Options = Options(maxBatch: int, minBatch: int, minTimeout: int, maxTimeout: int, batchTimeout: int)

  datatype Bounds = Bounds(minBatch: int, maxBatch: int, minTimeout: int, maxTimeout: int, baseTimeout: int) {
    predicate Valid() { 1 <= minBatch <= maxBatch && 0 < minTimeout <= baseTimeout <= maxTimeout }
  }

  function Normalize(o: Options): (b: Bounds)
    ensures b.Valid()
    ensures b.maxBatch == if o.maxBatch >= 1 then o.maxBatch else 100
    ensures 1 <= o.minBatch <= b.maxBatch ==> b.minBatch == o.minBatch
    ensures !(1 <= o.minBatch <= b.maxBatch) ==> b.minBatch == 1 || b.maxBatch - 1 <= 2 * b.minBatch <= b.maxBatch
    ensures b.minTimeout == if o.minTimeout > 0 then o.minTimeout else 40_000_000
    ensures o.maxTimeout > 0 ==> b.maxTimeout == Max(o.maxTimeout, b.minTimeout)
    ensures o.maxTimeout <= 0 ==> b.maxTimeout == Max(200_000_000, b.minTimeout)
    ensures o.batchTimeout >= b.maxTimeout ==> b.baseTimeout == b.maxTimeout
    ensures o.batchTimeout <= b.minTimeout ==> b.baseTimeout == b.minTimeout
    ensures b.minTimeout <= o.batchTimeout <= b.maxTimeout ==> b.baseTimeout == o.batchTimeout
  {
    var maxBatch := if o.maxBatch < 1 then 100 else o.maxBatch;
    var minBatch :=
      if o.minBatch < 1 || o.minBatch > maxBatch then (if maxBatch / 2 < 1 then 1 else maxBatch / 2) else o.minBatch;
    var minTimeout := if o.minTimeout <= 0 then 40 * MILLISECOND else o.minTimeout;
    var maxTimeout0 := if o.maxTimeout <= 0 then 200 * MILLISECOND else o.maxTimeout;
    var maxTimeout := if maxTimeout0 < minTimeout then minTimeout else maxTimeout0;
    var base0 := if o.batchTimeout <= 0 then minTimeout else o.batchTimeout;
    var base := if base0 < minTimeout then minTimeout else if base0 > maxTimeout then maxTimeout else base0;
    Bounds(minBatch, maxBatch, minTimeout, maxTimeout, base)
  }

  function Max(a: int, b: int): int { if a < b then b else a }

  // What adjustParams reads: the length of the batch channel and the lag-protection flag.
  datatype Reading = Reading(pending: nat, lagProtected: bool)

  datatype Params = Params(limit: int, timeout: int)

  /** The limit and timeout chosen by adjustParams. */
  function Target(b: Bounds, capacity: nat, r: Reading): Params {
    var raw :=
      if r.lagProtected || (capacity > 0 && r.pending >= capacity * 3 / 4) then
        Params(b.minBatch, b.minTimeout)
      else if capacity > 0 && r.pending >= capacity / 2 then
        var mid := (b.minBatch + b.maxBatch) / 2;
        Params(if mid < b.minBatch then b.minBatch else mid,
               if b.baseTimeout > b.minTimeout then b.baseTimeout - (b.baseTimeout - b.minTimeout) / 2
               else b.minTimeout)
      else if capacity > 0 && r.pending <= capacity / 4 then
        var extra := b.baseTimeout + (b.maxTimeout - b.baseTimeout) / 2;
        Params(b.maxBatch, if extra > b.maxTimeout then b.maxTimeout else extra)
      else Params(b.maxBatch, b.baseTimeout);
    Params(
      if raw.limit < b.minBatch then b.minBatch else if raw.limit > b.maxBatch then b.maxBatch else raw.limit,
      if raw.timeout < b.minTimeout then b.minTimeout
      else if raw.timeout > b.maxTimeout then b.maxTimeout else raw.timeout)
  }

  predicate HalfWay(x: int, low: int, high: int) { low + high - 1 <= 2 * x <= low + high + 1 }

  /** The four tiers: with lag protection or a channel three quarters full the least limit and timeout; half full, half
      way down; at most a quarter full, the greatest limit and half way up to the greatest timeout; in between, or
      without a channel, the greatest limit and the base timeout. Nothing is ever cut off at the bounds. */
  lemma TargetTiers(b: Bounds, capacity: nat, r: Reading)
    requires b.Valid()
    ensures var p := Target(b, capacity, r);
            if r.lagProtected || (capacity > 0 && 4 * r.pending > 3 * capacity - 4) then
              p.limit == b.minBatch && p.timeout == b.minTimeout
            else if capacity > 0 && 2 * r.pending > capacity - 2 then
              HalfWay(p.limit, b.minBatch, b.maxBatch) && HalfWay(p.timeout, b.minTimeout, b.baseTimeout)
            else if capacity > 0 && 4 * r.pending <= capacity then
              p.limit == b.maxBatch && HalfWay(p.timeout, b.baseTimeout, b.maxTimeout)
            else p.limit == b.maxBatch && p.timeout == b.baseTimeout
  {
  }

  /** A larger backlog never raises the limit or the timeout, nor does switching lag protection on. */
  lemma TargetIsAntitone(b: Bounds, capacity: nat, less: Reading, more: Reading)
    requires b.Valid() && less.pending <= more.pending && (less.lagProtected ==> more.lagProtected)
    ensures Target(b, capacity, more).limit <= Target(b, capacity, less).limit
    ensures Target(b, capacity, more).timeout <= Target(b, capacity, less).timeout
  {
    assert capacity / 4 <= capacity / 2 <= capacity * 3 / 4 || capacity <= 1;
  }

  // ---- the aggregator on values ----

  // A buffered message with the reader it came from.
  type Entry = (Message, int)

  datatype Effect = Hand(op: Operation, msgs: seq<Message>) | Sent(ack: Ack)

  /** `budget` is the number of acks that can still be sent before the cancelled context is noticed;
      `None` if that never happens. */
  datatype Agg = Agg(
    buffers: seq<seq<Entry>>,
    params: Params,
    effects: seq<Effect>,
    received: seq<Item>,     // taken from the batch channel
    budget: Option<nat>,
    selects: seq<Params>,    // parameters in force at each select
    running: bool)

  datatype Event =
    | Receive(item: Item, head: Reading, depth: nat, flushed: Reading)
    | Tick(head: Reading, flushed: Reading)
    | Closed(head: Reading, flushed: Reading)
    | Cancelled(head: Reading, flushed: Reading)

  function Msgs(es: seq<Entry>): (ms: seq<Message>)
    ensures |ms| == |es| && forall i :: 0 <= i < |es| ==> ms[i] == es[i].0
  {
    seq(|es|, i requires 0 <= i < |es| => es[i].0)
  }

  function AckOf(e: Entry): Ack { Ack(e.0, -1, e.1, true) }

  function Acks(es: seq<Entry>): (effects: seq<Effect>)
    ensures |effects| == |es| && forall i :: 0 <= i < |es| ==> effects[i] == Sent(AckOf(es[i]))
  {
    seq(|es|, i requires 0 <= i < |es| => Sent(AckOf(es[i])))
  }

  // How many of `n` acks are sent.
  function Affordable(budget: Option<nat>, n: nat): nat {
    if budget.None? || budget.value >= n then n else budget.value
  }

  function FlushStage(a: Agg, k: nat): (t: Agg)
    requires k < 3 && |a.buffers| == 3
    ensures |t.buffers| == 3 && t.selects == a.selects && (t.running ==> a.running)
  {
    var es := a.buffers[k];
    if !a.running || es == [] then a
    else
      var n := Affordable(a.budget, |es|);
      var sent := a.(effects := a.effects + [Hand(OpOf(k), Msgs(es))] + Acks(es[..n]),
                     budget := if a.budget.None? then None else Some(a.budget.value - n));
      if n == |es| then sent.(buffers := a.buffers[k := []]) else sent.(running := false)
  }

  function Stages(a: Agg): (t: Agg)
    requires |a.buffers| == 3
    ensures |t.buffers| == 3 && t.selects == a.selects && (t.running ==> a.running)
  {
    FlushStage(FlushStage(FlushStage(a, 0), 1), 2)
  }

  function FlushAll(b: Bounds, capacity: nat, a: Agg, r: Reading): (t: Agg)
    requires |a.buffers| == 3
    ensures |t.buffers| == 3 && t.selects == a.selects && (t.running ==> a.running)
  {
    var done := Stages(a);
    if done.running then done.(params := Target(b, capacity, r)) else done
  }

  /** The message and its reader go to the end of their buffer. */
  function Put(a: Agg, item: Item, depth: nat): (t: Agg)
    requires |a.buffers| == 3 && StageOf(item.op) >= 0
    ensures |t.buffers| == 3 && t.selects == a.selects && (t.running ==> a.running)
  {
    var k := StageOf(item.op);
    var es := a.buffers[k] + [(item.msg, item.readerIdx)];
    var fast := item.op == Create && |es| == 1 && depth == 0 && a.params.timeout > CREATE_FAST_FLUSH;
    a.(buffers := a.buffers[k := es],
       params := if fast then a.params.(timeout := CREATE_FAST_FLUSH) else a.params)
  }

  function Take(b: Bounds, capacity: nat, a: Agg, item: Item, depth: nat, flushed: Reading): (t: Agg)
    requires |a.buffers| == 3
    ensures |t.buffers| == 3 && t.selects == a.selects && (t.running ==> a.running)
  {
    var s := a.(received := a.received + [item]);
    var k := StageOf(item.op);
    if k < 0 then s
    else
      var taken := Put(s, item, depth);
      if |taken.buffers[k]| >= taken.params.limit then FlushAll(b, capacity, taken, flushed) else taken
  }

  function StepEvent(b: Bounds, capacity: nat, a: Agg, ev: Event): (t: Agg)
    requires |a.buffers| == 3
    ensures |t.buffers| == 3 && (t.running ==> a.running)
    ensures t.selects == a.selects + (if a.running then [Target(b, capacity, ev.head)] else [])
  {
    if !a.running then a
    else
      var p := Target(b, capacity, ev.head);
      var s := a.(params := p, selects := a.selects + [p]);
      match ev
      case Receive(item, _, depth, flushed) => Take(b, capacity, s, item, depth, flushed)
      case Tick(_, flushed) => FlushAll(b, capacity, s, flushed)
      case _ => FlushAll(b, capacity, s, ev.flushed).(running := false)
  }

  function Begin(b: Bounds, budget: Option<nat>): Agg {
    Agg([[], [], []], Params(b.maxBatch, b.baseTimeout), [], [], budget, [], true)
  }

  function Run(b: Bounds, capacity: nat, budget: Option<nat>, events: seq<Event>): (t: Agg)
    ensures |t.buffers| == 3
  {
    if events == [] then Begin(b, budget)
    else StepEvent(b, capacity, Run(b, capacity, budget, events[..|events|-1]), events[|events|-1])
  }

  // ---- reading a trace ----

  // What was acknowledged, handed over or received for one operation, in order.
  function AckedOf(effects: seq<Effect>, k: int): seq<Entry> {
    if effects == [] then []
    else
      var rest, e := effects[..|effects|-1], effects[|effects|-1];
      AckedOf(rest, k) +
        (if e.Sent? && StageOf(e.ack.message.op) == k then [(e.ack.message, e.ack.readerIdx)] else [])
  }

  function HandedOf(effects: seq<Effect>, k: int): seq<Message> {
    if effects == [] then []
    else
      var rest, e := effects[..|effects|-1], effects[|effects|-1];
      HandedOf(rest, k) + (if e.Hand? && StageOf(e.op) == k then e.msgs else [])
  }

  function ReceivedOf(items: seq<Item>, k: int): seq<Entry> {
    if items == [] then []
    else
      var rest, i := items[..|items|-1], items[|items|-1];
      ReceivedOf(rest, k) + (if StageOf(i.op) == k then [(i.msg, i.readerIdx)] else [])
  }

  /** At every moment of the trace, what has been acknowledged of an operation is a prefix of what has
      been handed to its batch function. */
  ghost predicate HandedFirst(effects: seq<Effect>) {
    effects == [] ||
    (HandedFirst(effects[..|effects|-1]) &&
     forall k :: 0 <= k < 3 ==> Msgs(AckedOf(effects, k)) <= HandedOf(effects, k))
  }

  /** Every batch has between 1 and `n` messages, all of its own operation. */
  ghost predicate BatchesWithin(effects: seq<Effect>, n: int) {
    forall i :: 0 <= i < |effects| && effects[i].Hand? ==>
      1 <= |effects[i].msgs| <= n && forall j :: 0 <= j < |effects[i].msgs| ==> effects[i].msgs[j].op == effects[i].op
  }

  // ---- the invariant ----

  ghost predicate BufferOk(es: seq<Entry>, k: nat, n: int)
    requires k < 3
  {
    |es| <= n && forall i :: 0 <= i < |es| ==> es[i].0.op == OpOf(k)
  }

  ghost predicate BuffersOk(a: Agg, n: int) {
    |a.buffers| == 3 && forall k :: 0 <= k < 3 ==> BufferOk(a.buffers[k], k, n)
  }

  // Nothing of operation k is lost, duplicated or reordered.
  ghost predicate Ordered(a: Agg, k: int)
    requires 0 <= k < 3 && |a.buffers| == 3
  {
    var acked, received := AckedOf(a.effects, k), ReceivedOf(a.received, k);
    && acked <= received
    && HandedOf(a.effects, k) <= Msgs(received)
    && (a.running ==> acked + a.buffers[k] == received && HandedOf(a.effects, k) == Msgs(acked))
  }

  ghost predicate Faithful(a: Agg, maxBatch: int) {
    && |a.buffers| == 3
    && HandedFirst(a.effects)
    && BatchesWithin(a.effects, maxBatch)
    && (forall k :: 0 <= k < 3 ==> Ordered(a, k))
  }

  function Block(es: seq<Entry>, k: nat, n: nat): seq<Effect>
    requires k < 3 && n <= |es|
  {
    [Hand(OpOf(k), Msgs(es))] + Acks(es[..n])
  }

  lemma MsgsAppend(xs: seq<Entry>, ys: seq<Entry>)
    ensures Msgs(xs + ys) == Msgs(xs) + Msgs(ys)
  {
  }

  lemma PrefixGrows(xs: seq<Entry>, ys: seq<Entry>, n: nat)
    requires n <= |ys|
    ensures xs + ys[..n] <= xs + ys && (n == |ys| ==> xs + ys[..n] == xs + ys)
  {
  }

  lemma HandAdds(effects: seq<Effect>, op: Operation, msgs: seq<Message>, j: int)
    ensures AckedOf(effects + [Hand(op, msgs)], j) == AckedOf(effects, j)
    ensures HandedOf(effects + [Hand(op, msgs)], j) == HandedOf(effects, j) + (if StageOf(op) == j then msgs else [])
  {
    assert (effects + [Hand(op, msgs)])[..|effects|] == effects;
  }

  lemma SentAdds(effects: seq<Effect>, e: Entry, j: int)
    ensures AckedOf(effects + [Sent(AckOf(e))], j) == AckedOf(effects, j) + (if StageOf(e.0.op) == j then [e] else [])
    ensures HandedOf(effects + [Sent(AckOf(e))], j) == HandedOf(effects, j)
  {
    assert (effects + [Sent(AckOf(e))])[..|effects|] == effects;
  }

  lemma BlockGrows(effects: seq<Effect>, es: seq<Entry>, k: nat, n: nat)
    requires k < 3 && 0 < n <= |es|
    ensures effects + Block(es, k, n) == (effects + Block(es, k, n - 1)) + [Sent(AckOf(es[n-1]))]
  {
    assert Acks(es[..n]) == Acks(es[..n-1]) + [Sent(AckOf(es[n-1]))];
  }

  lemma BlockStarts(effects: seq<Effect>, es: seq<Entry>, k: nat)
    requires k < 3
    ensures effects + Block(es, k, 0) == effects + [Hand(OpOf(k), Msgs(es))]
  {
    assert Acks(es[..0]) == [];
  }

  // One more acknowledgement behind a block.
  lemma BlockStep(effects: seq<Effect>, es: seq<Entry>, k: nat, n: nat, j: int)
    requires k < 3 && 0 < n <= |es| && BufferOk(es, k, |es|)
    ensures AckedOf(effects + Block(es, k, n), j) ==
            AckedOf(effects + Block(es, k, n - 1), j) + (if j == k then [es[n-1]] else [])
    ensures HandedOf(effects + Block(es, k, n), j) == HandedOf(effects + Block(es, k, n - 1), j)
  {
    BlockGrows(effects, es, k, n);
    SentAdds(effects + Block(es, k, n - 1), es[n-1], j);
    assert es[n-1].0.op == OpOf(k);
  }

  lemma TakeOneMore<T>(before: seq<T>, es: seq<T>, n: nat)
    requires 0 < n <= |es|
    ensures (before + es[..n-1]) + [es[n-1]] == before + es[..n]
  {
  }

  lemma {:induction false} BlockAdds(effects: seq<Effect>, es: seq<Entry>, k: nat, n: nat, j: int)
    requires k < 3 && n <= |es| && 0 <= j < 3 && BufferOk(es, k, |es|)
    ensures AckedOf(effects + Block(es, k, n), j) == AckedOf(effects, j) + (if j == k then es[..n] else [])
    ensures HandedOf(effects + Block(es, k, n), j) == HandedOf(effects, j) + (if j == k then Msgs(es) else [])
  {
    if n == 0 {
      BlockStarts(effects, es, k);
      HandAdds(effects, OpOf(k), Msgs(es), j);
    } else {
      BlockAdds(effects, es, k, n - 1, j);
      BlockStep(effects, es, k, n, j);
      TakeOneMore(AckedOf(effects, j), es, n);
    }
  }

  lemma BlockPrefix(effects: seq<Effect>, es: seq<Entry>, k: nat, n: nat, j: int)
    requires k < 3 && n <= |es| && 0 <= j < 3 && BufferOk(es, k, |es|)
    requires HandedOf(effects, j) == Msgs(AckedOf(effects, j))
    ensures Msgs(AckedOf(effects + Block(es, k, n), j)) <= HandedOf(effects + Block(es, k, n), j)
  {
    BlockAdds(effects, es, k, n, j);
    MsgsAppend(AckedOf(effects, j), es[..n]);
  }

  lemma HandedFirstSnoc(effects: seq<Effect>, e: Effect)
    requires HandedFirst(effects)
    requires forall j :: 0 <= j < 3 ==> Msgs(AckedOf(effects + [e], j)) <= HandedOf(effects + [e], j)
    ensures HandedFirst(effects + [e])
  {
    assert (effects + [e])[..|effects|] == effects;
  }

  lemma {:induction false} BlockHandsFirst(effects: seq<Effect>, es: seq<Entry>, k: nat, n: nat)
    requires k < 3 && n <= |es| && BufferOk(es, k, |es|) && HandedFirst(effects)
    requires forall j :: 0 <= j < 3 ==> HandedOf(effects, j) == Msgs(AckedOf(effects, j))
    ensures HandedFirst(effects + Block(es, k, n))
  {
    forall j | 0 <= j < 3
      ensures Msgs(AckedOf(effects + Block(es, k, n), j)) <= HandedOf(effects + Block(es, k, n), j)
    {
      BlockPrefix(effects, es, k, n, j);
    }
    if n == 0 {
      BlockStarts(effects, es, k);
      HandedFirstSnoc(effects, Hand(OpOf(k), Msgs(es)));
    } else {
      BlockHandsFirst(effects, es, k, n - 1);
      BlockGrows(effects, es, k, n);
      HandedFirstSnoc(effects + Block(es, k, n - 1), Sent(AckOf(es[n-1])));
    }
  }

  // The trace after a flush that acknowledged the first `n` of a batch.
  lemma FlushStageEffects(a: Agg, k: nat, j: int)
    requires k < 3 && 0 <= j < 3 && |a.buffers| == 3 && BufferOk(a.buffers[k], k, |a.buffers[k]|)
    requires a.running && a.buffers[k] != []
    ensures var es, t := a.buffers[k], FlushStage(a, k);
            var n := Affordable(a.budget, |es|);
            && n <= |es|
            && AckedOf(t.effects, j) == AckedOf(a.effects, j) + (if j == k then es[..n] else [])
            && HandedOf(t.effects, j) == HandedOf(a.effects, j) + (if j == k then Msgs(es) else [])
            && t.received == a.received && (t.running ==> n == |es| && t.buffers == a.buffers[k := []])
  {
    var es, t := a.buffers[k], FlushStage(a, k);
    var n := Affordable(a.budget, |es|);
    assert t.effects == a.effects + Block(es, k, n);
    BlockAdds(a.effects, es, k, n, j);
  }

  lemma FlushStageOrdered(a: Agg, k: nat, j: int)
    requires k < 3 && 0 <= j < 3 && |a.buffers| == 3 && BufferOk(a.buffers[k], k, |a.buffers[k]|) && Ordered(a, j)
    ensures Ordered(FlushStage(a, k), j)
  {
    var es := a.buffers[k];
    if a.running && es != [] {
      FlushStageEffects(a, k, j);
      if j == k {
        var acked, n := AckedOf(a.effects, j), Affordable(a.budget, |es|);
        MsgsAppend(acked, es);
        PrefixGrows(acked, es, n);
        assert acked + es == ReceivedOf(a.received, j);
      } else {
        assert FlushStage(a, k).running ==> FlushStage(a, k).buffers[j] == a.buffers[j];
      }
    }
  }

  lemma FlushStageTrace(a: Agg, k: nat, maxBatch: int)
    requires k < 3 && Faithful(a, maxBatch) && BufferOk(a.buffers[k], k, maxBatch)
    ensures HandedFirst(FlushStage(a, k).effects) && BatchesWithin(FlushStage(a, k).effects, maxBatch)
  {
    var es, t := a.buffers[k], FlushStage(a, k);
    if a.running && es != [] {
      var n := Affordable(a.budget, |es|);
      assert t.effects == a.effects + Block(es, k, n);
      forall j | 0 <= j < 3 ensures HandedOf(a.effects, j) == Msgs(AckedOf(a.effects, j)) { assert Ordered(a, j); }
      BlockHandsFirst(a.effects, es, k, n);
    }
  }

  lemma FlushStageKeeps(a: Agg, k: nat, maxBatch: int)
    requires k < 3 && Faithful(a, maxBatch) && BuffersOk(a, maxBatch)
    ensures Faithful(FlushStage(a, k), maxBatch) && BuffersOk(FlushStage(a, k), maxBatch)
  {
    assert BufferOk(a.buffers[k], k, maxBatch);
    FlushStageTrace(a, k, maxBatch);
    forall j | 0 <= j < 3 ensures Ordered(FlushStage(a, k), j) {
      FlushStageOrdered(a, k, j);
    }
  }

  lemma StagesKeep(a: Agg, maxBatch: int)
    requires Faithful(a, maxBatch) && BuffersOk(a, maxBatch)
    ensures Faithful(Stages(a), maxBatch)
  {
    FlushStageKeeps(a, 0, maxBatch);
    FlushStageKeeps(FlushStage(a, 0), 1, maxBatch);
    FlushStageKeeps(FlushStage(FlushStage(a, 0), 1), 2, maxBatch);
  }

  lemma StagesEmpty(a: Agg)
    requires |a.buffers| == 3
    ensures Stages(a).running ==> a.running && Stages(a).buffers == [[], [], []]
    ensures a.running && a.budget.None? ==> Stages(a).running && Stages(a).budget.None?
    ensures Stages(a).received == a.received && Stages(a).selects == a.selects && Stages(a).params == a.params
  {
  }

  // Faithful does not depend on the parameters, nor on stopping.
  lemma FaithfulFrame(a: Agg, t: Agg, maxBatch: int)
    requires Faithful(a, maxBatch)
    requires t.effects == a.effects && t.received == a.received && t.buffers == a.buffers && (t.running ==> a.running)
    ensures Faithful(t, maxBatch)
  {
    forall k | 0 <= k < 3 ensures Ordered(t, k) { assert Ordered(a, k); }
  }

  lemma FlushAllKeeps(b: Bounds, capacity: nat, a: Agg, r: Reading)
    requires b.Valid() && Faithful(a, b.maxBatch) && BuffersOk(a, b.maxBatch)
    ensures Faithful(FlushAll(b, capacity, a, r), b.maxBatch)
    ensures FlushAll(b, capacity, a, r).running ==>
              FlushAll(b, capacity, a, r).buffers == [[], [], []]
              && FlushAll(b, capacity, a, r).params == Target(b, capacity, r)
    ensures a.running && a.budget.None? ==>
              FlushAll(b, capacity, a, r).running && FlushAll(b, capacity, a, r).budget.None?
    ensures FlushAll(b, capacity, a, r).received == a.received && FlushAll(b, capacity, a, r).selects == a.selects
  {
    StagesKeep(a, b.maxBatch);
    StagesEmpty(a);
    FaithfulFrame(Stages(a), FlushAll(b, capacity, a, r), b.maxBatch);
  }

  lemma PutOrders(a: Agg, item: Item, depth: nat, j: int)
    requires |a.buffers| == 3 && 0 <= j < 3 && StageOf(item.op) >= 0 && a.running && Ordered(a, j)
    ensures Ordered(Put(a.(received := a.received + [item]), item, depth), j)
  {
    assert (a.received + [item])[..|a.received|] == a.received;
    assert AckedOf(a.effects, j) + (a.buffers[j] + [(item.msg, item.readerIdx)])
        == (AckedOf(a.effects, j) + a.buffers[j]) + [(item.msg, item.readerIdx)];
  }

  lemma PutKeeps(b: Bounds, a: Agg, item: Item, depth: nat)
    requires b.Valid() && Faithful(a, b.maxBatch) && BuffersOk(a, b.maxBatch - 1) && a.running
    requires StageOf(item.op) >= 0 && item.op == item.msg.op
    ensures var t := Put(a.(received := a.received + [item]), item, depth);
            Faithful(t, b.maxBatch) && forall j :: 0 <= j < 3 ==>
              BufferOk(t.buffers[j], j, if j == StageOf(item.op) then b.maxBatch else b.maxBatch - 1)
  {
    var t := Put(a.(received := a.received + [item]), item, depth);
    forall j | 0 <= j < 3 ensures Ordered(t, j) { PutOrders(a, item, depth, j); }
    forall j | 0 <= j < 3
      ensures BufferOk(t.buffers[j], j, if j == StageOf(item.op) then b.maxBatch else b.maxBatch - 1)
    {
      assert BufferOk(a.buffers[j], j, b.maxBatch - 1);
    }
  }

  // An operation without a batch is not in the channel; if it were, nothing would change.
  lemma IgnoreKeeps(a: Agg, item: Item, maxBatch: int)
    requires Faithful(a, maxBatch) && StageOf(item.op) < 0
    ensures Faithful(a.(received := a.received + [item]), maxBatch)
  {
    assert (a.received + [item])[..|a.received|] == a.received;
    forall j | 0 <= j < 3 ensures Ordered(a.(received := a.received + [item]), j) { assert Ordered(a, j); }
  }

  // What has been put stays in its buffer, or is flushed when the limit is reached.
  lemma PutThenKeeps(b: Bounds, capacity: nat, taken: Agg, k: nat, flushed: Reading)
    requires b.Valid() && Faithful(taken, b.maxBatch) && k < 3 && taken.running && taken.params.limit <= b.maxBatch
    requires forall j :: 0 <= j < 3 ==> BufferOk(taken.buffers[j], j, if j == k then b.maxBatch else b.maxBatch - 1)
    ensures var t := if |taken.buffers[k]| >= taken.params.limit then FlushAll(b, capacity, taken, flushed) else taken;
            && Faithful(t, b.maxBatch) && (t.running ==> BuffersOk(t, b.maxBatch - 1))
            && (taken.budget.None? ==> t.running && t.budget.None?)
  {
    assert BuffersOk(taken, b.maxBatch);
    if |taken.buffers[k]| >= taken.params.limit {
      FlushAllKeeps(b, capacity, taken, flushed);
    } else {
      assert BufferOk(taken.buffers[k], k, b.maxBatch - 1);
    }
  }

  lemma TakeKeeps(b: Bounds, capacity: nat, a: Agg, item: Item, depth: nat, flushed: Reading)
    requires b.Valid() && Faithful(a, b.maxBatch) && BuffersOk(a, b.maxBatch - 1)
    requires a.running && item.op == item.msg.op && a.params.limit <= b.maxBatch
    ensures var t := Take(b, capacity, a, item, depth, flushed);
            && Faithful(t, b.maxBatch) && (t.running ==> BuffersOk(t, b.maxBatch - 1))
            && (a.budget.None? ==> t.running && t.budget.None?)
  {
    if StageOf(item.op) < 0 {
      IgnoreKeeps(a, item, b.maxBatch);
    } else {
      PutKeeps(b, a, item, depth);
      PutThenKeeps(b, capacity, Put(a.(received := a.received + [item]), item, depth), StageOf(item.op), flushed);
    }
  }

  // ---- what the aggregator promises ----

  /** Items reach the batch channel with the operation of their message (see Pipeline). */
  ghost predicate WellRouted(events: seq<Event>) {
    forall i :: 0 <= i < |events| && events[i].Receive? ==> events[i].item.op == events[i].item.msg.op
  }

  ghost predicate WithinBounds(b: Bounds, p: Params) {
    b.minBatch <= p.limit <= b.maxBatch && b.minTimeout <= p.timeout <= b.maxTimeout
  }

  lemma StepKeeps(b: Bounds, capacity: nat, a: Agg, ev: Event)
    requires b.Valid() && Faithful(a, b.maxBatch) && (a.running ==> BuffersOk(a, b.maxBatch - 1))
    requires ev.Receive? ==> ev.item.op == ev.item.msg.op
    ensures Faithful(StepEvent(b, capacity, a, ev), b.maxBatch)
    ensures StepEvent(b, capacity, a, ev).running ==> BuffersOk(StepEvent(b, capacity, a, ev), b.maxBatch - 1)
    ensures a.running && a.budget.None? && (ev.Receive? || ev.Tick?) ==> StepEvent(b, capacity, a, ev).running
    ensures a.running ==> StepEvent(b, capacity, a, ev).selects == a.selects + [Target(b, capacity, ev.head)]
    ensures a.running && a.budget.None? && StepEvent(b, capacity, a, ev).running ==>
              StepEvent(b, capacity, a, ev).budget.None?
  {
    if a.running {
      var p := Target(b, capacity, ev.head);
      var s := a.(params := p, selects := a.selects + [p]);
      FaithfulFrame(a, s, b.maxBatch);
      forall k | 0 <= k < 3 ensures BufferOk(s.buffers[k], k, b.maxBatch) {
        assert BufferOk(a.buffers[k], k, b.maxBatch - 1);
      }
      assert BuffersOk(s, b.maxBatch - 1) by {
        forall k | 0 <= k < 3 ensures BufferOk(s.buffers[k], k, b.maxBatch - 1) {
          assert BufferOk(a.buffers[k], k, b.maxBatch - 1);
        }
      }
      if ev.Receive? {
        TakeKeeps(b, capacity, s, ev.item, ev.depth, ev.flushed);
      } else {
        FlushAllKeeps(b, capacity, s, ev.flushed);
        FaithfulFrame(FlushAll(b, capacity, s, ev.flushed), StepEvent(b, capacity, a, ev), b.maxBatch);
      }
    }
  }

  lemma EndsTheLoop(b: Bounds, capacity: nat, a: Agg, ev: Event)
    requires |a.buffers| == 3 && (ev.Closed? || ev.Cancelled?)
    ensures !StepEvent(b, capacity, a, ev).running
  {
  }

  lemma {:induction false} RunKeeps(b: Bounds, capacity: nat, budget: Option<nat>, events: seq<Event>)
    requires b.Valid() && WellRouted(events)
    ensures Faithful(Run(b, capacity, budget, events), b.maxBatch)
    ensures Run(b, capacity, budget, events).running ==> BuffersOk(Run(b, capacity, budget, events), b.maxBatch - 1)
    ensures budget.None? && Run(b, capacity, budget, events).running ==> Run(b, capacity, budget, events).budget.None?
    ensures forall p :: p in Run(b, capacity, budget, events).selects ==> WithinBounds(b, p)
  {
    if events != [] {
      RunKeeps(b, capacity, budget, events[..|events|-1]);
      StepKeeps(b, capacity, Run(b, capacity, budget, events[..|events|-1]), events[|events|-1]);
    }
  }

  /** In every run, cancelled or not, and for each operation: acknowledgements come after the hand-over,
      in the order of reception and with the reader of their message; each message is handed over at most
      once, in a batch of 1 to maxBatchBound messages of its operation; and while the loop runs the buffers
      hold exactly what is not acknowledged yet. */
  lemma {:induction false} BatchesAreFaithful(b: Bounds, capacity: nat, budget: Option<nat>, events: seq<Event>, k: int)
    requires b.Valid() && WellRouted(events) && 0 <= k < 3
    ensures var a := Run(b, capacity, budget, events);
            && HandedFirst(a.effects) && BatchesWithin(a.effects, b.maxBatch)
            && AckedOf(a.effects, k) <= ReceivedOf(a.received, k)
            && HandedOf(a.effects, k) <= Msgs(ReceivedOf(a.received, k))
            && (a.running ==> AckedOf(a.effects, k) + a.buffers[k] == ReceivedOf(a.received, k))
  {
    RunKeeps(b, capacity, budget, events);
    assert Ordered(Run(b, capacity, budget, events), k);
  }

  /** Closing the channel, or cancelling while acknowledgements still go through, flushes everything: afterwards the
      buffers are empty and all that was received has been handed over and acknowledged. */
  lemma ClosingLeavesNothing(b: Bounds, capacity: nat, events: seq<Event>, last: Event, k: int)
    requires b.Valid() && WellRouted(events) && 0 <= k < 3 && (last.Closed? || last.Cancelled?)
    requires Run(b, capacity, None, events).running
    ensures var a := Run(b, capacity, None, events + [last]);
            && !a.running && a.buffers == [[], [], []]
            && a.received == Run(b, capacity, None, events).received
            && AckedOf(a.effects, k) == ReceivedOf(a.received, k)
            && HandedOf(a.effects, k) == Msgs(ReceivedOf(a.received, k))
  {
    RunKeeps(b, capacity, None, events);
    RunSnoc(b, capacity, None, events, last);
    ClosedStep(b, capacity, Run(b, capacity, None, events), last, k);
  }

  lemma RunSnoc(b: Bounds, capacity: nat, budget: Option<nat>, events: seq<Event>, ev: Event)
    ensures Run(b, capacity, budget, events + [ev]) == StepEvent(b, capacity, Run(b, capacity, budget, events), ev)
  {
    assert (events + [ev])[..|events|] == events;
  }

  lemma ClosedStep(b: Bounds, capacity: nat, a: Agg, ev: Event, k: int)
    requires b.Valid() && Faithful(a, b.maxBatch) && BuffersOk(a, b.maxBatch - 1) && 0 <= k < 3
    requires a.running && a.budget.None? && (ev.Closed? || ev.Cancelled?)
    ensures var t := StepEvent(b, capacity, a, ev);
            && !t.running && t.buffers == [[], [], []]
            && t.received == a.received
            && AckedOf(t.effects, k) == ReceivedOf(a.received, k)
            && HandedOf(t.effects, k) == Msgs(ReceivedOf(a.received, k))
  {
    var p := Target(b, capacity, ev.head);
    var s := a.(params := p, selects := a.selects + [p]);
    FaithfulFrame(a, s, b.maxBatch);
    forall j | 0 <= j < 3 ensures BufferOk(s.buffers[j], j, b.maxBatch) {
      assert BufferOk(a.buffers[j], j, b.maxBatch - 1);
    }
    FlushAllKeeps(b, capacity, s, ev.flushed);
    assert Ordered(FlushAll(b, capacity, s, ev.flushed), k);
  }

  predicate Open(events: seq<Event>) { forall ev :: ev in events ==> KeepsOpen(ev) }

  predicate KeepsOpen(ev: Event) { ev.Receive? || ev.Tick? }

  lemma OpenSnoc(events: seq<Event>, ev: Event)
    ensures Open(events + [ev]) <==> Open(events) && KeepsOpen(ev)
  {
    assert ev in events + [ev] && forall e :: e in events ==> e in events + [ev];
  }

  lemma StillRunning(b: Bounds, capacity: nat, a: Agg, ev: Event)
    requires b.Valid() && Faithful(a, b.maxBatch) && (a.running ==> BuffersOk(a, b.maxBatch - 1) && a.budget.None?)
    requires ev.Receive? ==> ev.item.op == ev.item.msg.op
    ensures StepEvent(b, capacity, a, ev).running <==> a.running && KeepsOpen(ev)
  {
    StepKeeps(b, capacity, a, ev);
    if !KeepsOpen(ev) { EndsTheLoop(b, capacity, a, ev); }
  }

  /** Without a cancelled context the loop runs on exactly until the channel is closed. */
  lemma {:induction false} RunsUntilClosed(b: Bounds, capacity: nat, events: seq<Event>)
    requires b.Valid() && WellRouted(events)
    ensures Run(b, capacity, None, events).running <==> Open(events)
  {
    if events != [] {
      var rest, ev := events[..|events|-1], events[|events|-1];
      RunsUntilClosed(b, capacity, rest);
      RunKeeps(b, capacity, None, rest);
      StillRunning(b, capacity, Run(b, capacity, None, rest), ev);
      OpenSnoc(rest, ev);
      assert events == rest + [ev];
    }
  }

  // ---- when the aggregator flushes ----

  /** The effects of one flush: at most one hand-over of each operation, creates before deletes before updates. */
  ghost predicate InOrder(effects: seq<Effect>) {
    forall i, j :: 0 <= i < j < |effects| && effects[i].Hand? && effects[j].Hand? ==>
      (effects[i].op, effects[j].op) in {(Create, Delete), (Create, Update), (Delete, Update)}
  }

  function StageAdds(a: Agg, k: nat): seq<Effect>
    requires k < 3 && |a.buffers| == 3
  {
    if a.running && a.buffers[k] != [] then Block(a.buffers[k], k, Affordable(a.budget, |a.buffers[k]|)) else []
  }

  lemma StageAddsBlock(a: Agg, k: nat)
    requires k < 3 && |a.buffers| == 3
    ensures FlushStage(a, k).effects == a.effects + StageAdds(a, k)
    ensures forall i :: 0 <= i < |StageAdds(a, k)| && StageAdds(a, k)[i].Hand? ==>
                          i == 0 && StageAdds(a, k)[i].op == OpOf(k)
    ensures StageAdds(a, k) == [] ==> FlushStage(a, k) == a && (a.running ==> a.buffers[k] == [])
  {
  }

  function StagesAdds(a: Agg): seq<Effect>
    requires |a.buffers| == 3
  {
    StageAdds(a, 0) + StageAdds(FlushStage(a, 0), 1) + StageAdds(FlushStage(FlushStage(a, 0), 1), 2)
  }

  lemma StagesAdd(a: Agg)
    requires |a.buffers| == 3
    ensures Stages(a).effects == a.effects + StagesAdds(a) && InOrder(StagesAdds(a))
    ensures a.running && StagesAdds(a) == [] ==> a.buffers == [[], [], []]
  {
    var u := FlushStage(a, 0);
    var v := FlushStage(u, 1);
    StageAddsBlock(a, 0);
    StageAddsBlock(u, 1);
    StageAddsBlock(v, 2);
    ThreeBlocks(a, u, v, FlushStage(v, 2), StageAdds(a, 0), StageAdds(u, 1), StageAdds(v, 2));
  }

  lemma ThreeBlocks(a: Agg, u: Agg, v: Agg, t: Agg, x: seq<Effect>, y: seq<Effect>, z: seq<Effect>)
    requires |a.buffers| == |u.buffers| == |v.buffers| == 3
    requires u.effects == a.effects + x && v.effects == u.effects + y && t.effects == v.effects + z
    requires forall i :: 0 <= i < |x| && x[i].Hand? ==> i == 0 && x[i].op == Create
    requires forall i :: 0 <= i < |y| && y[i].Hand? ==> i == 0 && y[i].op == Delete
    requires forall i :: 0 <= i < |z| && z[i].Hand? ==> i == 0 && z[i].op == Update
    requires x == [] ==> u == a && (a.running ==> a.buffers[0] == [])
    requires y == [] ==> v == u && (u.running ==> u.buffers[1] == [])
    requires z == [] ==> v.running ==> v.buffers[2] == []
    ensures t.effects == a.effects + (x + y + z) && InOrder(x + y + z)
    ensures a.running && x + y + z == [] ==> a.buffers == [[], [], []]
  {
    BlocksInOrder(x, y, z);
    if x + y + z == [] {
      assert |x + y + z| == |x| + |y| + |z|;
      assert a.buffers == [a.buffers[0], a.buffers[1], a.buffers[2]];
    }
  }

  lemma BlocksInOrder(x: seq<Effect>, y: seq<Effect>, z: seq<Effect>)
    requires forall i :: 0 <= i < |x| && x[i].Hand? ==> i == 0 && x[i].op == Create
    requires forall i :: 0 <= i < |y| && y[i].Hand? ==> i == 0 && y[i].op == Delete
    requires forall i :: 0 <= i < |z| && z[i].Hand? ==> i == 0 && z[i].op == Update
    ensures InOrder(x + y + z)
  {
  }

  // A flush in a step: something is handed over if anything waits, and if the loop runs on, nothing waits any more.
  ghost predicate Flushed(a: Agg, t: Agg) {
    && a.effects <= t.effects && InOrder(t.effects[|a.effects|..])
    && (t.running ==> t.buffers == [[], [], []])
  }

  lemma FlushAllFlushes(b: Bounds, capacity: nat, a: Agg, r: Reading)
    requires |a.buffers| == 3
    ensures Flushed(a, FlushAll(b, capacity, a, r))
    ensures a.running && a.buffers != [[], [], []] ==> FlushAll(b, capacity, a, r).effects != a.effects
  {
    StagesEmpty(a);
    StagesAdd(a);
    assert (a.effects + StagesAdds(a))[|a.effects|..] == StagesAdds(a);
  }

  // An item is filed; its buffer is flushed exactly when that makes it reach the limit.
  lemma TakeFlushes(b: Bounds, capacity: nat, a: Agg, item: Item, depth: nat, flushed: Reading)
    requires |a.buffers| == 3 && a.running
    ensures var t, k := Take(b, capacity, a, item, depth, flushed), StageOf(item.op);
            if k >= 0 && |a.buffers[k]| + 1 >= a.params.limit then t.effects != a.effects && Flushed(a, t)
            else t.effects == a.effects && t.running
  {
    var s := a.(received := a.received + [item]);
    if StageOf(item.op) >= 0 { FlushAllFlushes(b, capacity, Put(s, item, depth), flushed); }
  }

  /** A tick flushes everything that waits. */
  lemma TickFlushes(b: Bounds, capacity: nat, budget: Option<nat>, events: seq<Event>, ev: Event)
    requires b.Valid() && WellRouted(events) && Run(b, capacity, budget, events).running && ev.Tick?
    ensures var a, t := Run(b, capacity, budget, events), Run(b, capacity, budget, events + [ev]);
            Flushed(a, t) && (a.buffers != [[], [], []] ==> t.effects != a.effects)
  {
    var a, p := Run(b, capacity, budget, events), Target(b, capacity, ev.head);
    RunSnoc(b, capacity, budget, events, ev);
    FlushAllFlushes(b, capacity, a.(params := p, selects := a.selects + [p]), ev.flushed);
  }

  // ---- acknowledgements before a cancelled context is noticed ----

  function SentCount(effects: seq<Effect>): nat {
    if effects == [] then 0 else SentCount(effects[..|effects|-1]) + (if effects[|effects|-1].Sent? then 1 else 0)
  }

  lemma {:induction false} SentCountBlock(effects: seq<Effect>, es: seq<Entry>, k: nat, n: nat)
    requires k < 3 && n <= |es|
    ensures SentCount(effects + Block(es, k, n)) == SentCount(effects) + n
  {
    var all := effects + Block(es, k, n);
    if n == 0 {
      BlockStarts(effects, es, k);
      assert all[..|all|-1] == effects;
    } else {
      SentCountBlock(effects, es, k, n - 1);
      BlockGrows(effects, es, k, n);
      assert all[..|all|-1] == effects + Block(es, k, n - 1);
    }
  }

  // The acknowledgements sent and those that can still be sent are always as many; only when none can the loop stop.
  ghost predicate Spent(a: Agg, budget: nat) {
    |a.buffers| == 3 && a.budget.Some? && SentCount(a.effects) + a.budget.value == budget
  }

  lemma FlushStageSpends(a: Agg, k: nat, budget: nat)
    requires k < 3 && Spent(a, budget)
    ensures Spent(FlushStage(a, k), budget)
    ensures a.running && !FlushStage(a, k).running ==> FlushStage(a, k).budget == Some(0)
    ensures !a.running ==> FlushStage(a, k) == a
  {
    var es := a.buffers[k];
    if a.running && es != [] {
      var n := Affordable(a.budget, |es|);
      assert FlushStage(a, k).effects == a.effects + Block(es, k, n);
      SentCountBlock(a.effects, es, k, n);
    }
  }

  lemma FlushAllSpends(b: Bounds, capacity: nat, a: Agg, r: Reading, budget: nat)
    requires Spent(a, budget)
    ensures Spent(FlushAll(b, capacity, a, r), budget)
    ensures a.running && !FlushAll(b, capacity, a, r).running ==> FlushAll(b, capacity, a, r).budget == Some(0)
  {
    var u := FlushStage(a, 0);
    var v := FlushStage(u, 1);
    FlushStageSpends(a, 0, budget);
    FlushStageSpends(u, 1, budget);
    FlushStageSpends(v, 2, budget);
  }

  lemma StepSpends(b: Bounds, capacity: nat, a: Agg, ev: Event, budget: nat)
    requires Spent(a, budget)
    ensures Spent(StepEvent(b, capacity, a, ev), budget)
    ensures a.running && KeepsOpen(ev) && !StepEvent(b, capacity, a, ev).running ==>
              StepEvent(b, capacity, a, ev).budget == Some(0)
    ensures !a.running ==> StepEvent(b, capacity, a, ev) == a
  {
    if a.running {
      var p := Target(b, capacity, ev.head);
      var s := a.(params := p, selects := a.selects + [p]);
      if !ev.Receive? {
        FlushAllSpends(b, capacity, s, ev.flushed, budget);
      } else if StageOf(ev.item.op) >= 0 {
        FlushAllSpends(b, capacity, Put(s.(received := a.received + [ev.item]), ev.item, ev.depth), ev.flushed, budget);
      }
    }
  }

  /** With a context that is noticed as cancelled after `budget` acknowledgements, no more than these are ever sent, and
      before the channel is closed the loop stops only when they have all been sent. */
  lemma {:induction false} CancelledOnlyWhenSpent(b: Bounds, capacity: nat, budget: nat, events: seq<Event>)
    ensures Spent(Run(b, capacity, Some(budget), events), budget)
    ensures Open(events) && !Run(b, capacity, Some(budget), events).running ==>
              Run(b, capacity, Some(budget), events).budget == Some(0)
  {
    if events != [] {
      var rest, ev := events[..|events|-1], events[|events|-1];
      CancelledOnlyWhenSpent(b, capacity, budget, rest);
      StepSpends(b, capacity, Run(b, capacity, Some(budget), rest), ev, budget);
      OpenSnoc(rest, ev);
      assert events == rest + [ev];
    }
  }

  // What waits of operation k.
  function Waiting(a: Agg, received: seq<Item>, k: int): int { |ReceivedOf(received, k)| - |AckedOf(a.effects, k)| }

  lemma ReceiveStep(b: Bounds, capacity: nat, a: Agg, ev: Event)
    requires b.Valid() && a.running && ev.Receive? && StageOf(ev.item.op) >= 0
    requires Faithful(a, b.maxBatch)
    ensures var t, k := StepEvent(b, capacity, a, ev), StageOf(ev.item.op);
            var limit := Target(b, capacity, ev.head).limit;
            && a.effects <= t.effects
            && (Waiting(a, a.received + [ev.item], k) >= limit ==> t.effects != a.effects && Flushed(a, t))
            && (Waiting(a, a.received + [ev.item], k) < limit ==>
                  && t.effects == a.effects && t.running
                  && t.buffers == a.buffers[k := a.buffers[k] + [(ev.item.msg, ev.item.readerIdx)]])
  {
    var p, k := Target(b, capacity, ev.head), StageOf(ev.item.op);
    var s := a.(params := p, selects := a.selects + [p], received := a.received + [ev.item]);
    var taken := Put(s, ev.item, ev.depth);
    assert (a.received + [ev.item])[..|a.received|] == a.received;
    assert Ordered(a, k);
    assert |taken.buffers[k]| == Waiting(a, a.received + [ev.item], k);
    FlushAllFlushes(b, capacity, taken, ev.flushed);
  }

  /** A received item flushes exactly when the messages of its operation that are received and not yet acknowledged,
      itself among them, reach the limit of that round's select; otherwise it only joins its buffer. So while the loop
      runs fewer than that limit wait. */
  lemma LimitDecides(b: Bounds, capacity: nat, budget: Option<nat>, events: seq<Event>, ev: Event)
    requires b.Valid() && WellRouted(events) && Run(b, capacity, budget, events).running
    requires ev.Receive? && StageOf(ev.item.op) >= 0
    ensures var a, t := Run(b, capacity, budget, events), Run(b, capacity, budget, events + [ev]);
            var k := StageOf(ev.item.op);
            && |t.selects| == |events| + 1 && t.received == a.received + [ev.item]
            && a.effects <= t.effects
            && (t.effects != a.effects <==> Waiting(a, t.received, k) >= t.selects[|events|].limit)
            && (t.effects != a.effects ==> Flushed(a, t))
            && (t.effects == a.effects ==>
                  t.running && t.buffers == a.buffers[k := a.buffers[k] + [(ev.item.msg, ev.item.readerIdx)]])
            && (t.running ==> |t.buffers[k]| < t.selects[|events|].limit)
  {
    var a := Run(b, capacity, budget, events);
    RunSnoc(b, capacity, budget, events, ev);
    RunKeeps(b, capacity, budget, events);
    SelectsAreTargets(b, capacity, budget, events);
    ReceiveStep(b, capacity, a, ev);
    ReceiveRecords(b, capacity, a, ev);
    assert Ordered(a, StageOf(ev.item.op));
  }

  lemma ReceiveRecords(b: Bounds, capacity: nat, a: Agg, ev: Event)
    requires |a.buffers| == 3 && a.running && ev.Receive?
    ensures StepEvent(b, capacity, a, ev).received == a.received + [ev.item]
    ensures StepEvent(b, capacity, a, ev).selects == a.selects + [Target(b, capacity, ev.head)]
  {
  }

  /** At every select the limit and the timeout are within their bounds; the shorter timeout set for a
      first create message is gone by then. */
  lemma {:induction false} SelectsWithinBounds(b: Bounds, capacity: nat, budget: Option<nat>, events: seq<Event>,
                                               i: nat)
    requires b.Valid() && WellRouted(events)
    requires i < |Run(b, capacity, budget, events).selects|
    ensures WithinBounds(b, Run(b, capacity, budget, events).selects[i])
    ensures i < |events| && Run(b, capacity, budget, events).selects[i] == Target(b, capacity, events[i].head)
  {
    RunKeeps(b, capacity, budget, events);
    SelectsAreTargets(b, capacity, budget, events);
  }

  lemma {:induction false} SelectsAreTargets(b: Bounds, capacity: nat, budget: Option<nat>, events: seq<Event>)
    ensures Run(b, capacity, budget, events).selects <= Targets(b, capacity, events)
    ensures Run(b, capacity, budget, events).running ==> |Run(b, capacity, budget, events).selects| == |events|
  {
    if events != [] {
      var rest, ev := events[..|events|-1], events[|events|-1];
      SelectsAreTargets(b, capacity, budget, rest);
      assert events == rest + [ev];
      TargetsSnoc(b, capacity, rest, ev);
      RunSnoc(b, capacity, budget, rest, ev);
      SelectIsTarget(b, capacity, Run(b, capacity, budget, rest), ev, Targets(b, capacity, rest));
    }
  }

  lemma SelectIsTarget(b: Bounds, capacity: nat, a: Agg, ev: Event, targets: seq<Params>)
    requires |a.buffers| == 3 && a.selects <= targets && (a.running ==> |a.selects| == |targets|)
    ensures var t := StepEvent(b, capacity, a, ev);
            && t.selects <= targets + [Target(b, capacity, ev.head)]
            && (t.running ==> |t.selects| == |targets| + 1)
  {
  }

  lemma TargetsSnoc(b: Bounds, capacity: nat, events: seq<Event>, ev: Event)
    ensures Targets(b, capacity, events + [ev]) == Targets(b, capacity, events) + [Target(b, capacity, ev.head)]
  {
  }

  function Targets(b: Bounds, capacity: nat, events: seq<Event>): (ps: seq<Params>)
    ensures |ps| == |events|
  {
    seq(|events|, i requires 0 <= i < |events| => Target(b, capacity, events[i].head))
  }

  // ---- the goroutine itself ----

  function Zip(msgs: seq<Message>, readers: seq<int>): (es: seq<Entry>)
    requires |msgs| == |readers|
    ensures |es| == |msgs| && Msgs(es) == msgs
  {
    seq(|msgs|, i requires 0 <= i < |msgs| => (msgs[i], readers[i]))
  }

  lemma ZipAppend(msgs: seq<Message>, readers: seq<int>, m: Message, r: int)
    requires |msgs| == |readers|
    ensures Zip(msgs + [m], readers + [r]) == Zip(msgs, readers) + [(m, r)]
  {
  }

  class BatchAggregator {
    const b: Bounds
    const capacity: nat
    var createMsgs: seq<Message>
    var createReaders: seq<int>
    var deleteMsgs: seq<Message>
    var deleteReaders: seq<int>
    var updateMsgs: seq<Message>
    var updateReaders: seq<int>
    var currentBatchLimit: int
    var currentTimeout: int
    var running: bool
    // the environment: what was done to it, and when the cancelled context is noticed
    var effects: seq<Effect>
    var budget: Option<nat>
    ghost var received: seq<Item>
    ghost var selects: seq<Params>

    /** Messages and readers stay aligned. */
    ghost predicate Valid()
      reads this
    {
      |createMsgs| == |createReaders| && |deleteMsgs| == |deleteReaders| && |updateMsgs| == |updateReaders|
    }

    ghost function View(): Agg
      requires Valid()
      reads this
    {
      Agg([Zip(createMsgs, createReaders), Zip(deleteMsgs, deleteReaders), Zip(updateMsgs, updateReaders)],
          Params(currentBatchLimit, currentTimeout), effects, received, budget, selects, running)
    }

    constructor (o: Options, capacity: nat, budget: Option<nat>)
      ensures Valid() && b == Normalize(o) && this.capacity == capacity && View() == Begin(b, budget)
    {
      var bounds := Normalize(o);
      this.b, this.capacity, this.budget := bounds, capacity, budget;
      createMsgs, deleteMsgs, updateMsgs, createReaders, deleteReaders, updateReaders := [], [], [], [], [], [];
      currentBatchLimit, currentTimeout := bounds.maxBatch, bounds.baseTimeout;
      effects, received, selects, running := [], [], [], true;
    }

    // ackMessages: one acknowledgement after the other until the context is noticed as cancelled.
    method AckMessages(msgs: seq<Message>, readers: seq<int>) returns (done: bool)
      requires Valid() && |msgs| == |readers| && running
      modifies this`effects, this`budget, this`running
      ensures var n := Affordable(old(budget), |msgs|);
              && effects == old(effects) + Acks(Zip(msgs, readers)[..n])
              && budget == (if old(budget).None? then None else Some(old(budget).value - n))
              && done == (n == |msgs|) && running == done
    {
      var i := 0;
      ghost var es := Zip(msgs, readers);
      while i < |msgs|
        invariant 0 <= i <= |msgs| && i <= Affordable(old(budget), |msgs|) && running
        invariant effects == old(effects) + Acks(es[..i])
        invariant budget == if old(budget).None? then None else Some(old(budget).value - i)
      {
        if budget == Some(0) {
          running := false;
          return false;
        }
        var readerIdx := if i < |readers| then readers[i] else -1;
        assert Acks(es[..i + 1]) == Acks(es[..i]) + [Sent(Ack(msgs[i], -1, readerIdx, true))];
        effects := effects + [Sent(Ack(msgs[i], -1, readerIdx, true))];
        budget := if budget.None? then None else Some(budget.value - 1);
        i := i + 1;
      }
      assert es[..|msgs|] == es;
      return true;
    }

    method AdjustParams(r: Reading)
      requires Valid()
      modifies this`currentBatchLimit, this`currentTimeout
      ensures Valid() && View() == old(View()).(params := Target(b, capacity, r))
    {
      var target := Target(b, capacity, r);
      if target.limit != currentBatchLimit { currentBatchLimit := target.limit; }
      if target.timeout != currentTimeout { currentTimeout := target.timeout; }
    }

    method FlushCreates() returns (ok: bool)
      requires Valid() && running
      modifies this
      ensures Valid() && View() == FlushStage(old(View()), 0) && ok == running
    {
      if |createMsgs| > 0 {
        effects := effects + [Hand(Create, createMsgs)];
        ok := AckMessages(createMsgs, createReaders);
        if !ok { return; }
      }
      createMsgs, createReaders, ok := [], [], true;
    }

    method FlushDeletes() returns (ok: bool)
      requires Valid() && running
      modifies this
      ensures Valid() && View() == FlushStage(old(View()), 1) && ok == running
    {
      if |deleteMsgs| > 0 {
        effects := effects + [Hand(Delete, deleteMsgs)];
        ok := AckMessages(deleteMsgs, deleteReaders);
        if !ok { return; }
      }
      deleteMsgs, deleteReaders, ok := [], [], true;
    }

    method FlushUpdates() returns (ok: bool)
      requires Valid() && running
      modifies this
      ensures Valid() && View() == FlushStage(old(View()), 2) && ok == running
    {
      if |updateMsgs| > 0 {
        effects := effects + [Hand(Update, updateMsgs)];
        ok := AckMessages(updateMsgs, updateReaders);
        if !ok { return; }
      }
      updateMsgs, updateReaders, ok := [], [], true;
    }

    method Flush(r: Reading) returns (ok: bool)
      requires Valid() && running
      modifies this
      ensures Valid() && View() == FlushAll(b, capacity, old(View()), r) && ok == running
    {
      ok := FlushCreates();
      if !ok { return; }
      ok := FlushDeletes();
      if !ok { return; }
      ok := FlushUpdates();
      if !ok { return; }
      AdjustParams(r);
    }

    method AppendCreate(item: Item, depth: nat)
      requires Valid() && item.op == Create
      modifies this`createMsgs, this`createReaders, this`currentTimeout
      ensures Valid() && View() == Put(old(View()), item, depth)
    {
      ZipAppend(createMsgs, createReaders, item.msg, item.readerIdx);
      createMsgs, createReaders := createMsgs + [item.msg], createReaders + [item.readerIdx];
      if |createMsgs| == 1 && depth == 0 && currentTimeout > CREATE_FAST_FLUSH {
        currentTimeout := CREATE_FAST_FLUSH;
      }
    }

    method AppendDelete(item: Item, ghost depth: nat)
      requires Valid() && item.op == Delete
      modifies this`deleteMsgs, this`deleteReaders
      ensures Valid() && View() == Put(old(View()), item, depth)
    {
      ZipAppend(deleteMsgs, deleteReaders, item.msg, item.readerIdx);
      deleteMsgs, deleteReaders := deleteMsgs + [item.msg], deleteReaders + [item.readerIdx];
    }

    method AppendUpdate(item: Item, ghost depth: nat)
      requires Valid() && item.op == Update
      modifies this`updateMsgs, this`updateReaders
      ensures Valid() && View() == Put(old(View()), item, depth)
    {
      ZipAppend(updateMsgs, updateReaders, item.msg, item.readerIdx);
      updateMsgs, updateReaders := updateMsgs + [item.msg], updateReaders + [item.readerIdx];
    }

    method TakeItem(item: Item, depth: nat, flushed: Reading)
      requires Valid() && running
      modifies this
      ensures Valid() && View() == Take(b, capacity, old(View()), item, depth, flushed)
      ensures effects != old(effects) <==>
              match item.op
              case Create => |old(createMsgs)| + 1 >= old(currentBatchLimit)
              case Delete => |old(deleteMsgs)| + 1 >= old(currentBatchLimit)
              case Update => |old(updateMsgs)| + 1 >= old(currentBatchLimit)
              case Other(_) => false
      ensures effects != old(effects) && running ==> createMsgs == [] && deleteMsgs == [] && updateMsgs == []
    {
      TakeFlushes(b, capacity, View(), item, depth, flushed);
      received := received + [item];
      var full := false;
      match item.op {
        case Create =>
          AppendCreate(item, depth);
          full := |createMsgs| >= currentBatchLimit;
        case Delete =>
          AppendDelete(item, depth);
          full := |deleteMsgs| >= currentBatchLimit;
        case Update =>
          AppendUpdate(item, depth);
          full := |updateMsgs| >= currentBatchLimit;
        case Other(_) =>
      }
      if full { var _ := Flush(flushed); }
    }

    // One turn of the loop: the parameters are set, then one case of the select runs.
    method Turn(ev: Event)
      requires Valid() && running
      modifies this
      ensures Valid() && View() == StepEvent(b, capacity, old(View()), ev)
    {
      AdjustParams(ev.head);
      selects := selects + [Target(b, capacity, ev.head)];
      if ev.Receive? {
        TakeItem(ev.item, ev.depth, ev.flushed);
      } else {
        var _ := Flush(ev.flushed);
        if !ev.Tick? { running := false; }
      }
    }

    /** The loop: one select per event until the channel is closed or the context cancelled. */
    method Loop(events: seq<Event>)
      requires Valid() && View() == Begin(b, budget)
      modifies this
      ensures Valid() && View() == Run(b, capacity, old(budget), events)
    {
      for i := 0 to |events|
        invariant Valid() && View() == Run(b, capacity, old(budget), events[..i])
      {
        assert events[..i + 1][..i] == events[..i];
        if running { Turn(events[i]); }
      }
      assert events[..|events|] == events;
    }
  }
}
