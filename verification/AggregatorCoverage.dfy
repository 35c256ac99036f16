/** The aggregator of Pipeline, which may flush whenever it likes, can do what the aggregator with its limits and timers
    does (cdmp-mini/internal/pkg/server/consumer.go:934-1025). */
module AggregatorCoverage {
  import opened Kafka
  import opened Pipeline
  import opened PipelineRuns
  import A = Aggregator

  // ---- what an aggregator leaves behind, seen from either side ----

  type Handed = seq<(Operation, Message)>

  // Everything that the aggregator only adds to, and what it does not touch at all.
  datatype Seen = Seen(
    acks: seq<Ack>,            // sent so far, whether or not the committer has taken them
    handed: Handed,
    fetchers: seq<Fetcher>, jobs: seq<Job>, workers: seq<Worker>, jobsClosed: bool, acksClosed: bool,
    fetched: seq<Message>, worked: seq<Message>)

  function SeenOf(s: State): Seen {
    Seen(s.received + s.acks, s.handed, s.fetchers, s.jobs, s.workers, s.jobsClosed, s.acksClosed, s.fetched, s.worked)
  }

  function With(seen: Seen, acks: seq<Ack>, handed: Handed): Seen {
    seen.(acks := seen.acks + acks, handed := seen.handed + handed)
  }

  lemma WithWith(seen: Seen, a1: seq<Ack>, h1: Handed, a2: seq<Ack>, h2: Handed)
    ensures With(With(seen, a1, h1), a2, h2) == With(seen, a1 + a2, h1 + h2)
    ensures With(seen, [], []) == seen
  {
    assert (seen.acks + a1) + a2 == seen.acks + (a1 + a2) && (seen.handed + h1) + h2 == seen.handed + (h1 + h2);
    assert seen.acks + [] == seen.acks && seen.handed + [] == seen.handed;
  }

  function AcksIn(effects: seq<A.Effect>): seq<Ack> {
    if effects == [] then []
    else AcksIn(effects[..|effects|-1]) + (match effects[|effects|-1] case Sent(ack) => [ack] case Hand(_, _) => [])
  }

  function HandedIn(effects: seq<A.Effect>): Handed {
    if effects == [] then []
    else HandedIn(effects[..|effects|-1])
         + (match effects[|effects|-1] case Hand(op, msgs) => Pairs(op, msgs) case Sent(_) => [])
  }

  function Pairs(op: Operation, msgs: seq<Message>): Handed {
    seq(|msgs|, i requires 0 <= i < |msgs| => (op, msgs[i]))
  }

  lemma {:induction false} InAppend(xs: seq<A.Effect>, ys: seq<A.Effect>)
    ensures AcksIn(xs + ys) == AcksIn(xs) + AcksIn(ys) && HandedIn(xs + ys) == HandedIn(xs) + HandedIn(ys)
  {
    if ys == [] {
      assert xs + ys == xs;
    } else {
      assert (xs + ys)[..|xs + ys|-1] == xs + ys[..|ys|-1];
      InAppend(xs, ys[..|ys|-1]);
    }
  }

  // ---- buffers ----

  function Entries(items: seq<Item>): (es: seq<A.Entry>)
    ensures |es| == |items| && forall i :: 0 <= i < |es| ==> es[i] == (items[i].msg, items[i].readerIdx)
  {
    seq(|items|, i requires 0 <= i < |items| => (items[i].msg, items[i].readerIdx))
  }

  function AcksFor(items: seq<Item>): (acks: seq<Ack>)
    ensures |acks| == |items|
  {
    seq(|items|, i requires 0 <= i < |items| => Ack(items[i].msg, -1, items[i].readerIdx, true))
  }

  /** The same messages with the same readers wait on both sides. */
  ghost predicate SameBuffers(a: A.Agg, agg: Aggregator) {
    |a.buffers| == 3 && |agg.buffers| == 3 && forall k :: 0 <= k < 3 ==> a.buffers[k] == Entries(agg.buffers[k])
  }

  // What flushing one buffer does.
  function StageEffects(k: nat, items: seq<Item>): seq<A.Effect>
    requires k < 3
  {
    if items == [] then [] else [A.Hand(OpOf(k), A.Msgs(Entries(items)))] + A.Acks(Entries(items))
  }

  lemma {:induction false} AcksInAcks(items: seq<Item>)
    ensures AcksIn(A.Acks(Entries(items))) == AcksFor(items) && HandedIn(A.Acks(Entries(items))) == []
  {
    if items != [] {
      var n := |items| - 1;
      AcksInAcks(items[..n]);
      assert A.Acks(Entries(items))[..n] == A.Acks(Entries(items[..n]));
      assert AcksFor(items) == AcksFor(items[..n]) + [Ack(items[n].msg, -1, items[n].readerIdx, true)];
    }
  }

  lemma StageEffectsIn(k: nat, items: seq<Item>)
    requires k < 3
    ensures AcksIn(StageEffects(k, items)) == AcksFor(items)
    ensures HandedIn(StageEffects(k, items)) == Tagged(OpOf(k), items)
  {
    if items != [] {
      var hand := [A.Hand(OpOf(k), A.Msgs(Entries(items)))];
      InAppend(hand, A.Acks(Entries(items)));
      AcksInAcks(items);
      assert hand[..0] == [];
      assert Pairs(OpOf(k), A.Msgs(Entries(items))) == Tagged(OpOf(k), items);
      assert [] + Pairs(OpOf(k), A.Msgs(Entries(items))) + [] == Pairs(OpOf(k), A.Msgs(Entries(items)));
      assert [] + AcksFor(items) == AcksFor(items);
    }
  }

  // ---- runs of the pipeline's aggregator ----

  /** The actions lead from `s` to `t`, and all that is seen of them are these acks and hand-overs. */
  ghost predicate Leads(c: Config, s: State, acts: seq<Action>, t: State, acks: seq<Ack>, handed: Handed)
    requires c.Valid() && |s.agg.buffers| == 3
  {
    From(c, s, acts) == t && SeenOf(t) == With(SeenOf(s), acks, handed)
  }

  lemma LeadsOn(c: Config, s: State, xs: seq<Action>, t: State, ys: seq<Action>, u: State,
                a1: seq<Ack>, h1: Handed, a2: seq<Ack>, h2: Handed)
    requires c.Valid() && |s.agg.buffers| == 3 && |t.agg.buffers| == 3
    requires Leads(c, s, xs, t, a1, h1) && Leads(c, t, ys, u, a2, h2)
    ensures Leads(c, s, xs + ys, u, a1 + a2, h1 + h2)
  {
    FromAppend(c, s, xs, ys);
    WithWith(SeenOf(s), a1, h1, a2, h2);
  }

  lemma LeadsByOne(c: Config, s: State, a: Action, acks: seq<Ack>, handed: Handed)
    requires c.Valid() && |s.agg.buffers| == 3
    requires SeenOf(Step(c, s, a)) == With(SeenOf(s), acks, handed)
    ensures Leads(c, s, [a], Step(c, s, a), acks, handed)
  {
    assert [a][1..] == [];
  }

  // The committer makes room for acks.
  lemma {:induction false} TakeAcks(c: Config, s: State) returns (acts: seq<Action>, t: State)
    requires c.Valid() && |s.agg.buffers| == 3
    ensures t == s.(acks := [], received := s.received + s.acks)
    ensures Leads(c, s, acts, t, [], [])
    decreases |s.acks|
  {
    WithWith(SeenOf(s), [], [], [], []);
    if s.acks == [] {
      acts, t := [], s;
      assert s.received + [] == s.received;
    } else {
      var s1 := Step(c, s, CommitterReceives);
      assert s1.received + s1.acks == s.received + s.acks;
      LeadsByOne(c, s, CommitterReceives, [], []);
      var rest;
      rest, t := TakeAcks(c, s1);
      acts := [CommitterReceives] + rest;
      LeadsOn(c, s, [CommitterReceives], s1, rest, t, [], [], [], []);
    }
  }

  ghost predicate At(s: State, buffers: seq<seq<Item>>, doing: Activity, batchCh: seq<Item>) {
    s.agg == Aggregator(buffers, doing) && s.batchCh == batchCh
  }

  // The next acknowledgement of a batch that was handed over.
  lemma AckOne(c: Config, s: State, k: nat, closing: bool) returns (acts: seq<Action>, t: State)
    requires c.Valid() && c.ackCap >= 1 && k < 3 && |s.agg.buffers| == 3 && s.agg.doing == Flushing(k, true, closing)
    requires s.agg.buffers[k] != []
    ensures At(t, s.agg.buffers[k := s.agg.buffers[k][1..]], Flushing(k, true, closing), s.batchCh)
    ensures Leads(c, s, acts, t, [AcksFor(s.agg.buffers[k])[0]], [])
  {
    var room, s1 := TakeAcks(c, s);
    var one := [AcksFor(s.agg.buffers[k])[0]];
    t := Step(c, s1, Flush);
    assert SeenOf(t) == With(SeenOf(s1), one, []);
    LeadsByOne(c, s1, Flush, one, []);
    LeadsOn(c, s, room, s1, [Flush], t, [], [], one, []);
    acts := room + [Flush];
    assert [] + one == one;
  }

  // Acknowledging what is left of it.
  lemma {:induction false} AckRest(c: Config, s: State, k: nat, closing: bool) returns (acts: seq<Action>, t: State)
    requires c.Valid() && c.ackCap >= 1 && k < 3 && |s.agg.buffers| == 3 && s.agg.doing == Flushing(k, true, closing)
    ensures At(t, s.agg.buffers[k := []], Flushing(k + 1, false, closing), s.batchCh)
    ensures Leads(c, s, acts, t, AcksFor(s.agg.buffers[k]), [])
    decreases |s.agg.buffers[k]|
  {
    var items := s.agg.buffers[k];
    if items == [] {
      acts, t := [Flush], Step(c, s, Flush);
      WithWith(SeenOf(s), [], [], [], []);
      LeadsByOne(c, s, Flush, [], []);
      assert s.agg.buffers[k := []] == s.agg.buffers;
    } else {
      var first, s1 := AckOne(c, s, k, closing);
      var rest;
      rest, t := AckRest(c, s1, k, closing);
      acts := first + rest;
      LeadsOn(c, s, first, s1, rest, t, [AcksFor(items)[0]], [], AcksFor(items[1..]), []);
      assert [AcksFor(items)[0]] + AcksFor(items[1..]) == AcksFor(items);
      assert s.agg.buffers[k := items[1..]][k := []] == s.agg.buffers[k := []];
    }
  }

  lemma FlushStage(c: Config, s: State, k: nat, closing: bool) returns (acts: seq<Action>, t: State)
    requires c.Valid() && c.ackCap >= 1 && k < 3 && |s.agg.buffers| == 3 && s.agg.doing == Flushing(k, false, closing)
    ensures At(t, s.agg.buffers[k := []], Flushing(k + 1, false, closing), s.batchCh)
    ensures Leads(c, s, acts, t, AcksFor(s.agg.buffers[k]), HandedIn(StageEffects(k, s.agg.buffers[k])))
  {
    var items := s.agg.buffers[k];
    StageEffectsIn(k, items);
    if items == [] {
      acts, t := [Flush], Step(c, s, Flush);
      WithWith(SeenOf(s), [], [], [], []);
      LeadsByOne(c, s, Flush, [], []);
      assert s.agg.buffers[k := []] == s.agg.buffers && AcksFor(items) == [] && Tagged(OpOf(k), items) == [];
    } else {
      var handed := Tagged(OpOf(k), items);
      var s1 := Step(c, s, Flush);
      assert SeenOf(s1) == With(SeenOf(s), [], handed) by { assert SeenOf(s).acks + [] == SeenOf(s).acks; }
      LeadsByOne(c, s, Flush, [], handed);
      var rest;
      rest, t := AckRest(c, s1, k, closing);
      acts := [Flush] + rest;
      LeadsOn(c, s, [Flush], s1, rest, t, [], handed, AcksFor(items), []);
      assert [] + AcksFor(items) == AcksFor(items) && handed + [] == handed;
    }
  }

  function AllEffects(buffers: seq<seq<Item>>): seq<A.Effect>
    requires |buffers| == 3
  {
    StageEffects(0, buffers[0]) + StageEffects(1, buffers[1]) + StageEffects(2, buffers[2])
  }

  lemma AllEffectsIn(buffers: seq<seq<Item>>)
    requires |buffers| == 3
    ensures AcksIn(AllEffects(buffers)) == AcksFor(buffers[0]) + AcksFor(buffers[1]) + AcksFor(buffers[2])
    ensures HandedIn(AllEffects(buffers))
         == HandedIn(StageEffects(0, buffers[0])) + HandedIn(StageEffects(1, buffers[1]))
            + HandedIn(StageEffects(2, buffers[2]))
  {
    var e0, e1, e2 := StageEffects(0, buffers[0]), StageEffects(1, buffers[1]), StageEffects(2, buffers[2]);
    InAppend(e0 + e1, e2);
    InAppend(e0, e1);
    StageEffectsIn(0, buffers[0]);
    StageEffectsIn(1, buffers[1]);
    StageEffectsIn(2, buffers[2]);
  }

  // The three buffers of a flush.
  lemma FlushBuffers(c: Config, s: State, closing: bool) returns (acts: seq<Action>, t: State)
    requires c.Valid() && c.ackCap >= 1 && |s.agg.buffers| == 3 && s.agg.doing == Flushing(0, false, closing)
    ensures At(t, [[], [], []], Flushing(3, false, closing), s.batchCh)
    ensures Leads(c, s, acts, t, AcksIn(AllEffects(s.agg.buffers)), HandedIn(AllEffects(s.agg.buffers)))
  {
    var bs := s.agg.buffers;
    var h0, h1 := HandedIn(StageEffects(0, bs[0])), HandedIn(StageEffects(1, bs[1]));
    var h2 := HandedIn(StageEffects(2, bs[2]));
    var a0, a1, a2 := AcksFor(bs[0]), AcksFor(bs[1]), AcksFor(bs[2]);
    var x0, s0 := FlushStage(c, s, 0, closing);
    var x1, s1 := FlushStage(c, s0, 1, closing);
    var x2;
    x2, t := FlushStage(c, s1, 2, closing);
    LeadsOn(c, s, x0, s0, x1, s1, a0, h0, a1, h1);
    LeadsOn(c, s, x0 + x1, s1, x2, t, a0 + a1, h0 + h1, a2, h2);
    acts := x0 + x1 + x2;
    AllEffectsIn(bs);
    assert t.agg.buffers == [[], [], []];
  }

  // A whole flush.
  lemma FlushStages(c: Config, s: State, closing: bool) returns (acts: seq<Action>, t: State)
    requires c.Valid() && c.ackCap >= 1 && |s.agg.buffers| == 3 && s.agg.doing == Flushing(0, false, closing)
    ensures At(t, [[], [], []], if closing then Ended else Selecting, s.batchCh)
    ensures Leads(c, s, acts, t, AcksIn(AllEffects(s.agg.buffers)), HandedIn(AllEffects(s.agg.buffers)))
  {
    var acks, handed := AcksIn(AllEffects(s.agg.buffers)), HandedIn(AllEffects(s.agg.buffers));
    var all, s1 := FlushBuffers(c, s, closing);
    t := Step(c, s1, Flush);
    WithWith(SeenOf(s1), [], [], [], []);
    LeadsByOne(c, s1, Flush, [], []);
    acts := all + [Flush];
    LeadsOn(c, s, all, s1, [Flush], t, acks, handed, [], []);
    assert acks + [] == acks && handed + [] == handed;
  }

  // ---- the aggregator with limits and timers ----

  lemma StageOfAgg(a: A.Agg, items: seq<Item>, k: nat)
    requires k < 3 && |a.buffers| == 3 && a.buffers[k] == Entries(items) && a.running && a.budget.None?
    ensures A.FlushStage(a, k) == a.(effects := a.effects + StageEffects(k, items), buffers := a.buffers[k := []])
  {
    var es := a.buffers[k];
    if es == [] {
      assert a.effects + [] == a.effects && a.buffers[k := []] == a.buffers;
    } else {
      assert es[..|es|] == es;
      assert a.effects + [A.Hand(OpOf(k), A.Msgs(es))] + A.Acks(es)
          == a.effects + ([A.Hand(OpOf(k), A.Msgs(es))] + A.Acks(es));
    }
  }

  // One stage, with its place in the flush.
  lemma StageFrom(a: A.Agg, items: seq<Item>, k: nat, effects: seq<A.Effect>, buffers: seq<seq<A.Entry>>)
    requires k < 3 && |a.buffers| == 3 && a.buffers[k] == Entries(items) && a.running && a.budget.None?
    requires a.buffers[k := []] == buffers && a.effects + StageEffects(k, items) == effects
    ensures A.FlushStage(a, k) == a.(effects := effects, buffers := buffers)
  {
    StageOfAgg(a, items, k);
  }

  lemma StagesOfAgg(a: A.Agg, agg: Aggregator)
    requires SameBuffers(a, agg) && a.running && a.budget.None?
    ensures A.Stages(a) == a.(effects := a.effects + AllEffects(agg.buffers), buffers := [[], [], []])
  {
    var bs, es := agg.buffers, a.buffers;
    var n1 := a.effects + StageEffects(0, bs[0]);
    var n2 := n1 + StageEffects(1, bs[1]);
    var n3 := n2 + StageEffects(2, bs[2]);
    var b1: seq<seq<A.Entry>> := [[], es[1], es[2]];
    var b2: seq<seq<A.Entry>> := [[], [], es[2]];
    StageFrom(a, bs[0], 0, n1, b1);
    StageFrom(a.(effects := n1, buffers := b1), bs[1], 1, n2, b2);
    StageFrom(a.(effects := n2, buffers := b2), bs[2], 2, n3, [[], [], []]);
    Regroup(a.effects, StageEffects(0, bs[0]), StageEffects(1, bs[1]), StageEffects(2, bs[2]));
  }

  lemma Regroup<T>(n: seq<T>, x: seq<T>, y: seq<T>, z: seq<T>)
    ensures n + x + y + z == n + (x + y + z)
  {
  }

  /** What an event of the aggregator has added to its trace. */
  ghost predicate Adds(a: A.Agg, after: A.Agg, effects: seq<A.Effect>) { after.effects == a.effects + effects }

  // A flush on both sides.
  lemma FlushIsCovered(b: A.Bounds, capacity: nat, a: A.Agg, r: A.Reading, c: Config, s: State, closing: bool)
    returns (acts: seq<Action>, t: State, effects: seq<A.Effect>)
    requires c.Valid() && c.ackCap >= 1 && SameBuffers(a, s.agg) && a.running && a.budget.None?
    requires s.agg.doing == Flushing(0, false, closing)
    ensures var after := A.FlushAll(b, capacity, a, r);
            && Adds(a, after, effects) && SameBuffers(after, t.agg) && after.running && after.budget.None?
    ensures Leads(c, s, acts, t, AcksIn(effects), HandedIn(effects))
    ensures t.agg.doing == (if closing then Ended else Selecting) && t.batchCh == s.batchCh
  {
    effects := AllEffects(s.agg.buffers);
    StagesOfAgg(a, s.agg);
    acts, t := FlushStages(c, s, closing);
  }

  /** For every event but cancellation the goroutine of Pipeline has a run that takes the same buffers to the same
      buffers, hands over the same messages under the same operations, sends the same acks in the same order, and
      touches nothing else. */
  lemma EventIsCovered(b: A.Bounds, capacity: nat, a: A.Agg, ev: A.Event, c: Config, s: State)
    returns (acts: seq<Action>, effects: seq<A.Effect>)
    requires c.Valid() && c.ackCap >= 1
    requires SameBuffers(a, s.agg) && a.running && a.budget.None? && s.agg.doing == Selecting
    requires !ev.Cancelled?
    requires ev.Receive? ==> s.batchCh != [] && s.batchCh[0] == ev.item
    requires ev.Closed? ==> s.batchCh == [] && s.jobsClosed
    ensures var after, t := A.StepEvent(b, capacity, a, ev), From(c, s, acts);
            && Adds(a, after, effects) && SameBuffers(after, t.agg)
            && Leads(c, s, acts, t, AcksIn(effects), HandedIn(effects))
            && t.batchCh == (if ev.Receive? then s.batchCh[1..] else s.batchCh)
            && (if after.running then t.agg.doing == Selecting && after.budget.None? else t.agg.doing == Ended)
  {
    var p := A.Target(b, capacity, ev.head);
    var now := a.(params := p, selects := a.selects + [p]);
    var t;
    if ev.Receive? {
      acts, t, effects := TakeIsCovered(b, capacity, now, ev, c, s);
    } else {
      var first, s1 := if ev.Tick? then Tick else SeeClosed, Step(c, s, if ev.Tick? then Tick else SeeClosed);
      WithWith(SeenOf(s), [], [], [], []);
      LeadsByOne(c, s, first, [], []);
      var rest;
      rest, t, effects := FlushIsCovered(b, capacity, now, ev.flushed, c, s1, ev.Closed?);
      acts := [first] + rest;
      LeadsOn(c, s, [first], s1, rest, t, [], [], AcksIn(effects), HandedIn(effects));
      assert [] + AcksIn(effects) == AcksIn(effects) && [] + HandedIn(effects) == HandedIn(effects);
    }
  }

  // Whether taking the item starts a flush.
  predicate Fills(a: A.Agg, ev: A.Event)
    requires ev.Receive? && |a.buffers| == 3
  {
    var k := StageOf(ev.item.op);
    k >= 0 && var taken := A.Put(a.(received := a.received + [ev.item]), ev.item, ev.depth);
              |taken.buffers[k]| >= taken.params.limit
  }

  lemma TakeIsCovered(b: A.Bounds, capacity: nat, a: A.Agg, ev: A.Event, c: Config, s: State)
    returns (acts: seq<Action>, t: State, effects: seq<A.Effect>)
    requires c.Valid() && c.ackCap >= 1
    requires SameBuffers(a, s.agg) && a.running && a.budget.None? && s.agg.doing == Selecting
    requires ev.Receive? && s.batchCh != [] && s.batchCh[0] == ev.item
    ensures var after := A.Take(b, capacity, a, ev.item, ev.depth, ev.flushed);
            Adds(a, after, effects) && SameBuffers(after, t.agg) && after.running && after.budget.None?
    ensures Leads(c, s, acts, t, AcksIn(effects), HandedIn(effects))
    ensures t.agg.doing == Selecting && t.batchCh == s.batchCh[1..]
  {
    var receive := Receive(Fills(a, ev));
    var s1 := Step(c, s, receive);
    WithWith(SeenOf(s), [], [], [], []);
    LeadsByOne(c, s, receive, [], []);
    var k, noted := StageOf(ev.item.op), a.(received := a.received + [ev.item]);
    if k < 0 {
      acts, t, effects := [receive], s1, [];
      assert a.effects + [] == a.effects;
    } else {
      var taken := A.Put(noted, ev.item, ev.depth);
      PutKeepsSame(a, noted, s.agg, ev);
      if Fills(a, ev) {
        var rest;
        rest, t, effects := FlushIsCovered(b, capacity, taken, ev.flushed, c, s1, false);
        acts := [receive] + rest;
        LeadsOn(c, s, [receive], s1, rest, t, [], [], AcksIn(effects), HandedIn(effects));
        assert [] + AcksIn(effects) == AcksIn(effects) && [] + HandedIn(effects) == HandedIn(effects);
      } else {
        acts, t, effects := [receive], s1, [];
        assert a.effects + [] == a.effects;
      }
    }
  }

  lemma PutKeepsSame(a: A.Agg, noted: A.Agg, agg: Aggregator, ev: A.Event)
    requires SameBuffers(a, agg) && ev.Receive? && StageOf(ev.item.op) >= 0
    requires noted == a.(received := a.received + [ev.item])
    ensures var k := StageOf(ev.item.op);
            SameBuffers(A.Put(noted, ev.item, ev.depth), agg.(buffers := agg.buffers[k := agg.buffers[k] + [ev.item]]))
  {
    var k := StageOf(ev.item.op);
    assert Entries(agg.buffers[k] + [ev.item]) == Entries(agg.buffers[k]) + [(ev.item.msg, ev.item.readerIdx)];
  }
}
