/** The committer goroutine of StartConsuming: it turns acknowledgements that arrive in any
    order into offset commits that are in order on every partition
    (cdmp-mini/internal/pkg/server/consumer.go:686-727). */
module Committer {
  import opened Kafka
  import opened Counting

  /** Outcome of the n-th call of commitWithRetry on a partition; any environment is such a function. */
  type Accepts = (int, nat) -> bool

  /** What the committer and the broker know about one partition. */
  datatype Lane = Lane(
    next: int,                // nextOffset
    pending: map<int, Ack>,   // acknowledged, not yet committed
    calls: nat,               // calls of commitWithRetry so far
    committed: seq<Ack>,      // successful commits, oldest first
    dropped: seq<Ack>)        // arrived below nextOffset, or replaced by a later ack of the same offset

  datatype State = State(lanes: map<int, Lane>, failed: seq<Ack>)

  const START := State(map[], [])

  function NewLane(offset: int): Lane { Lane(offset, map[], 0, [], []) }

  // ---- one acknowledgement, on one partition ----

  function Accept(lane: Lane, ack: Ack): Lane {
    var o := ack.Offset();
    if o < lane.next then lane.(dropped := lane.dropped + [ack])
    else lane.(pending := lane.pending[o := ack],
               dropped := lane.dropped + (if o in lane.pending then [lane.pending[o]] else []))
  }

  function TryCommit(lane: Lane, ok: bool): Lane
    requires lane.next in lane.pending
  {
    if ok then Lane(lane.next + 1, lane.pending - {lane.next}, lane.calls + 1,
                    lane.committed + [lane.pending[lane.next]], lane.dropped)
    else lane.(calls := lane.calls + 1)
  }

  function Drain(lane: Lane, p: int, accepts: Accepts): Lane
    decreases |lane.pending|
  {
    if lane.next !in lane.pending then lane
    else if accepts(p, lane.calls) then
      ShrinkPending(lane);
      Drain(TryCommit(lane, true), p, accepts)
    else TryCommit(lane, false)
  }

  lemma ShrinkPending(lane: Lane)
    requires lane.next in lane.pending
    ensures |(lane.pending - {lane.next})| < |lane.pending|
  {
    assert (lane.pending - {lane.next}).Keys == lane.pending.Keys - {lane.next};
    assert |(lane.pending - {lane.next}).Keys| == |lane.pending.Keys| - 1;
  }

  function StepLane(lane: Lane, ack: Ack, accepts: Accepts): Lane {
    if ack.Offset() < lane.next then Accept(lane, ack)
    else Drain(Accept(lane, ack), ack.Partition(), accepts)
  }

  function LaneOf(lanes: map<int, Lane>, ack: Ack): Lane {
    if ack.Partition() in lanes then lanes[ack.Partition()] else NewLane(ack.Offset())
  }

  // ---- all partitions ----

  function Step(s: State, ack: Ack, accepts: Accepts): State {
    if !ack.ok then s.(failed := s.failed + [ack])
    else s.(lanes := s.lanes[ack.Partition() := StepLane(LaneOf(s.lanes, ack), ack, accepts)])
  }

  function Run(acks: seq<Ack>, accepts: Accepts): State {
    if acks == [] then START
    else Step(Run(acks[..|acks|-1], accepts), acks[|acks|-1], accepts)
  }

  // The successful acknowledgements of a partition, in order of arrival.
  function Successes(acks: seq<Ack>, p: int): (r: seq<Ack>)
    ensures forall a :: a in r <==> a in acks && a.ok && a.Partition() == p
  {
    if acks == [] then []
    else
      var rest, last := acks[..|acks|-1], acks[|acks|-1];
      assert acks == rest + [last];
      Successes(rest, p) + (if last.ok && last.Partition() == p then [last] else [])
  }

  function OnPartition(acks: seq<Ack>, p: int): seq<Ack> {
    if acks == [] then []
    else OnPartition(acks[..|acks|-1], p) + (if acks[|acks|-1].Partition() == p then [acks[|acks|-1]] else [])
  }

  // ---- the invariant of a partition ----

  /** The last call of commitWithRetry on this partition failed. */
  predicate LastCallFailed(lane: Lane, p: int, accepts: Accepts) {
    lane.calls > 0 && !accepts(p, lane.calls - 1)
  }

  ghost predicate Consecutive(lane: Lane, acks: seq<Ack>)
    requires acks != []
  {
    && |lane.committed| == lane.next - acks[0].Offset()
    && (forall i :: 0 <= i < |lane.committed| ==>
          lane.committed[i] in acks && lane.committed[i].Offset() == acks[0].Offset() + i)
  }

  ghost predicate PendingAbove(lane: Lane, acks: seq<Ack>) {
    && (forall o :: o in lane.pending ==> o >= lane.next && lane.pending[o].Offset() == o && lane.pending[o] in acks)
    && (forall a :: a in acks && a.Offset() >= lane.next ==> a.Offset() in lane.pending)
  }

  /** What holds of a partition once it has received `acks`, all of them successful. */
  ghost predicate LaneInv(lane: Lane, acks: seq<Ack>, p: int, accepts: Accepts) {
    && acks != []
    && Consecutive(lane, acks)
    && PendingAbove(lane, acks)
    && (lane.next in lane.pending <==> LastCallFailed(lane, p, accepts))
  }

  /** What waits for an offset is the last acknowledgement of it. */
  ghost predicate LatestWait(lane: Lane, acks: seq<Ack>) {
    forall o :: o in lane.pending ==> exists k :: IsLatest(acks, k, lane.pending[o])
  }

  ghost predicate IsLatest(acks: seq<Ack>, k: nat, ack: Ack) {
    k < |acks| && acks[k] == ack && forall j :: k < j < |acks| ==> acks[j].Offset() != ack.Offset()
  }

  lemma AcceptKeepsLatest(lane: Lane, acks: seq<Ack>, ack: Ack)
    requires Filed(lane) && LatestWait(lane, acks)
    requires forall o :: o in lane.pending ==> o >= lane.next
    ensures LatestWait(Accept(lane, ack), acks + [ack])
  {
    var t := Accept(lane, ack);
    forall o | o in t.pending ensures exists k :: IsLatest(acks + [ack], k, t.pending[o]) {
      if o == ack.Offset() {
        assert IsLatest(acks + [ack], |acks|, ack);
      } else {
        var k :| IsLatest(acks, k, lane.pending[o]);
        assert IsLatest(acks + [ack], k, lane.pending[o]);
      }
    }
  }

  lemma {:induction false} DrainKeepsLatest(lane: Lane, acks: seq<Ack>, p: int, accepts: Accepts)
    requires LatestWait(lane, acks)
    ensures LatestWait(Drain(lane, p, accepts), acks)
    decreases |lane.pending|
  {
    if lane.next in lane.pending && accepts(p, lane.calls) {
      ShrinkPending(lane);
      DrainKeepsLatest(TryCommit(lane, true), acks, p, accepts);
    }
  }

  lemma StepLaneKeepsLatest(lane: Lane, acks: seq<Ack>, ack: Ack, accepts: Accepts)
    requires if acks == [] then lane == NewLane(ack.Offset())
             else LaneInv(lane, acks, ack.Partition(), accepts) && LatestWait(lane, acks)
    ensures LatestWait(StepLane(lane, ack, accepts), acks + [ack])
  {
    AcceptKeepsLatest(lane, acks, ack);
    DrainKeepsLatest(Accept(lane, ack), acks + [ack], ack.Partition(), accepts);
  }

  // The part of the invariant that also holds in the middle of Drain.
  ghost predicate Draining(lane: Lane, acks: seq<Ack>) {
    && acks != []
    && Consecutive(lane, acks)
    && PendingAbove(lane, acks)
  }

  lemma TryCommitKeeps(lane: Lane, acks: seq<Ack>)
    requires Draining(lane, acks) && lane.next in lane.pending
    ensures Draining(TryCommit(lane, true), acks) && Draining(TryCommit(lane, false), acks)
  {
  }

  lemma {:induction false} DrainKeeps(lane: Lane, acks: seq<Ack>, p: int, accepts: Accepts)
    requires Draining(lane, acks)
    requires lane.next !in lane.pending ==> !LastCallFailed(lane, p, accepts)
    ensures LaneInv(Drain(lane, p, accepts), acks, p, accepts)
    decreases |lane.pending|
  {
    if lane.next in lane.pending {
      TryCommitKeeps(lane, acks);
      if accepts(p, lane.calls) {
        ShrinkPending(lane);
        DrainKeeps(TryCommit(lane, true), acks, p, accepts);
      }
    }
  }

  lemma AcceptKeeps(lane: Lane, acks: seq<Ack>, ack: Ack)
    requires Draining(lane, acks)
    ensures Draining(Accept(lane, ack), acks + [ack])
  {
  }

  lemma StepLaneKeeps(lane: Lane, acks: seq<Ack>, ack: Ack, accepts: Accepts)
    requires if acks == [] then lane == NewLane(ack.Offset()) else LaneInv(lane, acks, ack.Partition(), accepts)
    ensures LaneInv(StepLane(lane, ack, accepts), acks + [ack], ack.Partition(), accepts)
  {
    if acks == [] {
      var first := Accept(lane, ack);
      assert first.pending == map[ack.Offset() := ack];
      assert [] + [ack] == [ack];
      assert Draining(first, [ack]);
      DrainKeeps(first, [ack], ack.Partition(), accepts);
    } else {
      AcceptKeeps(lane, acks, ack);
      if ack.Offset() >= lane.next {
        DrainKeeps(Accept(lane, ack), acks + [ack], ack.Partition(), accepts);
      }
    }
  }

  /** Every partition keeps its invariant, whatever arrives on the others. */
  lemma {:induction false} RunKeeps(acks: seq<Ack>, accepts: Accepts, p: int)
    ensures p in Run(acks, accepts).lanes <==> Successes(acks, p) != []
    ensures p in Run(acks, accepts).lanes ==> LaneInv(Run(acks, accepts).lanes[p], Successes(acks, p), p, accepts)
  {
    if acks != [] {
      var rest, last := acks[..|acks|-1], acks[|acks|-1];
      RunKeeps(rest, accepts, p);
      if last.ok && last.Partition() == p {
        StepLaneKeeps(LaneOf(Run(rest, accepts).lanes, last), Successes(rest, p), last, accepts);
      }
    }
  }

  /** When an offset is acknowledged again before it is committed, the later acknowledgement is the one that waits for
      the commit, with its own reader and worker. */
  lemma {:induction false} LatestAckWaits(acks: seq<Ack>, accepts: Accepts, p: int)
    requires p in Run(acks, accepts).lanes
    ensures LatestWait(Run(acks, accepts).lanes[p], Successes(acks, p))
  {
    var rest, last := acks[..|acks|-1], acks[|acks|-1];
    RunKeeps(rest, accepts, p);
    if p in Run(rest, accepts).lanes { LatestAckWaits(rest, accepts, p); }
    if last.ok && last.Partition() == p {
      StepLaneKeepsLatest(LaneOf(Run(rest, accepts).lanes, last), Successes(rest, p), last, accepts);
    }
  }

  // ---- what the committer promises ----

  ghost predicate Acknowledged(acks: seq<Ack>, o: int) { exists a :: a in acks && a.Offset() == o }

  /** The commits of a partition are s, s+1, ..., next-1, each once and each backed by a successful
      acknowledgement, where s is the first offset acknowledged without error. */
  lemma CommitsAreConsecutive(acks: seq<Ack>, accepts: Accepts, p: int)
    requires p in Run(acks, accepts).lanes
    ensures Successes(acks, p) != []
    ensures var lane, s := Run(acks, accepts).lanes[p], Successes(acks, p)[0].Offset();
            && lane.next == s + |lane.committed|
            && (forall i :: 0 <= i < |lane.committed| ==> lane.committed[i].Offset() == s + i)
            && (forall a :: a in lane.committed ==> a in acks && a.ok && a.Partition() == p)
  {
    RunKeeps(acks, accepts, p);
  }

  /** nextOffset is the smallest offset from s on without a successful acknowledgement, exactly when
      the partition's last commit call did not fail. Otherwise it is an acknowledged offset. */
  lemma NextIsLeastUnacknowledged(acks: seq<Ack>, accepts: Accepts, p: int)
    requires p in Run(acks, accepts).lanes
    ensures var lane, ok := Run(acks, accepts).lanes[p], Successes(acks, p);
            && ok != []
            && lane.next >= ok[0].Offset()
            && (forall o :: ok[0].Offset() <= o < lane.next ==> Acknowledged(ok, o))
            && (Acknowledged(ok, lane.next) <==> LastCallFailed(lane, p, accepts))
  {
    RunKeeps(acks, accepts, p);
    var lane, ok := Run(acks, accepts).lanes[p], Successes(acks, p);
    forall o | ok[0].Offset() <= o < lane.next ensures Acknowledged(ok, o) {
      assert lane.committed[o - ok[0].Offset()] in ok;
    }
    if lane.next in lane.pending { assert lane.pending[lane.next] in ok; }
  }

  /** An offset from s on that is never acknowledged without error blocks itself and all later ones. */
  lemma FailedOffsetBlocks(acks: seq<Ack>, accepts: Accepts, p: int, o: int)
    requires p in Run(acks, accepts).lanes
    requires Successes(acks, p) != [] && Successes(acks, p)[0].Offset() <= o
    requires forall a :: a in acks && a.ok && a.Partition() == p ==> a.Offset() != o
    ensures forall a :: a in Run(acks, accepts).lanes[p].committed ==> a.Offset() < o
  {
    NextIsLeastUnacknowledged(acks, accepts, p);
    CommitsAreConsecutive(acks, accepts, p);
    assert !Acknowledged(Successes(acks, p), o);
  }

  /** Below the first success nothing is promised: a failed offset there is covered by the first commit. */
  lemma FailureBelowStartIsCovered(bad: Ack, good: Ack, accepts: Accepts)
    requires !bad.ok && good.ok && bad.Partition() == good.Partition() && bad.Offset() < good.Offset()
    requires accepts(good.Partition(), 0)
    ensures var s := Run([bad, good], accepts);
            good.Partition() in s.lanes && s.lanes[good.Partition()].committed == [good] && s.failed == [bad]
  {
    assert [bad, good][..1] == [bad] && [bad][..0] == [];
    assert Run([bad], accepts) == START.(failed := [bad]);
    var lane := Accept(NewLane(good.Offset()), good);
    assert Drain(TryCommit(lane, true), good.Partition(), accepts) == TryCommit(lane, true);
  }

  /** A partition's state depends on that partition's acknowledgements alone. */
  lemma {:induction false} PartitionsAreIndependent(acks: seq<Ack>, accepts: Accepts, p: int)
    ensures p in Run(acks, accepts).lanes <==> p in Run(OnPartition(acks, p), accepts).lanes
    ensures p in Run(acks, accepts).lanes ==>
              Run(acks, accepts).lanes[p] == Run(OnPartition(acks, p), accepts).lanes[p]
  {
    if acks != [] {
      var rest, last := acks[..|acks|-1], acks[|acks|-1];
      PartitionsAreIndependent(rest, accepts, p);
      if last.Partition() == p {
        var mine := OnPartition(acks, p);
        assert mine[..|mine|-1] == OnPartition(rest, p);
      } else {
        assert OnPartition(acks, p) == OnPartition(rest, p);
      }
    }
  }

  // ---- where an acknowledged message is ----

  function WaitingFor(lane: Lane, m: Message): nat {
    if m.offset in lane.pending then Same(lane.pending[m.offset].message, m) else 0
  }

  ghost function PlacedInLane(lane: Lane, m: Message): nat {
    Sum(lane.committed, m, OfAck) + Sum(lane.dropped, m, OfAck) + WaitingFor(lane, m)
  }

  /** How often `m` is among the failed, or on its partition committed, dropped or waiting. */
  ghost function Placed(s: State, m: Message): nat {
    Sum(s.failed, m, OfAck) + (if m.partition in s.lanes then PlacedInLane(s.lanes[m.partition], m) else 0)
  }

  ghost predicate Filed(lane: Lane) { forall o :: o in lane.pending ==> lane.pending[o].Offset() == o }

  lemma AcceptPlaces(lane: Lane, ack: Ack, m: Message)
    requires Filed(lane)
    ensures Filed(Accept(lane, ack))
    ensures PlacedInLane(Accept(lane, ack), m) == PlacedInLane(lane, m) + OfAck(ack, m)
  {
    SumPush(lane.dropped, [ack], m, OfAck);
    var o := ack.Offset();
    SumPush(lane.dropped, if o in lane.pending then [lane.pending[o]] else [], m, OfAck);
  }

  lemma {:induction false} DrainPlaces(lane: Lane, p: int, accepts: Accepts, m: Message)
    requires Filed(lane)
    ensures Filed(Drain(lane, p, accepts))
    ensures PlacedInLane(Drain(lane, p, accepts), m) == PlacedInLane(lane, m)
    decreases |lane.pending|
  {
    if lane.next in lane.pending && accepts(p, lane.calls) {
      SumPush(lane.committed, [lane.pending[lane.next]], m, OfAck);
      ShrinkPending(lane);
      DrainPlaces(TryCommit(lane, true), p, accepts, m);
    }
  }

  /** A message is placed as often as it was acknowledged: none is lost or counted twice. */
  lemma {:induction false} EveryAckHasOnePlace(acks: seq<Ack>, accepts: Accepts, m: Message)
    ensures Placed(Run(acks, accepts), m) == Sum(acks, m, OfAck)
    ensures forall p :: p in Run(acks, accepts).lanes ==> Filed(Run(acks, accepts).lanes[p])
  {
    if acks != [] {
      var rest, ack := acks[..|acks|-1], acks[|acks|-1];
      EveryAckHasOnePlace(rest, accepts, m);
      assert acks == rest + [ack];
      SumPush(rest, [ack], m, OfAck);
      var s := Run(rest, accepts);
      if ack.ok {
        var lane := LaneOf(s.lanes, ack);
        AcceptPlaces(lane, ack, m);
        DrainPlaces(Accept(lane, ack), ack.Partition(), accepts, m);
      } else {
        SumPush(s.failed, [ack], m, OfAck);
      }
    }
  }

  // ---- the goroutine itself ----

  function At<T>(m: map<int, T>, k: int, default: T): T { if k in m then m[k] else default }

  /** Kafka as the committer sees it: how often it was called, and which offsets it accepted. */
  class Broker {
    const accepts: Accepts
    var calls: map<int, nat>
    var committed: map<int, seq<Ack>>

    constructor (accepts: Accepts)
      ensures this.accepts == accepts && calls == map[] && committed == map[]
    {
      this.accepts, calls, committed := accepts, map[], map[];
    }

    method CommitWithRetry(ack: Ack) returns (ok: bool)
      modifies this
      ensures ok == accepts(ack.Partition(), At(old(calls), ack.Partition(), 0))
      ensures calls == old(calls)[ack.Partition() := At(old(calls), ack.Partition(), 0) + 1]
      ensures committed ==
              if ok then old(committed)[ack.Partition() := At(old(committed), ack.Partition(), []) + [ack]]
              else old(committed)
    {
      var p := ack.Partition();
      ok := accepts(p, At(calls, p, 0));
      calls := calls[p := At(calls, p, 0) + 1];
      if ok { committed := committed[p := At(committed, p, []) + [ack]]; }
    }
  }

  class OffsetCommitter {
    const broker: Broker
    var pending: map<int, map<int, Ack>>
    var states: map<int, int>
    ghost var dropped: map<int, seq<Ack>>
    ghost var failed: seq<Ack>

    // Nothing is recorded about a partition that has no state yet, and acks wait under their own partition.
    ghost predicate Valid()
      reads this, broker
    {
      && (forall q, o :: q in pending && o in pending[q] ==> pending[q][o].Partition() == q)
      && pending.Keys <= states.Keys && broker.calls.Keys <= states.Keys
      && broker.committed.Keys <= states.Keys && dropped.Keys <= states.Keys
    }

    ghost function LaneAt(p: int): Lane
      requires p in states
      reads this, broker
    {
      Lane(states[p], At(pending, p, map[]), At(broker.calls, p, 0), At(broker.committed, p, []), At(dropped, p, []))
    }

    ghost function View(): State
      reads this, broker
    {
      State(map p | p in states :: LaneAt(p), failed)
    }

    constructor (broker: Broker)
      requires broker.calls == map[] && broker.committed == map[]
      ensures Valid() && View() == START && this.broker == broker
    {
      this.broker, pending, states, dropped, failed := broker, map[], map[], map[], [];
    }

    method HandleAck(ack: Ack)
      requires Valid()
      modifies this, broker
      ensures Valid() && View() == Step(old(View()), ack, broker.accepts)
    {
      if !ack.ok {
        failed := failed + [ack];
        return;
      }
      var p := ack.Partition();
      ghost var lane := LaneOf(View().lanes, ack);
      if p !in states {
        states := states[p := ack.Offset()];
      }
      assert LaneAt(p) == lane;
      TakeSuccess(ack);
      assert View().lanes == old(View()).lanes[p := LaneAt(p)];
    }

    // A successful acknowledgement on a partition that has a state.
    method TakeSuccess(ack: Ack)
      requires Valid() && ack.Partition() in states
      modifies this, broker
      ensures Valid() && states.Keys == old(states.Keys) && failed == old(failed)
      ensures forall q :: q in states && q != ack.Partition() ==> LaneAt(q) == old(LaneAt(q))
      ensures LaneAt(ack.Partition()) == StepLane(old(LaneAt(ack.Partition())), ack, broker.accepts)
    {
      if ack.Offset() < states[ack.Partition()] {
        DropLate(ack);
      } else {
        FileAck(ack);
        CommitReady(ack.Partition());
      }
    }

    ghost method DropLate(ack: Ack)
      requires Valid() && ack.Partition() in states && ack.Offset() < states[ack.Partition()]
      modifies this`dropped
      ensures Valid()
      ensures forall q :: q in states && q != ack.Partition() ==> LaneAt(q) == old(LaneAt(q))
      ensures LaneAt(ack.Partition()) == Accept(old(LaneAt(ack.Partition())), ack)
    {
      dropped := dropped[ack.Partition() := At(dropped, ack.Partition(), []) + [ack]];
    }

    /** The goroutine's whole life: every acknowledgement until the channel is closed. */
    method Consume(acks: seq<Ack>)
      requires Valid() && View() == START
      modifies this, broker
      ensures Valid() && View() == Run(acks, broker.accepts)
    {
      for i := 0 to |acks|
        invariant Valid() && View() == Run(acks[..i], broker.accepts)
      {
        HandleAck(acks[i]);
        assert acks[..i + 1][..i] == acks[..i];
      }
      assert acks[..|acks|] == acks;
    }

    // Put a current acknowledgement where CommitReady looks for it.
    method FileAck(ack: Ack)
      requires Valid() && ack.Partition() in states && ack.Offset() >= states[ack.Partition()]
      modifies this
      ensures Valid() && states == old(states) && failed == old(failed) && ack.Partition() in pending
      ensures forall q :: q in states && q != ack.Partition() ==> LaneAt(q) == old(LaneAt(q))
      ensures LaneAt(ack.Partition()) == Accept(old(LaneAt(ack.Partition())), ack)
    {
      var p, o := ack.Partition(), ack.Offset();
      if p !in pending {
        pending := pending[p := map[]];
      }
      if o in pending[p] {
        dropped := dropped[p := At(dropped, p, []) + [pending[p][o]]];
      }
      pending := pending[p := pending[p][o := ack]];
    }

    // The inner loop: commit while the next offset is waiting and the broker agrees.
    method CommitReady(p: int)
      requires Valid() && p in pending
      modifies this, broker
      ensures Valid() && states.Keys == old(states.Keys) && failed == old(failed)
      ensures forall q :: q in states && q != p ==> LaneAt(q) == old(LaneAt(q))
      ensures LaneAt(p) == Drain(old(LaneAt(p)), p, broker.accepts)
    {
      while states[p] in pending[p]
        invariant Valid() && p in pending && states.Keys == old(states.Keys) && failed == old(failed)
        invariant forall q :: q in states && q != p ==> LaneAt(q) == old(LaneAt(q))
        invariant Drain(LaneAt(p), p, broker.accepts) == Drain(old(LaneAt(p)), p, broker.accepts)
        decreases |pending[p]|
      {
        ShrinkPending(LaneAt(p));
        var ok := CommitExpected(p);
        if !ok { break; }
      }
    }

    // One round of the inner loop.
    method CommitExpected(p: int) returns (ok: bool)
      requires Valid() && p in pending && states[p] in pending[p]
      modifies this, broker
      ensures Valid() && states.Keys == old(states.Keys) && failed == old(failed) && p in pending
      ensures forall q :: q in states && q != p ==> LaneAt(q) == old(LaneAt(q))
      ensures ok == broker.accepts(p, old(LaneAt(p)).calls)
      ensures LaneAt(p) == TryCommit(old(LaneAt(p)), ok)
    {
      var expected := states[p];
      ok := broker.CommitWithRetry(pending[p][expected]);
      if ok {
        pending := pending[p := pending[p] - {expected}];
        states := states[p := expected + 1];
      }
    }
  }
}
