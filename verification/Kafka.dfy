/** Messages, acknowledgements and work items that travel through the user consumer
    (cdmp-mini/internal/pkg/server/consumer.go:67-84). */
module Kafka {

  // The value of the operation header; a message without one counts as Create.
  datatype Operation = Create | Delete | Update | Other(name: string)

  // The order in which the aggregator flushes; -1 for operations it does not batch.
  function StageOf(op: Operation): int {
    match op case Create => 0 case Delete => 1 case Update => 2 case Other(_) => -1
  }

  function OpOf(stage: nat): (op: Operation)
    requires stage < 3
    ensures StageOf(op) == stage
  {
    if stage == 0 then Create else if stage == 1 then Delete else Update
  }

  // `payload` stands for everything in the record that routing does not look at.
  datatype Message = Message(partition: int, offset: int, op: Operation, payload: string)

  // What the fetch loops put on the job queue and on the batch channel.
  datatype Job = Job(msg: Message, workerID: int, readerIdx: int)
  datatype Item = Item(op: Operation, msg: Message, readerIdx: int)

  // `ok` is "err == nil".
  datatype Ack = Ack(message: Message, workerID: int, readerIdx: int, ok: bool) {
    function Partition(): int { message.partition }
    function Offset(): int { message.offset }
  }
}

/** How often a message occurs in a list whose elements carry messages. */
module Counting {
  import opened Kafka

  ghost function Sum<T(!new)>(xs: seq<T>, m: Message, weight: (T, Message) -> nat): nat {
    if xs == [] then 0 else weight(xs[0], m) + Sum(xs[1..], m, weight)
  }

  lemma {:induction false} SumPush<T(!new)>(xs: seq<T>, ys: seq<T>, m: Message, weight: (T, Message) -> nat)
    ensures Sum(xs + ys, m, weight) == Sum(xs, m, weight) + Sum(ys, m, weight)
  {
    if xs == [] {
      assert xs + ys == ys;
    } else {
      assert (xs + ys)[1..] == xs[1..] + ys;
      SumPush(xs[1..], ys, m, weight);
    }
  }

  lemma {:induction false} SumUpdate<T(!new)>(xs: seq<T>, i: nat, x: T, m: Message, weight: (T, Message) -> nat)
    requires i < |xs|
    ensures Sum(xs[i := x], m, weight) + weight(xs[i], m) == Sum(xs, m, weight) + weight(x, m)
  {
    if i == 0 {
      assert xs[0 := x][1..] == xs[1..];
    } else {
      assert xs[i := x][1..] == xs[1..][i-1 := x];
      SumUpdate(xs[1..], i - 1, x, m, weight);
    }
  }

  lemma {:induction false} SumIsZero<T(!new)>(xs: seq<T>, m: Message, weight: (T, Message) -> nat)
    requires forall i :: 0 <= i < |xs| ==> weight(xs[i], m) == 0
    ensures Sum(xs, m, weight) == 0
  {
    if xs != [] { SumIsZero(xs[1..], m, weight); }
  }

  function Same(a: Message, b: Message): nat { if a == b then 1 else 0 }

  function OfAck(a: Ack, m: Message): nat { Same(a.message, m) }

  function OfOkAck(a: Ack, m: Message): nat { if a.ok then Same(a.message, m) else 0 }
}
