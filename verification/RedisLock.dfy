/** The lock over one Redis key with a lease (cdmp-mini/pkg/lock/redis_lock.go:19-128). Times are milliseconds
    of the server's clock. */
module RedisLock {
  import opened Wrappers

  type Value = string

  datatype Entry = Entry(value: Value, expires: Option<nat>)

  datatype Key = Key(now: nat, entry: Option<Entry>)

  // What becomes of a command: the reply arrives, only the reply is lost, or the server never sees it.
  datatype Fate = Answered | ReplyLost | RequestLost

  datatype LockError = NotHeld | Unavailable

  predicate Live(k: Key) {
    k.entry.Some? && (k.entry.value.expires.None? || k.now < k.entry.value.expires.value)
  }

  predicate HeldBy(k: Key, v: Value) { Live(k) && k.entry.value.value == v }

  // int(timeout.Seconds())
  function WholeSeconds(timeout: nat): nat { timeout / 1000 }

  // SET NX with an expiry; a zero timeout sets none.
  function SetNX(k: Key, v: Value, timeout: nat): (Key, bool) {
    if Live(k) then (k, false)
    else (k.(entry := Some(Entry(v, if timeout == 0 then None else Some(k.now + timeout)))), true)
  }

  // "if get == value then del", and what the script returns.
  function ReleaseScript(k: Key, v: Value): (Key, int) {
    if HeldBy(k, v) then (k.(entry := None), 1) else (k, 0)
  }

  // "if get == value then expire"; EXPIRE with no seconds left deletes the key and still returns 1.
  function RenewScript(k: Key, v: Value, seconds: nat): (Key, int) {
    if !HeldBy(k, v) then (k, 0)
    else if seconds == 0 then (k.(entry := None), 1)
    else (k.(entry := Some(Entry(v, Some(k.now + 1000 * seconds)))), 1)
  }

  // A renew that reports success leaves the caller in possession exactly when its timeout is a second or more.
  lemma RenewKeepsTheLock(k: Key, v: Value, timeout: nat)
    requires RenewScript(k, v, WholeSeconds(timeout)).1 == 1
    ensures HeldBy(RenewScript(k, v, WholeSeconds(timeout)).0, v) <==> timeout >= 1000
  {
    if timeout >= 1000 { assert WholeSeconds(timeout) >= 1; }
  }

  // ---- the classes ----

  class TimedKey {
    var now: nat
    var entry: Option<Entry>

    function View(): Key reads this { Key(now, entry) }

    method SetIfAbsent(v: Value, timeout: nat) returns (stored: bool)
      modifies this`entry
      ensures (View(), stored) == SetNX(old(View()), v, timeout)
    {
      if entry.Some? && (entry.value.expires.None? || now < entry.value.expires.value) { return false; }
      entry := Some(Entry(v, if timeout == 0 then None else Some(now + timeout)));
      return true;
    }

    method Get() returns (v: Option<Value>)
      ensures v == if Live(View()) then Some(entry.value.value) else None
    {
      return if Live(View()) then Some(entry.value.value) else None;
    }

    method EvalRelease(v: Value) returns (deleted: int)
      modifies this`entry
      ensures (View(), deleted) == ReleaseScript(old(View()), v)
    {
      var held := Get();
      if held != Some(v) { return 0; }
      entry := None;
      return 1;
    }

    method EvalRenew(v: Value, seconds: nat) returns (renewed: int)
      modifies this`entry
      ensures (View(), renewed) == RenewScript(old(View()), v, seconds)
    {
      var held := Get();
      if held != Some(v) { return 0; }
      if seconds == 0 {
        entry := None;
      } else {
        entry := Some(Entry(v, Some(now + 1000 * seconds)));
      }
      return 1;
    }
  }

  class RedisDistributedLock {
    const storage: TimedKey
    const value: Value
    const timeout: nat

    constructor (storage: TimedKey, value: Value, timeout: nat)
      ensures this.storage == storage && this.value == value && this.timeout == timeout
    {
      this.storage := storage;
      this.value := value;
      this.timeout := timeout;
    }

    method Acquire(fate: Fate) returns (r: Result<bool, LockError>)
      modifies storage`entry
      ensures storage.View() == Executed(old(storage.View()), Action.Acquire(value, fate), _ => timeout)
      ensures match r
              case Ok(got) => fate.Answered? && got == !Live(old(storage.View()))
              case Err(e) => !fate.Answered? && e == Unavailable
      ensures storage.entry ==
              if !fate.RequestLost? && !Live(old(storage.View()))
              then Some(Entry(value, if timeout == 0 then None else Some(storage.now + timeout)))
              else old(storage.entry)
    {
      if fate.RequestLost? { return Err(Unavailable); }
      var stored := storage.SetIfAbsent(value, timeout);
      if fate.ReplyLost? { return Err(Unavailable); }
      return Ok(stored);
    }

    method Release(fate: Fate) returns (r: Result<(), LockError>)
      modifies storage`entry
      ensures storage.View() == Executed(old(storage.View()), Action.Release(value, fate), _ => timeout)
      ensures r == if !fate.Answered? then Err(Unavailable)
                   else if HeldBy(old(storage.View()), value) then Ok(()) else Err(NotHeld)
      ensures storage.entry ==
              if !fate.RequestLost? && HeldBy(old(storage.View()), value) then None else old(storage.entry)
    {
      if fate.RequestLost? { return Err(Unavailable); }
      var deleted := storage.EvalRelease(value);
      if fate.ReplyLost? { return Err(Unavailable); }
      if deleted == 1 { return Ok(()); }
      return Err(NotHeld);
    }

    /** Success is reported whenever the caller held the key; it still does exactly from one second up, because EXPIRE 0
        deletes the key. */
    method Renew(fate: Fate) returns (r: Result<bool, LockError>)
      modifies storage`entry
      ensures storage.View() == Executed(old(storage.View()), Action.Renew(value, fate), _ => timeout)
      ensures r == if !fate.Answered? then Err(Unavailable) else Ok(HeldBy(old(storage.View()), value))
      ensures r == Ok(true) ==> (HeldBy(storage.View(), value) <==> timeout >= 1000)
      ensures storage.entry ==
              if fate.RequestLost? || !HeldBy(old(storage.View()), value) then old(storage.entry)
              else if timeout < 1000 then None
              else Some(Entry(value, Some(storage.now + timeout - timeout % 1000)))
    {
      if fate.RequestLost? { return Err(Unavailable); }
      if HeldBy(storage.View(), value) { RenewKeepsTheLock(storage.View(), value, timeout); }
      assert 1000 * WholeSeconds(timeout) == timeout - timeout % 1000;
      var renewed := storage.EvalRenew(value, WholeSeconds(timeout));
      if fate.ReplyLost? { return Err(Unavailable); }
      return Ok(renewed == 1);
    }
  }

  // ---- runs of several instances, named by their values ----

  datatype Action =
    Acquire(v: Value, fate: Fate) | Release(v: Value, fate: Fate) | Renew(v: Value, fate: Fate) | Tick(d: nat)

  type Timeouts = Value -> nat

  function Executed(k: Key, a: Action, timeouts: Timeouts): Key {
    match a
    case Tick(d) => k.(now := k.now + d)
    case Acquire(v, fate) => if fate.RequestLost? then k else SetNX(k, v, timeouts(v)).0
    case Release(v, fate) => if fate.RequestLost? then k else ReleaseScript(k, v).0
    case Renew(v, fate) => if fate.RequestLost? then k else RenewScript(k, v, WholeSeconds(timeouts(v))).0
  }

  // The key, and for each instance the time of the last acquire or renew it knows to have succeeded.
  datatype System = System(key: Key, confirmed: map<Value, nat>)

  const START := System(Key(0, None), map[])

  function Confirmed(s: System, a: Action, timeouts: Timeouts): map<Value, nat> {
    match a
    case Tick(_) => s.confirmed
    case Acquire(v, fate) =>
      if fate.Answered? && SetNX(s.key, v, timeouts(v)).1 then s.confirmed[v := s.key.now] else s.confirmed
    case Release(v, _) => s.confirmed - {v}
    case Renew(v, fate) =>
      if fate.Answered? && HeldBy(s.key, v) then s.confirmed[v := s.key.now] else s.confirmed
  }

  function Step(s: System, a: Action, timeouts: Timeouts): System {
    System(Executed(s.key, a, timeouts), Confirmed(s, a, timeouts))
  }

  function Run(s: System, run: seq<Action>, timeouts: Timeouts): System
    decreases |run|
  {
    if run == [] then s else Step(Run(s, run[..|run| - 1], timeouts), run[|run| - 1], timeouts)
  }

  /** An instance counts on its lease for its whole timeout after the last confirmation; a zero timeout is for ever. */
  predicate Believes(s: System, v: Value, timeout: nat) {
    v in s.confirmed && (timeout == 0 || s.key.now < s.confirmed[v] + timeout)
  }

  /** Counting only the whole seconds of its timeout. */
  predicate Holds(s: System, v: Value, timeout: nat) {
    v in s.confirmed && s.key.now < s.confirmed[v] + 1000 * WholeSeconds(timeout)
  }

  // ---- safety ----

  ghost predicate Backed(s: System, v: Value, timeout: nat) {
    Holds(s, v, timeout) ==>
      && HeldBy(s.key, v)
      && (s.key.entry.value.expires.Some? ==>
            s.confirmed[v] + 1000 * WholeSeconds(timeout) <= s.key.entry.value.expires.value)
  }

  ghost predicate Inv(s: System, timeouts: Timeouts) {
    && (forall v :: v in s.confirmed ==> s.confirmed[v] <= s.key.now)
    && (forall v :: v in s.confirmed ==> Backed(s, v, timeouts(v)))
  }

  lemma AcquireKeepsInv(s: System, v: Value, fate: Fate, timeouts: Timeouts)
    requires Inv(s, timeouts)
    ensures Inv(Step(s, Acquire(v, fate), timeouts), timeouts)
  {
    var t := Step(s, Acquire(v, fate), timeouts);
    forall u | u in t.confirmed ensures Backed(t, u, timeouts(u)) {
      assert u in s.confirmed ==> Backed(s, u, timeouts(u));
    }
  }

  lemma ReleaseKeepsInv(s: System, v: Value, fate: Fate, timeouts: Timeouts)
    requires Inv(s, timeouts)
    ensures Inv(Step(s, Release(v, fate), timeouts), timeouts)
  {
    var t := Step(s, Release(v, fate), timeouts);
    forall u | u in t.confirmed ensures Backed(t, u, timeouts(u)) {
      assert Backed(s, u, timeouts(u));
    }
  }

  lemma RenewKeepsInv(s: System, v: Value, fate: Fate, timeouts: Timeouts)
    requires Inv(s, timeouts)
    ensures Inv(Step(s, Renew(v, fate), timeouts), timeouts)
  {
    var t := Step(s, Renew(v, fate), timeouts);
    forall u | u in t.confirmed ensures Backed(t, u, timeouts(u)) {
      assert u in s.confirmed ==> Backed(s, u, timeouts(u));
    }
  }

  lemma TickKeepsInv(s: System, d: nat, timeouts: Timeouts)
    requires Inv(s, timeouts)
    ensures Inv(Step(s, Tick(d), timeouts), timeouts)
  {
    var t := Step(s, Tick(d), timeouts);
    forall u | u in t.confirmed ensures Backed(t, u, timeouts(u)) {
      assert Backed(s, u, timeouts(u));
    }
  }

  lemma StepKeepsInv(s: System, a: Action, timeouts: Timeouts)
    requires Inv(s, timeouts)
    ensures Inv(Step(s, a, timeouts), timeouts)
  {
    match a
    case Acquire(v, fate) => AcquireKeepsInv(s, v, fate, timeouts);
    case Release(v, fate) => ReleaseKeepsInv(s, v, fate, timeouts);
    case Renew(v, fate) => RenewKeepsInv(s, v, fate, timeouts);
    case Tick(d) => TickKeepsInv(s, d, timeouts);
  }

  lemma {:induction false} RunKeepsInv(run: seq<Action>, timeouts: Timeouts)
    ensures Inv(Run(START, run, timeouts), timeouts)
    decreases |run|
  {
    if run != [] {
      RunKeepsInv(run[..|run| - 1], timeouts);
      StepKeepsInv(Run(START, run[..|run| - 1], timeouts), run[|run| - 1], timeouts);
    }
  }

  /** Mutual exclusion in every run, whatever the timeouts and whatever replies are lost, when each instance
      counts on the whole seconds of its timeout only. */
  lemma AtMostOneHolder(run: seq<Action>, timeouts: Timeouts, u: Value, v: Value)
    ensures var s := Run(START, run, timeouts);
            Holds(s, u, timeouts(u)) && Holds(s, v, timeouts(v)) ==> u == v
  {
    RunKeepsInv(run, timeouts);
    var s := Run(START, run, timeouts);
    assert u in s.confirmed ==> Backed(s, u, timeouts(u));
    assert v in s.confirmed ==> Backed(s, v, timeouts(v));
  }

  function Actor(a: Action): Option<Value> { if a.Tick? then None else Some(a.v) }

  /** While an instance holds the lock, nothing that another one does touches the key, and the holder's own
      renew and release are answered as held. */
  lemma HolderIsUndisturbed(run: seq<Action>, timeouts: Timeouts, u: Value, a: Action)
    requires Holds(Run(START, run, timeouts), u, timeouts(u))
    ensures var k := Run(START, run, timeouts).key;
            && HeldBy(k, u)
            && (Actor(a).Some? && Actor(a).value != u ==> Executed(k, a, timeouts) == k)
            && ReleaseScript(k, u).1 == 1 && RenewScript(k, u, WholeSeconds(timeouts(u))).1 == 1
  {
    RunKeepsInv(run, timeouts);
    assert Backed(Run(START, run, timeouts), u, timeouts(u));
  }

  // ---- a lock does not outlive its timeout ----

  ghost predicate Leased(k: Key, timeouts: Timeouts) {
    k.entry.Some? ==>
      match k.entry.value.expires
      case None => timeouts(k.entry.value.value) == 0
      case Some(end) => timeouts(k.entry.value.value) > 0 && end <= k.now + timeouts(k.entry.value.value)
  }

  lemma {:induction false} RunIsLeased(run: seq<Action>, timeouts: Timeouts)
    ensures Leased(Run(START, run, timeouts).key, timeouts)
    decreases |run|
  {
    if run != [] {
      RunIsLeased(run[..|run| - 1], timeouts);
    }
  }

  /** In every run an instance that does nothing for the length of its timeout, having crashed for instance, loses the
      lock: the next acquire succeeds. Only a zero timeout is for ever. */
  lemma LeaseEnds(run: seq<Action>, timeouts: Timeouts, d: nat, v: Value)
    ensures var k := Run(START, run, timeouts).key;
            k.entry.Some? && 0 < timeouts(k.entry.value.value) <= d ==>
              HeldBy(Executed(Executed(k, Tick(d), timeouts), Acquire(v, Answered), timeouts), v)
    ensures var k := Run(START, run, timeouts).key;
            k.entry.Some? && timeouts(k.entry.value.value) == 0 ==>
              HeldBy(Executed(k, Tick(d), timeouts), k.entry.value.value)
  {
    RunIsLeased(run, timeouts);
  }

  // ---- the full timeout ----

  predicate InWholeSeconds(timeout: nat) { timeout > 0 && timeout % 1000 == 0 }

  ghost predicate Exclusive(timeouts: Timeouts) {
    forall run: seq<Action>, u: Value, v: Value ::
      Believes(Run(START, run, timeouts), u, timeouts(u)) && Believes(Run(START, run, timeouts), v, timeouts(v))
      ==> u == v
  }

  lemma RunSnoc(run: seq<Action>, a: Action, timeouts: Timeouts)
    ensures Run(START, run + [a], timeouts) == Step(Run(START, run, timeouts), a, timeouts)
  {
    assert (run + [a])[..|run|] == run;
  }

  // An acquire and a renew at the start leave the key with the whole seconds of the timeout.
  lemma RenewedAtOnce(timeouts: Timeouts, u: Value)
    ensures var s := Run(START, [Acquire(u, Answered)] + [Renew(u, Answered)], timeouts);
            && s.confirmed == map[u := 0] && s.key.now == 0
            && s.key.entry ==
               if WholeSeconds(timeouts(u)) == 0 then None
               else Some(Entry(u, Some(1000 * WholeSeconds(timeouts(u)))))
  {
    assert [] + [Acquire(u, Answered)] == [Acquire(u, Answered)];
    RunSnoc([], Acquire(u, Answered), timeouts);
    RunSnoc([Acquire(u, Answered)], Renew(u, Answered), timeouts);
  }

  // When the cut lease is over, another instance can acquire, and the first one still counts on its timeout.
  lemma AcquiredInBetween(s: System, timeouts: Timeouts, u: Value, v: Value)
    requires u != v && !InWholeSeconds(timeouts(u)) && s.confirmed == map[u := 0] && s.key.now == 0
    requires s.key.entry.Some? ==> s.key.entry.value.expires == Some(1000 * WholeSeconds(timeouts(u)))
    ensures var t := Step(Step(s, Tick(1000 * WholeSeconds(timeouts(u))), timeouts), Acquire(v, Answered), timeouts);
            Believes(t, u, timeouts(u)) && Believes(t, v, timeouts(v))
  {
    var cut := 1000 * WholeSeconds(timeouts(u));
    assert timeouts(u) == 0 || cut < timeouts(u);
    assert !Live(Step(s, Tick(cut), timeouts).key);
  }

  // One instance renews at once; its lease is cut.
  lemma CutLeaseIsShared(timeouts: Timeouts, u: Value, v: Value)
    requires u != v && !InWholeSeconds(timeouts(u))
    ensures exists run ::
              Believes(Run(START, run, timeouts), u, timeouts(u)) && Believes(Run(START, run, timeouts), v, timeouts(v))
  {
    var renewed := [Acquire(u, Answered)] + [Renew(u, Answered)];
    var wait, acquire := Tick(1000 * WholeSeconds(timeouts(u))), Acquire(v, Answered);
    var s, run := Run(START, renewed, timeouts), renewed + [wait] + [acquire];
    assert Run(START, run, timeouts) == Step(Step(s, wait, timeouts), acquire, timeouts) by {
      RunSnoc(renewed, wait, timeouts);
      RunSnoc(renewed + [wait], acquire, timeouts);
    }
    assert s.confirmed == map[u := 0] && s.key.now == 0
           && (s.key.entry.Some? ==> s.key.entry.value.expires == Some(1000 * WholeSeconds(timeouts(u)))) by {
      RenewedAtOnce(timeouts, u);
    }
    AcquiredInBetween(s, timeouts, u, v);
  }

  /** Counting on the full timeout is safe in every run exactly when all timeouts are whole positive numbers of
      seconds. */
  lemma ExclusiveExactlyInWholeSeconds(timeouts: Timeouts)
    ensures Exclusive(timeouts) <==> forall u :: InWholeSeconds(timeouts(u))
  {
    if forall u :: InWholeSeconds(timeouts(u)) {
      forall run: seq<Action>, u: Value, v: Value |
        Believes(Run(START, run, timeouts), u, timeouts(u)) && Believes(Run(START, run, timeouts), v, timeouts(v))
        ensures u == v
      {
        assert InWholeSeconds(timeouts(u)) && InWholeSeconds(timeouts(v));
        AtMostOneHolder(run, timeouts, u, v);
      }
    } else {
      var u: Value :| !InWholeSeconds(timeouts(u));
      var v: Value := u + "'";
      CutLeaseIsShared(timeouts, u, v);
    }
  }
}
