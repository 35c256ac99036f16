/** Any number of concurrent calls of the write-limiter script: each store operation is atomic, their
    sequence is not, and the clock moves in between (limiter-lab/limiter/redis_like.go:40-99, 117-150). */
module ScriptInterleavings {
  import opened RedisStore
  import opened Windows

  // The arguments of a call.
  datatype Request = Request(globalKey: string, idKey: string, globalLimit: int, idLimit: int)

  // A counter to check and its threshold.
  datatype Check = Check(key: string, limit: int)

  function Checks(r: Request): seq<Check> {
    (if r.globalLimit > 0 then [Check(r.globalKey, r.globalLimit)] else [])
    + (if r.idLimit > 0 then [Check(r.idKey, r.idLimit)] else [])
  }

  datatype Caller =
    | Ready(checks: seq<Check>)                        // about to INCR the first counter, or done
    | MustExpire(check: Check, rest: seq<Check>)       // INCR returned 1
    | MustReadTTL(check: Check)                        // over the threshold
    | Finished(limited: bool)

  /** An INCR, what it returned, and when the counter it counted on was created. */
  datatype Hit = Hit(caller: nat, check: Check, value: int, time: int, birth: int)

  datatype State = State(
    store: Store,
    now: int,
    callers: seq<Caller>,
    births: map<string, int>,    // when each live counter was created
    // history
    requests: seq<Request>,
    hits: seq<Hit>)

  datatype Action =
    | Call(request: Request)
    | Advance(caller: nat, delay: nat)   // the caller's next operation; `delay` passes inside it
    | Wait(d: nat)

  function Init(now: int): State { State(EMPTY, now, [], map[], [], []) }

  // What a caller does after INCR, and EXPIRE if that was due.
  function Judge(v: int, check: Check, rest: seq<Check>): Caller {
    if v > check.limit then MustReadTTL(check) else Ready(rest)
  }

  function BirthOf(births: map<string, int>, key: string, default: int): int {
    if key in births then births[key] else default
  }

  function IncrStep(s: State, i: nat): State
    requires i < |s.callers| && s.callers[i].Ready? && s.callers[i].checks != []
  {
    var check, rest := s.callers[i].checks[0], s.callers[i].checks[1..];
    var store := Incr(s.store, check.key, s.now);
    var v := ValueOf(store, check.key);
    var births := if v == 1 then s.births[check.key := s.now] else s.births;
    s.(store := store, births := births,
       callers := s.callers[i := if v == 1 then MustExpire(check, rest) else Judge(v, check, rest)],
       hits := s.hits + [Hit(i, check, v, s.now, BirthOf(births, check.key, s.now))])
  }

  function Step(s: State, window: int, a: Action): State {
    match a
    case Call(r) => s.(callers := s.callers + [Ready(Checks(r))], requests := s.requests + [r])
    case Wait(d) => s.(now := s.now + d)
    case Advance(i, delay) =>
      if i >= |s.callers| then s
      else
        match s.callers[i]
        case Ready(checks) =>
          if checks == [] then s.(callers := s.callers[i := Finished(false)]) else IncrStep(s, i)
        case MustExpire(check, rest) =>
          s.(store := Expire(s.store, check.key, window, s.now), callers := s.callers[i := Judge(1, check, rest)])
        case MustReadTTL(check) =>
          s.(store := AfterTTL(s.store, check.key, s.now, s.now + delay), now := s.now + delay,
             callers := s.callers[i := Finished(true)])
        case Finished(_) => s
  }

  function Exec(start: int, window: int, run: seq<Action>): State {
    if run == [] then Init(start)
    else Step(Exec(start, window, run[..|run|-1]), window, run[|run|-1])
  }

  /** Every call uses at most `limit` for the counter `key`. */
  predicate LimitsOn(requests: seq<Request>, key: string, limit: nat) {
    forall r :: r in requests ==>
      (r.globalKey == key ==> r.globalLimit <= limit) && (r.idKey == key ==> r.idLimit <= limit)
  }

  predicate Passes(h: Hit) { h.value <= h.check.limit }

  // The hits on a counter, each with the life of the counter it fell in; all of them, or those within the threshold.
  function On(hits: seq<Hit>, key: string): seq<Admission> {
    if hits == [] then []
    else
      var h := hits[|hits|-1];
      On(hits[..|hits|-1], key) + (if h.check.key == key then [Admission(h.time, h.birth)] else [])
  }

  function PassesOn(hits: seq<Hit>, key: string): seq<Admission> {
    if hits == [] then []
    else
      var h := hits[|hits|-1];
      PassesOn(hits[..|hits|-1], key) + (if h.check.key == key && Passes(h) then [Admission(h.time, h.birth)] else [])
  }

  // ---- the invariant, one counter at a time ----

  predicate Owes(c: Caller, key: string) { c.MustExpire? && c.check.key == key }

  /** A live counter without an expiry has exactly one caller still about to call EXPIRE; any other
      counter has none. */
  ghost predicate OneOwner(s: State, key: string) {
    && (key in s.store.expires ==> key in s.store.values)
    && (key in s.store.values && key !in s.store.expires ==>
          exists i :: 0 <= i < |s.callers| && Owes(s.callers[i], key))
    && (forall i :: 0 <= i < |s.callers| && Owes(s.callers[i], key) ==>
          key in s.store.values && key !in s.store.expires)
    && (forall i, j :: 0 <= i < j < |s.callers| ==> !(Owes(s.callers[i], key) && Owes(s.callers[j], key)))
  }

  ghost predicate Born(s: State, key: string, window: int) {
    && (key in s.store.values ==> key in s.births && s.births[key] <= s.now && s.store.values[key] >= 1)
    && (key in s.store.expires && key in s.births ==> s.births[key] + window <= s.store.expires[key])
  }

  // A live counter: when it was created and what it counts.
  datatype Life = Dead | Alive(birth: int, value: int)

  function LifeOf(s: State, key: string): Life {
    if key in s.store.values && key in s.births then Alive(s.births[key], s.store.values[key]) else Dead
  }

  /** The hits so far fit the counter: its value is the number of those in its current life, earlier lives are a window
      or more behind. */
  ghost predicate Tallied(as_: seq<Admission>, now: int, window: int, life: Life) {
    && Windowed(as_, window)
    && (forall i :: 0 <= i < |as_| ==> as_[i].time <= now)
    && match life
       case Dead => Past(as_, window, now)
       case Alive(birth, value) =>
         CountWindow(as_, birth) == value
         && forall i :: 0 <= i < |as_| ==>
              as_[i].window == birth || (as_[i].window + window <= birth && as_[i].time <= birth)
  }

  ghost predicate Past(as_: seq<Admission>, window: int, now: int) {
    forall i :: 0 <= i < |as_| ==> as_[i].window + window <= now
  }

  /** Every INCR returns one more than the INCRs before it in the same life of the counter. */
  ghost predicate Numbered(hits: seq<Hit>, key: string) {
    forall k :: 0 <= k < |hits| && hits[k].check.key == key ==> NumberedAt(hits, k)
  }

  ghost predicate NumberedAt(hits: seq<Hit>, k: nat)
    requires k < |hits|
  {
    hits[k].value == CountWindow(On(hits[..k], hits[k].check.key), hits[k].birth) + 1
  }

  ghost predicate HitsOk(s: State, key: string, window: int) {
    Tallied(On(s.hits, key), s.now, window, LifeOf(s, key)) && Numbered(s.hits, key)
  }

  // ---- every step keeps it ----

  lemma OnSnoc(hits: seq<Hit>, h: Hit, key: string)
    ensures On(hits + [h], key) == On(hits, key) + (if h.check.key == key then [Admission(h.time, h.birth)] else [])
    ensures PassesOn(hits + [h], key)
         == PassesOn(hits, key) + (if h.check.key == key && Passes(h) then [Admission(h.time, h.birth)] else [])
  {
    assert (hits + [h])[..|hits|] == hits;
  }

  lemma IncrKeepsOwner(s: State, i: nat, key: string, window: int)
    requires i < |s.callers| && s.callers[i].Ready? && s.callers[i].checks != []
    requires OneOwner(s, key) && Born(s, key, window)
    ensures OneOwner(IncrStep(s, i), key) && Born(IncrStep(s, i), key, window)
  {
    var check, t := s.callers[i].checks[0], IncrStep(s, i);
    assert forall j :: 0 <= j < |s.callers| && j != i ==> t.callers[j] == s.callers[j];
    assert !Owes(s.callers[i], key);
    if check.key == key && ValueOf(t.store, key) == 1 {
      assert Owes(t.callers[i], key);
    } else if j :| 0 <= j < |s.callers| && Owes(s.callers[j], key) {
      assert Owes(t.callers[j], key);
    }
  }

  // A new life begins.
  lemma BeginLife(as_: seq<Admission>, now: int, window: int, life: Life)
    requires window > 0 && Tallied(as_, now, window, life)
    requires life.Alive? ==> life.birth + window <= now
    ensures Tallied(as_ + [Admission(now, now)], now, window, Alive(now, 1))
    ensures CountWindow(as_, now) == 0
  {
    assert Past(as_, window, now);
    CountNone(as_, now);
    CountAdd(as_, Admission(now, now), now);
    WindowedAdd(as_, Admission(now, now), window);
  }

  // One more call in the same life.
  lemma ContinueLife(as_: seq<Admission>, now: int, window: int, birth: int, value: int)
    requires Tallied(as_, now, window, Alive(birth, value)) && birth <= now
    ensures Tallied(as_ + [Admission(now, birth)], now, window, Alive(birth, value + 1))
  {
    CountAdd(as_, Admission(now, birth), birth);
    WindowedAdd(as_, Admission(now, birth), window);
  }

  lemma NumberedSnoc(hits: seq<Hit>, h: Hit, key: string)
    requires Numbered(hits, key)
    requires h.check.key == key ==> h.value == CountWindow(On(hits, key), h.birth) + 1
    ensures Numbered(hits + [h], key)
  {
    var all := hits + [h];
    forall k | 0 <= k < |all| && all[k].check.key == key ensures NumberedAt(all, k) {
      if k < |hits| {
        assert NumberedAt(hits, k) && all[..k] == hits[..k];
      } else {
        assert all[..k] == hits;
      }
    }
  }

  // What an INCR does to the life of its own counter.
  lemma IncrLife(s: State, i: nat, window: int)
    requires i < |s.callers| && s.callers[i].Ready? && s.callers[i].checks != []
    requires Born(s, s.callers[i].checks[0].key, window)
    ensures var key, t := s.callers[i].checks[0].key, IncrStep(s, i);
            && LifeOf(t, key) ==
               (if key !in s.store.values || Expired(s.store, key, s.now) then Alive(s.now, 1)
                else Alive(s.births[key], s.store.values[key] + 1))
            && LifeOf(t, key) == Alive(BirthOf(t.births, key, s.now), ValueOf(t.store, key))
  {
  }

  // An INCR of another counter.
  lemma OtherHits(s: State, i: nat, key: string, window: int)
    requires i < |s.callers| && s.callers[i].Ready? && s.callers[i].checks != []
    requires s.callers[i].checks[0].key != key && HitsOk(s, key, window)
    ensures HitsOk(IncrStep(s, i), key, window)
  {
    var t := IncrStep(s, i);
    OnSnoc(s.hits, t.hits[|s.hits|], key);
    NumberedSnoc(s.hits, t.hits[|s.hits|], key);
    assert On(s.hits, key) + [] == On(s.hits, key);
    assert LifeOf(t, key) == LifeOf(s, key);
  }

  lemma OwnHits(s: State, i: nat, window: int)
    requires i < |s.callers| && s.callers[i].Ready? && s.callers[i].checks != []
    requires window > 0 && Born(s, s.callers[i].checks[0].key, window) && HitsOk(s, s.callers[i].checks[0].key, window)
    ensures HitsOk(IncrStep(s, i), s.callers[i].checks[0].key, window)
  {
    var key, t := s.callers[i].checks[0].key, IncrStep(s, i);
    var as_, h := On(s.hits, key), t.hits[|s.hits|];
    OnSnoc(s.hits, h, key);
    IncrLife(s, i, window);
    if key !in s.store.values || Expired(s.store, key, s.now) {
      BeginLife(as_, s.now, window, LifeOf(s, key));
    } else {
      ContinueLife(as_, s.now, window, s.births[key], s.store.values[key]);
    }
    NumberedSnoc(s.hits, h, key);
  }

  // ---- who owes an expiry ----

  ghost predicate Owned(s: State, key: string, window: int) { OneOwner(s, key) && Born(s, key, window) }

  lemma ExpireKeepsOwner(s: State, i: nat, key: string, window: int)
    requires i < |s.callers| && s.callers[i].MustExpire? && Owned(s, key, window)
    ensures Owned(Step(s, window, Advance(i, 0)), key, window)
  {
    var t := Step(s, window, Advance(i, 0));
    assert forall j :: 0 <= j < |s.callers| && j != i ==> t.callers[j] == s.callers[j];
    assert !Owes(t.callers[i], key);
    if s.callers[i].check.key != key {
      if j :| 0 <= j < |s.callers| && Owes(s.callers[j], key) { assert Owes(t.callers[j], key); }
    } else {
      assert Owes(s.callers[i], key);
    }
  }

  lemma TTLKeepsOwner(s: State, i: nat, delay: nat, key: string, window: int)
    requires i < |s.callers| && s.callers[i].MustReadTTL? && Owned(s, key, window)
    ensures Owned(Step(s, window, Advance(i, delay)), key, window)
  {
    var t := Step(s, window, Advance(i, delay));
    assert forall j :: 0 <= j < |s.callers| && j != i ==> t.callers[j] == s.callers[j];
    if j :| 0 <= j < |s.callers| && Owes(s.callers[j], key) { assert Owes(t.callers[j], key); }
  }

  // A step that leaves the store alone and adds no caller who must expire.
  lemma FrameKeepsOwner(s: State, t: State, key: string, window: int)
    requires Owned(s, key, window) && t.store == s.store && t.births == s.births && t.now >= s.now
    requires |t.callers| >= |s.callers|
    requires forall j :: 0 <= j < |t.callers| ==>
               (Owes(t.callers[j], key) <==> j < |s.callers| && Owes(s.callers[j], key))
    ensures Owned(t, key, window)
  {
    if j :| 0 <= j < |s.callers| && Owes(s.callers[j], key) { assert Owes(t.callers[j], key); }
  }

  lemma StepKeepsOwner(s: State, a: Action, key: string, window: int)
    requires Owned(s, key, window)
    ensures Owned(Step(s, window, a), key, window)
  {
    if a.Advance? && a.caller < |s.callers| && !s.callers[a.caller].Finished? {
      match s.callers[a.caller]
      case Ready(checks) =>
        if checks == [] {
          FrameKeepsOwner(s, Step(s, window, a), key, window);
        } else {
          IncrKeepsOwner(s, a.caller, key, window);
        }
      case MustExpire(_, _) => ExpireKeepsOwner(s, a.caller, key, window);
      case MustReadTTL(_) => TTLKeepsOwner(s, a.caller, a.delay, key, window);
    } else {
      FrameKeepsOwner(s, Step(s, window, a), key, window);
    }
  }

  lemma {:induction false} RunKeepsOwner(start: int, window: int, run: seq<Action>, key: string)
    ensures Owned(Exec(start, window, run), key, window)
  {
    if run != [] {
      RunKeepsOwner(start, window, run[..|run|-1], key);
      StepKeepsOwner(Exec(start, window, run[..|run|-1]), run[|run|-1], key, window);
    }
  }

  // ---- what the counters count ----

  // No hit, the clock does not go back, and a counter can only go when it has expired.
  lemma NoHit(s: State, t: State, key: string, window: int)
    requires HitsOk(s, key, window) && t.hits == s.hits && s.now <= t.now
    requires LifeOf(t, key) == LifeOf(s, key)
             || (LifeOf(t, key).Dead? && LifeOf(s, key).Alive? && LifeOf(s, key).birth + window <= t.now)
    ensures HitsOk(t, key, window)
  {
  }

  lemma OtherStepLife(s: State, a: Action, key: string, window: int)
    requires Owned(s, key, window)
    requires !(a.Advance? && a.caller < |s.callers| && s.callers[a.caller].Ready?)
    ensures var t := Step(s, window, a);
            && t.hits == s.hits && s.now <= t.now
            && (LifeOf(t, key) == LifeOf(s, key)
                || (LifeOf(t, key).Dead? && LifeOf(s, key).Alive? && LifeOf(s, key).birth + window <= t.now))
  {
  }

  lemma StepKeepsHits(s: State, a: Action, key: string, window: int)
    requires window > 0 && Owned(s, key, window) && HitsOk(s, key, window)
    ensures HitsOk(Step(s, window, a), key, window)
  {
    if a.Advance? && a.caller < |s.callers| && s.callers[a.caller].Ready? {
      if s.callers[a.caller].checks == [] {
        NoHit(s, Step(s, window, a), key, window);
      } else if s.callers[a.caller].checks[0].key == key {
        OwnHits(s, a.caller, window);
      } else {
        OtherHits(s, a.caller, key, window);
      }
    } else {
      OtherStepLife(s, a, key, window);
      NoHit(s, Step(s, window, a), key, window);
    }
  }

  lemma {:induction false} RunKeepsHits(start: int, window: int, run: seq<Action>, key: string)
    requires window > 0
    ensures HitsOk(Exec(start, window, run), key, window)
  {
    if run != [] {
      RunKeepsOwner(start, window, run[..|run|-1], key);
      RunKeepsHits(start, window, run[..|run|-1], key);
      StepKeepsHits(Exec(start, window, run[..|run|-1]), run[|run|-1], key, window);
    }
  }

  // ---- what a caller is told ----

  function HitsOf(hits: seq<Hit>, i: nat): seq<Hit> {
    if hits == [] then []
    else HitsOf(hits[..|hits|-1], i) + (if hits[|hits|-1].caller == i then [hits[|hits|-1]] else [])
  }

  lemma HitsOfSnoc(hits: seq<Hit>, h: Hit, i: nat)
    ensures HitsOf(hits + [h], i) == HitsOf(hits, i) + (if h.caller == i then [h] else [])
  {
    assert (hits + [h])[..|hits|] == hits;
  }

  // The first hits of a caller are on the first of its checks.
  ghost predicate Follows(hs: seq<Hit>, checks: seq<Check>) {
    |hs| <= |checks| && forall k :: 0 <= k < |hs| ==> hs[k].check == checks[k]
  }

  ghost predicate AllPass(hs: seq<Hit>) { forall k :: 0 <= k < |hs| ==> Passes(hs[k]) }

  ghost predicate LastExceeds(hs: seq<Hit>) { hs != [] && !Passes(hs[|hs|-1]) && AllPass(hs[..|hs|-1]) }

  // Where a caller stands, by what its INCRs returned.
  ghost predicate Stands(c: Caller, hs: seq<Hit>, checks: seq<Check>) {
    && Follows(hs, checks)
    && match c
       case Ready(rest) => rest == checks[|hs|..] && AllPass(hs)
       case MustExpire(check, rest) =>
         hs != [] && check == hs[|hs|-1].check && rest == checks[|hs|..] && hs[|hs|-1].value == 1 && AllPass(hs)
       case MustReadTTL(_) => LastExceeds(hs)
       case Finished(limited) => if limited then LastExceeds(hs) else |hs| == |checks| && AllPass(hs)
  }

  ghost predicate StandsAt(s: State, i: nat) {
    && |s.requests| == |s.callers|
    && if i < |s.callers| then Stands(s.callers[i], HitsOf(s.hits, i), Checks(s.requests[i]))
       else HitsOf(s.hits, i) == []
  }

  lemma IncrStandsFor(hs: seq<Hit>, checks: seq<Check>, rest: seq<Check>, h: Hit)
    requires rest != [] && Stands(Ready(rest), hs, checks) && h.check == rest[0]
    ensures var next := if h.value == 1 && Passes(h) then MustExpire(rest[0], rest[1..])
                        else Judge(h.value, rest[0], rest[1..]);
            Stands(next, hs + [h], checks)
  {
    assert (hs + [h])[..|hs|] == hs;
    assert checks[|hs|..][1..] == checks[|hs| + 1..];
  }

  lemma IncrStands(s: State, i: nat)
    requires i < |s.callers| && s.callers[i].Ready? && s.callers[i].checks != [] && StandsAt(s, i)
    ensures StandsAt(IncrStep(s, i), i)
  {
    var h := IncrStep(s, i).hits[|s.hits|];
    HitsOfSnoc(s.hits, h, i);
    assert h.check in Checks(s.requests[i]);
    IncrStandsFor(HitsOf(s.hits, i), Checks(s.requests[i]), s.callers[i].checks, h);
  }

  lemma OthersStand(s: State, i: nat, j: nat)
    requires i < |s.callers| && s.callers[i].Ready? && s.callers[i].checks != [] && i != j && StandsAt(s, j)
    ensures StandsAt(IncrStep(s, i), j)
  {
    HitsOfSnoc(s.hits, IncrStep(s, i).hits[|s.hits|], j);
    assert HitsOf(s.hits, j) + [] == HitsOf(s.hits, j);
  }

  lemma StepStands(s: State, window: int, a: Action, j: nat)
    requires StandsAt(s, j)
    ensures StandsAt(Step(s, window, a), j)
  {
    if a.Advance? && a.caller < |s.callers| && s.callers[a.caller].Ready? && s.callers[a.caller].checks != [] {
      if j == a.caller { IncrStands(s, j); } else { OthersStand(s, a.caller, j); }
    }
  }

  lemma {:induction false} RunStands(start: int, window: int, run: seq<Action>, j: nat)
    ensures StandsAt(Exec(start, window, run), j)
  {
    if run != [] {
      RunStands(start, window, run[..|run|-1], j);
      StepStands(Exec(start, window, run[..|run|-1]), window, run[|run|-1], j);
    }
  }

  // ---- what holds in every interleaving ----

  /** A live counter without an expiry is owed exactly one EXPIRE; no other EXPIRE is ever pending. An expiry, once
      set, is never earlier than a window after the counter's first call. */
  lemma {:induction false} ExpireIsOwedOnce(start: int, window: int, run: seq<Action>, key: string)
    ensures OneOwner(Exec(start, window, run), key)
    ensures Born(Exec(start, window, run), key, window)
  {
    RunKeepsOwner(start, window, run, key);
  }

  /** Every INCR returns its place in the life of its counter, whoever else counts in between; the lives are a window
      apart. */
  lemma IncrCountsItsLife(start: int, window: int, run: seq<Action>, k: nat)
    requires window > 0 && k < |Exec(start, window, run).hits|
    ensures var hits := Exec(start, window, run).hits;
            && hits[k].value == CountWindow(On(hits[..k], hits[k].check.key), hits[k].birth) + 1
            && Windowed(On(hits, hits[k].check.key), window)
  {
    var hits := Exec(start, window, run).hits;
    RunKeepsHits(start, window, run, hits[k].check.key);
    assert NumberedAt(hits, k);
  }

  predicate PassedOn(h: Hit, key: string, limit: int) { h.check.key == key && h.value <= limit }

  predicate ExceededOn(h: Hit, key: string, limit: int) { h.check.key == key && h.value > limit }

  /** Every threshold that is set was counted once and kept, the global one first. */
  predicate WithinLimits(r: Request, hs: seq<Hit>) {
    && |hs| == (if r.globalLimit > 0 then 1 else 0) + (if r.idLimit > 0 then 1 else 0)
    && (r.globalLimit > 0 ==> PassedOn(hs[0], r.globalKey, r.globalLimit))
    && (r.idLimit > 0 ==> PassedOn(hs[|hs|-1], r.idKey, r.idLimit))
  }

  /** The global threshold was exceeded and nothing else counted; or it was kept, if set, and the other was exceeded. */
  predicate BeyondLimits(r: Request, hs: seq<Hit>) {
    || (r.globalLimit > 0 && |hs| == 1 && ExceededOn(hs[0], r.globalKey, r.globalLimit))
    || (&& r.idLimit > 0 && |hs| == (if r.globalLimit > 0 then 2 else 1)
        && ExceededOn(hs[|hs|-1], r.idKey, r.idLimit)
        && (r.globalLimit > 0 ==> PassedOn(hs[0], r.globalKey, r.globalLimit)))
  }

  /** In every interleaving a call is admitted exactly when each of its INCRs stayed within its threshold, and limited
      exactly when its last one did not. */
  lemma VerdictIsCounted(start: int, window: int, run: seq<Action>, i: nat)
    requires i < |Exec(start, window, run).callers|
    ensures var s := Exec(start, window, run);
            && |s.requests| == |s.callers|
            && (s.callers[i].Finished? ==>
                  && (!s.callers[i].limited <==> WithinLimits(s.requests[i], HitsOf(s.hits, i)))
                  && (s.callers[i].limited <==> BeyondLimits(s.requests[i], HitsOf(s.hits, i))))
  {
    RunStands(start, window, run, i);
  }

  // ---- how many may pass ----

  ghost predicate LimitsKept(hits: seq<Hit>, key: string, limit: nat) {
    forall k :: 0 <= k < |hits| && hits[k].check.key == key ==> hits[k].check.limit <= limit
  }

  // One more hit: a pass is within the threshold by its number.
  lemma HitIsBounded(rest: seq<Hit>, h: Hit, key: string, limit: nat, g: int)
    requires CountWindow(PassesOn(rest, key), g) <= CountWindow(On(rest, key), g)
    requires CountWindow(PassesOn(rest, key), g) <= limit
    requires h.check.key == key ==> h.check.limit <= limit && h.value == CountWindow(On(rest, key), h.birth) + 1
    ensures CountWindow(PassesOn(rest + [h], key), g) <= CountWindow(On(rest + [h], key), g)
    ensures CountWindow(PassesOn(rest + [h], key), g) <= limit
  {
    OnSnoc(rest, h, key);
    CountAdd(On(rest, key), Admission(h.time, h.birth), g);
    CountAdd(PassesOn(rest, key), Admission(h.time, h.birth), g);
    assert PassesOn(rest, key) + [] == PassesOn(rest, key) && On(rest, key) + [] == On(rest, key);
  }

  lemma NumberedBefore(rest: seq<Hit>, h: Hit, key: string)
    requires Numbered(rest + [h], key)
    ensures Numbered(rest, key)
    ensures h.check.key == key ==> h.value == CountWindow(On(rest, key), h.birth) + 1
  {
    var hits := rest + [h];
    forall k | 0 <= k < |rest| && rest[k].check.key == key ensures NumberedAt(rest, k) {
      assert NumberedAt(hits, k) && hits[..k] == rest[..k];
    }
    assert hits[..|rest|] == rest && hits[|rest|] == h;
    if h.check.key == key { assert NumberedAt(hits, |rest|); }
  }

  lemma {:induction false} PassesAreBounded(hits: seq<Hit>, key: string, limit: nat, g: int)
    requires Numbered(hits, key) && LimitsKept(hits, key, limit)
    ensures CountWindow(PassesOn(hits, key), g) <= CountWindow(On(hits, key), g)
    ensures CountWindow(PassesOn(hits, key), g) <= limit
  {
    if hits != [] {
      var rest, h := hits[..|hits|-1], hits[|hits|-1];
      assert hits == rest + [h];
      NumberedBefore(rest, h, key);
      assert LimitsKept(rest, key, limit);
      PassesAreBounded(rest, key, limit, g);
      HitIsBounded(rest, h, key, limit, g);
    }
  }

  lemma {:induction false} PassesAreHits(hits: seq<Hit>, key: string)
    ensures forall a :: a in PassesOn(hits, key) ==> a in On(hits, key)
  {
    if hits != [] { PassesAreHits(hits[..|hits|-1], key); }
  }

  lemma {:induction false} HitIsOf(hits: seq<Hit>, k: nat)
    requires k < |hits|
    ensures hits[k] in HitsOf(hits, hits[k].caller)
  {
    if k < |hits| - 1 { HitIsOf(hits[..|hits|-1], k); }
  }

  ghost predicate CallersKnown(s: State) { forall k :: 0 <= k < |s.hits| ==> s.hits[k].caller < |s.callers| }

  lemma CallersStay(s: State, window: int, a: Action)
    requires CallersKnown(s)
    ensures CallersKnown(Step(s, window, a))
  {
  }

  lemma {:induction false} CallersExist(start: int, window: int, run: seq<Action>)
    ensures CallersKnown(Exec(start, window, run))
  {
    if run != [] {
      CallersExist(start, window, run[..|run|-1]);
      CallersStay(Exec(start, window, run[..|run|-1]), window, run[|run|-1]);
    }
  }

  lemma HitsKeepLimits(start: int, window: int, run: seq<Action>, key: string, limit: nat)
    requires LimitsOn(Exec(start, window, run).requests, key, limit)
    ensures LimitsKept(Exec(start, window, run).hits, key, limit)
  {
    var s := Exec(start, window, run);
    CallersExist(start, window, run);
    forall k | 0 <= k < |s.hits| && s.hits[k].check.key == key ensures s.hits[k].check.limit <= limit {
      var i := s.hits[k].caller;
      RunStands(start, window, run, i);
      HitIsOf(s.hits, k);
      assert s.hits[k].check in Checks(s.requests[i]) && s.requests[i] in s.requests;
    }
  }

  lemma StillCovered(some: seq<Admission>, all: seq<Admission>, from: int, to: int, g: int, h: int)
    requires forall a :: a in some ==> a in all
    requires forall i :: 0 <= i < |all| && from <= all[i].time < to ==> all[i].window == g || all[i].window == h
    ensures forall i :: 0 <= i < |some| && from <= some[i].time < to ==> some[i].window == g || some[i].window == h
  {
    forall i | 0 <= i < |some| && from <= some[i].time < to ensures some[i].window == g || some[i].window == h {
      assert some[i] in all;
    }
  }

  // At most 2L hits of a counter with threshold L stay within it in any half-open interval of length `window`.
  lemma PassesInWindow(hits: seq<Hit>, key: string, window: int, limit: nat, from: int)
    requires window > 0 && Windowed(On(hits, key), window) && Numbered(hits, key)
    requires LimitsKept(hits, key, limit)
    ensures CountBetween(PassesOn(hits, key), from, from + window) <= 2 * limit
  {
    var g, h := TwoWindows(On(hits, key), window, from);
    PassesAreHits(hits, key);
    StillCovered(PassesOn(hits, key), On(hits, key), from, from + window, g, h);
    CoveredByTwo(PassesOn(hits, key), from, from + window, g, h);
    PassesAreBounded(hits, key, limit, g);
    PassesAreBounded(hits, key, limit, h);
  }

  // Whose hits on a counter stayed within the threshold between two moments.
  function Passing(hits: seq<Hit>, key: string, from: int, to: int): set<nat> {
    if hits == [] then {}
    else
      var h := hits[|hits|-1];
      Passing(hits[..|hits|-1], key, from, to)
      + (if h.check.key == key && Passes(h) && from <= h.time < to then {h.caller} else {})
  }

  lemma {:induction false} PassingAreCounted(hits: seq<Hit>, key: string, from: int, to: int)
    ensures |Passing(hits, key, from, to)| <= CountBetween(PassesOn(hits, key), from, to)
  {
    if hits != [] {
      var rest, h := hits[..|hits|-1], hits[|hits|-1];
      PassingAreCounted(rest, key, from, to);
      var before, all := PassesOn(rest, key), PassesOn(hits, key);
      if h.check.key == key && Passes(h) { assert all[..|all|-1] == before; } else { assert all == before; }
    }
  }

  lemma {:induction false} PassingHas(hits: seq<Hit>, key: string, from: int, to: int, k: nat)
    requires k < |hits| && hits[k].check.key == key && Passes(hits[k]) && from <= hits[k].time < to
    ensures hits[k].caller in Passing(hits, key, from, to)
  {
    if k < |hits| - 1 { PassingHas(hits[..|hits|-1], key, from, to, k); }
  }

  /** The calls that were admitted and counted on `key` between two moments. */
  ghost function AdmittedOn(s: State, key: string, from: int, to: int): set<nat> {
    set i | 0 <= i < |s.callers| && s.callers[i] == Finished(false) && CountedBetween(s.hits, i, key, from, to)
  }

  ghost predicate CountedBetween(hits: seq<Hit>, i: nat, key: string, from: int, to: int) {
    exists k :: 0 <= k < |hits| && hits[k].caller == i && hits[k].check.key == key && from <= hits[k].time < to
  }

  lemma SubsetIsSmaller<T>(a: set<T>, b: set<T>)
    requires a <= b
    ensures |a| <= |b|
  {
    assert a + (b - a) == b;
  }

  /** At most 2L calls that counted on a counter with threshold L are admitted in any half-open interval of length
      `window`. */
  lemma AtMostTwiceTheLimit(start: int, window: int, run: seq<Action>, key: string, limit: nat, from: int)
    requires window > 0 && LimitsOn(Exec(start, window, run).requests, key, limit)
    ensures |AdmittedOn(Exec(start, window, run), key, from, from + window)| <= 2 * limit
  {
    RunKeepsHits(start, window, run, key);
    HitsKeepLimits(start, window, run, key, limit);
    AllStandInRun(start, window, run);
    AtMostTwiceIn(Exec(start, window, run), key, window, limit, from);
  }

  lemma AtMostTwiceIn(s: State, key: string, window: int, limit: nat, from: int)
    requires window > 0 && HitsOk(s, key, window) && LimitsKept(s.hits, key, limit) && AllStand(s)
    ensures |AdmittedOn(s, key, from, from + window)| <= 2 * limit
  {
    PassesInWindow(s.hits, key, window, limit, from);
    PassingAreCounted(s.hits, key, from, from + window);
    AdmittedPass(s, key, from, from + window);
  }

  ghost predicate AllStand(s: State) { forall i: nat :: StandsAt(s, i) }

  lemma AllStandInRun(start: int, window: int, run: seq<Action>)
    ensures AllStand(Exec(start, window, run))
  {
    forall i: nat ensures StandsAt(Exec(start, window, run), i) { RunStands(start, window, run, i); }
  }

  lemma AdmittedPass(s: State, key: string, from: int, to: int)
    requires AllStand(s)
    ensures |AdmittedOn(s, key, from, to)| <= |Passing(s.hits, key, from, to)|
  {
    var admitted := AdmittedOn(s, key, from, to);
    forall i: nat | i in admitted ensures i in Passing(s.hits, key, from, to) {
      var k :| 0 <= k < |s.hits| && s.hits[k].caller == i && s.hits[k].check.key == key && from <= s.hits[k].time < to;
      assert StandsAt(s, i);
      HitIsOf(s.hits, k);
      PassingHas(s.hits, key, from, to, k);
    }
    SubsetIsSmaller(admitted, Passing(s.hits, key, from, to));
  }

  // ---- a call that nobody interrupts is the script ----

  // n operations of one caller, the clock standing still.
  function Alone(s: State, window: int, i: nat, n: nat): State
    decreases n
  {
    if n == 0 then s else Alone(Step(s, window, Advance(i, 0)), window, i, n - 1)
  }

  lemma {:induction false} AloneThen(s: State, window: int, i: nat, m: nat, n: nat)
    ensures Alone(Alone(s, window, i, m), window, i, n) == Alone(s, window, i, m + n)
    decreases m
  {
    if m > 0 { AloneThen(Step(s, window, Advance(i, 0)), window, i, m - 1, n); }
  }

  // One threshold: INCR, and EXPIRE or TTL if it is due.
  lemma CheckAlone(s: State, window: int, i: nat, check: Check, rest: seq<Check>) returns (n: nat)
    requires i < |s.callers| && s.callers[i] == Ready([check] + rest) && check.limit > 0
    ensures var t, counted := Alone(s, window, i, n), Count(s.store, check.key, window, s.now);
            && t.now == s.now
            && if Over(counted, check.key, check.limit)
               then t.store == AfterTTL(counted, check.key, s.now, s.now)
                    && t.callers == s.callers[i := Finished(true)]
               else t.store == counted && t.callers == s.callers[i := Ready(rest)]
  {
    assert ([check] + rest)[1..] == rest;
    var one := Step(s, window, Advance(i, 0));
    assert one.store == Incr(s.store, check.key, s.now);
    n := if one.callers[i].Ready? then 1 else 2;
    var two := Step(one, window, Advance(i, 0));
    assert Alone(one, window, i, 0) == one && Alone(two, window, i, 0) == two;
    assert Alone(one, window, i, 1) == two;
    assert Alone(s, window, i, n) == if n == 1 then one else two;
  }

  /** Without other callers in between, and with the clock standing still, a call is the script: the same verdict and
      the same store. */
  lemma AloneIsScript(s: State, window: int, r: Request) returns (n: nat)
    ensures var t := Alone(Step(s, window, Call(r)), window, |s.callers|, n);
            var (store, verdict) := Script(s.store, r.globalKey, r.idKey, r.globalLimit, r.idLimit, window, s.now);
            t.store == store && t.callers == s.callers + [Finished(verdict.limited)]
  {
    var i, t := |s.callers|, Step(s, window, Call(r));
    var id := if r.idLimit > 0 then [Check(r.idKey, r.idLimit)] else [];
    n := 0;
    if r.globalLimit > 0 {
      n := CheckAlone(t, window, i, Check(r.globalKey, r.globalLimit), id);
    }
    var u := Alone(t, window, i, n);
    if u.callers[i] != Finished(true) {
      var m := IdentifierAlone(u, window, i, id);
      AloneThen(t, window, i, n, m);
      n := n + m;
    }
  }

  lemma IdentifierAlone(s: State, window: int, i: nat, id: seq<Check>) returns (n: nat)
    requires i < |s.callers| && s.callers[i] == Ready(id) && |id| <= 1 && (id != [] ==> id[0].limit > 0)
    ensures var t := Alone(s, window, i, n);
            var (key, limit) := if id == [] then ("", 0) else (id[0].key, id[0].limit);
            var (store, verdict) := ScriptIdentifier(s.store, key, limit, window, s.now);
            t.store == store && t.callers == s.callers[i := Finished(verdict.limited)]
  {
    n := 0;
    if id != [] {
      assert [id[0]] + [] == id;
      n := CheckAlone(s, window, i, id[0], []);
    }
    var t := Alone(s, window, i, n);
    if t.callers[i] != Finished(true) {
      AloneThen(s, window, i, n, 1);
      assert Alone(t, window, i, 1) == Step(t, window, Advance(i, 0));
      n := n + 1;
    }
  }
}
