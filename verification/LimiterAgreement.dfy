/** The script with only an identifier threshold, the fixed-window limiter and a plain reference, on the
    calls of one key with the clock standing still during each call
    (limiter-lab/limiter/redis_like.go:117-150, limiter-lab/limiter/fixed_window.go:117-141). */
module LimiterAgreement {
  import opened RedisStore
  import FixedWindow

  // ---- the reference: a window opens at the first call outside the previous one ----

  datatype Window = Fresh | Open(start: int, hits: nat)

  function Hit(win: Window, w: int, t: int): Window {
    if win.Fresh? || t - win.start >= w then Open(t, 1) else Open(win.start, win.hits + 1)
  }

  function After(w: int, ts: seq<int>): Window {
    if ts == [] then Fresh else Hit(After(w, ts[..|ts|-1]), w, ts[|ts|-1])
  }

  predicate Room(win: Window, limit: int, w: int, t: int) {
    win.Fresh? || t - win.start >= w || win.hits < limit
  }

  predicate Sorted(ts: seq<int>) { forall i, j :: 0 <= i < j < |ts| ==> ts[i] <= ts[j] }

  /** Calls at or after a moment. */
  function Since(ts: seq<int>, from: int): seq<int> {
    if ts == [] then [] else Since(ts[..|ts|-1], from) + (if ts[|ts|-1] >= from then [ts[|ts|-1]] else [])
  }

  // ---- the two limiters on a list of calls ----

  function ScriptStore(key: string, limit: int, w: int, ts: seq<int>): Store {
    if ts == [] then EMPTY
    else ScriptIdentifier(ScriptStore(key, limit, w, ts[..|ts|-1]), key, limit, w, ts[|ts|-1]).0
  }

  function ScriptVerdict(key: string, limit: int, w: int, ts: seq<int>, t: int): Verdict {
    ScriptIdentifier(ScriptStore(key, limit, w, ts), key, limit, w, t).1
  }

  function Calls(key: string, ts: seq<int>): seq<FixedWindow.Call> {
    seq(|ts|, i requires 0 <= i < |ts| => FixedWindow.Call(key, 0, ts[i]))
  }

  function FixedAfter(key: string, limit: int, w: int, start: int, ts: seq<int>): FixedWindow.Limiter {
    FixedWindow.Run(FixedWindow.Limiter(start, map[]), limit, w, Calls(key, ts))
  }

  predicate FixedAdmits(key: string, limit: int, w: int, start: int, ts: seq<int>, t: int) {
    FixedWindow.Admits(FixedAfter(key, limit, w, start, ts), limit, w, key, 0, t)
  }

  // ---- the script follows the reference ----

  ghost predicate Stored(s: Store, key: string, w: int, win: Window) {
    match win
    case Fresh => key !in s.values && key !in s.expires
    case Open(start, hits) => hits >= 1 && key in s.values && s.values[key] == hits
                              && key in s.expires && s.expires[key] == start + w
  }

  // Counting a call on one counter.
  lemma CountFollows(s: Store, key: string, limit: int, w: int, win: Window, t: int)
    requires w > 0 && limit > 0 && Stored(s, key, w, win)
    ensures var counted := Count(s, key, w, t);
            && Stored(counted, key, w, Hit(win, w, t)) && ValueOf(counted, key) == Hit(win, w, t).hits
            && (Over(counted, key, limit) <==> !Room(win, limit, w, t))
            && AfterTTL(counted, key, t, t) == counted
            && RetryAfter(counted, key, t) == (Hit(win, w, t).start + w - t) / SECOND
  {
    DivideTwice(Hit(win, w, t).start + w - t);
  }

  lemma ScriptFollows(s: Store, key: string, limit: int, w: int, win: Window, t: int)
    requires w > 0 && limit > 0 && Stored(s, key, w, win)
    ensures var (after, v) := ScriptIdentifier(s, key, limit, w, t);
            && Stored(after, key, w, Hit(win, w, t))
            && (v.limited <==> !Room(win, limit, w, t))
            && (v.limited ==> v.retryAfter == (Hit(win, w, t).start + w - t) / SECOND)
            && (!v.limited ==> v.retryAfter == limit - Hit(win, w, t).hits)
  {
    CountFollows(s, key, limit, w, win, t);
  }

  lemma DivideTwice(d: int)
    ensures d / SECOND * SECOND / SECOND == d / SECOND
  {
  }

  lemma {:induction false} ScriptStored(key: string, limit: int, w: int, ts: seq<int>)
    requires w > 0 && limit > 0
    ensures Stored(ScriptStore(key, limit, w, ts), key, w, After(w, ts))
  {
    if ts != [] {
      var rest := ts[..|ts|-1];
      ScriptStored(key, limit, w, rest);
      ScriptFollows(ScriptStore(key, limit, w, rest), key, limit, w, After(w, rest), ts[|ts|-1]);
    }
  }

  /** The script admits a call exactly when the window in force has room, rejected calls included in the
      count, and tells a limited caller the whole seconds left in it. */
  lemma ScriptIsReference(key: string, limit: int, w: int, ts: seq<int>, t: int)
    requires w > 0 && limit > 0
    ensures var v := ScriptVerdict(key, limit, w, ts, t);
            && (v.limited <==> !Room(After(w, ts), limit, w, t))
            && (v.limited ==> v.retryAfter == (After(w, ts).start + w - t) / SECOND)
  {
    ScriptStored(key, limit, w, ts);
    ScriptFollows(ScriptStore(key, limit, w, ts), key, limit, w, After(w, ts), t);
  }

  // ---- both thresholds, any keys ----

  datatype ScriptCall = ScriptCall(globalKey: string, idKey: string, globalLimit: int, idLimit: int, time: int)

  function StoreAfter(w: int, calls: seq<ScriptCall>): Store {
    if calls == [] then EMPTY
    else
      var c := calls[|calls|-1];
      Script(StoreAfter(w, calls[..|calls|-1]), c.globalKey, c.idKey, c.globalLimit, c.idLimit, w, c.time).0
  }

  function VerdictAfter(w: int, calls: seq<ScriptCall>, c: ScriptCall): Verdict {
    Script(StoreAfter(w, calls), c.globalKey, c.idKey, c.globalLimit, c.idLimit, w, c.time).1
  }

  /** Which calls were counted on which keys: each on its global key if it sets a global threshold, and on its own key
      if it sets one of its own and the global threshold let it pass. */
  function CountedOn(w: int, calls: seq<ScriptCall>): seq<(string, int)> {
    if calls == [] then []
    else
      var earlier, c := CountedOn(w, calls[..|calls|-1]), calls[|calls|-1];
      var first := Globally(earlier, c);
      first + (if c.idLimit > 0 && !GloballyFull(w, earlier, c) then [(c.idKey, c.time)] else [])
  }

  function Globally(counted: seq<(string, int)>, c: ScriptCall): seq<(string, int)> {
    counted + (if c.globalLimit > 0 then [(c.globalKey, c.time)] else [])
  }

  predicate GloballyFull(w: int, counted: seq<(string, int)>, c: ScriptCall) {
    c.globalLimit > 0 && !Room(WindowOf(w, counted, c.globalKey), c.globalLimit, w, c.time)
  }

  predicate OwnFull(w: int, counted: seq<(string, int)>, c: ScriptCall) {
    c.idLimit > 0 && !Room(WindowOf(w, Globally(counted, c), c.idKey), c.idLimit, w, c.time)
  }

  function TimesOn(counted: seq<(string, int)>, key: string): seq<int> {
    if counted == [] then []
    else
      TimesOn(counted[..|counted|-1], key)
      + (if counted[|counted|-1].0 == key then [counted[|counted|-1].1] else [])
  }

  function WindowOf(w: int, counted: seq<(string, int)>, key: string): Window { After(w, TimesOn(counted, key)) }

  // The store holds the window of every key.
  ghost predicate AllStored(s: Store, w: int, counted: seq<(string, int)>) {
    forall key: string :: Stored(s, key, w, WindowOf(w, counted, key))
  }

  lemma CountOnKey(s: Store, w: int, counted: seq<(string, int)>, key: string, limit: int, t: int)
    requires w > 0 && limit > 0 && AllStored(s, w, counted)
    ensures AllStored(Count(s, key, w, t), w, counted + [(key, t)])
    ensures WindowOf(w, counted + [(key, t)], key) == Hit(WindowOf(w, counted, key), w, t)
  {
    var more := counted + [(key, t)];
    assert more[..|counted|] == counted;
    forall k: string ensures Stored(Count(s, key, w, t), k, w, WindowOf(w, more, k)) {
      assert Stored(s, k, w, WindowOf(w, counted, k));
      assert TimesOn(counted, k) + [] == TimesOn(counted, k);
      if k == key {
        CountFollows(s, key, limit, w, WindowOf(w, counted, key), t);
        AfterLast(w, TimesOn(counted, key), t);
      }
    }
    AfterLast(w, TimesOn(counted, key), t);
  }

  /** What the script answers, by the windows alone. */
  ghost predicate Answers(v: Verdict, w: int, counted: seq<(string, int)>, c: ScriptCall) {
    && (v.scope == Global <==> GloballyFull(w, counted, c))
    && (v.scope == Identifier <==> !GloballyFull(w, counted, c) && OwnFull(w, counted, c))
    && (v.limited <==> v.scope != Passed)
    && match v.scope
       case Global => v.retryAfter == (WindowOf(w, counted, c.globalKey).start + w - c.time) / SECOND
       case Identifier => v.retryAfter == (WindowOf(w, Globally(counted, c), c.idKey).start + w - c.time) / SECOND
       case Passed =>
         v.retryAfter == if c.idLimit <= 0 then 0
                         else c.idLimit - Hit(WindowOf(w, Globally(counted, c), c.idKey), w, c.time).hits
  }

  lemma IdentifierAnswers(s: Store, w: int, counted: seq<(string, int)>, c: ScriptCall)
    requires w > 0 && AllStored(s, w, Globally(counted, c)) && !GloballyFull(w, counted, c)
    ensures var (after, v) := ScriptIdentifier(s, c.idKey, c.idLimit, w, c.time);
            && Answers(v, w, counted, c)
            && AllStored(after, w, Globally(counted, c) + if c.idLimit > 0 then [(c.idKey, c.time)] else [])
  {
    var first := Globally(counted, c);
    if c.idLimit > 0 {
      assert Stored(s, c.idKey, w, WindowOf(w, first, c.idKey));
      CountFollows(s, c.idKey, c.idLimit, w, WindowOf(w, first, c.idKey), c.time);
      CountOnKey(s, w, first, c.idKey, c.idLimit, c.time);
    } else {
      assert first + [] == first;
    }
  }

  lemma ScriptAnswers(s: Store, w: int, counted: seq<(string, int)>, c: ScriptCall)
    requires w > 0 && AllStored(s, w, counted)
    ensures var (after, v) := Script(s, c.globalKey, c.idKey, c.globalLimit, c.idLimit, w, c.time);
            && Answers(v, w, counted, c)
            && AllStored(after, w, Globally(counted, c) + if c.idLimit > 0 && !GloballyFull(w, counted, c)
                                                          then [(c.idKey, c.time)] else [])
  {
    var first := Globally(counted, c);
    if c.globalLimit > 0 {
      assert Stored(s, c.globalKey, w, WindowOf(w, counted, c.globalKey));
      CountFollows(s, c.globalKey, c.globalLimit, w, WindowOf(w, counted, c.globalKey), c.time);
      CountOnKey(s, w, counted, c.globalKey, c.globalLimit, c.time);
      if GloballyFull(w, counted, c) {
        assert first + [] == first;
      } else {
        IdentifierAnswers(Count(s, c.globalKey, w, c.time), w, counted, c);
      }
    } else {
      assert first == counted;
      IdentifierAnswers(s, w, counted, c);
    }
  }

  lemma {:induction false} AllStoredAfter(w: int, calls: seq<ScriptCall>)
    requires w > 0
    ensures AllStored(StoreAfter(w, calls), w, CountedOn(w, calls))
  {
    if calls != [] {
      AllStoredAfter(w, calls[..|calls|-1]);
      ScriptAnswers(StoreAfter(w, calls[..|calls|-1]), w, CountedOn(w, calls[..|calls|-1]), calls[|calls|-1]);
    }
  }

  /** After any calls with any keys and thresholds, the script answers by the windows of the two keys: limited globally
      exactly when the global window is full, else by its own key exactly when that window is full, with the whole
      seconds left in the window; otherwise it passes, with the room left to its own key. */
  lemma BothThresholds(w: int, calls: seq<ScriptCall>, c: ScriptCall)
    requires w > 0
    ensures Answers(VerdictAfter(w, calls, c), w, CountedOn(w, calls), c)
  {
    AllStoredAfter(w, calls);
    ScriptAnswers(StoreAfter(w, calls), w, CountedOn(w, calls), c);
  }

  // ---- so does the fixed window, if its first window is the reference's ----

  predicate Aligned(start: int, w: int, first: int) { first == start || first - start >= w }

  ghost predicate Tracks(l: FixedWindow.Limiter, key: string, limit: int, w: int, start: int, win: Window) {
    match win
    case Fresh => l == FixedWindow.Limiter(start, map[])
    case Open(from, hits) =>
      l.windowStart == from && FixedWindow.Get(l, key) == (if hits < limit then hits else limit)
  }

  lemma FixedFollows(l: FixedWindow.Limiter, key: string, limit: int, w: int, start: int, win: Window, t: int)
    requires w > 0 && limit > 0 && Tracks(l, key, limit, w, start, win) && (win.Fresh? ==> Aligned(start, w, t))
    ensures FixedWindow.Admits(l, limit, w, key, 0, t) <==> Room(win, limit, w, t)
    ensures Tracks(FixedWindow.Allow(l, limit, w, key, 0, t), key, limit, w, start, Hit(win, w, t))
  {
  }

  lemma {:induction false} FixedTracks(key: string, limit: int, w: int, start: int, ts: seq<int>)
    requires w > 0 && limit > 0 && (ts != [] ==> Aligned(start, w, ts[0]))
    ensures Tracks(FixedAfter(key, limit, w, start, ts), key, limit, w, start, After(w, ts))
    ensures After(w, ts).Fresh? <==> ts == []
  {
    if ts != [] {
      var rest, t := ts[..|ts|-1], ts[|ts|-1];
      FixedTracks(key, limit, w, start, rest);
      assert Calls(key, ts)[..|ts|-1] == Calls(key, rest);
      FixedFollows(FixedAfter(key, limit, w, start, rest), key, limit, w, start, After(w, rest), t);
    }
  }

  // Both limiters decide every call of every sequence that begins at `first` alike.
  ghost predicate AgreeFrom(key: string, limit: int, w: int, start: int, first: int) {
    forall ts, t :: Sorted(ts + [t]) && (ts + [t])[0] == first ==>
      (FixedAdmits(key, limit, w, start, ts, t) <==> !ScriptVerdict(key, limit, w, ts, t).limited)
  }

  /** They agree exactly when the first call comes at `windowStart` or at least a window later. */
  lemma AgreeExactlyWhenAligned(key: string, limit: int, w: int, start: int, first: int)
    requires w > 0 && limit > 0 && start <= first
    ensures AgreeFrom(key, limit, w, start, first) <==> Aligned(start, w, first)
  {
    if Aligned(start, w, first) {
      forall ts, t | Sorted(ts + [t]) && (ts + [t])[0] == first
        ensures FixedAdmits(key, limit, w, start, ts, t) <==> !ScriptVerdict(key, limit, w, ts, t).limited
      {
        ScriptIsReference(key, limit, w, ts, t);
        FixedTracks(key, limit, w, start, ts);
        FixedFollows(FixedAfter(key, limit, w, start, ts), key, limit, w, start, After(w, ts), t);
      }
    } else {
      Disagree(key, limit, w, start, first);
    }
  }

  lemma {:induction false} AfterBurst(w: int, t: int, n: nat)
    requires w > 0
    ensures After(w, seq(n, _ => t)) == if n == 0 then Fresh else Open(t, n)
  {
    if n > 0 {
      assert seq(n, _ => t)[..n-1] == seq(n - 1, _ => t);
      AfterBurst(w, t, n - 1);
    }
  }

  // `limit` calls at `first`, then one when the limiter's window is over but the script's is not.
  lemma Disagree(key: string, limit: nat, w: int, start: int, first: int)
    requires w > 0 && limit > 0 && start < first < start + w
    ensures !AgreeFrom(key, limit, w, start, first)
  {
    var ts, t := seq(limit, _ => first), start + w;
    AfterBurst(w, first, limit);
    ScriptIsReference(key, limit, w, ts, t);
    assert Sorted(ts + [t]) && (ts + [t])[0] == first;
    assert FixedAdmits(key, limit, w, start, ts, t) by {
      FixedStays(key, limit, w, start, first, limit);
    }
  }

  lemma {:induction false} FixedStays(key: string, limit: nat, w: int, start: int, first: int, n: nat)
    requires w > 0 && start <= first < start + w
    ensures FixedAfter(key, limit, w, start, seq(n, _ => first)).windowStart == start
  {
    if n > 0 {
      assert Calls(key, seq(n, _ => first))[..n-1] == Calls(key, seq(n - 1, _ => first));
      FixedStays(key, limit, w, start, first, n - 1);
    }
  }

  // ---- the advertised retry time ----

  lemma AfterLast(w: int, ts: seq<int>, t: int)
    ensures After(w, ts + [t]) == Hit(After(w, ts), w, t)
  {
    assert (ts + [t])[..|ts|] == ts;
  }

  // As long as the window lasts, later calls only add to it.
  lemma {:induction false} WindowLasts(w: int, ts: seq<int>, us: seq<int>)
    requires w > 0 && After(w, ts).Open? && forall i :: 0 <= i < |us| ==> us[i] < After(w, ts).start + w
    ensures After(w, ts + us) == Open(After(w, ts).start, After(w, ts).hits + |us|)
  {
    if us == [] {
      assert ts + us == ts;
    } else {
      var rest, u := us[..|us|-1], us[|us|-1];
      WindowLasts(w, ts, rest);
      assert ts + us == (ts + rest) + [u];
      AfterLast(w, ts + rest, u);
    }
  }

  lemma {:induction false} NoneSince(us: seq<int>, e: int)
    requires forall i :: 0 <= i < |us| ==> us[i] < e
    ensures Since(us, e) == []
  {
    if us != [] { NoneSince(us[..|us|-1], e); }
  }

  lemma {:induction false} SinceBounds(us: seq<int>, e: int)
    ensures forall v :: v in Since(us, e) ==> e <= v && v in us
  {
    if us != [] { SinceBounds(us[..|us|-1], e); }
  }

  // Calls after the expiry of a window find the counter as if it had never been there.
  lemma {:induction false} AfterExpiry(w: int, ts: seq<int>, us: seq<int>, e: int)
    requires w > 0 && After(w, ts).Open? && After(w, ts).start + w == e && Sorted(us)
    ensures After(w, ts + us) == if Since(us, e) == [] then Open(After(w, ts).start, After(w, ts).hits + |us|)
                                 else After(w, Since(us, e))
  {
    if us == [] {
      assert ts + us == ts;
    } else {
      var rest, u := us[..|us|-1], us[|us|-1];
      AfterExpiry(w, ts, rest, e);
      assert ts + us == (ts + rest) + [u];
      AfterLast(w, ts + rest, u);
      if u < e {
        NoneSince(us, e);
        NoneSince(rest, e);
      } else {
        AfterLast(w, Since(rest, e), u);
      }
    }
  }

  // Calls within one window's length of the first are all in its window.
  lemma OneWindow(w: int, vs: seq<int>)
    requires w > 0 && vs != [] && forall v :: v in vs ==> v < vs[0] + w
    ensures After(w, vs) == Open(vs[0], |vs|)
  {
    assert After(w, [vs[0]]) == Open(vs[0], 1) by { assert [vs[0]][..0] == []; }
    assert vs == [vs[0]] + vs[1..];
    assert forall i :: 0 <= i < |vs[1..]| ==> vs[1..][i] in vs;
    WindowLasts(w, [vs[0]], vs[1..]);
  }

  lemma Between(t: int, us: seq<int>, u: int)
    requires Sorted([t] + us + [u])
    ensures Sorted(us) && t <= u && forall i :: 0 <= i < |us| ==> t <= us[i] <= u
  {
    var all := [t] + us + [u];
    assert all[0] == t && all[|us| + 1] == u;
    forall i, j | 0 <= i < j < |us| ensures us[i] <= us[j] {
      assert all[i + 1] == us[i] && all[j + 1] == us[j];
    }
    forall i | 0 <= i < |us| ensures t <= us[i] <= u {
      assert all[i + 1] == us[i];
    }
  }

  /** A caller limited at `t` and told to retry after `r` seconds is still limited at any moment before
      t + r s, whatever calls are made in between. */
  lemma LimitedUntilRetry(key: string, limit: int, w: int, ts: seq<int>, t: int, us: seq<int>, u: int)
    requires w > 0 && limit > 0 && ScriptVerdict(key, limit, w, ts, t).limited
    requires Sorted([t] + us + [u]) && u < t + ScriptVerdict(key, limit, w, ts, t).retryAfter * SECOND
    ensures ScriptVerdict(key, limit, w, ts + [t] + us, u).limited
  {
    ScriptIsReference(key, limit, w, ts, t);
    AfterLast(w, ts, t);
    Between(t, us, u);
    WindowLasts(w, ts + [t], us);
    ScriptIsReference(key, limit, w, ts + [t] + us, u);
  }

  // The moment at which a limited caller may expect to be admitted.
  function RetryTime(key: string, limit: int, w: int, ts: seq<int>, t: int): int {
    t + (ScriptVerdict(key, limit, w, ts, t).retryAfter + 1) * SECOND
  }

  /** A call is limited at `t`, and among the later calls `us` and `u` the first from t + (r+1) s on is `u`. */
  predicate FirstRetry(key: string, limit: int, w: int, ts: seq<int>, t: int, us: seq<int>, u: int) {
    && ScriptVerdict(key, limit, w, ts, t).limited
    && Sorted([t] + us + [u])
    && (forall v :: v in us ==> v < RetryTime(key, limit, w, ts, t))
    && RetryTime(key, limit, w, ts, t) <= u
  }

  /** From t + (r+1) s on a call is admitted exactly when the calls made since the counter expired leave room in
      the window in force. */
  lemma AdmittedExactlyWithRoom(key: string, limit: int, w: int, ts: seq<int>, t: int, us: seq<int>, u: int)
    requires w > 0 && limit > 0 && ScriptVerdict(key, limit, w, ts, t).limited
    requires Sorted([t] + us + [u]) && u >= RetryTime(key, limit, w, ts, t)
    ensures !ScriptVerdict(key, limit, w, ts + [t] + us, u).limited
            <==> Room(After(w, Since(us, After(w, ts).start + w)), limit, w, u)
  {
    ScriptIsReference(key, limit, w, ts, t);
    AfterLast(w, ts, t);
    Between(t, us, u);
    AfterExpiry(w, ts + [t], us, After(w, ts).start + w);
    ScriptIsReference(key, limit, w, ts + [t] + us, u);
  }

  /** The first call from t + (r+1) s on is admitted exactly when fewer than `limit` calls were made since the
      counter expired, or the first of them is a window old. (The window is at least a second, the unit of r.) */
  lemma AdmittedAfterRetry(key: string, limit: int, w: int, ts: seq<int>, t: int, us: seq<int>, u: int)
    requires w >= SECOND && limit > 0 && FirstRetry(key, limit, w, ts, t, us, u)
    ensures var vs := Since(us, After(w, ts).start + w);
            !ScriptVerdict(key, limit, w, ts + [t] + us, u).limited <==> |vs| < limit || vs[0] + w <= u
  {
    var e := After(w, ts).start + w;
    var vs := Since(us, e);
    AdmittedExactlyWithRoom(key, limit, w, ts, t, us, u);
    SinceBounds(us, e);
    RetryAfterExpiry(key, limit, w, ts, t);
    RoomAmong(w, limit, vs, e, u);
  }

  lemma RoomAmong(w: int, limit: int, vs: seq<int>, e: int, u: int)
    requires w > 0 && limit > 0 && forall v :: v in vs ==> e <= v < e + w
    ensures Room(After(w, vs), limit, w, u) <==> |vs| < limit || vs[0] + w <= u
  {
    if vs != [] {
      assert vs[0] in vs;
      OneWindow(w, vs);
    }
  }

  // The announced time is at most a second after the expiry.
  lemma RetryAfterExpiry(key: string, limit: int, w: int, ts: seq<int>, t: int)
    requires w > 0 && limit > 0 && ScriptVerdict(key, limit, w, ts, t).limited
    ensures After(w, ts).Open?
    ensures After(w, ts).start + w < RetryTime(key, limit, w, ts, t) <= After(w, ts).start + w + SECOND
  {
    ScriptIsReference(key, limit, w, ts, t);
    WholeSeconds(After(w, ts).start + w - t);
  }

  lemma WholeSeconds(d: int)
    ensures d < (d / SECOND + 1) * SECOND <= d + SECOND
  {
  }

  /** The promise itself, for every caller and whatever is called meanwhile: the first call from t + (r+1) s on
      is admitted. */
  ghost predicate RetryPromised(key: string, limit: int, w: int) {
    forall ts, t, us, u ::
      FirstRetry(key, limit, w, ts, t, us, u) ==> !ScriptVerdict(key, limit, w, ts + [t] + us, u).limited
  }

  /** It is kept for windows of a nanosecond and no others. */
  lemma RetryPromisedExactly(key: string, limit: nat, w: int)
    requires w > 0 && limit > 0
    ensures RetryPromised(key, limit, w) <==> w == 1
  {
    if w == 1 {
      forall ts, t, us, u | FirstRetry(key, limit, w, ts, t, us, u)
        ensures !ScriptVerdict(key, limit, w, ts + [t] + us, u).limited
      {
        AdmittedAfterANanosecond(key, limit, ts, t, us, u);
      }
    } else {
      RetryCanFail(key, limit, w);
    }
  }

  lemma AdmittedAfterANanosecond(key: string, limit: int, ts: seq<int>, t: int, us: seq<int>, u: int)
    requires limit > 0 && FirstRetry(key, limit, 1, ts, t, us, u)
    ensures !ScriptVerdict(key, limit, 1, ts + [t] + us, u).limited
  {
    AdmittedExactlyWithRoom(key, limit, 1, ts, t, us, u);
    SinceBounds(us, After(1, ts).start + 1);
    StartsAtACall(1, Since(us, After(1, ts).start + 1));
  }

  lemma {:induction false} StartsAtACall(w: int, ts: seq<int>)
    ensures ts != [] ==> After(w, ts).Open? && After(w, ts).start in ts
  {
    if ts != [] { StartsAtACall(w, ts[..|ts|-1]); }
  }

  // `limit` calls just before the announced time: after the expiry, and less than a window old when it comes.
  lemma RetryCanFail(key: string, limit: nat, w: int)
    requires w >= 2 && limit > 0
    ensures !RetryPromised(key, limit, w)
  {
    var ts := seq(limit, _ => 0);
    AfterBurst(w, 0, limit);
    ScriptIsReference(key, limit, w, ts, 0);
    var u := RetryTime(key, limit, w, ts, 0);
    assert w < u == (w / SECOND + 1) * SECOND;
    var us := seq(limit, _ => u - 1);
    AfterLast(w, ts, 0);
    AfterSecondBurst(w, ts + [0], u - 1, limit);
    ScriptIsReference(key, limit, w, ts + [0] + us, u);
    assert FirstRetry(key, limit, w, ts, 0, us, u) && ScriptVerdict(key, limit, w, ts + [0] + us, u).limited;
  }

  lemma {:induction false} AfterSecondBurst(w: int, ts: seq<int>, t: int, n: nat)
    requires w > 0 && After(w, ts).Open? && After(w, ts).start + w <= t
    ensures n > 0 ==> After(w, ts + seq(n, _ => t)) == Open(t, n)
  {
    if n > 0 {
      var us := seq(n - 1, _ => t);
      assert ts + seq(n, _ => t) == (ts + us) + [t];
      AfterLast(w, ts + us, t);
      if n == 1 { assert ts + us == ts; } else { AfterSecondBurst(w, ts, t, n - 1); }
    }
  }
}
