/** The fixed-window limiter (limiter-lab/limiter/fixed_window.go:26-141). */
module FixedWindow {
  import opened Windows

  // ---- the limiter on values ----

  datatype Limiter = Limiter(windowStart: int, counts: map<string, int>)

  function Get(l: Limiter, key: string): int { if key in l.counts then l.counts[key] else 0 }

  // The window in force at `now`.
  function Current(l: Limiter, window: int, now: int): Limiter {
    if now - l.windowStart >= window then Limiter(now, map[]) else l
  }

  function Threshold(limit: int, override: int): int { if override > 0 then override else limit }

  predicate Admits(l: Limiter, limit: int, window: int, key: string, override: int, now: int) {
    Get(Current(l, window, now), key) + 1 <= Threshold(limit, override)
  }

  function Allow(l: Limiter, limit: int, window: int, key: string, override: int, now: int): Limiter {
    var c := Current(l, window, now);
    if Admits(l, limit, window, key, override, now) then c.(counts := c.counts[key := Get(c, key) + 1]) else c
  }

  // ---- runs ----

  datatype Call = Call(key: string, override: int, time: int)

  function Run(l: Limiter, limit: int, window: int, calls: seq<Call>): Limiter {
    if calls == [] then l
    else
      var c := calls[|calls|-1];
      Allow(Run(l, limit, window, calls[..|calls|-1]), limit, window, c.key, c.override, c.time)
  }

  /** Admissions of a key so far, each with the start of the window it was counted in. */
  function Admitted(l: Limiter, limit: int, window: int, calls: seq<Call>, key: string): seq<Admission> {
    if calls == [] then []
    else
      var rest, c := calls[..|calls|-1], calls[|calls|-1];
      var before := Run(l, limit, window, rest);
      Admitted(l, limit, window, rest, key)
        + (if c.key == key && Admits(before, limit, window, c.key, c.override, c.time)
           then [Admission(c.time, Current(before, window, c.time).windowStart)] else [])
  }

  /** A clock that never goes back, starting when the limiter was made. */
  predicate Clocked(start: int, calls: seq<Call>) {
    && (forall i :: 0 <= i < |calls| ==> start <= calls[i].time)
    && (forall i, j :: 0 <= i < j < |calls| ==> calls[i].time <= calls[j].time)
  }

  predicate NoOverrides(calls: seq<Call>, key: string) {
    forall i :: 0 <= i < |calls| && calls[i].key == key ==> calls[i].override <= 0
  }

  function LastTime(start: int, calls: seq<Call>): int { if calls == [] then start else calls[|calls|-1].time }

  // ---- the invariant ----

  ghost predicate Inv(l: Limiter, as_: seq<Admission>, key: string, window: int, now: int) {
    && Windowed(as_, window)
    && l.windowStart <= now
    && Get(l, key) == CountWindow(as_, l.windowStart)
    && (forall i :: 0 <= i < |as_| ==>
          as_[i].time <= now && Successive(as_[i], Admission(l.windowStart, l.windowStart), window))
  }

  // Opening a new window empties the counts.
  lemma CurrentKeeps(l: Limiter, as_: seq<Admission>, key: string, window: int, last: int, now: int)
    requires window > 0 && last <= now && Inv(l, as_, key, window, last)
    ensures Inv(Current(l, window, now), as_, key, window, now)
  {
    if now - l.windowStart >= window { CountNone(as_, now); }
  }

  lemma AllowKeeps(l: Limiter, as_: seq<Admission>, limit: int, window: int, key: string, c: Call, last: int)
    requires window > 0 && last <= c.time && Inv(l, as_, key, window, last)
    ensures Inv(Allow(l, limit, window, c.key, c.override, c.time),
                as_ + (if c.key == key && Admits(l, limit, window, c.key, c.override, c.time)
                       then [Admission(c.time, Current(l, window, c.time).windowStart)] else []),
                key, window, c.time)
  {
    CurrentKeeps(l, as_, key, window, last, c.time);
    var a := Admission(c.time, Current(l, window, c.time).windowStart);
    if c.key == key && Admits(l, limit, window, c.key, c.override, c.time) {
      CountAdd(as_, a, a.window);
      WindowedAdd(as_, a, window);
    } else {
      assert as_ + [] == as_;
    }
  }

  lemma {:induction false} RunKeeps(l: Limiter, limit: int, window: int, calls: seq<Call>, key: string)
    requires window > 0 && l.counts == map[] && Clocked(l.windowStart, calls)
    ensures Inv(Run(l, limit, window, calls), Admitted(l, limit, window, calls, key), key, window,
                LastTime(l.windowStart, calls))
  {
    if calls != [] {
      var rest, c := calls[..|calls|-1], calls[|calls|-1];
      RunKeeps(l, limit, window, rest, key);
      AllowKeeps(Run(l, limit, window, rest), Admitted(l, limit, window, rest, key), limit, window, key, c,
                 LastTime(l.windowStart, rest));
    }
  }

  // ---- what the limiter guarantees, starting without counts ----

  /** The count of a key is the number of its admissions in the current window, overrides or not. */
  lemma CountIsAdmissions(l: Limiter, limit: int, window: int, calls: seq<Call>, key: string)
    requires window > 0 && l.counts == map[] && Clocked(l.windowStart, calls)
    ensures var now := Run(l, limit, window, calls);
            Get(now, key) == CountWindow(Admitted(l, limit, window, calls, key), now.windowStart)
  {
    RunKeeps(l, limit, window, calls, key);
  }

  /** Without overrides at most `limit` calls of a key are admitted in any one window. */
  lemma {:induction false} AtMostLimitPerWindow(l: Limiter, limit: nat, window: int, calls: seq<Call>, key: string)
    requires window > 0 && l.counts == map[] && Clocked(l.windowStart, calls) && NoOverrides(calls, key)
    ensures forall g :: CountWindow(Admitted(l, limit, window, calls, key), g) <= limit
  {
    if calls != [] {
      var rest, c := calls[..|calls|-1], calls[|calls|-1];
      var before, as_ := Run(l, limit, window, rest), Admitted(l, limit, window, rest, key);
      AtMostLimitPerWindow(l, limit, window, rest, key);
      RunKeeps(l, limit, window, rest, key);
      CurrentKeeps(before, as_, key, window, LastTime(l.windowStart, rest), c.time);
      var a := Admission(c.time, Current(before, window, c.time).windowStart);
      forall g ensures CountWindow(Admitted(l, limit, window, calls, key), g) <= limit {
        CountAdd(as_, a, g);
        assert as_ + [] == as_;
      }
    }
  }

  /** Without overrides at most 2·limit calls of a key are admitted in any half-open interval of length `window`. */
  lemma AtMostTwiceTheLimit(l: Limiter, limit: nat, window: int, calls: seq<Call>, key: string, from: int)
    requires window > 0 && l.counts == map[] && Clocked(l.windowStart, calls) && NoOverrides(calls, key)
    ensures CountBetween(Admitted(l, limit, window, calls, key), from, from + window) <= 2 * limit
  {
    RunKeeps(l, limit, window, calls, key);
    AtMostLimitPerWindow(l, limit, window, calls, key);
    AtMostTwice(Admitted(l, limit, window, calls, key), window, limit, from);
  }

  /** A call without override is rejected exactly when `limit` calls of its key were already admitted in
      the window that is current at that moment. */
  lemma RejectedExactlyWhenFull(l: Limiter, limit: nat, window: int, calls: seq<Call>, key: string, now: int)
    requires window > 0 && l.counts == map[] && Clocked(l.windowStart, calls) && NoOverrides(calls, key)
    requires LastTime(l.windowStart, calls) <= now
    ensures var before := Run(l, limit, window, calls);
            !Admits(before, limit, window, key, 0, now)
            <==> CountWindow(Admitted(l, limit, window, calls, key), Current(before, window, now).windowStart) == limit
  {
    var before, as_ := Run(l, limit, window, calls), Admitted(l, limit, window, calls, key);
    RunKeeps(l, limit, window, calls, key);
    AtMostLimitPerWindow(l, limit, window, calls, key);
    CurrentKeeps(before, as_, key, window, LastTime(l.windowStart, calls), now);
  }

  /** With overrides: a call is rejected exactly when as many calls of its key as its own threshold allows, the override
      if positive and else the limit, were already admitted in the current window, whatever thresholds those had. */
  lemma RejectedExactlyAtItsThreshold(l: Limiter, limit: int, window: int, calls: seq<Call>, c: Call)
    requires window > 0 && l.counts == map[] && Clocked(l.windowStart, calls)
    requires LastTime(l.windowStart, calls) <= c.time
    ensures var before := Run(l, limit, window, calls);
            var admitted := CountWindow(Admitted(l, limit, window, calls, c.key),
                                        Current(before, window, c.time).windowStart);
            && (c.override > 0 ==>
                  (!Admits(before, limit, window, c.key, c.override, c.time) <==> admitted >= c.override))
            && (c.override <= 0 ==>
                  (!Admits(before, limit, window, c.key, c.override, c.time) <==> admitted >= limit))
  {
    RunKeeps(l, limit, window, calls, c.key);
    CurrentKeeps(Run(l, limit, window, calls), Admitted(l, limit, window, calls, c.key), c.key, window,
                 LastTime(l.windowStart, calls), c.time);
  }

  // ---- the limiter itself ----

  class FixedWindowLimiter {
    const limit: int
    const window: int
    var windowStart: int
    var counts: map<string, int>

    ghost function View(): Limiter
      reads this
    {
      Limiter(windowStart, counts)
    }

    constructor (limit: int, window: int, start: int)
      requires limit > 0
      ensures this.limit == limit && this.window == window && View() == Limiter(start, map[])
    {
      this.limit, this.window, windowStart, counts := limit, window, start, map[];
    }

    method AllowInternal(key: string, override: int, now: int) returns (ok: bool)
      modifies this
      ensures View() == Allow(old(View()), limit, window, key, override, now)
      ensures ok == Admits(old(View()), limit, window, key, override, now)
    {
      if now - windowStart >= window {
        windowStart := now;
        counts := map[];
      }
      var threshold := limit;
      if override > 0 { threshold := override; }
      var c := (if key in counts then counts[key] else 0) + 1;
      if c > threshold { return false; }
      counts := counts[key := c];
      return true;
    }
  }
}
