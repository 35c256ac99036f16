/** The cache in front of the slow password comparison (cdmp-mini/internal/pkg/server/credential_cache.go:10-94)
    and the check that uses it (cdmp-mini/internal/pkg/server/auth.go:783-805). */
module CredentialCache {
  import opened Wrappers

  datatype Entry = Entry(matched: bool, expires: int, touched: int)

  // What the slow comparison of a stored hash and a password says.
  datatype Comparison = Match | Mismatch | Failure(message: string)

  datatype Credential = Credential(user: string, hash: string, plain: string)

  // Hexadecimal SHA-256.
  type Digest = string -> string

  type Compare = (string, string) -> Comparison

  type Entries = map<string, Entry>

  function CacheKey(c: Credential, digest: Digest): string {
    c.user + "|" + c.hash + "|" + digest(c.plain)
  }

  /** What verifyPassword answers without a cache. */
  function Uncached(c: Credential, compare: Compare): Result<bool, string> {
    match compare(c.hash, c.plain)
    case Match => Ok(true)
    case Mismatch => Ok(false)
    case Failure(e) => Err(e)
  }

  predicate IsOldest(k: string, m: Entries) {
    k in m && forall j :: j in m ==> m[k].touched <= m[j].touched
  }

  // A store that evicts `victim` first if the cache is full.
  function Stored(m: Entries, key: string, entry: Entry, max: nat, victim: string): Entries {
    (if |m| >= max then m - {victim} else m)[key := entry]
  }

  lemma StoredSize(m: Entries, key: string, entry: Entry, max: nat, victim: string)
    requires 0 < max && |m| <= max
    requires |m| >= max ==> victim in m
    ensures |Stored(m, key, entry, max, victim)| <= max
  {
    var kept := if |m| >= max then m - {victim} else m;
    assert kept.Keys == if |m| >= max then m.Keys - {victim} else m.Keys;
    assert kept[key := entry].Keys == kept.Keys + {key};
  }

  // ---- cache keys ----

  ghost predicate IsDigest(digest: Digest) {
    && (forall p, q :: digest(p) == digest(q) ==> p == q)
    && (forall p :: '|' !in digest(p))
  }

  predicate EndsIn(h: string, g: string) {
    |g| < |h| && h[|h| - |g| - 1] == '|' && h[|h| - |g|..] == g
  }

  /** No stored hash is another one behind a `|`; so it is when none contains `|`. */
  ghost predicate Apart(hashes: iset<string>) {
    forall h, g :: h in hashes && g in hashes ==> !EndsIn(h, g)
  }

  lemma SamePrefix(a: string, b: string, d: string, e: string)
    requires a + "|" + d == b + "|" + e && '|' !in d && '|' !in e
    ensures a == b && d == e
  {
    var s := a + "|" + d;
    assert s[|a|] == '|' && s[|b|] == '|';
    assert d == s[|a| + 1..] && e == s[|b| + 1..];
    assert forall i :: |a| < i < |s| ==> s[i] == d[i - |a| - 1];
    assert forall i :: |b| < i < |s| ==> s[i] == e[i - |b| - 1];
    assert |b| <= |a| && |a| <= |b|;
    assert s[..|a|] == a && s[..|b|] == b;
  }

  lemma SameHash(u: string, h: string, v: string, g: string)
    requires u + "|" + h == v + "|" + g && |g| <= |h|
    ensures EndsIn(h, g) || (u == v && h == g)
  {
    var s := u + "|" + h;
    assert h == s[|u| + 1..] && g == s[|v| + 1..];
    if |g| < |h| {
      assert h[|h| - |g| - 1] == s[|v|] == '|';
      assert h[|h| - |g|..] == g;
    } else {
      assert s[..|u|] == u && s[..|v|] == v;
    }
  }

  /** Different credentials have different cache keys, whatever the user names are. */
  lemma CacheKeyIsInjective(digest: Digest, hashes: iset<string>, c: Credential, d: Credential)
    requires IsDigest(digest) && Apart(hashes) && c.hash in hashes && d.hash in hashes
    requires CacheKey(c, digest) == CacheKey(d, digest)
    ensures c == d
  {
    SamePrefix(c.user + "|" + c.hash, d.user + "|" + d.hash, digest(c.plain), digest(d.plain));
    if |d.hash| <= |c.hash| {
      SameHash(c.user, c.hash, d.user, d.hash);
    } else {
      SameHash(d.user, d.hash, c.user, c.hash);
    }
  }

  // ---- the classes ----

  ghost predicate Sound(m: Entries, digest: Digest, hashes: iset<string>, compare: Compare) {
    forall c: Credential :: c.hash in hashes && CacheKey(c, digest) in m ==>
                              Uncached(c, compare) == Ok(m[CacheKey(c, digest)].matched)
  }

  class Cache {
    var entries: Entries
    const ttl: int
    const maxEntries: nat
    const digest: Digest

    constructor (ttl: int, maxEntries: nat, digest: Digest)
      requires 0 < ttl && 0 < maxEntries
      ensures entries == map[] && this.ttl == ttl && this.maxEntries == maxEntries && this.digest == digest
    {
      entries := map[];
      this.ttl := ttl;
      this.maxEntries := maxEntries;
      this.digest := digest;
    }

    ghost predicate Valid() reads this { |entries| <= maxEntries && 0 < maxEntries }

    method Lookup(c: Credential, now: int) returns (cached: Option<bool>)
      modifies this`entries
      ensures var k := CacheKey(c, digest);
              && cached == (if k in old(entries) && now <= old(entries)[k].expires
                            then Some(old(entries)[k].matched) else None)
              && entries == if k in old(entries) && cached.None? then old(entries) - {k} else old(entries)
      ensures old(Valid()) ==> Valid()
    {
      var key := CacheKey(c, digest);
      if key !in entries { return None; }
      var entry := entries[key];
      if now > entry.expires {
        assert (entries - {key}).Keys == entries.Keys - {key};
        entries := entries - {key};
        return None;
      }
      return Some(entry.matched);
    }

    method EvictLocked() returns (ghost victim: string)
      modifies this`entries
      ensures old(entries) == map[] ==> entries == map[]
      ensures old(entries) != map[] ==>
                && victim in old(entries) && entries == old(entries) - {victim}
                && forall k :: k in old(entries) ==> old(entries)[victim].touched <= old(entries)[k].touched
    {
      if |entries| == 0 {
        victim := "";
        return;
      }
      var oldestKey, oldestTime, first := "", 0, true;
      var left := entries.Keys;
      while left != {}
        invariant left <= entries.Keys
        invariant first <==> left == entries.Keys
        invariant !first ==> oldestKey in entries && entries[oldestKey].touched == oldestTime
        invariant forall k :: k in entries.Keys - left ==> oldestTime <= entries[k].touched
        decreases |left|
      {
        var k :| k in left;
        if first || entries[k].touched < oldestTime {
          oldestKey, oldestTime, first := k, entries[k].touched, false;
        }
        left := left - {k};
      }
      victim := oldestKey;
      entries := entries - {oldestKey};
    }

    method Store(c: Credential, matched: bool, now: int) returns (ghost victim: string)
      requires Valid()
      modifies this`entries
      ensures Valid()
      ensures |old(entries)| >= maxEntries ==>
                && victim in old(entries)
                && forall k :: k in old(entries) ==> old(entries)[victim].touched <= old(entries)[k].touched
      ensures entries == Stored(old(entries), CacheKey(c, digest), Entry(matched, now + ttl, now), maxEntries, victim)
    {
      var key := CacheKey(c, digest);
      var entry := Entry(matched, now + ttl, now);
      victim := "";
      if |entries| >= maxEntries {
        victim := EvictLocked();
      }
      StoredSize(old(entries), key, entry, maxEntries, victim);
      entries := entries[key := entry];
    }
  }

  datatype User = User(name: string, password: string)

  /** The answer with a cache is the answer without; a sound cache stays sound. Afterwards an answer, yes or no, is in
      the cache, and a failed comparison is not. The two clock readings are those of lookup and store. */
  method VerifyPassword(cache: Cache?, user: Option<User>, plain: string, now: int, later: int, compare: Compare,
                        ghost hashes: iset<string>) returns (r: Result<bool, string>)
    requires cache != null ==>
               && cache.Valid() && IsDigest(cache.digest) && Apart(hashes)
               && Sound(cache.entries, cache.digest, hashes, compare)
    requires user.Some? ==> user.value.password in hashes
    modifies if cache == null then {} else {cache}
    ensures r == if user.None? then Err("invalid user for password verification")
                 else Uncached(Credential(user.value.name, user.value.password, plain), compare)
    ensures cache != null ==> cache.Valid() && Sound(cache.entries, cache.digest, hashes, compare)
    ensures cache != null && r.Ok? ==>
              var key := CacheKey(Credential(user.value.name, user.value.password, plain), cache.digest);
              key in cache.entries && cache.entries[key].matched == r.value
    ensures cache != null && r.Err? ==> forall k :: k in cache.entries ==> k in old(cache.entries)
  {
    if user.None? { return Err("invalid user for password verification"); }
    var c := Credential(user.value.name, user.value.password, plain);
    if cache != null {
      var cached := cache.Lookup(c, now);
      if cached.Some? { return Ok(cached.value); }
    }
    var compared := compare(c.hash, plain);
    if compared.Failure? { return Err(compared.message); }
    if cache != null {
      ghost var before := cache.entries;
      ghost var victim := cache.Store(c, compared.Match?, later);
      StoreKeepsSound(before, cache.digest, hashes, compare, c, Entry(compared.Match?, later + cache.ttl, later),
                      cache.maxEntries, victim);
    }
    return Ok(compared.Match?);
  }

  lemma StoreKeepsSound(m: Entries, digest: Digest, hashes: iset<string>, compare: Compare, c: Credential, entry: Entry,
                        max: nat, victim: string)
    requires IsDigest(digest) && Apart(hashes) && Sound(m, digest, hashes, compare)
    requires c.hash in hashes && Uncached(c, compare) == Ok(entry.matched)
    ensures Sound(Stored(m, CacheKey(c, digest), entry, max, victim), digest, hashes, compare)
  {
    var after := Stored(m, CacheKey(c, digest), entry, max, victim);
    forall d: Credential | d.hash in hashes && CacheKey(d, digest) in after
      ensures Uncached(d, compare) == Ok(after[CacheKey(d, digest)].matched)
    {
      if CacheKey(d, digest) == CacheKey(c, digest) { CacheKeyIsInjective(digest, hashes, c, d); }
    }
  }

  // ---- concurrent checks ----

  // Where a call of verifyPassword stands; each of its visits to the cache is one step under the lock.
  datatype Phase =
    Reading | Deleting | Comparing | Storing(matched: bool, now: int) | Done(answer: Result<bool, string>)

  datatype Call = Call(c: Credential, phase: Phase)

  datatype Config = Config(ttl: int, max: nat, digest: Digest)

  datatype System = System(entries: Entries, calls: map<int, Call>)

  const START := System(map[], map[])

  datatype Action =
    | Begin(id: int, c: Credential)
    | Read(id: int, now: int)
    | Delete(id: int)
    | Compared(id: int, now: int)
    | Put(id: int, victim: string)

  function Move(s: System, id: int, phase: Phase): System
    requires id in s.calls
  {
    s.(calls := s.calls[id := s.calls[id].(phase := phase)])
  }

  /** One step of one call; an action that is not due changes nothing. */
  function Step(s: System, a: Action, cfg: Config, compare: Compare): System {
    if a.Begin? then
      (if a.id in s.calls then s else s.(calls := s.calls[a.id := Call(a.c, Reading)]))
    else if a.id !in s.calls then s
    else
      var call := s.calls[a.id];
      var key := CacheKey(call.c, cfg.digest);
      match a
      case Read(id, now) =>
        if !call.phase.Reading? then s
        else if key !in s.entries then Move(s, id, Comparing)
        else if now > s.entries[key].expires then Move(s, id, Deleting)
        else Move(s, id, Done(Ok(s.entries[key].matched)))
      case Delete(id) =>
        if !call.phase.Deleting? then s else Move(s.(entries := s.entries - {key}), id, Comparing)
      case Compared(id, now) =>
        if !call.phase.Comparing? then s
        else
          (match compare(call.c.hash, call.c.plain)
           case Failure(e) => Move(s, id, Done(Err(e)))
           case Match => Move(s, id, Storing(true, now))
           case Mismatch => Move(s, id, Storing(false, now)))
      case Put(id, victim) =>
        if !call.phase.Storing? || (|s.entries| >= cfg.max && !IsOldest(victim, s.entries)) then s
        else
          var entry := Entry(call.phase.matched, call.phase.now + cfg.ttl, call.phase.now);
          Move(s.(entries := Stored(s.entries, key, entry, cfg.max, victim)), id, Done(Ok(call.phase.matched)))
  }

  function Run(run: seq<Action>, cfg: Config, compare: Compare): System
    decreases |run|
  {
    if run == [] then START else Step(Run(run[..|run| - 1], cfg, compare), run[|run| - 1], cfg, compare)
  }

  /** The users checked in a run have hashes of the given set. */
  ghost predicate Over(run: seq<Action>, hashes: iset<string>) {
    forall i :: 0 <= i < |run| && run[i].Begin? ==> run[i].c.hash in hashes
  }

  ghost predicate CallOk(call: Call, hashes: iset<string>, compare: Compare) {
    && call.c.hash in hashes
    && (call.phase.Storing? ==> Uncached(call.c, compare) == Ok(call.phase.matched))
    && (call.phase.Done? ==> call.phase.answer == Uncached(call.c, compare))
  }

  ghost predicate Inv(s: System, cfg: Config, hashes: iset<string>, compare: Compare) {
    && Sound(s.entries, cfg.digest, hashes, compare)
    && |s.entries| <= cfg.max
    && forall id :: id in s.calls ==> CallOk(s.calls[id], hashes, compare)
  }

  lemma PutKeepsInv(s: System, a: Action, cfg: Config, hashes: iset<string>, compare: Compare)
    requires 0 < cfg.max && IsDigest(cfg.digest) && Apart(hashes)
    requires Inv(s, cfg, hashes, compare) && a.Put?
    ensures Inv(Step(s, a, cfg, compare), cfg, hashes, compare)
  {
    if Step(s, a, cfg, compare) != s {
      var call := s.calls[a.id];
      assert CallOk(call, hashes, compare);
      var key := CacheKey(call.c, cfg.digest);
      var entry := Entry(call.phase.matched, call.phase.now + cfg.ttl, call.phase.now);
      StoredSize(s.entries, key, entry, cfg.max, a.victim);
      StoreKeepsSound(s.entries, cfg.digest, hashes, compare, call.c, entry, cfg.max, a.victim);
    }
  }

  lemma EntriesOnlyLeave(s: System, a: Action, cfg: Config, compare: Compare)
    requires !a.Put?
    ensures var after := Step(s, a, cfg, compare).entries;
            |after| <= |s.entries| && forall k :: k in after ==> k in s.entries && after[k] == s.entries[k]
  {
    if a.Delete? && a.id in s.calls {
      var key := CacheKey(s.calls[a.id].c, cfg.digest);
      assert (s.entries - {key}).Keys == s.entries.Keys - {key};
    }
  }

  lemma SoundSubset(m: Entries, n: Entries, digest: Digest, hashes: iset<string>, compare: Compare)
    requires Sound(m, digest, hashes, compare)
    requires forall k :: k in n ==> k in m && n[k] == m[k]
    ensures Sound(n, digest, hashes, compare)
  {
  }

  lemma CallsStayOk(s: System, a: Action, cfg: Config, hashes: iset<string>, compare: Compare)
    requires Inv(s, cfg, hashes, compare) && !a.Put?
    requires a.Begin? ==> a.c.hash in hashes
    ensures var t := Step(s, a, cfg, compare); forall id :: id in t.calls ==> CallOk(t.calls[id], hashes, compare)
  {
    if a.id in s.calls { assert CallOk(s.calls[a.id], hashes, compare); }
  }

  lemma StepKeepsInv(s: System, a: Action, cfg: Config, hashes: iset<string>, compare: Compare)
    requires 0 < cfg.max && IsDigest(cfg.digest) && Apart(hashes)
    requires Inv(s, cfg, hashes, compare)
    requires a.Begin? ==> a.c.hash in hashes
    ensures Inv(Step(s, a, cfg, compare), cfg, hashes, compare)
  {
    if a.Put? {
      PutKeepsInv(s, a, cfg, hashes, compare);
    } else {
      EntriesOnlyLeave(s, a, cfg, compare);
      SoundSubset(s.entries, Step(s, a, cfg, compare).entries, cfg.digest, hashes, compare);
      CallsStayOk(s, a, cfg, hashes, compare);
    }
  }

  lemma {:induction false} RunKeepsInv(run: seq<Action>, cfg: Config, hashes: iset<string>, compare: Compare)
    requires 0 < cfg.max && IsDigest(cfg.digest) && Apart(hashes) && Over(run, hashes)
    ensures Inv(Run(run, cfg, compare), cfg, hashes, compare)
    decreases |run|
  {
    if run != [] {
      RunKeepsInv(run[..|run| - 1], cfg, hashes, compare);
      StepKeepsInv(Run(run[..|run| - 1], cfg, compare), run[|run| - 1], cfg, hashes, compare);
    }
  }

  ghost predicate Truthful(s: System, compare: Compare) {
    forall id :: id in s.calls && s.calls[id].phase.Done? ==>
                   s.calls[id].phase.answer == Uncached(s.calls[id].c, compare)
  }

  /** The cache never holds more than its maximum, however calls interleave. */
  lemma {:induction false} CacheStaysBounded(run: seq<Action>, cfg: Config, compare: Compare)
    requires 0 < cfg.max
    ensures |Run(run, cfg, compare).entries| <= cfg.max
    decreases |run|
  {
    if run != [] {
      CacheStaysBounded(run[..|run| - 1], cfg, compare);
      var s, a := Run(run[..|run| - 1], cfg, compare), run[|run| - 1];
      if a.id in s.calls {
        var call := s.calls[a.id];
        var key := CacheKey(call.c, cfg.digest);
        assert (s.entries - {key}).Keys == s.entries.Keys - {key};
        if a.Put? && call.phase.Storing? && (|s.entries| >= cfg.max ==> IsOldest(a.victim, s.entries)) {
          var entry := Entry(call.phase.matched, call.phase.now + cfg.ttl, call.phase.now);
          StoredSize(s.entries, key, entry, cfg.max, a.victim);
        }
      }
    }
  }

  // An entry is kept for the time to live, counted from its comparison.
  ghost predicate Dated(m: Entries, ttl: int) { forall k :: k in m ==> m[k].expires == m[k].touched + ttl }

  lemma {:induction false} RunIsDated(run: seq<Action>, cfg: Config, compare: Compare)
    ensures Dated(Run(run, cfg, compare).entries, cfg.ttl)
    decreases |run|
  {
    if run != [] { RunIsDated(run[..|run| - 1], cfg, compare); }
  }

  /** In every run a lookup answers from the cache exactly when the key has an entry no older than the time to live; an
      older one is deleted before the password is compared, and without one it is compared at once. */
  lemma HitExactlyWhenFresh(run: seq<Action>, cfg: Config, compare: Compare, id: int, now: int)
    requires id in Run(run, cfg, compare).calls && Run(run, cfg, compare).calls[id].phase.Reading?
    ensures var s := Run(run, cfg, compare);
            var key, t := CacheKey(s.calls[id].c, cfg.digest), Step(s, Read(id, now), cfg, compare);
            && t.entries == s.entries && id in t.calls
            && t.calls[id].phase == if key !in s.entries then Comparing
                                    else if now - s.entries[key].touched > cfg.ttl then Deleting
                                    else Done(Ok(s.entries[key].matched))
    ensures var s := Run(run, cfg, compare);
            var key, t := CacheKey(s.calls[id].c, cfg.digest), Step(s, Read(id, now), cfg, compare);
            t.calls[id].phase.Deleting? ==>
              var u := Step(t, Delete(id), cfg, compare);
              u.entries == s.entries - {key} && id in u.calls && u.calls[id].phase.Comparing?
  {
    RunIsDated(run, cfg, compare);
  }

  // The answer to a call, at the step that gives it, is the cache's too.
  predicate AnswerIsCached(s: System, t: System, cfg: Config, id: int)
    requires id in s.calls && id in t.calls
  {
    t.calls[id].phase.Done? ==>
      var key := CacheKey(s.calls[id].c, cfg.digest);
      match t.calls[id].phase.answer
      case Ok(b) => key in t.entries && t.entries[key].matched == b
      case Err(_) => t.entries == s.entries
  }

  lemma OtherCallsStay(s: System, a: Action, cfg: Config, compare: Compare, id: int)
    requires id in s.calls && (a.id != id || a.Begin?)
    ensures id in Step(s, a, cfg, compare).calls && Step(s, a, cfg, compare).calls[id] == s.calls[id]
  {
  }

  lemma PutIsCached(s: System, a: Action, cfg: Config, compare: Compare)
    requires a.Put? && a.id in s.calls && !s.calls[a.id].phase.Done?
    ensures a.id in Step(s, a, cfg, compare).calls && AnswerIsCached(s, Step(s, a, cfg, compare), cfg, a.id)
  {
  }

  /** Whoever is answered, with yes or no, at that moment finds the answer in the cache; a failed comparison leaves the
      cache alone. */
  lemma AnswersAreCached(s: System, a: Action, cfg: Config, compare: Compare, id: int)
    requires id in s.calls && !s.calls[id].phase.Done?
    ensures id in Step(s, a, cfg, compare).calls && AnswerIsCached(s, Step(s, a, cfg, compare), cfg, id)
  {
    if a.id != id || a.Begin? {
      OtherCallsStay(s, a, cfg, compare, id);
    } else if a.Put? {
      PutIsCached(s, a, cfg, compare);
    }
  }

  /** In every run a store drops an entry of another key only when the cache is full, and then only one that no other is
      older than. */
  lemma StoreDropsOldest(run: seq<Action>, cfg: Config, compare: Compare, id: int, victim: string, k: string)
    requires k in Run(run, cfg, compare).entries
    requires k !in Step(Run(run, cfg, compare), Put(id, victim), cfg, compare).entries
    ensures var m := Run(run, cfg, compare).entries;
            k == victim && |m| >= cfg.max && forall j :: j in m ==> m[k].touched <= m[j].touched
  {
  }

  ghost predicate AlwaysTruthful(cfg: Config, hashes: iset<string>) {
    forall run: seq<Action>, compare: Compare :: Over(run, hashes) ==> Truthful(Run(run, cfg, compare), compare)
  }

  lemma RunSnoc(run: seq<Action>, a: Action, cfg: Config, compare: Compare)
    ensures Run(run + [a], cfg, compare) == Step(Run(run, cfg, compare), a, cfg, compare)
  {
    assert (run + [a])[..|run|] == run;
  }

  function Scenario(c: Credential): seq<Action> { [Begin(0, c), Read(0, 0), Compared(0, 0), Put(0, "")] }

  // A first check that matches leaves its result in the cache.
  lemma FirstCheckIsStored(cfg: Config, c: Credential, compare: Compare)
    requires 0 < cfg.max && compare(c.hash, c.plain) == Match
    ensures Run(Scenario(c), cfg, compare) ==
            System(map[CacheKey(c, cfg.digest) := Entry(true, cfg.ttl, 0)], map[0 := Call(c, Done(Ok(true)))])
  {
    var run := Scenario(c);
    assert run[..3] == [Begin(0, c), Read(0, 0), Compared(0, 0)];
    assert run[..3][..2] == [Begin(0, c), Read(0, 0)];
    assert run[..3][..2][..1] == [Begin(0, c)];
    assert Run(run[..3][..2][..1][..0], cfg, compare) == START;
    assert Run(run[..3][..2][..1], cfg, compare) == System(map[], map[0 := Call(c, Reading)]);
    assert Run(run[..3][..2], cfg, compare) == System(map[], map[0 := Call(c, Comparing)]);
    assert Run(run[..3], cfg, compare) == System(map[], map[0 := Call(c, Storing(true, 0))]);
  }

  // A second check with the same key finds it.
  lemma SecondCheckHits(cfg: Config, c: Credential, d: Credential, compare: Compare)
    requires 0 < cfg.max && 0 < cfg.ttl && compare(c.hash, c.plain) == Match
    requires CacheKey(c, cfg.digest) == CacheKey(d, cfg.digest)
    ensures var s := Run(Scenario(c) + [Begin(1, d)] + [Read(1, 0)], cfg, compare);
            1 in s.calls && s.calls[1] == Call(d, Done(Ok(true)))
  {
    FirstCheckIsStored(cfg, c, compare);
    RunSnoc(Scenario(c), Begin(1, d), cfg, compare);
    RunSnoc(Scenario(c) + [Begin(1, d)], Read(1, 0), cfg, compare);
  }

  // Two users whose keys are the same although their hashes differ: the second is answered with the first's result.
  lemma CollisionMisleads(cfg: Config, hashes: iset<string>, h: string, g: string)
    requires 0 < cfg.max && 0 < cfg.ttl && h in hashes && g in hashes && EndsIn(h, g)
    ensures !AlwaysTruthful(cfg, hashes)
  {
    var x := h[..|h| - |g| - 1];
    var c, d := Credential("", h, ""), Credential("|" + x, g, "");
    assert CacheKey(c, cfg.digest) == CacheKey(d, cfg.digest) by {
      assert h == x + "|" + g;
      assert "" + "|" + (x + "|" + g) == "|" + x + "|" + g;
    }
    var compare: Compare := (hash, plain) => if hash == h then Match else Mismatch;
    SecondCheckHits(cfg, c, d, compare);
    var run := Scenario(c) + [Begin(1, d)] + [Read(1, 0)];
    assert Uncached(d, compare) == Ok(false);
    assert Over(run, hashes) && !Truthful(Run(run, cfg, compare), compare);
  }

  /** In every run of concurrent checks, with any clock readings, each answer is the uncached one, for every
      comparison, exactly when no stored hash is another one behind a `|`. */
  lemma TruthfulExactlyWhenApart(cfg: Config, hashes: iset<string>)
    requires 0 < cfg.max && 0 < cfg.ttl && IsDigest(cfg.digest)
    ensures AlwaysTruthful(cfg, hashes) <==> Apart(hashes)
  {
    if Apart(hashes) {
      forall run: seq<Action>, compare: Compare | Over(run, hashes)
        ensures Truthful(Run(run, cfg, compare), compare)
      {
        RunKeepsInv(run, cfg, hashes, compare);
        var s := Run(run, cfg, compare);
        forall id | id in s.calls && s.calls[id].phase.Done?
          ensures s.calls[id].phase.answer == Uncached(s.calls[id].c, compare)
        {
          assert CallOk(s.calls[id], hashes, compare);
        }
      }
    } else {
      var h, g :| h in hashes && g in hashes && EndsIn(h, g);
      CollisionMisleads(cfg, hashes, h, g);
    }
  }
}
