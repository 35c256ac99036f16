/** Field selectors: matching, rewriting, printing and parsing
    (nexuscore/component-base/fields/selector.go:42-253, 356-371, 434-466). */
module Selectors {
  import opened Wrappers
  import opened FieldText
  import Text

  datatype Requirement = Requirement(field: Str, op: Op, value: Str)

  datatype Selector = Nothing | Has(field: Str, value: Str) | NotHas(field: Str, value: Str) | And(terms: seq<Selector>)

  // What Get answers for every field; a field that is not set reads as "".
  type Fields = Str -> Str

  const EVERYTHING := And([])

  predicate Holds(r: Requirement, fields: Fields) { (fields(r.field) == r.value) <==> r.op.Equal? }

  function Term(r: Requirement): Selector {
    if r.op.Equal? then Has(r.field, r.value) else NotHas(r.field, r.value)
  }

  // ---- what the operations compute ----

  predicate Matches(s: Selector, fields: Fields) {
    match s
    case Nothing => false
    case Has(f, v) => fields(f) == v
    case NotHas(f, v) => fields(f) != v
    case And(ts) => forall t :: t in ts ==> Matches(t, fields)
  }

  predicate Empty(s: Selector) { s.And? && forall t :: t in s.terms ==> Empty(t) }

  function Requirements(s: Selector): seq<Requirement> {
    match s
    case Nothing => []
    case Has(f, v) => [Requirement(f, Equal, v)]
    case NotHas(f, v) => [Requirement(f, NotEqual, v)]
    case And(ts) => AllRequirements(ts)
  }

  function AllRequirements(ts: seq<Selector>): seq<Requirement> {
    if ts == [] then [] else Requirements(ts[0]) + AllRequirements(ts[1..])
  }

  function RequiresExactMatch(s: Selector, field: Str): Option<Str> {
    match s
    case Has(f, v) => if f == field then Some(v) else None
    case And(ts) => FirstExactMatch(ts, field)
    case _ => None
  }

  function FirstExactMatch(ts: seq<Selector>, field: Str): Option<Str> {
    if ts == [] then None
    else if RequiresExactMatch(ts[0], field).Some? then RequiresExactMatch(ts[0], field)
    else FirstExactMatch(ts[1..], field)
  }

  type TransformFunc<E> = (Str, Str) -> Result<(Str, Str), E>

  function Rewrite<E>(r: Requirement, fn: TransformFunc<E>): Result<Selector, E> {
    match fn(r.field, r.value)
    case Err(e) => Err(e)
    case Ok((f, v)) => if f == [] && v == [] then Ok(EVERYTHING) else Ok(Term(Requirement(f, r.op, v)))
  }

  function Transform<E>(s: Selector, fn: TransformFunc<E>): Result<Selector, E> {
    match s
    case Nothing => Ok(Nothing)
    case Has(f, v) => Rewrite(Requirement(f, Equal, v), fn)
    case NotHas(f, v) => Rewrite(Requirement(f, NotEqual, v), fn)
    case And(ts) => match TransformAll(ts, fn) case Ok(next) => Ok(And(next)) case Err(e) => Err(e)
  }

  function TransformAll<E>(ts: seq<Selector>, fn: TransformFunc<E>): Result<seq<Selector>, E> {
    if ts == [] then Ok([])
    else
      match Transform(ts[0], fn)
      case Err(e) => Err(e)
      case Ok(n) => ThenAll(if Empty(n) then [] else [n], TransformAll(ts[1..], fn))
  }

  function ThenAll<A, E>(done: seq<A>, rest: Result<seq<A>, E>): Result<seq<A>, E> {
    match rest case Ok(xs) => Ok(done + xs) case Err(e) => Err(e)
  }

  lemma ThenAllAll<A, E>(a: seq<A>, b: seq<A>, rest: Result<seq<A>, E>)
    ensures ThenAll(a, ThenAll(b, rest)) == ThenAll(a + b, rest)
    ensures ThenAll([], rest) == rest
  {
    if rest.Ok? {
      assert a + (b + rest.value) == (a + b) + rest.value && [] + rest.value == rest.value;
    }
  }

  function TermText(r: Requirement): Str {
    r.field + (if r.op.Equal? then [EQUALS] else [BANG, EQUALS]) + EscapeValue(r.value)
  }

  function String(s: Selector): Str {
    match s
    case Nothing => []
    case Has(f, v) => TermText(Requirement(f, Equal, v))
    case NotHas(f, v) => TermText(Requirement(f, NotEqual, v))
    case And(ts) => Text.Join(Strings(ts), [COMMA])
  }

  function Strings(ts: seq<Selector>): (texts: seq<Str>)
    ensures |texts| == |ts|
  {
    if ts == [] then [] else [String(ts[0])] + Strings(ts[1..])
  }

  // ---- the operations ----

  method DoMatches(s: Selector, fields: Fields) returns (r: bool)
    ensures r == Matches(s, fields)
    decreases s
  {
    match s {
      case Nothing => return false;
      case Has(f, v) => return fields(f) == v;
      case NotHas(f, v) => return fields(f) != v;
      case And(ts) =>
        for i := 0 to |ts|
          invariant forall j :: 0 <= j < i ==> Matches(ts[j], fields)
        {
          var ok := DoMatches(ts[i], fields);
          if !ok { return false; }
        }
        return true;
    }
  }

  method DoEmpty(s: Selector) returns (r: bool)
    ensures r == Empty(s)
    decreases s
  {
    if !s.And? { return false; }
    if |s.terms| == 0 { return true; }
    for i := 0 to |s.terms|
      invariant forall j :: 0 <= j < i ==> Empty(s.terms[j])
    {
      var empty := DoEmpty(s.terms[i]);
      if !empty { return false; }
    }
    return true;
  }

  method DoRequiresExactMatch(s: Selector, field: Str) returns (r: Option<Str>)
    ensures r == RequiresExactMatch(s, field)
    decreases s
  {
    if s.Has? { return if s.field == field then Some(s.value) else None; }
    if !s.And? || |s.terms| == 0 { return None; }
    var ts := s.terms;
    assert ts[0..] == ts;
    for i := 0 to |ts|
      invariant FirstExactMatch(ts, field) == FirstExactMatch(ts[i..], field)
    {
      assert ts[i..][1..] == ts[i + 1..];
      var found := DoRequiresExactMatch(ts[i], field);
      if found.Some? { return found; }
    }
    return None;
  }

  method DoRequirements(s: Selector) returns (reqs: seq<Requirement>)
    ensures reqs == Requirements(s)
    decreases s
  {
    match s {
      case Nothing => return [];
      case Has(f, v) => return [Requirement(f, Equal, v)];
      case NotHas(f, v) => return [Requirement(f, NotEqual, v)];
      case And(ts) =>
        reqs := [];
        assert ts[0..] == ts;
        for i := 0 to |ts|
          invariant AllRequirements(ts) == reqs + AllRequirements(ts[i..])
        {
          assert ts[i..][1..] == ts[i + 1..];
          var rs := DoRequirements(ts[i]);
          assert reqs + (rs + AllRequirements(ts[i + 1..])) == reqs + rs + AllRequirements(ts[i + 1..]);
          reqs := reqs + rs;
        }
    }
  }

  method DoTransform<E>(s: Selector, fn: TransformFunc<E>) returns (r: Result<Selector, E>)
    ensures r == Transform(s, fn)
    decreases s
  {
    match s {
      case Nothing => return Ok(Nothing);
      case Has(f, v) => return Rewrite(Requirement(f, Equal, v), fn);
      case NotHas(f, v) => return Rewrite(Requirement(f, NotEqual, v), fn);
      case And(ts) =>
        var next: seq<Selector> := [];
        assert ts[0..] == ts;
        ThenAllAll([], [], TransformAll(ts, fn));
        for i := 0 to |ts|
          invariant TransformAll(ts, fn) == ThenAll(next, TransformAll(ts[i..], fn))
        {
          assert ts[i..][1..] == ts[i + 1..];
          var n := DoTransform(ts[i], fn);
          if n.Err? { return Err(n.error); }
          ThenAllAll(next, if Empty(n.value) then [] else [n.value], TransformAll(ts[i + 1..], fn));
          var empty := DoEmpty(n.value);
          if !empty {
            next := next + [n.value];
          } else {
            assert next + [] == next;
          }
        }
        assert next + [] == next;
        return Ok(And(next));
    }
  }

  method DoString(s: Selector) returns (text: Str)
    ensures text == String(s)
    ensures s.Has? ==> text == s.field + [EQUALS] + EscapeValue(s.value)
    ensures s.NotHas? ==> text == s.field + [BANG, EQUALS] + EscapeValue(s.value)
    decreases s
  {
    match s {
      case Nothing => return [];
      case Has(f, v) => return f + [EQUALS] + EscapeValue(v);
      case NotHas(f, v) => return f + [BANG, EQUALS] + EscapeValue(v);
      case And(ts) =>
        var texts: seq<Str> := [];
        assert ts[0..] == ts;
        for i := 0 to |ts|
          invariant Strings(ts) == texts + Strings(ts[i..])
        {
          assert ts[i..][1..] == ts[i + 1..];
          var t := DoString(ts[i]);
          assert texts + ([t] + Strings(ts[i + 1..])) == texts + [t] + Strings(ts[i + 1..]);
          texts := texts + [t];
        }
        assert texts + [] == texts;
        return Text.Join(texts, [COMMA]);
    }
  }

  // ---- a selector means its requirements ----

  predicate HasNothing(s: Selector) { s.Nothing? || (s.And? && exists t :: t in s.terms && HasNothing(t)) }

  /** A selector matches exactly the field sets that meet all its requirements, unless Nothing is in it. */
  lemma {:induction false} MatchesItsRequirements(s: Selector, fields: Fields)
    ensures Matches(s, fields) <==> !HasNothing(s) && forall r :: r in Requirements(s) ==> Holds(r, fields)
  {
    if s.And? {
      AllMatch(s.terms, fields);
    } else if !s.Nothing? {
      assert Requirements(s)[0] in Requirements(s);
    }
  }

  lemma {:induction false} AllMatch(ts: seq<Selector>, fields: Fields)
    ensures (forall t :: t in ts ==> Matches(t, fields)) <==>
            && (forall t :: t in ts ==> !HasNothing(t))
            && forall r :: r in AllRequirements(ts) ==> Holds(r, fields)
  {
    if ts != [] {
      MatchesItsRequirements(ts[0], fields);
      AllMatch(ts[1..], fields);
      assert ts == [ts[0]] + ts[1..];
    }
  }

  /** Empty says exactly that nothing is required, so dropping an empty term loses nothing. */
  lemma {:induction false} EmptyMeansNoRequirement(s: Selector)
    ensures Empty(s) <==> Requirements(s) == [] && !HasNothing(s)
  {
    if s.And? { AllEmpty(s.terms); }
  }

  lemma {:induction false} AllEmpty(ts: seq<Selector>)
    ensures (forall t :: t in ts ==> Empty(t)) <==>
            AllRequirements(ts) == [] && forall t :: t in ts ==> !HasNothing(t)
  {
    if ts != [] {
      EmptyMeansNoRequirement(ts[0]);
      AllEmpty(ts[1..]);
      assert ts == [ts[0]] + ts[1..];
    }
  }

  predicate IsExact(r: Requirement, field: Str) { r.op.Equal? && r.field == field }

  function FirstExact(reqs: seq<Requirement>, field: Str): (v: Option<Str>)
    ensures v.None? <==> forall r :: r in reqs ==> !IsExact(r, field)
    ensures v.Some? ==> Requirement(field, Equal, v.value) in reqs
  {
    if reqs == [] then None
    else if IsExact(reqs[0], field) then Some(reqs[0].value)
    else FirstExact(reqs[1..], field)
  }

  lemma {:induction false} FirstExactAppend(a: seq<Requirement>, b: seq<Requirement>, field: Str)
    ensures FirstExact(a + b, field)
         == if FirstExact(a, field).Some? then FirstExact(a, field) else FirstExact(b, field)
  {
    if a == [] {
      assert a + b == b;
    } else {
      assert (a + b)[1..] == a[1..] + b;
      FirstExactAppend(a[1..], b, field);
    }
  }

  lemma {:induction false} ExactMatchIsFirst(s: Selector, field: Str)
    ensures RequiresExactMatch(s, field) == FirstExact(Requirements(s), field)
  {
    if s.And? {
      ExactMatchAmong(s.terms, field);
    } else if s.Has? || s.NotHas? {
      var rs := Requirements(s);
      assert rs[1..] == [];
    }
  }

  lemma {:induction false} ExactMatchAmong(ts: seq<Selector>, field: Str)
    ensures FirstExactMatch(ts, field) == FirstExact(AllRequirements(ts), field)
  {
    if ts != [] {
      ExactMatchIsFirst(ts[0], field);
      ExactMatchAmong(ts[1..], field);
      FirstExactAppend(Requirements(ts[0]), AllRequirements(ts[1..]), field);
    }
  }

  /** A required exact value is found whenever there is one, and every match has it. */
  lemma ExactMatchIsSound(s: Selector, field: Str, fields: Fields)
    ensures RequiresExactMatch(s, field).None? <==> forall r :: r in Requirements(s) ==> !IsExact(r, field)
    ensures Matches(s, fields) && RequiresExactMatch(s, field).Some? ==>
              fields(field) == RequiresExactMatch(s, field).value
  {
    ExactMatchIsFirst(s, field);
    MatchesItsRequirements(s, fields);
  }

  // ---- rewriting ----

  // The requirements rewritten one by one, in order; those rewritten to nothing are left out.
  function RewriteAll<E>(reqs: seq<Requirement>, fn: TransformFunc<E>): Result<seq<Requirement>, E> {
    if reqs == [] then Ok([])
    else
      match Rewrite(reqs[0], fn)
      case Err(e) => Err(e)
      case Ok(t) => ThenAll(Requirements(t), RewriteAll(reqs[1..], fn))
  }

  function Required<E>(r: Result<Selector, E>): Result<seq<Requirement>, E> {
    match r case Ok(t) => Ok(Requirements(t)) case Err(e) => Err(e)
  }

  function RequiredAll<E>(r: Result<seq<Selector>, E>): Result<seq<Requirement>, E> {
    match r case Ok(ts) => Ok(AllRequirements(ts)) case Err(e) => Err(e)
  }

  lemma {:induction false} RewriteAppend<E>(a: seq<Requirement>, b: seq<Requirement>, fn: TransformFunc<E>)
    ensures RewriteAll(a + b, fn) == match RewriteAll(a, fn) case Err(e) => Err(e)
                                     case Ok(rs) => ThenAll(rs, RewriteAll(b, fn))
  {
    if a == [] {
      assert a + b == b;
      ThenAllAll([], [], RewriteAll(b, fn));
    } else {
      assert (a + b)[1..] == a[1..] + b;
      RewriteAppend(a[1..], b, fn);
      if Rewrite(a[0], fn).Ok? && RewriteAll(a[1..], fn).Ok? {
        ThenAllAll(Requirements(Rewrite(a[0], fn).value), RewriteAll(a[1..], fn).value, RewriteAll(b, fn));
      }
    }
  }

  /** Transform rewrites each requirement, in order, and fails exactly with the first error of the function;
      Nothing stays where it was. */
  lemma {:induction false} TransformRewritesEach<E>(s: Selector, fn: TransformFunc<E>)
    ensures Required(Transform(s, fn)) == RewriteAll(Requirements(s), fn)
    ensures Transform(s, fn).Ok? ==> (HasNothing(Transform(s, fn).value) <==> HasNothing(s))
  {
    if s.And? {
      TransformAllRewritesEach(s.terms, fn);
    } else if !s.Nothing? {
      var rs := Requirements(s);
      assert rs[1..] == [];
      if Rewrite(rs[0], fn).Ok? {
        var kept := Requirements(Rewrite(rs[0], fn).value);
        assert kept + [] == kept;
      }
    }
  }

  lemma {:induction false} TransformAllRewritesEach<E>(ts: seq<Selector>, fn: TransformFunc<E>)
    ensures RequiredAll(TransformAll(ts, fn)) == RewriteAll(AllRequirements(ts), fn)
    ensures TransformAll(ts, fn).Ok? ==> ((exists t :: t in TransformAll(ts, fn).value && HasNothing(t)) <==>
                                          exists t :: t in ts && HasNothing(t))
  {
    if ts != [] {
      TransformRewritesEach(ts[0], fn);
      TransformAllRewritesEach(ts[1..], fn);
      RewriteAppend(Requirements(ts[0]), AllRequirements(ts[1..]), fn);
      assert ts == [ts[0]] + ts[1..];
      if TransformAll(ts, fn).Ok? {
        KeepUnlessEmpty(Transform(ts[0], fn).value, TransformAll(ts[1..], fn).value);
      }
    }
  }

  lemma KeepUnlessEmpty(n: Selector, rest: seq<Selector>)
    ensures var kept := (if Empty(n) then [] else [n]) + rest;
            && AllRequirements(kept) == Requirements(n) + AllRequirements(rest)
            && ((exists t :: t in kept && HasNothing(t)) <==> HasNothing(n) || exists t :: t in rest && HasNothing(t))
  {
    EmptyMeansNoRequirement(n);
    if Empty(n) {
      assert [] + rest == rest && [] + AllRequirements(rest) == AllRequirements(rest);
    } else {
      assert ([n] + rest)[1..] == rest;
    }
  }

  /** No conjunction inside has a term that requires nothing. */
  predicate Pruned(s: Selector) {
    s.And? ==> forall t :: t in s.terms ==> Pruned(t) && !(Requirements(t) == [] && !HasNothing(t))
  }

  lemma {:induction false} TransformPrunes<E>(s: Selector, fn: TransformFunc<E>)
    ensures Transform(s, fn).Ok? ==> Pruned(Transform(s, fn).value)
  {
    if s.And? { TransformAllPrune(s.terms, fn); }
  }

  lemma {:induction false} TransformAllPrune<E>(ts: seq<Selector>, fn: TransformFunc<E>)
    ensures TransformAll(ts, fn).Ok? ==>
              forall t :: t in TransformAll(ts, fn).value ==> Pruned(t) && !(Requirements(t) == [] && !HasNothing(t))
  {
    if ts != [] {
      TransformPrunes(ts[0], fn);
      TransformAllPrune(ts[1..], fn);
      if Transform(ts[0], fn).Ok? { EmptyMeansNoRequirement(Transform(ts[0], fn).value); }
    }
  }

  /** The rewriting of one requirement keeps its meaning from one field set to another. */
  ghost predicate Faithfully<E>(r: Requirement, fn: TransformFunc<E>, before: Fields, after: Fields) {
    Rewrite(r, fn).Ok? && (Matches(Rewrite(r, fn).value, after) <==> Holds(r, before))
  }

  lemma {:induction false} RewriteKeepsMeaning<E>(reqs: seq<Requirement>, fn: TransformFunc<E>, before: Fields,
                                                  after: Fields)
    requires forall r :: r in reqs ==> Faithfully(r, fn, before, after)
    ensures RewriteAll(reqs, fn).Ok?
    ensures (forall r :: r in RewriteAll(reqs, fn).value ==> Holds(r, after))
            <==> forall r :: r in reqs ==> Holds(r, before)
  {
    if reqs != [] {
      assert Faithfully(reqs[0], fn, before, after);
      RewriteKeepsMeaning(reqs[1..], fn, before, after);
      MatchesItsRequirements(Rewrite(reqs[0], fn).value, after);
      assert reqs == [reqs[0]] + reqs[1..];
    }
  }

  lemma TransformKeepsMeaning<E>(s: Selector, fn: TransformFunc<E>, before: Fields, after: Fields)
    requires forall r :: r in Requirements(s) ==> Faithfully(r, fn, before, after)
    ensures Transform(s, fn).Ok?
    ensures Matches(Transform(s, fn).value, after) <==> Matches(s, before)
  {
    RewriteKeepsMeaning(Requirements(s), fn, before, after);
    TransformRewritesEach(s, fn);
    MatchesItsRequirements(s, before);
    MatchesItsRequirements(Transform(s, fn).value, after);
  }

  function Rename<E>(name: Str -> Str): TransformFunc<E> { (f, v) => Ok((name(f), v)) }

  // No requirement becomes blank: a field renamed to "" is never compared with "".
  ghost predicate KeepsNames(s: Selector, name: Str -> Str) {
    forall r :: r in Requirements(s) ==> name(r.field) != [] || r.value != []
  }

  /** A renaming of fields keeps the meaning of every selector, however deeply nested: the renamed selector
      matches the renamed field set exactly when the selector matches the original. */
  lemma RenamingKeepsMeaning<E>(s: Selector, name: Str -> Str, before: Fields, after: Fields)
    requires KeepsNames(s, name)
    requires forall r :: r in Requirements(s) ==> after(name(r.field)) == before(r.field)
    ensures Transform<E>(s, Rename(name)).Ok?
    ensures Matches(Transform<E>(s, Rename(name)).value, after) <==> Matches(s, before)
  {
    forall r | r in Requirements(s) ensures Faithfully<E>(r, Rename(name), before, after) {
    }
    TransformKeepsMeaning<E>(s, Rename(name), before, after);
  }
}
