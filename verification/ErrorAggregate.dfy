/** Errors that hold several errors: building, printing, matching, filtering and flattening them
    (nexuscore/errors/aggregate.go:73-226). */
module ErrorAggregate {
  import Text

  /** An error that is not an aggregate. */
  datatype Plain = Plain(id: int, message: string)

  /** A Go error value; Nil is the nil interface. The repository has no other implementation of Aggregate. */
  datatype Error = Nil | Leaf(plain: Plain) | Agg(errs: seq<Error>)

  type Matcher = Plain -> bool

  // ---- what the operations compute ----

  function NonNil(list: seq<Error>): (kept: seq<Error>)
    ensures forall e :: e in kept <==> e in list && !e.Nil?
  {
    if list == [] then [] else Unless(list[0].Nil?, list[0]) + NonNil(list[1..])
  }

  function Unless(dropped: bool, e: Error): seq<Error> { if dropped then [] else [e] }

  function NewAggregate(list: seq<Error>): Error {
    if NonNil(list) == [] then Nil else Agg(NonNil(list))
  }

  predicate MatchesError(p: Plain, fns: seq<Matcher>) { exists i :: 0 <= i < |fns| && fns[i](p) }

  function FilterOut(e: Error, fns: seq<Matcher>): Error {
    match e
    case Nil => Nil
    case Leaf(p) => if MatchesError(p, fns) then Nil else e
    case Agg(errs) => NewAggregate(FilterErrors(errs, fns))
  }

  function FilterErrors(list: seq<Error>, fns: seq<Matcher>): seq<Error> {
    if list == [] then []
    else
      var r := FilterOut(list[0], fns);
      Unless(r.Nil?, r) + FilterErrors(list[1..], fns)
  }

  function Flatten(e: Error): (r: Error)
    requires !e.Leaf?
    ensures !r.Leaf?
    decreases e, 0
  {
    if e.Nil? then Nil else NewAggregate(FlatErrors(e.errs))
  }

  function FlatErrors(list: seq<Error>): seq<Error>
    decreases list, 0
  {
    if list == [] then [] else FlatError(list[0]) + FlatErrors(list[1..])
  }

  // What one child adds to the flattened list.
  function FlatError(e: Error): seq<Error>
    decreases e, 1
  {
    match e
    case Nil => []
    case Leaf(_) => [e]
    case Agg(_) => var r := Flatten(e); if r.Agg? then r.errs else []
  }

  lemma Appended<T>(done: seq<T>, one: seq<T>, rest: seq<T>)
    ensures done + (one + rest) == (done + one) + rest
    ensures done + [] == done
  {
  }

  /** Aggregates made by NewAggregate: never without an error, and no nil inside. */
  predicate WellFormed(e: Error) {
    match e
    case Nil => false
    case Leaf(_) => true
    case Agg(errs) => errs != [] && forall x :: x in errs ==> WellFormed(x)
  }

  /** No nil error anywhere: what Error can be asked of without a panic. */
  predicate NoNil(e: Error) {
    match e
    case Nil => false
    case Leaf(_) => true
    case Agg(errs) => forall x :: x in errs ==> NoNil(x)
  }

  function Leaves(e: Error): seq<Plain> {
    match e
    case Nil => []
    case Leaf(p) => [p]
    case Agg(errs) => AllLeaves(errs)
  }

  function AllLeaves(list: seq<Error>): seq<Plain> {
    if list == [] then [] else Leaves(list[0]) + AllLeaves(list[1..])
  }

  // errors.Is; the argument tells whether a plain error is the target.
  predicate IsError(e: Error, target: Matcher) {
    match e
    case Nil => false
    case Leaf(p) => target(p)
    case Agg(errs) => exists x :: x in errs && IsError(x, target)
  }

  // ---- messages ----

  function Messages(ps: seq<Plain>): (ms: seq<string>)
    ensures |ms| == |ps|
  {
    seq(|ps|, i requires 0 <= i < |ps| => ps[i].message)
  }

  // Each message once, where it first occurs.
  function Distinct(ms: seq<string>): (ds: seq<string>)
    ensures forall m :: m in ds <==> m in ms
    ensures |ds| <= |ms| && (ms != [] ==> ds != [])
  {
    if ms == [] then []
    else
      var ds := Distinct(ms[..|ms| - 1]);
      var last := ms[|ms| - 1];
      assert ms == ms[..|ms| - 1] + [last];
      if last in ds then ds else ds + [last]
  }

  function Summary(ms: seq<string>): string {
    var ds := Distinct(ms);
    if |ds| == 1 then ds[0] else "[" + Text.Join(ds, ", ") + "]"
  }

  function ErrorText(e: Error): string {
    match e
    case Nil => ""
    case Leaf(p) => p.message
    case Agg(errs) =>
      if errs == [] then "" else if |errs| == 1 then ErrorText(errs[0]) else Summary(Messages(Leaves(e)))
  }

  // ---- the operations ----

  method DoNewAggregate(list: seq<Error>) returns (r: Error)
    ensures r == NewAggregate(list)
  {
    if |list| == 0 { return Nil; }
    var errs: seq<Error> := [];
    assert list[0..] == list;
    for i := 0 to |list|
      invariant NonNil(list) == errs + NonNil(list[i..])
    {
      assert list[i..][1..] == list[i + 1..];
      Appended(errs, Unless(list[i].Nil?, list[i]), NonNil(list[i + 1..]));
      if !list[i].Nil? { errs := errs + [list[i]]; }
    }
    assert list[|list|..] == [] && errs + [] == errs;
    if |errs| == 0 { return Nil; }
    return Agg(errs);
  }

  method DoMatchesError(p: Plain, fns: seq<Matcher>) returns (r: bool)
    ensures r == MatchesError(p, fns) == !Unmatched(p, fns)
  {
    for i := 0 to |fns|
      invariant forall j :: 0 <= j < i ==> !fns[j](p)
    {
      if fns[i](p) { return true; }
    }
    return false;
  }

  method DoFilterOut(e: Error, fns: seq<Matcher>) returns (r: Error)
    ensures r == FilterOut(e, fns)
    decreases e, 0
  {
    if e.Nil? { return Nil; }
    if e.Agg? {
      var kept := DoFilterErrors(e.errs, fns);
      r := DoNewAggregate(kept);
      return;
    }
    var drop := DoMatchesError(e.plain, fns);
    if !drop { return e; }
    return Nil;
  }

  method DoFilterErrors(list: seq<Error>, fns: seq<Matcher>) returns (result: seq<Error>)
    ensures result == FilterErrors(list, fns)
    decreases list, 1
  {
    result := [];
    assert list[0..] == list;
    for i := 0 to |list|
      invariant FilterErrors(list, fns) == result + FilterErrors(list[i..], fns)
    {
      assert list[i..][1..] == list[i + 1..];
      var r := DoFilterOut(list[i], fns);
      Appended(result, Unless(r.Nil?, r), FilterErrors(list[i + 1..], fns));
      if !r.Nil? { result := result + [r]; }
    }
    assert list[|list|..] == [] && result + [] == result;
  }

  method DoFlatten(e: Error) returns (r: Error)
    requires !e.Leaf?
    ensures r == Flatten(e)
    decreases e
  {
    var result: seq<Error> := [];
    if e.Nil? { return Nil; }
    var list := e.errs;
    assert list[0..] == list;
    for i := 0 to |list|
      invariant FlatErrors(list) == result + FlatErrors(list[i..])
    {
      assert list[i..][1..] == list[i + 1..];
      var x := list[i];
      Appended(result, FlatError(x), FlatErrors(list[i + 1..]));
      if x.Agg? {
        var flat := DoFlatten(x);
        if !flat.Nil? { result := result + flat.errs; }
      } else if !x.Nil? {
        result := result + [x];
      }
    }
    assert list[|list|..] == [] && result + [] == result;
    r := DoNewAggregate(result);
  }

  // The walk of visit with the closure of Error: messages seen so far, and the text made of them.
  ghost predicate Tells(seen: set<string>, result: string, ms: seq<string>) {
    && (forall m :: m in seen <==> m in ms)
    && |seen| == |Distinct(ms)|
    && result == Text.Join(Distinct(ms), ", ")
  }

  method VisitMessage(p: Plain, seen: set<string>, result: string, ghost ms: seq<string>)
    returns (seen': set<string>, result': string)
    requires Tells(seen, result, ms)
    ensures Tells(seen', result', ms + [p.message])
  {
    var all := ms + [p.message];
    assert all[..|all| - 1] == ms;
    if p.message in seen { return seen, result; }
    seen' := seen + {p.message};
    result' := result;
    if |seen'| > 1 {
      Text.JoinAppend(Distinct(ms), [p.message], ", ");
      result' := result' + ", ";
    } else {
      assert Distinct(ms) == [];
    }
    result' := result' + p.message;
  }

  method VisitMessages(errs: seq<Error>, seen: set<string>, result: string, ghost ms: seq<string>)
    returns (seen': set<string>, result': string)
    requires forall x :: x in errs ==> NoNil(x)
    requires Tells(seen, result, ms)
    ensures Tells(seen', result', ms + Messages(AllLeaves(errs)))
    decreases errs
  {
    seen', result' := seen, result;
    ghost var told := ms;
    assert errs[0..] == errs;
    for i := 0 to |errs|
      invariant Tells(seen', result', told)
      invariant told + Messages(AllLeaves(errs[i..])) == ms + Messages(AllLeaves(errs))
    {
      assert errs[i..][1..] == errs[i + 1..];
      var x := errs[i];
      assert x in errs && NoNil(x);
      MessagesAppend(told, Leaves(x), AllLeaves(errs[i + 1..]));
      if x.Agg? {
        seen', result' := VisitMessages(x.errs, seen', result', told);
      } else {
        seen', result' := VisitMessage(x.plain, seen', result', told);
        assert Messages([x.plain]) == [x.plain.message];
      }
      told := told + Messages(Leaves(x));
    }
    assert told + [] == told;
  }

  lemma MessagesAppend(told: seq<string>, a: seq<Plain>, b: seq<Plain>)
    ensures told + Messages(a + b) == (told + Messages(a)) + Messages(b)
  {
  }

  method DoError(e: Error) returns (text: string)
    requires NoNil(e)
    ensures text == ErrorText(e)
    decreases e
  {
    if e.Leaf? { return e.plain.message; }
    if |e.errs| == 0 { return ""; }
    if |e.errs| == 1 {
      text := DoError(e.errs[0]);
      return;
    }
    var seen, result := VisitMessages(e.errs, {}, "", []);
    assert [] + Messages(AllLeaves(e.errs)) == Messages(AllLeaves(e.errs));
    if |seen| == 1 { return result; }
    return "[" + result + "]";
  }

  /** The walk of visit with the closure of Is. */
  method DoIs(e: Error, target: Matcher) returns (r: bool)
    ensures r == IsError(e, target)
    ensures r <==> exists p :: p in Leaves(e) && target(p)
    decreases e
  {
    IsErrorOfLeaves(e, target);
    if e.Nil? { return false; }
    if e.Leaf? { return target(e.plain); }
    for i := 0 to |e.errs|
      invariant forall j :: 0 <= j < i ==> !IsError(e.errs[j], target)
    {
      var found := DoIs(e.errs[i], target);
      if found { return true; }
    }
    return false;
  }

  // ---- flattening ----

  function OfLeaves(ps: seq<Plain>): Error {
    if ps == [] then Nil else Agg(LeafErrors(ps))
  }

  function LeafErrors(ps: seq<Plain>): (es: seq<Error>)
    ensures |es| == |ps| && forall i :: 0 <= i < |es| ==> es[i] == Leaf(ps[i])
  {
    seq(|ps|, i requires 0 <= i < |ps| => Leaf(ps[i]))
  }

  lemma {:induction false} NonNilKeepsAll(list: seq<Error>)
    requires forall e :: e in list ==> !e.Nil?
    ensures NonNil(list) == list
  {
    if list != [] { NonNilKeepsAll(list[1..]); }
  }

  /** Flattening any nesting gives one aggregate of the errors that are not aggregates, in order; nothing
      is left when there are none. */
  lemma {:induction false} FlattenListsLeaves(e: Error)
    requires !e.Leaf?
    ensures Flatten(e) == OfLeaves(Leaves(e))
  {
    if e.Agg? {
      FlatErrorsAreLeaves(e.errs);
      NonNilKeepsAll(LeafErrors(Leaves(e)));
    }
  }

  lemma {:induction false} FlatErrorsAreLeaves(list: seq<Error>)
    ensures FlatErrors(list) == LeafErrors(AllLeaves(list))
  {
    if list != [] {
      if list[0].Agg? { FlattenListsLeaves(list[0]); }
      FlatErrorsAreLeaves(list[1..]);
      assert LeafErrors(AllLeaves(list)) == LeafErrors(Leaves(list[0])) + LeafErrors(AllLeaves(list[1..]));
    }
  }

  lemma {:induction false} LeavesOfLeafErrors(ps: seq<Plain>)
    ensures AllLeaves(LeafErrors(ps)) == ps
  {
    if ps != [] {
      LeavesOfLeafErrors(ps[1..]);
      assert LeafErrors(ps)[1..] == LeafErrors(ps[1..]);
    }
  }

  lemma LeavesOfOfLeaves(ps: seq<Plain>)
    ensures Leaves(OfLeaves(ps)) == ps
    ensures ps != [] ==> WellFormed(OfLeaves(ps)) && NoNil(OfLeaves(ps))
  {
    LeavesOfLeafErrors(ps);
  }

  /** A second flattening changes nothing, no aggregate is left inside, and no error is lost or moved. */
  lemma FlattenIsIdempotent(e: Error)
    requires !e.Leaf?
    ensures Flatten(Flatten(e)) == Flatten(e)
    ensures Leaves(Flatten(e)) == Leaves(e)
    ensures Flatten(e).Agg? ==> forall x :: x in Flatten(e).errs ==> x.Leaf?
  {
    FlattenListsLeaves(e);
    LeavesOfOfLeaves(Leaves(e));
    FlattenListsLeaves(Flatten(e));
  }

  // ---- filtering ----

  // No matcher takes it.
  predicate Unmatched(p: Plain, fns: seq<Matcher>) { forall i :: 0 <= i < |fns| ==> !fns[i](p) }

  function Kept(ps: seq<Plain>, fns: seq<Matcher>): (kept: seq<Plain>)
    ensures forall p :: p in kept <==> p in ps && Unmatched(p, fns)
  {
    if ps == [] then [] else (if Unmatched(ps[0], fns) then [ps[0]] else []) + Kept(ps[1..], fns)
  }

  lemma {:induction false} KeptAppend(a: seq<Plain>, b: seq<Plain>, fns: seq<Matcher>)
    ensures Kept(a + b, fns) == Kept(a, fns) + Kept(b, fns)
  {
    if a == [] {
      assert a + b == b;
    } else {
      assert (a + b)[1..] == a[1..] + b;
      KeptAppend(a[1..], b, fns);
    }
  }

  /** What is left after filtering: the errors that no matcher takes, in order, and nil exactly when there
      are none. */
  lemma {:induction false} FilterKeepsUnmatched(e: Error, fns: seq<Matcher>)
    ensures Leaves(FilterOut(e, fns)) == Kept(Leaves(e), fns)
    ensures FilterOut(e, fns).Nil? <==> Kept(Leaves(e), fns) == []
    ensures FilterOut(e, fns).Nil? || (WellFormed(FilterOut(e, fns)) && (FilterOut(e, fns).Leaf? <==> e.Leaf?))
  {
    if e.Agg? {
      FilterErrorsKeepUnmatched(e.errs, fns);
      NonNilKeepsAll(FilterErrors(e.errs, fns));
    } else if e.Leaf? {
      assert Leaves(e)[1..] == [];
    }
  }

  lemma {:induction false} FilterErrorsKeepUnmatched(list: seq<Error>, fns: seq<Matcher>)
    ensures AllLeaves(FilterErrors(list, fns)) == Kept(AllLeaves(list), fns)
    ensures forall x :: x in FilterErrors(list, fns) ==> WellFormed(x)
    ensures FilterErrors(list, fns) == [] <==> Kept(AllLeaves(list), fns) == []
  {
    if list != [] {
      FilterKeepsUnmatched(list[0], fns);
      FilterErrorsKeepUnmatched(list[1..], fns);
      KeptAppend(Leaves(list[0]), AllLeaves(list[1..]), fns);
      var r := FilterOut(list[0], fns);
      var rest := FilterErrors(list[1..], fns);
      assert !r.Nil? ==> ([r] + rest)[1..] == rest;
      assert [] + rest == rest;
    }
  }

  /** Filtering and flattening can be done in either order. */
  lemma FilterThenFlatten(e: Error, fns: seq<Matcher>)
    requires !e.Leaf?
    ensures !FilterOut(e, fns).Leaf?
    ensures Flatten(FilterOut(e, fns)) == FilterOut(Flatten(e), fns)
  {
    FilterKeepsUnmatched(e, fns);
    FlattenListsLeaves(FilterOut(e, fns));
    FlattenListsLeaves(e);
    FilterFlat(Leaves(e), fns);
  }

  lemma FilterFlat(ps: seq<Plain>, fns: seq<Matcher>)
    ensures FilterOut(OfLeaves(ps), fns) == OfLeaves(Kept(ps, fns))
  {
    FilterLeafErrors(ps, fns);
    NonNilKeepsAll(LeafErrors(Kept(ps, fns)));
  }

  lemma LeafErrorsCons(p: Plain, ps: seq<Plain>)
    ensures LeafErrors([p] + ps) == [Leaf(p)] + LeafErrors(ps)
  {
  }

  lemma {:induction false} FilterLeafErrors(ps: seq<Plain>, fns: seq<Matcher>)
    ensures FilterErrors(LeafErrors(ps), fns) == LeafErrors(Kept(ps, fns))
  {
    if ps != [] {
      FilterLeafErrors(ps[1..], fns);
      LeafErrorsCons(ps[0], ps[1..]);
      assert ps == [ps[0]] + ps[1..];
      if Unmatched(ps[0], fns) { LeafErrorsCons(ps[0], Kept(ps[1..], fns)); }
    }
  }

  /** The comment on filterErrors says that its result is flattened. It is exactly when every aggregate in the
      list is filtered out entirely; any other stays nested. */
  lemma {:induction false} FilterFlattensOnlyWhatItEmpties(list: seq<Error>, fns: seq<Matcher>)
    ensures (forall x :: x in FilterErrors(list, fns) ==> x.Leaf?) <==>
            forall x :: x in list && x.Agg? ==> Kept(Leaves(x), fns) == []
  {
    if list != [] {
      FilterKeepsUnmatched(list[0], fns);
      FilterFlattensOnlyWhatItEmpties(list[1..], fns);
      assert list == [list[0]] + list[1..];
    }
  }

  // ---- text ----

  // Where a message first occurs.
  function First(ms: seq<string>, m: string): (i: nat)
    requires m in ms
    ensures i < |ms| && ms[i] == m && forall j :: 0 <= j < i ==> ms[j] != m
  {
    var n := |ms| - 1;
    assert ms == ms[..n] + [ms[n]];
    if m in ms[..n] then First(ms[..n], m) else n
  }

  /** The messages of a list, each once, in the order in which they first occur. */
  ghost predicate InFirstOrder(ds: seq<string>, ms: seq<string>) {
    && (forall m :: m in ds <==> m in ms)
    && forall i, j :: 0 <= i < j < |ds| ==> First(ms, ds[i]) < First(ms, ds[j])
  }

  lemma {:induction false} DistinctInFirstOrder(ms: seq<string>)
    ensures InFirstOrder(Distinct(ms), ms)
  {
    if ms != [] {
      var n := |ms| - 1;
      DistinctInFirstOrder(ms[..n]);
      assert ms == ms[..n] + [ms[n]];
      forall d | d in Distinct(ms[..n]) ensures d in ms[..n] && First(ms, d) == First(ms[..n], d) {}
    }
  }

  lemma OneMessage(ms: seq<string>)
    requires ms != []
    ensures |Distinct(ms)| == 1 <==> forall m :: m in ms ==> m == ms[0]
    ensures |Distinct(ms)| == 1 ==> Distinct(ms)[0] == ms[0]
  {
    var ds := Distinct(ms);
    DistinctInFirstOrder(ms);
    assert ms[0] in ds && ds[0] in ms;
    if |ds| > 1 { assert First(ms, ds[0]) < First(ms, ds[1]) && ds[1] in ms; }
  }

  /** The text for errors with these messages: the message itself if there is only one, and otherwise the different ones
      in brackets, each once and in the order in which they first occur. */
  ghost predicate TellsOf(text: string, ms: seq<string>)
    requires ms != []
  {
    if forall m :: m in ms ==> m == ms[0] then text == ms[0]
    else exists ds :: InFirstOrder(ds, ms) && text == "[" + Text.Join(ds, ", ") + "]"
  }

  lemma SummaryTells(ms: seq<string>)
    requires ms != []
    ensures TellsOf(Summary(ms), ms)
  {
    OneMessage(ms);
    DistinctInFirstOrder(ms);
  }

  /** The text depends on the messages of the errors inside alone; the shortcut for one-element aggregates makes no
      difference. */
  lemma {:induction false} ErrorTextOfLeaves(e: Error)
    requires NoNil(e) && Leaves(e) != []
    ensures ErrorText(e) == Summary(Messages(Leaves(e)))
    ensures TellsOf(ErrorText(e), Messages(Leaves(e)))
  {
    SummaryTells(Messages(Leaves(e)));
    if e.Leaf? {
      assert Messages(Leaves(e))[..0] == [];
    } else if |e.errs| == 1 {
      assert e.errs[1..] == [];
      assert AllLeaves(e.errs) == Leaves(e.errs[0]);
      ErrorTextOfLeaves(e.errs[0]);
    }
  }

  lemma {:induction false} IsErrorOfLeaves(e: Error, target: Matcher)
    ensures IsError(e, target) <==> exists p :: p in Leaves(e) && target(p)
  {
    if e.Agg? {
      AnyIsErrorOfLeaves(e.errs, target);
    } else if e.Leaf? {
      assert e.plain in Leaves(e);
    }
  }

  lemma {:induction false} AnyIsErrorOfLeaves(list: seq<Error>, target: Matcher)
    ensures (exists x :: x in list && IsError(x, target)) <==> exists p :: p in AllLeaves(list) && target(p)
  {
    if list != [] {
      IsErrorOfLeaves(list[0], target);
      AnyIsErrorOfLeaves(list[1..], target);
      assert list == [list[0]] + list[1..];
    }
  }

  /** Flattening changes neither what Is answers nor, where there is an error to tell of, the text. */
  lemma FlattenKeepsTextAndIs(e: Error, target: Matcher)
    requires !e.Leaf?
    ensures IsError(Flatten(e), target) <==> IsError(e, target)
    ensures NoNil(e) && Leaves(e) != [] ==> NoNil(Flatten(e)) && ErrorText(Flatten(e)) == ErrorText(e)
  {
    FlattenListsLeaves(e);
    LeavesOfOfLeaves(Leaves(e));
    IsErrorOfLeaves(e, target);
    IsErrorOfLeaves(Flatten(e), target);
    if NoNil(e) && Leaves(e) != [] {
      ErrorTextOfLeaves(e);
      ErrorTextOfLeaves(Flatten(e));
    }
  }
}
