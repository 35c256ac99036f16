/** Parsing field selectors, and exactly which selectors survive being printed and parsed
    (nexuscore/component-base/fields/selector.go:104-106, 154-156, 234-241, 359-466). */
module SelectorParser {
  import opened Wrappers
  import opened FieldText
  import opened Selectors
  import Text

  datatype ParseError<E> = NotUnderstood(part: Str) | BadValue(unescape: UnescapeError) | Rejected(error: E)

  // The byte order of sort.StringSlice; nothing below depends on which order it is.
  type Less = (Str, Str) -> bool

  function Insert(part: Str, sorted: seq<Str>, less: Less): seq<Str> {
    if sorted == [] || !less(sorted[0], part) then [part] + sorted else [sorted[0]] + Insert(part, sorted[1..], less)
  }

  function Sort(parts: seq<Str>, less: Less): seq<Str> {
    if parts == [] then [] else Insert(parts[0], Sort(parts[1..], less), less)
  }

  function ParseTerm<E>(part: Str): Result<Requirement, ParseError<E>> {
    match SplitTerm(part)
    case None => Err(NotUnderstood(part))
    case Some(split) =>
      match UnescapeValue(split.rhs)
      case Err(e) => Err(BadValue(e))
      case Ok(value) => Ok(Requirement(split.lhs, split.op, value))
  }

  function Items<E>(parts: seq<Str>): Result<seq<Requirement>, ParseError<E>> {
    if parts == [] then Ok([])
    else if parts[0] == [] then Items(parts[1..])
    else
      match ParseTerm(parts[0])
      case Err(e) => Err(e)
      case Ok(r) => ThenAll([r], Items(parts[1..]))
  }

  function Terms(reqs: seq<Requirement>): seq<Selector> {
    if reqs == [] then [] else [Term(reqs[0])] + Terms(reqs[1..])
  }

  lemma {:induction false} TermsAppend(a: seq<Requirement>, b: seq<Requirement>)
    ensures Terms(a + b) == Terms(a) + Terms(b) && |Terms(a)| == |a|
  {
    if a == [] {
      assert a + b == b;
    } else {
      assert (a + b)[1..] == a[1..] + b;
      TermsAppend(a[1..], b);
    }
  }

  lemma {:induction false} TermsRequirements(reqs: seq<Requirement>)
    ensures AllRequirements(Terms(reqs)) == reqs && |Terms(reqs)| == |reqs|
    ensures forall t :: t in Terms(reqs) ==> !HasNothing(t)
  {
    if reqs != [] { TermsRequirements(reqs[1..]); }
  }

  // One item stands for itself; any other number is a conjunction.
  function Conjunction(items: seq<Requirement>): (s: Selector)
    ensures Requirements(s) == items && !HasNothing(s)
  {
    TermsRequirements(items);
    if |items| == 1 then Term(items[0]) else And(Terms(items))
  }

  function Parse<E>(text: Str, fn: TransformFunc<E>, less: Less): Result<Selector, ParseError<E>> {
    match Items<E>(Sort(SplitTerms(text), less))
    case Err(e) => Err(e)
    case Ok(items) =>
      match Transform(Conjunction(items), fn) case Ok(s) => Ok(s) case Err(e) => Err(Rejected(e))
  }

  function Same(): TransformFunc<()> { (f, v) => Ok((f, v)) }

  function ParseSelector(text: Str, less: Less): Result<Selector, ParseError<()>> { Parse(text, Same(), less) }

  method DoParseSelector<E>(text: Str, fn: TransformFunc<E>, less: Less) returns (r: Result<Selector, ParseError<E>>)
    ensures r == Parse(text, fn, less)
  {
    var split := DoSplitTerms(text);
    var parts := Sort(split, less);
    var items: seq<Selector> := [];
    ghost var read: seq<Requirement> := [];
    assert parts[0..] == parts;
    ThenAllAll([], [], Items<E>(parts));
    for i := 0 to |parts|
      invariant Items<E>(parts) == ThenAll(read, Items<E>(parts[i..]))
      invariant items == Terms(read) && |items| == |read|
    {
      var part := parts[i];
      assert parts[i..][1..] == parts[i + 1..];
      if part != [] {
        var term := DoSplitTerm(part);
        if term.None? { return Err(NotUnderstood(part)); }
        var value := DoUnescapeValue(term.value.rhs);
        if value.Err? { return Err(BadValue(value.error)); }
        ghost var q := Requirement(term.value.lhs, term.value.op, value.value);
        ThenAllAll(read, [q], Items<E>(parts[i + 1..]));
        TermsAppend(read, [q]);
        match term.value.op {
          case NotEqual => items := items + [NotHas(term.value.lhs, value.value)];
          case Equal => items := items + [Has(term.value.lhs, value.value)];
        }
        read := read + [q];
      }
    }
    assert read + [] == read;
    var transformed;
    if |items| == 1 {
      transformed := DoTransform(items[0], fn);
    } else {
      transformed := DoTransform(And(items), fn);
    }
    return match transformed case Ok(s) => Ok(s) case Err(e) => Err(Rejected(e));
  }

  /** How a term reads, on texts: everything before the first operator is the field; `==` means what `=` means, and
      `!=` the opposite. A text without `=` is not understood. */
  lemma ParseTermReads<E>(field: Str, value: Str)
    requires EQUALS !in field
    ensures ParseTerm<E>(field + [BANG, EQUALS] + value) == Understood(field, NotEqual, value)
    ensures !EndsInBang(field) ==> ParseTerm<E>(field + [EQUALS, EQUALS] + value) == Understood(field, Equal, value)
    ensures !EndsInBang(field) && !([EQUALS] <= value) ==>
              ParseTerm<E>(field + [EQUALS] + value) == Understood(field, Equal, value)
    ensures ParseTerm<E>(field) == Err(NotUnderstood(field))
  {
    SplitTermExactly(field + [BANG, EQUALS] + value, field, NotEqual, value);
    SplitTermExactly(field + [EQUALS, EQUALS] + value, field, Equal, value);
    SplitTermExactly(field + [EQUALS] + value, field, Equal, value);
    SplitTermExactly(field, [], Equal, value);
  }

  // The value is unescaped.
  function Understood<E>(field: Str, op: Op, value: Str): Result<Requirement, ParseError<E>> {
    match UnescapeValue(value) case Ok(v) => Ok(Requirement(field, op, v)) case Err(e) => Err(BadValue(e))
  }

  // ---- the sort only reorders ----

  predicate SameItems<E>(a: Result<seq<Requirement>, ParseError<E>>, b: Result<seq<Requirement>, ParseError<E>>) {
    (a.Ok? <==> b.Ok?) && (a.Ok? ==> multiset(a.value) == multiset(b.value))
  }

  lemma {:induction false} InsertItems<E>(part: Str, sorted: seq<Str>, less: Less)
    ensures SameItems(Items<E>(Insert(part, sorted, less)), Items<E>([part] + sorted))
  {
    var out := Insert(part, sorted, less);
    if out != [part] + sorted {
      InsertItems<E>(part, sorted[1..], less);
      assert ([part] + sorted)[1..] == sorted && ([part] + sorted[1..])[1..] == sorted[1..];
      assert out[1..] == Insert(part, sorted[1..], less);
    }
  }

  lemma {:induction false} SortItems<E>(parts: seq<Str>, less: Less)
    ensures SameItems(Items<E>(Sort(parts, less)), Items<E>(parts))
  {
    if parts != [] {
      var rest := Sort(parts[1..], less);
      SortItems<E>(parts[1..], less);
      InsertItems<E>(parts[0], rest, less);
      assert ([parts[0]] + rest)[1..] == rest;
    }
  }

  // ---- what parsing yields ----

  predicate Blank(r: Requirement) { r.field == [] && r.value == [] }

  function NonBlank(reqs: seq<Requirement>): (kept: seq<Requirement>)
    ensures forall r :: r in kept <==> r in reqs && !Blank(r)
  {
    if reqs == [] then []
    else (if Blank(reqs[0]) then [] else [reqs[0]]) + NonBlank(reqs[1..])
  }

  lemma {:induction false} NonBlankCount(reqs: seq<Requirement>, r: Requirement)
    ensures multiset(NonBlank(reqs))[r] == if Blank(r) then 0 else multiset(reqs)[r]
  {
    if reqs != [] {
      NonBlankCount(reqs[1..], r);
      assert reqs == [reqs[0]] + reqs[1..];
    }
  }

  lemma NonBlankSame(a: seq<Requirement>, b: seq<Requirement>)
    requires multiset(a) == multiset(b)
    ensures multiset(NonBlank(a)) == multiset(NonBlank(b))
  {
    forall r: Requirement ensures multiset(NonBlank(a))[r] == multiset(NonBlank(b))[r] {
      NonBlankCount(a, r);
      NonBlankCount(b, r);
    }
  }

  lemma SameDropsBlank(r: Requirement)
    ensures Rewrite(r, Same()).Ok?
    ensures Requirements(Rewrite(r, Same()).value) == if Blank(r) then [] else [r]
  {
  }

  lemma {:induction false} SameDropsBlanks(reqs: seq<Requirement>)
    ensures RewriteAll(reqs, Same()) == Ok(NonBlank(reqs))
  {
    if reqs != [] {
      SameDropsBlanks(reqs[1..]);
      SameDropsBlank(reqs[0]);
    }
  }

  lemma ParseYields(text: Str, less: Less)
    ensures ParseSelector(text, less).Ok? <==> Items<()>(SplitTerms(text)).Ok?
    ensures ParseSelector(text, less).Ok? ==>
              && !HasNothing(ParseSelector(text, less).value)
              && multiset(Requirements(ParseSelector(text, less).value))
                 == multiset(NonBlank(Items<()>(SplitTerms(text)).value))
  {
    SortItems<()>(SplitTerms(text), less);
    var items := Items<()>(Sort(SplitTerms(text), less));
    if items.Ok? {
      TransformRewritesEach(Conjunction(items.value), Same());
      SameDropsBlanks(items.value);
      NonBlankSame(items.value, Items<()>(SplitTerms(text)).value);
    }
  }

  lemma SameMembers<T>(a: seq<T>, b: seq<T>)
    requires multiset(a) == multiset(b)
    ensures forall x :: x in a <==> x in b
  {
    forall x ensures x in a <==> x in b {
      assert x in multiset(a) <==> x in multiset(b);
    }
  }

  lemma {:induction false} ItemsAreParsed<E>(parts: seq<Str>)
    ensures Items<E>(parts).Ok? <==> forall p :: p in parts && p != [] ==> ParseTerm<E>(p).Ok?
    ensures Items<E>(parts).Ok? ==>
              forall r :: r in Items<E>(parts).value <==> exists p :: p in parts && p != [] && ParseTerm<E>(p) == Ok(r)
  {
    if parts != [] {
      ItemsAreParsed<E>(parts[1..]);
      assert parts == [parts[0]] + parts[1..];
    }
  }

  /** A text is accepted exactly when each of its nonempty parts reads as a requirement, and then the selector matches
      exactly the field sets that meet all of these; a part with neither field nor value asks for nothing. */
  lemma ParsedMeaning(text: Str, less: Less, fields: Fields)
    ensures ParseSelector(text, less).Ok? <==>
            forall p :: p in SplitTerms(text) && p != [] ==> ParseTerm<()>(p).Ok?
    ensures ParseSelector(text, less).Ok? ==>
              (Matches(ParseSelector(text, less).value, fields) <==>
               forall p :: p in SplitTerms(text) && p != [] ==>
                 Blank(ParseTerm<()>(p).value) || Holds(ParseTerm<()>(p).value, fields))
  {
    var parts := SplitTerms(text);
    ParseYields(text, less);
    ItemsAreParsed<()>(parts);
    if ParseSelector(text, less).Ok? {
      var selector, items := ParseSelector(text, less).value, Items<()>(parts).value;
      MatchesItsRequirements(selector, fields);
      SameMembers(Requirements(selector), NonBlank(items));
      forall p | p in parts && p != [] ensures ParseTerm<()>(p).Ok? && ParseTerm<()>(p).value in items {}
    }
  }

  // ---- which requirements can be printed and read back ----

  // No comma outside an escape: nothing here ends the term.
  predicate NoOpenComma(s: Str, inSlash: bool) {
    s == [] || ((inSlash || s[0] != COMMA) && NoOpenComma(s[1..], SlashAfter(s[0], inSlash)))
  }

  predicate Ends(s: Str, inSlash: bool) {
    if s == [] then inSlash else Ends(s[1..], SlashAfter(s[0], inSlash))
  }

  /** What the text of a term can carry: a field without `=` and without a comma of its own, not ending in `!`
      before a plain `=`; a value that survives escaping; and not both empty. */
  predicate Printable(r: Requirement) {
    && EQUALS !in r.field
    && NoOpenComma(r.field, false)
    && !(r.op.Equal? && EndsInBang(r.field))
    && Faithful(r.value)
    && !Blank(r)
  }

  lemma {:induction false} ScanAppend(a: Str, b: Str, inSlash: bool)
    ensures NoOpenComma(a + b, inSlash) <==> NoOpenComma(a, inSlash) && NoOpenComma(b, Ends(a, inSlash))
    ensures Ends(a + b, inSlash) == Ends(b, Ends(a, inSlash))
  {
    if a == [] {
      assert a + b == b;
    } else {
      assert (a + b)[1..] == a[1..] + b;
      ScanAppend(a[1..], b, SlashAfter(a[0], inSlash));
    }
  }

  lemma {:induction false} EscapedIsClosed(value: Str)
    ensures NoOpenComma(EscapeValue(value), false) && !Ends(EscapeValue(value), false)
  {
    if value != [] {
      EscapedIsClosed(value[1..]);
      var rest := EscapeValue(value[1..]);
      if Special(value[0]) {
        assert ([BACKSLASH, value[0]] + rest)[1..] == [value[0]] + rest;
        assert ([value[0]] + rest)[1..] == rest;
      } else {
        assert ([value[0]] + rest)[1..] == rest;
      }
    }
  }

  lemma TermIsClosed(r: Requirement)
    requires NoOpenComma(r.field, false)
    ensures NoOpenComma(TermText(r), false) && !Ends(TermText(r), false)
  {
    var op := if r.op.Equal? then [EQUALS] else [BANG, EQUALS];
    var start := Ends(r.field, false);
    ScanAppend(r.field, op, false);
    ScanAppend(r.field + op, EscapeValue(r.value), false);
    EscapedIsClosed(r.value);
    OperatorIsClosed(start);
  }

  lemma OperatorIsClosed(inSlash: bool)
    ensures NoOpenComma([EQUALS], inSlash) && !Ends([EQUALS], inSlash)
    ensures NoOpenComma([BANG, EQUALS], inSlash) && !Ends([BANG, EQUALS], inSlash)
  {
    assert [BANG, EQUALS][1..] == [EQUALS] && [EQUALS][1..] == [];
    assert NoOpenComma([EQUALS], false) && !Ends([EQUALS], false);
  }

  lemma PrintedTermParses<E>(r: Requirement)
    requires Printable(r)
    ensures ParseTerm<E>(TermText(r)) == Ok(r)
  {
    var value := EscapeValue(r.value);
    assert !([EQUALS] <= value) by { assert value != [] ==> value[0] != EQUALS; }
    SplitTermExactly(TermText(r), r.field, r.op, value);
    UnescapeUndoesEscape(r.value);
  }

  lemma ParsedIsPrintable<E>(part: Str)
    requires NoOpenComma(part, false) && ParseTerm<E>(part).Ok?
    ensures Printable(ParseTerm<E>(part).value) || Blank(ParseTerm<E>(part).value)
  {
    var split := SplitTerm(part).value;
    SplitTermExactly(part, split.lhs, split.op, split.rhs);
    assert part == split.lhs + part[|split.lhs|..];
    ScanAppend(split.lhs, part[|split.lhs|..], false);
    EscapeUndoesUnescape(split.rhs);
  }

  // ---- splitting what was joined ----

  lemma {:induction false} SplitClosed(a: Str, inSlash: bool)
    requires NoOpenComma(a, inSlash)
    ensures SplitScan(a, inSlash) == [a]
  {
    if a != [] {
      SplitClosed(a[1..], SlashAfter(a[0], inSlash));
      assert [a[0]] + a[1..] == a;
    }
  }

  lemma {:induction false} SplitAtComma(a: Str, b: Str, inSlash: bool)
    requires NoOpenComma(a, inSlash) && !Ends(a, inSlash)
    ensures SplitScan(a + [COMMA] + b, inSlash) == [a] + SplitScan(b, false)
  {
    var s := a + [COMMA] + b;
    if a == [] {
      assert s == [COMMA] + b && s[1..] == b;
    } else {
      SplitAtComma(a[1..], b, SlashAfter(a[0], inSlash));
      assert s[1..] == a[1..] + [COMMA] + b;
      assert [a[0]] + a[1..] == a;
    }
  }

  predicate Closed(part: Str) { NoOpenComma(part, false) && !Ends(part, false) }

  // Part k has no comma of its own, and a comma may follow it.
  predicate Cut(parts: seq<Str>, k: nat)
    requires k < |parts|
  {
    NoOpenComma(parts[k], false) && (k < |parts| - 1 ==> !Ends(parts[k], false))
  }

  lemma {:induction false} SplitJoined(parts: seq<Str>)
    requires parts != [] && forall k :: 0 <= k < |parts| ==> Cut(parts, k)
    ensures SplitScan(Text.Join(parts, [COMMA]), false) == parts
  {
    assert Cut(parts, 0);
    if |parts| == 1 {
      SplitClosed(parts[0], false);
    } else {
      forall k | 0 <= k < |parts[1..]| ensures Cut(parts[1..], k) {
        assert Cut(parts, k + 1);
      }
      SplitJoined(parts[1..]);
      SplitAtComma(parts[0], Text.Join(parts[1..], [COMMA]), false);
    }
  }

  lemma {:induction false} SplitPartsHaveNoComma(s: Str, inSlash: bool)
    ensures var parts := SplitScan(s, inSlash);
            NoOpenComma(parts[0], inSlash) && forall k :: 0 < k < |parts| ==> NoOpenComma(parts[k], false)
  {
    if s != [] {
      var rest := SplitScan(s[1..], SlashAfter(s[0], inSlash));
      SplitPartsHaveNoComma(s[1..], SlashAfter(s[0], inSlash));
      assert ([s[0]] + rest[0])[1..] == rest[0];
    }
  }

  // Commas outside escapes are those NoOpenComma forbids.
  lemma {:induction false} OpenCommas(p: Str, k: nat)
    requires k <= |p|
    ensures NoOpenComma(p[k..], Escaped(p, k)) <==> forall i :: k <= i < |p| && p[i] == COMMA ==> Escaped(p, i)
    ensures Ends(p[k..], Escaped(p, k)) == Escaped(p, |p|)
    decreases |p| - k
  {
    if k < |p| {
      assert p[k..][1..] == p[k + 1..];
      OpenCommas(p, k + 1);
    }
  }

  /** Every comma in the part is escaped. */
  ghost predicate Unbroken(p: Str) { forall i :: 0 <= i < |p| && p[i] == COMMA ==> Escaped(p, i) }

  lemma PartsOfJoined(text: Str)
    requires text != []
    ensures Text.Join(SplitTerms(text), [COMMA]) == text
    ensures forall k :: 0 <= k < |SplitTerms(text)| ==> Unbroken(SplitTerms(text)[k])
    ensures forall k :: 0 <= k < |SplitTerms(text)| - 1 ==> !Escaped(SplitTerms(text)[k], |SplitTerms(text)[k]|)
  {
    var parts := SplitTerms(text);
    ScanJoins(text, false);
    SplitPartsHaveNoComma(text, false);
    forall k | 0 <= k < |parts|
      ensures Unbroken(parts[k]) && (k < |parts| - 1 ==> !Escaped(parts[k], |parts[k]|))
    {
      OpenCommas(parts[k], 0);
      assert parts[k][0..] == parts[k];
    }
  }

  lemma {:induction false} ScanJoins(s: Str, inSlash: bool)
    ensures Text.Join(SplitScan(s, inSlash), [COMMA]) == s
    ensures var parts := SplitScan(s, inSlash);
            forall k :: 0 <= k < |parts| - 1 ==> !Ends(parts[k], inSlash && k == 0)
  {
    if s != [] {
      var rest := SplitScan(s[1..], SlashAfter(s[0], inSlash));
      ScanJoins(s[1..], SlashAfter(s[0], inSlash));
      assert ([s[0]] + rest[0])[1..] == rest[0];
      assert s == [s[0]] + s[1..];
      if !inSlash && s[0] == COMMA {
        assert ([[]] + rest)[1..] == rest;
      } else {
        assert ([[s[0]] + rest[0]] + rest[1..])[1..] == rest[1..];
      }
    }
  }

  /** A nonempty text is cut at exactly the commas that are not escaped: its terms are the only parts that give the text
      when joined with commas, have no open comma, and do not end in an open escape where a comma follows. */
  lemma SplitTermsExactly(text: Str, parts: seq<Str>)
    requires text != []
    ensures SplitTerms(text) == parts <==>
            && parts != [] && Text.Join(parts, [COMMA]) == text
            && (forall k :: 0 <= k < |parts| ==> Unbroken(parts[k]))
            && (forall k :: 0 <= k < |parts| - 1 ==> !Escaped(parts[k], |parts[k]|))
  {
    PartsOfJoined(text);
    if && parts != [] && Text.Join(parts, [COMMA]) == text
       && (forall k :: 0 <= k < |parts| ==> Unbroken(parts[k]))
       && (forall k :: 0 <= k < |parts| - 1 ==> !Escaped(parts[k], |parts[k]|))
    {
      forall k | 0 <= k < |parts| ensures Cut(parts, k) {
        OpenCommas(parts[k], 0);
        assert parts[k][0..] == parts[k];
      }
      SplitJoined(parts);
    }
  }

  lemma {:induction false} ItemsArePrintable<E>(parts: seq<Str>)
    requires forall p :: p in parts ==> NoOpenComma(p, false)
    requires Items<E>(parts).Ok?
    ensures forall r :: r in Items<E>(parts).value ==> Printable(r) || Blank(r)
  {
    if parts != [] {
      ItemsArePrintable<E>(parts[1..]);
      assert NoOpenComma(parts[0], false);
      if parts[0] != [] { ParsedIsPrintable<E>(parts[0]); }
    }
  }

  /** Parsing only yields requirements that can be printed. */
  lemma ParsedRequirementsArePrintable(text: Str, less: Less)
    requires ParseSelector(text, less).Ok?
    ensures forall r :: r in Requirements(ParseSelector(text, less).value) ==> Printable(r)
  {
    var parts := SplitTerms(text);
    SplitPartsHaveNoComma(text, false);
    assert forall p :: p in parts ==> NoOpenComma(p, false);
    ParseYields(text, less);
    ItemsArePrintable<()>(parts);
    SameMembers(Requirements(ParseSelector(text, less).value), NonBlank(Items<()>(parts).value));
  }

  // ---- printing and parsing ----

  // The comma-separated parts of the printed text: one for each term, an empty one for each empty conjunction.
  function Parts(s: Selector): (parts: seq<Str>)
    ensures parts != []
  {
    match s
    case Nothing => [[]]
    case Has(f, v) => [TermText(Requirement(f, Equal, v))]
    case NotHas(f, v) => [TermText(Requirement(f, NotEqual, v))]
    case And(ts) => if ts == [] then [[]] else AllParts(ts)
  }

  function AllParts(ts: seq<Selector>): (parts: seq<Str>)
    ensures ts != [] ==> parts != []
  {
    if ts == [] then [] else Parts(ts[0]) + AllParts(ts[1..])
  }

  lemma {:induction false} StringJoinsParts(s: Selector)
    ensures String(s) == Text.Join(Parts(s), [COMMA])
  {
    if s.And? && s.terms != [] { AllStringsJoinParts(s.terms); }
  }

  lemma {:induction false} AllStringsJoinParts(ts: seq<Selector>)
    requires ts != []
    ensures Text.Join(Strings(ts), [COMMA]) == Text.Join(AllParts(ts), [COMMA])
  {
    StringJoinsParts(ts[0]);
    if |ts| == 1 {
      assert AllParts(ts) == Parts(ts[0]);
    } else {
      AllStringsJoinParts(ts[1..]);
      Text.JoinAppend(Parts(ts[0]), AllParts(ts[1..]), [COMMA]);
      assert Strings(ts)[1..] == Strings(ts[1..]);
    }
  }

  lemma {:induction false} ItemsAppend<E>(a: seq<Str>, b: seq<Str>)
    ensures Items<E>(a + b) == match Items<E>(a) case Err(e) => Err(e) case Ok(rs) => ThenAll(rs, Items<E>(b))
  {
    if a == [] {
      assert a + b == b;
      ThenAllAll([], [], Items<E>(b));
    } else {
      assert (a + b)[1..] == a[1..] + b;
      ItemsAppend<E>(a[1..], b);
      if a[0] != [] && ParseTerm<E>(a[0]).Ok? && Items<E>(a[1..]).Ok? {
        ThenAllAll([ParseTerm<E>(a[0]).value], Items<E>(a[1..]).value, Items<E>(b));
      }
    }
  }

  lemma {:induction false} PartsReadBack<E>(s: Selector)
    requires forall r :: r in Requirements(s) ==> Printable(r)
    ensures Items<E>(Parts(s)) == Ok(Requirements(s))
    ensures forall p :: p in Parts(s) ==> Closed(p)
  {
    if s.And? {
      AllPartsReadBack<E>(s.terms);
      if s.terms == [] { assert Parts(s)[1..] == []; }
    } else if s.Nothing? {
      assert Parts(s)[1..] == [];
    } else {
      var r := Requirements(s)[0];
      assert r in Requirements(s);
      PrintedTermParses<E>(r);
      TermIsClosed(r);
      assert Parts(s) == [TermText(r)] && |TermText(r)| > 0 && Parts(s)[1..] == [];
      assert Items<E>(Parts(s)[1..]) == Ok([]) && [r] + [] == [r];
    }
  }

  lemma {:induction false} AllPartsReadBack<E>(ts: seq<Selector>)
    requires forall r :: r in AllRequirements(ts) ==> Printable(r)
    ensures Items<E>(AllParts(ts)) == Ok(AllRequirements(ts))
    ensures forall p :: p in AllParts(ts) ==> Closed(p)
  {
    if ts != [] {
      PartsReadBack<E>(ts[0]);
      AllPartsReadBack<E>(ts[1..]);
      ItemsAppend<E>(Parts(ts[0]), AllParts(ts[1..]));
    }
  }

  lemma {:induction false} NothingBlank(reqs: seq<Requirement>)
    requires forall r :: r in reqs ==> !Blank(r)
    ensures NonBlank(reqs) == reqs
  {
    if reqs != [] { NothingBlank(reqs[1..]); }
  }

  lemma PrintableReadsBack(s: Selector, less: Less)
    requires forall r :: r in Requirements(s) ==> Printable(r)
    ensures ParseSelector(String(s), less).Ok?
    ensures multiset(Requirements(ParseSelector(String(s), less).value)) == multiset(Requirements(s))
  {
    PartsReadBack<()>(s);
    StringJoinsParts(s);
    forall k | 0 <= k < |Parts(s)| ensures Cut(Parts(s), k) {
      assert Closed(Parts(s)[k]);
    }
    SplitJoined(Parts(s));
    if String(s) == [] {
      assert Parts(s) == [[]] && Parts(s)[1..] == [];
    }
    ParseYields(String(s), less);
    NothingBlank(Requirements(s));
  }

  predicate ReadsBack(s: Selector, less: Less) {
    var r := ParseSelector(String(s), less);
    r.Ok? && multiset(Requirements(r.value)) == multiset(Requirements(s))
  }

  /** Printing and then parsing gives back the same requirements, each as often, exactly when every one of
      them is printable; whatever the order of the sort inside the parser. */
  lemma RoundTrip(s: Selector, less: Less)
    ensures ReadsBack(s, less) <==> forall r :: r in Requirements(s) ==> Printable(r)
  {
    if forall r :: r in Requirements(s) ==> Printable(r) {
      PrintableReadsBack(s, less);
    } else if ReadsBack(s, less) {
      ParsedRequirementsArePrintable(String(s), less);
      SameMembers(Requirements(ParseSelector(String(s), less).value), Requirements(s));
      assert false;
    }
  }

  /** A printable selector without Nothing matches the same field sets after being printed and parsed. */
  lemma RoundTripMeaning(s: Selector, less: Less, fields: Fields)
    requires !HasNothing(s) && forall r :: r in Requirements(s) ==> Printable(r)
    ensures ParseSelector(String(s), less).Ok?
    ensures Matches(ParseSelector(String(s), less).value, fields) <==> Matches(s, fields)
  {
    PrintableReadsBack(s, less);
    ParseYields(String(s), less);
    var back := ParseSelector(String(s), less).value;
    MatchesItsRequirements(s, fields);
    MatchesItsRequirements(back, fields);
    SameMembers(Requirements(back), Requirements(s));
  }

  /** Every accepted text can be printed and parsed again without loss, whatever was in it. */
  lemma {:induction false} ParsedRoundTrip(text: Str, less: Less, fields: Fields)
    requires ParseSelector(text, less).Ok?
    ensures ReadsBack(ParseSelector(text, less).value, less)
    ensures Matches(ParseSelector(String(ParseSelector(text, less).value), less).value, fields) <==>
            Matches(ParseSelector(text, less).value, fields)
  {
    ParsedRequirementsArePrintable(text, less);
    ParseYields(text, less);
    PrintableReadsBack(ParseSelector(text, less).value, less);
    RoundTripMeaning(ParseSelector(text, less).value, less, fields);
  }
}
