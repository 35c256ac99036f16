/** The text layer of field selectors: escaping values, splitting selectors into terms and terms into
    field, operator and value (nexuscore/component-base/fields/selector.go:272-432). */
module FieldText {
  import opened Wrappers

  /** A Go string as `range` reads it: decoded characters and the bytes that are not valid UTF-8. */
  datatype Rune = Valid(c: char) | Invalid(byte: int)

  type Str = seq<Rune>

  const BACKSLASH := Valid('\\')
  const COMMA := Valid(',')
  const EQUALS := Valid('=')
  const BANG := Valid('!')
  const REPLACEMENT := Valid('\U{FFFD}')

  predicate Special(r: Rune) { r == BACKSLASH || r == COMMA || r == EQUALS }

  predicate HasSpecial(s: Str) { exists i :: 0 <= i < |s| && Special(s[i]) }

  predicate AllValid(s: Str) { forall i :: 0 <= i < |s| ==> s[i].Valid? }

  // WriteRune turns an invalid byte into U+FFFD.
  function Decode(r: Rune): Rune { if r.Invalid? then REPLACEMENT else r }

  function DecodeAll(s: Str): (t: Str)
    ensures |t| == |s|
  {
    seq(|s|, i requires 0 <= i < |s| => Decode(s[i]))
  }

  // ---- escaping ----

  function EscapeValue(s: Str): Str {
    if s == [] then []
    else (if Special(s[0]) then [BACKSLASH, s[0]] else [s[0]]) + EscapeValue(s[1..])
  }

  datatype UnescapeError = InvalidEscapeSequence(sequence: Str) | UnescapedRune(r: Rune)

  function Prepend(r: Rune, rest: Result<Str, UnescapeError>): Result<Str, UnescapeError> {
    match rest case Ok(s) => Ok([r] + s) case Err(e) => Err(e)
  }

  // The scan of UnescapeValue from a state of its inSlash flag.
  function Unescape(s: Str, inSlash: bool): Result<Str, UnescapeError> {
    if s == [] then (if inSlash then Err(InvalidEscapeSequence([BACKSLASH])) else Ok([]))
    else if inSlash then
      (if Special(s[0]) then Prepend(s[0], Unescape(s[1..], false))
       else Err(InvalidEscapeSequence([BACKSLASH, Decode(s[0])])))
    else if s[0] == BACKSLASH then Unescape(s[1..], true)
    else if s[0] == COMMA || s[0] == EQUALS then Err(UnescapedRune(s[0]))
    else Prepend(Decode(s[0]), Unescape(s[1..], false))
  }

  function UnescapeValue(s: Str): Result<Str, UnescapeError> {
    if !HasSpecial(s) then Ok(s) else Unescape(s, false)
  }

  method DoUnescapeValue(s: Str) returns (r: Result<Str, UnescapeError>)
    ensures r == UnescapeValue(s)
  {
    var plain := true;
    for i := 0 to |s|
      invariant plain <==> forall j :: 0 <= j < i ==> !Special(s[j])
    {
      if Special(s[i]) { plain := false; }
    }
    if plain { return Ok(s); }
    var v: Str, inSlash := [], false;
    assert s[0..] == s;
    BehindNothing(Unescape(s, false));
    for i := 0 to |s|
      invariant Unescape(s, false) == Behind(v, Unescape(s[i..], inSlash))
    {
      var c := s[i];
      assert s[i..][1..] == s[i + 1..];
      BehindPrepend(v, Decode(c), Unescape(s[i + 1..], false));
      BehindPrepend(v, c, Unescape(s[i + 1..], false));
      if inSlash {
        if !Special(c) { return Err(InvalidEscapeSequence([BACKSLASH, Decode(c)])); }
        v := v + [c];
        inSlash := false;
      } else if c == BACKSLASH {
        inSlash := true;
      } else if c == COMMA || c == EQUALS {
        return Err(UnescapedRune(c));
      } else {
        v := v + [Decode(c)];
      }
    }
    assert s[|s|..] == [] && v + [] == v;
    if inSlash { return Err(InvalidEscapeSequence([BACKSLASH])); }
    return Ok(v);
  }

  // What is left to write comes behind what has been written.
  function Behind(v: Str, rest: Result<Str, UnescapeError>): Result<Str, UnescapeError> {
    match rest case Ok(s) => Ok(v + s) case Err(e) => Err(e)
  }

  lemma BehindNothing(rest: Result<Str, UnescapeError>)
    ensures Behind([], rest) == rest
  {
    if rest.Ok? { assert [] + rest.value == rest.value; }
  }

  lemma BehindPrepend(v: Str, r: Rune, rest: Result<Str, UnescapeError>)
    ensures Behind(v, Prepend(r, rest)) == Behind(v + [r], rest)
  {
    if rest.Ok? { assert v + ([r] + rest.value) == (v + [r]) + rest.value; }
  }

  /** Whether a text survives being escaped and unescaped: valid UTF-8, or nothing to escape. */
  predicate Faithful(s: Str) { AllValid(s) || !HasSpecial(s) }

  lemma DecodeKeeps(s: Str)
    ensures DecodeAll(s) == s <==> AllValid(s)
  {
    if i :| 0 <= i < |s| && s[i].Invalid? { assert DecodeAll(s)[i] != s[i]; }
  }

  lemma {:induction false} UnescapeEscape(s: Str)
    ensures Unescape(EscapeValue(s), false) == Ok(DecodeAll(s))
  {
    if s != [] {
      UnescapeEscape(s[1..]);
      assert DecodeAll(s) == [Decode(s[0])] + DecodeAll(s[1..]);
      var rest := EscapeValue(s[1..]);
      if Special(s[0]) {
        assert ([BACKSLASH, s[0]] + rest)[1..] == [s[0]] + rest && ([s[0]] + rest)[1..] == rest;
      } else {
        assert ([s[0]] + rest)[1..] == rest;
      }
    }
  }

  lemma HasSpecialCons(r: Rune, s: Str)
    ensures HasSpecial([r] + s) <==> Special(r) || HasSpecial(s)
  {
    var t := [r] + s;
    if i :| 0 <= i < |t| && Special(t[i]) {
      assert i > 0 ==> s[i - 1] == t[i];
    }
    if i :| 0 <= i < |s| && Special(s[i]) { assert t[i + 1] == s[i]; }
    assert t[0] == r;
  }

  lemma {:induction false} EscapePlain(s: Str)
    ensures !HasSpecial(s) ==> EscapeValue(s) == s
    ensures HasSpecial(s) ==> HasSpecial(EscapeValue(s))
  {
    if s != [] {
      EscapePlain(s[1..]);
      assert s == [s[0]] + s[1..];
      var e := EscapeValue(s);
      if Special(s[0]) {
        assert Special(e[0]);
      } else {
        HasSpecialCons(s[0], s[1..]);
        HasSpecialCons(s[0], EscapeValue(s[1..]));
      }
    }
  }

  /** Unescaping undoes escaping exactly for the faithful texts. The code promises it for all strings; one
      with an invalid byte and a special character comes back with U+FFFD in place of the byte. */
  lemma UnescapeUndoesEscape(s: Str)
    ensures UnescapeValue(EscapeValue(s)) == Ok(s) <==> Faithful(s)
  {
    EscapePlain(s);
    if HasSpecial(s) {
      UnescapeEscape(s);
      DecodeKeeps(s);
    }
  }

  lemma {:induction false} EscapeUnescape(t: Str, inSlash: bool)
    requires Unescape(t, inSlash).Ok?
    ensures AllValid(Unescape(t, inSlash).value)
    ensures (if inSlash then [BACKSLASH] else []) + DecodeAll(t) == EscapeValue(Unescape(t, inSlash).value)
  {
    if t != [] {
      var rest := t[1..];
      assert DecodeAll(t) == [Decode(t[0])] + DecodeAll(rest);
      if inSlash {
        EscapeUnescape(rest, false);
        assert ([t[0]] + Unescape(rest, false).value)[1..] == Unescape(rest, false).value;
      } else if t[0] == BACKSLASH {
        EscapeUnescape(rest, true);
      } else {
        EscapeUnescape(rest, false);
        assert ([Decode(t[0])] + Unescape(rest, false).value)[1..] == Unescape(rest, false).value;
      }
    }
  }

  /** Escaping undoes unescaping, exactly for the accepted faithful texts: on valid UTF-8, escaping is a
      bijection onto the texts that UnescapeValue accepts. */
  lemma EscapeUndoesUnescape(t: Str)
    requires UnescapeValue(t).Ok?
    ensures Faithful(UnescapeValue(t).value)
    ensures EscapeValue(UnescapeValue(t).value) == t <==> Faithful(t)
  {
    if HasSpecial(t) {
      EscapeUnescape(t, false);
      DecodeKeeps(t);
      assert [] + DecodeAll(t) == DecodeAll(t);
    } else {
      EscapePlain(t);
    }
  }

  // ---- which texts are accepted ----

  /** Position i stands behind a backslash that is not itself escaped. */
  predicate Escaped(t: Str, i: nat)
    requires i <= |t|
  {
    i > 0 && t[i - 1] == BACKSLASH && !Escaped(t, i - 1)
  }

  /** Behind a backslash only a backslash, a comma or an equals sign; elsewhere neither a comma nor an equals sign. */
  predicate GoodAt(t: Str, i: nat)
    requires i < |t|
  {
    if Escaped(t, i) then t[i] in {Valid('\\'), Valid(','), Valid('=')} else t[i] !in {Valid(','), Valid('=')}
  }

  // The first position from k on that is not good.
  function FaultFrom(t: Str, k: nat): (j: nat)
    requires k <= |t|
    ensures k <= j <= |t| && (j < |t| ==> !GoodAt(t, j)) && forall i :: k <= i < j ==> GoodAt(t, i)
    decreases |t| - k
  {
    if k < |t| && GoodAt(t, k) then FaultFrom(t, k + 1) else k
  }

  ghost predicate Judged(t: Str, fault: nat, r: Result<Str, UnescapeError>)
    requires fault <= |t|
  {
    if fault == |t| then (if Escaped(t, |t|) then r == Err(InvalidEscapeSequence([BACKSLASH])) else r.Ok?)
    else if Escaped(t, fault) then r == Err(InvalidEscapeSequence([BACKSLASH, Decode(t[fault])]))
    else r == Err(UnescapedRune(t[fault]))
  }

  lemma {:induction false} UnescapeJudgesFrom(t: Str, k: nat)
    requires k <= |t|
    ensures Judged(t, FaultFrom(t, k), Unescape(t[k..], Escaped(t, k)))
    decreases |t| - k
  {
    if k < |t| {
      assert t[k..][1..] == t[k + 1..];
      UnescapeJudgesFrom(t, k + 1);
    }
  }

  /** UnescapeValue accepts exactly the texts that are good everywhere and do not end in an open escape; its error is
      that of the first fault. */
  lemma UnescapeJudges(t: Str)
    ensures Judged(t, FaultFrom(t, 0), UnescapeValue(t))
    ensures UnescapeValue(t).Ok? <==> (forall i :: 0 <= i < |t| ==> GoodAt(t, i)) && !Escaped(t, |t|)
  {
    UnescapeJudgesFrom(t, 0);
    assert t[0..] == t;
    if !HasSpecial(t) {
      forall i | 0 <= i < |t| ensures GoodAt(t, i) {
        assert !Special(t[i]) && (i > 0 ==> !Special(t[i - 1]));
      }
    }
  }

  // ---- splitting a selector into terms ----

  // The state of inSlash after one more character.
  function SlashAfter(r: Rune, inSlash: bool): bool { !inSlash && r == BACKSLASH }

  function SplitScan(s: Str, inSlash: bool): (parts: seq<Str>)
    ensures parts != []
  {
    if s == [] then [[]]
    else
      var rest := SplitScan(s[1..], SlashAfter(s[0], inSlash));
      if !inSlash && s[0] == COMMA then [[]] + rest else [[s[0]] + rest[0]] + rest[1..]
  }

  function SplitTerms(s: Str): seq<Str> { if s == [] then [] else SplitScan(s, false) }

  method DoSplitTerms(s: Str) returns (terms: seq<Str>)
    ensures terms == SplitTerms(s)
  {
    if |s| == 0 { return []; }
    terms := [];
    var startIndex, inSlash := 0, false;
    assert s[0..] == s && s[0..0] == [];
    ContinueStart(SplitScan(s, false));
    for i := 0 to |s|
      invariant 0 <= startIndex <= i
      invariant SplitScan(s, false) == Continue(terms, s[startIndex..i], SplitScan(s[i..], inSlash))
    {
      var c := s[i];
      assert s[i..][1..] == s[i + 1..];
      ContinueStep(terms, s[startIndex..i], c, SplitScan(s[i + 1..], SlashAfter(c, inSlash)));
      if inSlash {
        inSlash := false;
        assert s[startIndex..i + 1] == s[startIndex..i] + [c];
      } else if c == BACKSLASH {
        inSlash := true;
        assert s[startIndex..i + 1] == s[startIndex..i] + [c];
      } else if c == COMMA {
        terms := terms + [s[startIndex..i]];
        startIndex := i + 1;
        assert s[startIndex..i + 1] == [];
      } else {
        assert s[startIndex..i + 1] == s[startIndex..i] + [c];
      }
    }
    assert s[|s|..] == [] && s[startIndex..|s|] + [] == s[startIndex..];
    assert terms + [s[startIndex..]] + [] == terms + [s[startIndex..]];
    terms := terms + [s[startIndex..]];
  }

  // Finished terms, the term being read, and the terms still to come.
  function Continue(terms: seq<Str>, current: Str, rest: seq<Str>): seq<Str>
    requires rest != []
  {
    terms + [current + rest[0]] + rest[1..]
  }

  lemma ContinueStart(rest: seq<Str>)
    requires rest != []
    ensures Continue([], [], rest) == rest
  {
    assert [] + rest[0] == rest[0];
    assert [] + [rest[0]] + rest[1..] == rest;
  }

  lemma ContinueStep(terms: seq<Str>, current: Str, c: Rune, rest: seq<Str>)
    requires rest != []
    ensures Continue(terms, current, [[c] + rest[0]] + rest[1..]) == Continue(terms, current + [c], rest)
    ensures Continue(terms, current, [[]] + rest) == Continue(terms + [current], [], rest)
  {
    assert current + ([c] + rest[0]) == (current + [c]) + rest[0];
    assert current + [] == current && [] + rest[0] == rest[0];
    assert [rest[0]] + rest[1..] == rest;
  }

  // ---- splitting a term ----

  datatype Op = Equal | NotEqual

  datatype Split = Split(lhs: Str, op: Op, rhs: Str)

  // The operator a text starts with, and its length; "!=" and "==" are tried before "=".
  function OperatorAt(s: Str): (r: Option<(Op, nat)>)
    ensures r.Some? ==> 0 < r.value.1 <= |s|
  {
    if [BANG, EQUALS] <= s then Some((NotEqual, 2))
    else if [EQUALS, EQUALS] <= s then Some((Equal, 2))
    else if [EQUALS] <= s then Some((Equal, 1))
    else None
  }

  function SplitTerm(term: Str): Option<Split> {
    if term == [] then None
    else
      match OperatorAt(term)
      case Some((op, n)) => Some(Split([], op, term[n..]))
      case None =>
        match SplitTerm(term[1..])
        case None => None
        case Some(split) => Some(split.(lhs := [term[0]] + split.lhs))
  }

  predicate EndsInBang(s: Str) { s != [] && s[|s| - 1] == BANG }

  /** The term is the field, an operator and the value: `!=`; or `==`; or `=` before a value without a leading `=`. The
      field has no `=`, and before an equality no `!` at its end. */
  predicate Splits(term: Str, field: Str, op: Op, value: Str) {
    && EQUALS !in field
    && match op
       case NotEqual => term == field + [BANG, EQUALS] + value
       case Equal =>
         && !EndsInBang(field)
         && (|| term == field + [EQUALS, EQUALS] + value
             || (term == field + [EQUALS] + value && !([EQUALS] <= value)))
  }

  lemma FieldComesFirst(term: Str, field: Str, op: Op, value: Str)
    requires Splits(term, field, op, value) && field != []
    ensures OperatorAt(term).None?
  {
    assert term[0] == field[0] && field[0] in field;
    assert term[1] == if |field| > 1 then field[1] else if op.NotEqual? then BANG else EQUALS;
    assert |field| > 1 ==> field[1] in field;
  }

  lemma SplitsAtStart(term: Str, field: Str, op: Op, value: Str)
    requires OperatorAt(term).Some?
    ensures Splits(term, field, op, value) <==>
            field == [] && OperatorAt(term).value.0 == op && value == term[OperatorAt(term).value.1..]
  {
    var n := OperatorAt(term).value.1;
    if field == [] {
      assert term == term[..n] + term[n..];
      assert [] + [BANG, EQUALS] + value == [BANG, EQUALS] + value;
      assert [] + [EQUALS, EQUALS] + value == [EQUALS, EQUALS] + value && [] + [EQUALS] + value == [EQUALS] + value;
      assert term[0] == EQUALS ==> ([EQUALS] <= term[1..] <==> [EQUALS, EQUALS] <= term);
    } else if Splits(term, field, op, value) {
      FieldComesFirst(term, field, op, value);
      assert false;
    }
  }

  lemma SplitsLater(term: Str, field: Str, op: Op, value: Str)
    requires term != [] && OperatorAt(term).None?
    ensures Splits(term, field, op, value) <==>
            field != [] && field[0] == term[0] && Splits(term[1..], field[1..], op, value)
  {
    if field != [] {
      var rest := field[1..];
      assert field == [field[0]] + rest;
      assert field + [BANG, EQUALS] + value == [field[0]] + (rest + [BANG, EQUALS] + value);
      assert field + [EQUALS, EQUALS] + value == [field[0]] + (rest + [EQUALS, EQUALS] + value);
      assert field + [EQUALS] + value == [field[0]] + (rest + [EQUALS] + value);
      assert term == [term[0]] + term[1..];
    }
  }

  /** A term splits in one way at most, and does exactly when there is an `=` in it. */
  lemma {:induction false} SplitTermExactly(term: Str, field: Str, op: Op, value: Str)
    ensures SplitTerm(term) == Some(Split(field, op, value)) <==> Splits(term, field, op, value)
    ensures SplitTerm(term).None? <==> EQUALS !in term
  {
    if term != [] {
      if OperatorAt(term).Some? {
        SplitsAtStart(term, field, op, value);
        assert term[0] == EQUALS || term[1] == EQUALS;
      } else {
        SplitTermExactly(term[1..], if field == [] then [] else field[1..], op, value);
        SplitsLater(term, field, op, value);
        assert term == [term[0]] + term[1..];
        assert [EQUALS] <= [term[0]] <==> term[0] == EQUALS;
        assert field != [] ==> field == [field[0]] + field[1..];
      }
    }
  }

  method DoSplitTerm(term: Str) returns (r: Option<Split>)
    ensures r == SplitTerm(term)
  {
    assert term[0..] == term && term[|term|..] == [];
    if SplitTerm(term).Some? {
      var lhs := SplitTerm(term).value.lhs;
      assert term[..0] + lhs == lhs;
    }
    for i := 0 to |term|
      invariant SplitTerm(term) ==
                match SplitTerm(term[i..]) case None => None case Some(s) => Some(s.(lhs := term[..i] + s.lhs))
    {
      var remaining := term[i..];
      assert remaining[1..] == term[i + 1..];
      match OperatorAt(remaining)
      case Some((op, n)) =>
        assert n <= |remaining| && remaining[n..] == term[i + n..] && term[..i] + [] == term[..i];
        return Some(Split(term[..i], op, term[i + n..]));
      case None =>
        if SplitTerm(term[i + 1..]).Some? {
          var lhs := SplitTerm(term[i + 1..]).value.lhs;
          assert term[..i] + ([term[i]] + lhs) == term[..i + 1] + lhs;
        }
    }
    return None;
  }
}
