/** buildUserConditionClause and its helpers, and the proof that the text they build means what the
    condition map means, whatever order the maps are iterated in. */
module ConditionCompiler {
  import opened Wrappers
  import opened Conditions
  import Text

  // ---- the tables and conversions of the compiler ----

  datatype Meta = Meta(column: string, kind: Kind)

  const USER_CONDITION_META: map<string, Meta> := map[
    "id" := Meta("id", Numeric), "instanceID" := Meta("instanceID", Textual), "name" := Meta("name", Textual),
    "email" := Meta("email", Textual), "phone" := Meta("phone", Textual), "status" := Meta("status", Numeric),
    "isAdmin" := Meta("isAdmin", Numeric), "createdAt" := Meta("createdAt", Temporal),
    "updatedAt" := Meta("updatedAt", Temporal), "loginedAt" := Meta("loginedAt", Temporal),
    "version" := Meta("version", Numeric)]

  /** The table has the fields that conditions may name, each with its own column and kind. */
  lemma MetaIsByName(field: string)
    ensures field in USER_CONDITION_META <==> KindOf(field).Some?
    ensures field in USER_CONDITION_META ==> USER_CONDITION_META[field] == Meta(field, KindOf(field).value)
  {
  }

  function ConvertToInt64(lib: Lib, v: Json): Option<int> {
    match v
    case JNum(r) => Some(lib.int64(r))
    case JStr(s) => if lib.trim(s) == "" then None else lib.parseInt(lib.trim(s))
    case _ => None
  }

  function ConvertToTime(lib: Lib, v: Json): Option<int> {
    match v
    case JStr(s) =>
      var trimmed := lib.trim(s);
      if trimmed == "" then None
      else if lib.parseNano(trimmed).Some? then lib.parseNano(trimmed)
      else lib.parseSecond(trimmed)
    case JNum(r) => Some(lib.unix(r))
    case _ => None
  }

  function Convert(lib: Lib, kind: Kind, v: Json): Option<Value> {
    match kind
    case Numeric => (match ConvertToInt64(lib, v) case Some(i) => Some(Number(i)) case None => None)
    case Textual => if v.JStr? then Some(Str(v.s)) else None
    case Temporal => (match ConvertToTime(lib, v) case Some(t) => Some(Moment(t)) case None => None)
  }

  /** Conversion finds the value a JSON value stands for, and fails exactly when there is none. */
  lemma ConvertIsMeaning(lib: Lib, kind: Kind, v: Json)
    ensures Convert(lib, kind, v).Some? <==> Readable(lib, kind, v)
    ensures forall x :: Denotes(lib, kind, v, x) <==> Convert(lib, kind, v) == Some(x)
  {
    var c := Convert(lib, kind, v);
    if c.Some? { assert Denotes(lib, kind, v, c.value); }
  }

  // The SQL operator of a JSON operator name.
  function Operator(name: string): Option<string> {
    if name == "eq" then Some("=") else if name == "neq" then Some("<>")
    else if name == "like" then Some("LIKE")
    else if name == "gt" then Some(">") else if name == "gte" then Some(">=")
    else if name == "lt" then Some("<") else if name == "lte" then Some("<=")
    else None
  }

  lemma OperatorNames(name: string)
    ensures Operator(name).Some? <==> name in NAMES
    ensures Operator(name).Some? ==> Operator(name).value in SQL_OPERATORS
  {
  }

  /** The SQL operator says what the JSON operator asks. */
  lemma OperatorIsMeaning(db: Db, name: string, cell: Value, x: Value)
    requires name in NAMES
    ensures Compares(db, Operator(name).value, cell, x) <==> Fits(db, name, cell, x)
  {
  }

  lemma OperatorsArePlain(op: string)
    requires op in SQL_OPERATORS
    ensures ' ' !in op && '?' !in op && op != "IN"
  {
  }

  // ---- atoms as words ----

  function MarkWords(n: nat): seq<string>
    requires n > 0
  {
    if n == 1 then ["?)"] else ["?,"] + MarkWords(n - 1)
  }

  function Words(a: Atom): seq<string>
    requires a.Valid()
  {
    if a.op != "IN" then [a.column, a.op, "?"]
    else if |a.args| == 1 then [a.column, "IN", "(?)"]
    else [a.column, "IN", "(?,"] + MarkWords(|a.args| - 1)
  }

  ghost predicate AllValid(atoms: seq<Atom>) { forall i :: 0 <= i < |atoms| ==> atoms[i].Valid() }

  function AllWords(atoms: seq<Atom>): seq<string>
    requires atoms != [] && AllValid(atoms)
  {
    if |atoms| == 1 then Words(atoms[0]) else Words(atoms[0]) + (["AND"] + AllWords(atoms[1..]))
  }

  function ClauseOf(a: Atom): Clause { if a.op == "IN" then In(a.column, |a.args|) else Compare(a.column, a.op) }

  function ClausesOf(atoms: seq<Atom>): (cs: seq<Clause>)
    ensures |cs| == |atoms|
  {
    seq(|atoms|, i requires 0 <= i < |atoms| => ClauseOf(atoms[i]))
  }

  lemma {:induction false} MarkWordsText(n: nat)
    requires n > 0
    ensures Text.Join(MarkWords(n), " ") == Text.Join(Marks(n), ", ") + ")"
    ensures forall w :: w in MarkWords(n) ==> ' ' !in w
  {
    assert Marks(n)[1..] == Marks(n - 1);
    if n > 1 {
      MarkWordsText(n - 1);
      assert MarkWords(n)[1..] == MarkWords(n - 1);
      assert Text.Join(MarkWords(n), " ") == "?," + " " + Text.Join(MarkWords(n - 1), " ");
      assert Text.Join(Marks(n), ", ") == "?" + ", " + Text.Join(Marks(n - 1), ", ");
    }
  }

  lemma JoinThree(a: string, b: string, c: string)
    ensures Text.Join([a, b, c], " ") == a + " " + b + " " + c
  {
    assert [a, b, c][1..] == [b, c] && [b, c][1..] == [c];
    assert Text.Join([b, c], " ") == b + " " + c;
    assert a + " " + (b + " " + c) == a + " " + b + " " + c;
  }

  lemma WordsText(a: Atom)
    requires a.Valid()
    ensures Text.Join(Words(a), " ") == AtomText(a)
    ensures forall w :: w in Words(a) ==> ' ' !in w
  {
    if a.op != "IN" {
      OperatorsArePlain(a.op);
      JoinThree(a.column, a.op, "?");
    } else if |a.args| == 1 {
      JoinThree(a.column, "IN", "(?)");
      assert Marks(1) == ["?"];
    } else {
      InWordsText(a.column, |a.args|);
      MarkWordsText(|a.args| - 1);
    }
  }

  lemma InWordsText(column: string, n: nat)
    requires n > 1
    ensures Text.Join([column, "IN", "(?,"] + MarkWords(n - 1), " ")
         == column + " IN (" + Text.Join(Marks(n), ", ") + ")"
  {
    var rest := Text.Join(Marks(n - 1), ", ");
    JoinThree(column, "IN", "(?,");
    MarkWordsText(n - 1);
    Text.JoinAppend([column, "IN", "(?,"], MarkWords(n - 1), " ");
    assert Marks(n)[1..] == Marks(n - 1);
    assert Text.Join(Marks(n), ", ") == "?" + ", " + rest;
    Regroup(column, rest);
  }

  lemma Regroup(column: string, rest: string)
    ensures column + " " + "IN" + " " + "(?," + " " + (rest + ")") == column + " IN (" + ("?" + ", " + rest) + ")"
  {
    assert column + " " + "IN" + " " + "(?," + " " == column + " IN (" + "?, ";
    assert column + " IN (" + "?, " + (rest + ")") == column + " IN (" + ("?, " + rest) + ")";
  }

  lemma JoinAnd(xs: seq<string>, ys: seq<string>)
    requires xs != [] && ys != []
    ensures Text.Join(xs + (["AND"] + ys), " ") == Text.Join(xs, " ") + " AND " + Text.Join(ys, " ")
  {
    var tail := ["AND"] + ys;
    Text.JoinAppend(xs, tail, " ");
    assert tail[1..] == ys;
    assert Text.Join(tail, " ") == "AND" + " " + Text.Join(ys, " ");
  }

  lemma {:induction false} AllWordsText(atoms: seq<Atom>)
    requires atoms != [] && AllValid(atoms)
    ensures Text.Join(AllWords(atoms), " ") == Text.Join(Texts(atoms), " AND ")
    ensures forall w :: w in AllWords(atoms) ==> ' ' !in w
  {
    WordsText(atoms[0]);
    if |atoms| > 1 {
      var rest := atoms[1..];
      AllWordsText(rest);
      assert Texts(atoms)[1..] == Texts(rest);
      JoinAnd(Words(atoms[0]), AllWords(rest));
    }
  }

  // ---- reading the text back ----

  lemma {:induction false} ReadMarkWords(n: nat, rest: seq<string>)
    requires n > 0
    ensures ReadMarks(MarkWords(n) + rest) == Some((n, rest))
  {
    var words := MarkWords(n) + rest;
    if n > 1 {
      ReadMarkWords(n - 1, rest);
      assert words[1..] == MarkWords(n - 1) + rest;
    } else {
      assert words[1..] == rest;
    }
  }

  lemma ReadWords(a: Atom, rest: seq<string>)
    requires a.Valid()
    ensures ReadClause(Words(a) + rest) == Some((ClauseOf(a), rest))
  {
    var words := Words(a) + rest;
    if a.op == "IN" && |a.args| > 1 {
      assert words[3..] == MarkWords(|a.args| - 1) + rest;
      ReadMarkWords(|a.args| - 1, rest);
    } else {
      assert words[3..] == rest;
    }
  }

  // One clause read, and what follows.
  lemma ReadOne(words: seq<string>, c: Clause, rest: seq<string>)
    requires ReadClause(words) == Some((c, rest))
    ensures rest == [] ==> ReadClauses(words) == Some([c])
    ensures rest != [] && rest[0] == "AND" && ReadClauses(rest[1..]).Some? ==>
              ReadClauses(words) == Some([c] + ReadClauses(rest[1..]).value)
  {
  }

  // The words of one atom and the clauses behind it.
  lemma ReadMore(a: Atom, words: seq<string>, more: seq<string>, cs: seq<Clause>)
    requires a.Valid() && words == Words(a) + (["AND"] + more) && ReadClauses(more) == Some(cs)
    ensures ReadClauses(words) == Some([ClauseOf(a)] + cs)
  {
    var rest := ["AND"] + more;
    ReadWords(a, rest);
    assert rest[1..] == more;
    ReadOne(words, ClauseOf(a), rest);
  }

  lemma NothingMore<T>(xs: seq<T>)
    ensures xs + [] == xs
  {
  }

  lemma ReadLast(a: Atom, words: seq<string>)
    requires a.Valid() && words == Words(a)
    ensures ReadClauses(words) == Some([ClauseOf(a)])
  {
    NothingMore(words);
    ReadWords(a, []);
    ReadOne(words, ClauseOf(a), []);
  }

  lemma ClausesOfCons(atoms: seq<Atom>)
    requires atoms != []
    ensures ClausesOf(atoms) == [ClauseOf(atoms[0])] + ClausesOf(atoms[1..])
    ensures |atoms| == 1 ==> ClausesOf(atoms) == [ClauseOf(atoms[0])]
  {
  }

  lemma {:induction false} ReadAllWords(atoms: seq<Atom>)
    requires atoms != [] && AllValid(atoms)
    ensures ReadClauses(AllWords(atoms)) == Some(ClausesOf(atoms))
  {
    ClausesOfCons(atoms);
    if |atoms| == 1 {
      ReadLast(atoms[0], AllWords(atoms));
    } else {
      ReadAllWords(atoms[1..]);
      ReadMore(atoms[0], AllWords(atoms), AllWords(atoms[1..]), ClausesOf(atoms[1..]));
    }
  }

  // ---- evaluating it ----

  function AtomTruth(db: Db, row: Row, a: Atom): Truth
    requires a.Valid()
  {
    match row(a.column)
    case None => Unknown
    case Some(cell) =>
      if a.op == "IN" then (if exists i :: 0 <= i < |a.args| && db.equal(cell, a.args[i]) then True else False)
      else if Compares(db, a.op, cell, a.args[0]) then True
      else False
  }

  lemma EvalAtom(db: Db, row: Row, a: Atom)
    requires a.Valid()
    ensures ClauseOf(a).Holes() == |a.args| && EvalClause(db, row, ClauseOf(a), a.args) == AtomTruth(db, row, a)
  {
  }

  // The first clause takes its arguments, the others theirs.
  lemma EvalFirst(db: Db, row: Row, atoms: seq<Atom>)
    requires AllValid(atoms) && atoms != []
    ensures EvalClauses(db, row, ClausesOf(atoms), Args(atoms))
         == match EvalClauses(db, row, ClausesOf(atoms[1..]), Args(atoms[1..]))
            case None => None
            case Some(rest) => Some(And(AtomTruth(db, row, atoms[0]), rest))
  {
    var a, args := atoms[0], Args(atoms);
    EvalAtom(db, row, a);
    assert ClausesOf(atoms)[1..] == ClausesOf(atoms[1..]);
    assert args[..|a.args|] == a.args && args[|a.args|..] == Args(atoms[1..]);
  }

  function AllTruth(db: Db, row: Row, atoms: seq<Atom>): Truth
    requires AllValid(atoms)
  {
    if atoms == [] then True else And(AtomTruth(db, row, atoms[0]), AllTruth(db, row, atoms[1..]))
  }

  lemma {:induction false} EvalAtoms(db: Db, row: Row, atoms: seq<Atom>)
    requires AllValid(atoms)
    ensures EvalClauses(db, row, ClausesOf(atoms), Args(atoms)) == Some(AllTruth(db, row, atoms))
  {
    if atoms != [] {
      EvalFirst(db, row, atoms);
      EvalAtoms(db, row, atoms[1..]);
    }
  }

  lemma {:induction false} AllTruthIsTrue(db: Db, row: Row, atoms: seq<Atom>)
    requires AllValid(atoms)
    ensures AllTruth(db, row, atoms) == True <==> forall i :: 0 <= i < |atoms| ==> AtomTruth(db, row, atoms[i]) == True
  {
    if atoms != [] {
      AllTruthIsTrue(db, row, atoms[1..]);
      assert forall i :: 0 <= i < |atoms[1..]| ==> atoms[1..][i] == atoms[i + 1];
      if forall i :: 0 <= i < |atoms[1..]| ==> AtomTruth(db, row, atoms[1..][i]) == True {
        assert forall i :: 0 < i < |atoms| ==> atoms[i] == atoms[1..][i - 1];
      }
    }
  }

  /** The text of a list of atoms is true exactly when all of them are. */
  lemma {:induction false} TextMeansAtoms(db: Db, row: Row, atoms: seq<Atom>)
    requires atoms != [] && AllValid(atoms)
    ensures EvalText(db, row, Text.Join(Texts(atoms), " AND "), Args(atoms)).Some?
    ensures EvalText(db, row, Text.Join(Texts(atoms), " AND "), Args(atoms)) == Some(True)
            <==> forall i :: 0 <= i < |atoms| ==> AtomTruth(db, row, atoms[i]) == True
  {
    AllWordsText(atoms);
    Text.SplitJoin(AllWords(atoms), ' ');
    ReadAllWords(atoms);
    EvalAtoms(db, row, atoms);
    AllTruthIsTrue(db, row, atoms);
  }

  // ---- placeholders ----

  function CountMarks(s: string): nat {
    if s == "" then 0 else (if s[0] == '?' then 1 else 0) + CountMarks(s[1..])
  }

  lemma {:induction false} CountAppend(s: string, t: string)
    ensures CountMarks(s + t) == CountMarks(s) + CountMarks(t)
  {
    if s == "" {
      assert s + t == t;
    } else {
      assert (s + t)[1..] == s[1..] + t;
      CountAppend(s[1..], t);
    }
  }

  lemma {:induction false} CountNone(s: string)
    requires '?' !in s
    ensures CountMarks(s) == 0
  {
    if s != "" { CountNone(s[1..]); }
  }

  lemma {:induction false} CountMarksList(n: nat)
    ensures CountMarks(Text.Join(Marks(n), ", ")) == n
  {
    if n == 1 {
      assert Marks(1) == ["?"];
    } else if n > 1 {
      CountMarksList(n - 1);
      assert Marks(n)[1..] == Marks(n - 1);
      var rest := Text.Join(Marks(n - 1), ", ");
      assert Text.Join(Marks(n), ", ") == "?, " + rest;
      CountAppend("?, ", rest);
      assert CountMarks("?, ") == 1;
    }
  }

  lemma CountAtom(a: Atom)
    requires a.Valid()
    ensures CountMarks(AtomText(a)) == |a.args|
  {
    CountNone(a.column);
    if a.op != "IN" {
      OperatorsArePlain(a.op);
      CountNone(a.op);
    }
    if a.op == "IN" {
      var list := Text.Join(Marks(|a.args|), ", ");
      CountMarksList(|a.args|);
      CountAppend(a.column + " IN (" + list, ")");
      CountAppend(a.column + " IN (", list);
      CountAppend(a.column, " IN (");
      assert CountMarks(" IN (") == 0 && CountMarks(")") == 0;
    } else {
      CountAppend(a.column + " " + a.op, " ?");
      CountAppend(a.column + " ", a.op);
      CountAppend(a.column, " ");
      assert CountMarks(" ?") == 1 && CountMarks(" ") == 0;
    }
  }

  /** There are as many placeholders as arguments. */
  lemma {:induction false} CountTexts(atoms: seq<Atom>)
    requires AllValid(atoms)
    ensures CountMarks(Text.Join(Texts(atoms), " AND ")) == |Args(atoms)|
  {
    if atoms != [] {
      CountAtom(atoms[0]);
      CountTexts(atoms[1..]);
      assert Texts(atoms)[1..] == Texts(atoms[1..]);
      if |atoms| > 1 {
        var rest := Text.Join(Texts(atoms[1..]), " AND ");
        CountAppend(AtomText(atoms[0]) + " AND ", rest);
        CountAppend(AtomText(atoms[0]), " AND ");
        CountNone(" AND ");
      }
    }
  }

  // ---- the atoms of a condition map ----

  ghost function ConvertAll(lib: Lib, kind: Kind, items: seq<Json>): (vs: seq<Value>)
    requires forall i :: 0 <= i < |items| ==> Convert(lib, kind, items[i]).Some?
    ensures |vs| == |items|
  {
    seq(|items|, i requires 0 <= i < |items| => Convert(lib, kind, items[i]).value)
  }

  lemma ItemsConvert(lib: Lib, kind: Kind, items: seq<Json>)
    ensures ReadableItems(lib, kind, items) <==>
            items != [] && forall i :: 0 <= i < |items| ==> Convert(lib, kind, items[i]).Some?
  {
    forall i | 0 <= i < |items| ensures Readable(lib, kind, items[i]) <==> Convert(lib, kind, items[i]).Some? {
      ConvertIsMeaning(lib, kind, items[i]);
    }
  }

  ghost function InAtom(lib: Lib, m: Meta, items: seq<Json>): Atom
    requires ReadableItems(lib, m.kind, items)
  {
    ItemsConvert(lib, m.kind, items);
    Atom(m.column, "IN", ConvertAll(lib, m.kind, items))
  }

  ghost function CompareAtom(lib: Lib, m: Meta, name: string, v: Json): Atom
    requires name in NAMES && Readable(lib, m.kind, v)
  {
    ConvertIsMeaning(lib, m.kind, v);
    Atom(m.column, Operator(name).value, [Convert(lib, m.kind, v).value])
  }

  ghost function OpAtom(lib: Lib, m: Meta, key: string, v: Json): Atom
    requires CompilableOp(lib, m.kind, key, v)
  {
    if lib.lower(key) == "in" then InAtom(lib, m, v.items) else CompareAtom(lib, m, lib.lower(key), v)
  }

  ghost function FieldAtoms(lib: Lib, m: Meta, v: Json): set<Atom>
    requires CompilableField(lib, m.kind, v)
  {
    if v.JObj? then set key | key in v.fields :: OpAtom(lib, m, key, v.fields[key])
    else if v.JArr? then {InAtom(lib, m, v.items)}
    else {CompareAtom(lib, m, "eq", v)}
  }

  ghost function AtomsAt(lib: Lib, conds: UserConditions, field: string): set<Atom>
    requires field in conds
  {
    if Known(lib, conds, field) then FieldAtoms(lib, Meta(field, KindOf(field).value), conds[field].json) else {}
  }

  ghost function AtomsOf(lib: Lib, conds: UserConditions): set<Atom> {
    set field, a | field in conds && a in AtomsAt(lib, conds, field) :: a
  }

  ghost predicate AllTrue(db: Db, row: Row, atoms: set<Atom>) {
    forall a :: a in atoms ==> a.Valid() && AtomTruth(db, row, a) == True
  }

  predicate PlainColumn(m: Meta) { ' ' !in m.column && '?' !in m.column }

  lemma FieldsArePlain(field: string)
    requires KindOf(field).Some?
    ensures ' ' !in field && '?' !in field
  {
  }

  lemma InMeaning(lib: Lib, db: Db, row: Row, m: Meta, items: seq<Json>)
    requires PlainColumn(m) && ReadableItems(lib, m.kind, items)
    ensures InAtom(lib, m, items).Valid()
    ensures AtomTruth(db, row, InAtom(lib, m, items)) == True <==> OneOf(lib, db, row(m.column), m.kind, items)
  {
    var a := InAtom(lib, m, items);
    forall i | 0 <= i < |items| && row(m.column).Some?
      ensures db.equal(row(m.column).value, a.args[i]) <==> Satisfies(lib, db, row(m.column), m.kind, "eq", items[i])
    {
      ConvertIsMeaning(lib, m.kind, items[i]);
    }
  }

  lemma CompareMeaning(lib: Lib, db: Db, row: Row, m: Meta, name: string, v: Json)
    requires PlainColumn(m) && name in NAMES && Readable(lib, m.kind, v)
    ensures CompareAtom(lib, m, name, v).Valid()
    ensures AtomTruth(db, row, CompareAtom(lib, m, name, v)) == True <==>
            Satisfies(lib, db, row(m.column), m.kind, name, v)
  {
    OperatorNames(name);
    ConvertIsMeaning(lib, m.kind, v);
    OperatorsArePlain(Operator(name).value);
    if row(m.column).Some? { OperatorIsMeaning(db, name, row(m.column).value, Convert(lib, m.kind, v).value); }
  }

  lemma OpMeaning(lib: Lib, db: Db, row: Row, m: Meta, key: string, v: Json)
    requires PlainColumn(m) && CompilableOp(lib, m.kind, key, v)
    ensures OpAtom(lib, m, key, v).Valid()
    ensures AtomTruth(db, row, OpAtom(lib, m, key, v)) == True <==> HoldsOp(lib, db, row(m.column), m.kind, key, v)
  {
    if lib.lower(key) == "in" {
      InMeaning(lib, db, row, m, v.items);
    } else {
      CompareMeaning(lib, db, row, m, lib.lower(key), v);
    }
  }

  lemma FieldMeaning(lib: Lib, db: Db, row: Row, m: Meta, v: Json)
    requires PlainColumn(m) && CompilableField(lib, m.kind, v)
    ensures forall a :: a in FieldAtoms(lib, m, v) ==> a.Valid()
    ensures AllTrue(db, row, FieldAtoms(lib, m, v)) <==> HoldsField(lib, db, row(m.column), m.kind, v)
  {
    if v.JObj? {
      forall key | key in v.fields
        ensures OpAtom(lib, m, key, v.fields[key]).Valid()
        ensures AtomTruth(db, row, OpAtom(lib, m, key, v.fields[key])) == True
                <==> HoldsOp(lib, db, row(m.column), m.kind, key, v.fields[key])
        ensures OpAtom(lib, m, key, v.fields[key]) in FieldAtoms(lib, m, v)
      {
        OpMeaning(lib, db, row, m, key, v.fields[key]);
      }
    } else if v.JArr? {
      InMeaning(lib, db, row, m, v.items);
      assert InAtom(lib, m, v.items) in FieldAtoms(lib, m, v);
    } else {
      CompareMeaning(lib, db, row, m, "eq", v);
      assert CompareAtom(lib, m, "eq", v) in FieldAtoms(lib, m, v);
    }
  }

  /** All atoms are true exactly when the condition map holds. */
  lemma {:induction false} CondsMeaning(lib: Lib, db: Db, row: Row, conds: UserConditions)
    requires forall field :: field in conds ==> Known(lib, conds, field)
    ensures forall a :: a in AtomsOf(lib, conds) ==> a.Valid()
    ensures AllTrue(db, row, AtomsOf(lib, conds)) <==> Holds(lib, db, row, conds)
  {
    forall field | field in conds
      ensures forall a :: a in AtomsAt(lib, conds, field) ==> a.Valid() && a in AtomsOf(lib, conds)
      ensures AllTrue(db, row, AtomsAt(lib, conds, field))
              <==> HoldsField(lib, db, row(field), KindOf(field).value, conds[field].json)
    {
      FieldsArePlain(field);
      FieldMeaning(lib, db, row, Meta(field, KindOf(field).value), conds[field].json);
    }
    if AllTrue(db, row, AtomsOf(lib, conds)) {
      forall field | field in conds ensures AllTrue(db, row, AtomsAt(lib, conds, field)) {}
    }
  }

  // ---- the compiler ----

  datatype BuildError = MissingConditions | UnsupportedField(field: string) | BadCondition(field: string) | NoClauses

  // Clauses with the arguments of all of them.
  type Built = (seq<string>, seq<Value>)

  /** The clauses are those of the atoms, in some order, with the arguments in the same order. */
  ghost predicate Lists(built: Built, atoms: set<Atom>) {
    exists list: seq<Atom> :: Enumerates(list, atoms) && built == (Texts(list), Args(list))
  }

  ghost predicate Enumerates(list: seq<Atom>, atoms: set<Atom>) { forall a :: a in list <==> a in atoms }

  lemma {:induction false} ArgsAppend(xs: seq<Atom>, ys: seq<Atom>)
    ensures Args(xs + ys) == Args(xs) + Args(ys)
  {
    if xs == [] {
      assert xs + ys == ys;
    } else {
      assert (xs + ys)[1..] == xs[1..] + ys;
      ArgsAppend(xs[1..], ys);
    }
  }

  lemma ListsAppend(x: Built, xs: set<Atom>, y: Built, ys: set<Atom>)
    requires Lists(x, xs) && Lists(y, ys)
    ensures Lists((x.0 + y.0, x.1 + y.1), xs + ys)
  {
    var l :| Enumerates(l, xs) && x == (Texts(l), Args(l));
    var k :| Enumerates(k, ys) && y == (Texts(k), Args(k));
    ArgsAppend(l, k);
    TextsAppend(l, k);
    EnumeratesAppend(l, xs, k, ys);
  }

  lemma TextsAppend(xs: seq<Atom>, ys: seq<Atom>)
    ensures Texts(xs + ys) == Texts(xs) + Texts(ys)
  {
  }

  lemma EnumeratesAppend(l: seq<Atom>, xs: set<Atom>, k: seq<Atom>, ys: set<Atom>)
    requires Enumerates(l, xs) && Enumerates(k, ys)
    ensures Enumerates(l + k, xs + ys)
  {
  }

  lemma ListsNothing()
    ensures Lists(([], []), {})
  {
    assert Enumerates([], {}) && Texts([]) == [];
  }

  lemma ListsOne(a: Atom)
    ensures Lists(([AtomText(a)], a.args), {a})
  {
    assert [a][1..] == [] && a.args + Args([]) == a.args;
    assert Enumerates([a], {a}) && Texts([a]) == [AtomText(a)] && Args([a]) == a.args;
  }

  // buildEqualityClause and buildComparisonClause, which differ in the operator only.
  function BuildClause(lib: Lib, m: Meta, v: Json, op: string): Option<(string, Value)> {
    match Convert(lib, m.kind, v)
    case None => None
    case Some(arg) => Some((m.column + " " + op + " ?", arg))
  }

  method BuildInClause(lib: Lib, m: Meta, values: seq<Json>) returns (r: Option<Built>)
    ensures r.Some? <==> ReadableItems(lib, m.kind, values)
    ensures r.Some? ==> Lists(r.value, {InAtom(lib, m, values)})
  {
    ItemsConvert(lib, m.kind, values);
    if |values| == 0 { return None; }
    var placeholders, args := [], [];
    for i := 0 to |values|
      invariant forall j :: 0 <= j < i ==> Convert(lib, m.kind, values[j]).Some?
      invariant placeholders == Marks(i) && args == ConvertAll(lib, m.kind, values[..i])
    {
      match Convert(lib, m.kind, values[i])
      case None => return None;
      case Some(arg) =>
        args := args + [arg];
        placeholders := placeholders + ["?"];
        assert placeholders == Marks(i + 1);
    }
    assert values[..|values|] == values;
    var clause := m.column + " IN (" + Text.Join(placeholders, ", ") + ")";
    ListsOne(InAtom(lib, m, values));
    return Some(([clause], args));
  }

  method ParseOp(lib: Lib, m: Meta, key: string, v: Json) returns (r: Option<Built>)
    ensures r.Some? <==> CompilableOp(lib, m.kind, key, v)
    ensures r.Some? ==> Lists(r.value, {OpAtom(lib, m, key, v)})
  {
    var name := lib.lower(key);
    OperatorNames(name);
    ConvertIsMeaning(lib, m.kind, v);
    if name == "in" {
      if !v.JArr? { return None; }
      r := BuildInClause(lib, m, v.items);
      return;
    }
    var op := Operator(name);
    if op.None? || (name == "like" && m.kind != Textual) { return None; }
    match BuildClause(lib, m, v, op.value)
    case None => return None;
    case Some((clause, arg)) =>
      ListsOne(OpAtom(lib, m, key, v));
      return Some(([clause], [arg]));
  }

  /** The operators of an object, in whatever order the map yields them. */
  method ParseConditionObject(lib: Lib, m: Meta, obj: map<string, Json>) returns (r: Option<Built>)
    ensures r.Some? <==> CompilableField(lib, m.kind, JObj(obj))
    ensures r.Some? ==> Lists(r.value, FieldAtoms(lib, m, JObj(obj)))
  {
    var built: Built := ([], []);
    var left := obj.Keys;
    ghost var atoms: set<Atom> := {};
    ListsNothing();
    while left != {}
      invariant left <= obj.Keys
      invariant forall key :: key in obj.Keys - left ==> CompilableOp(lib, m.kind, key, obj[key])
      invariant atoms == set key | key in obj.Keys - left :: OpAtom(lib, m, key, obj[key])
      invariant Lists(built, atoms)
      decreases left
    {
      var key :| key in left;
      var one := ParseOp(lib, m, key, obj[key]);
      if one.None? { return None; }
      ListsAppend(built, atoms, one.value, {OpAtom(lib, m, key, obj[key])});
      built := (built.0 + one.value.0, built.1 + one.value.1);
      atoms := atoms + {OpAtom(lib, m, key, obj[key])};
      left := left - {key};
    }
    assert obj.Keys - left == obj.Keys;
    assert atoms == FieldAtoms(lib, m, JObj(obj));
    return Some(built);
  }

  method ParseCondition(lib: Lib, m: Meta, raw: Raw) returns (r: Option<Built>)
    ensures r.Some? <==> raw.Parsed? && CompilableField(lib, m.kind, raw.json)
    ensures r.Some? ==> Lists(r.value, FieldAtoms(lib, m, raw.json))
  {
    if raw.Malformed? { return None; }
    var v := raw.json;
    if v.JObj? {
      r := ParseConditionObject(lib, m, v.fields);
    } else if v.JArr? {
      r := BuildInClause(lib, m, v.items);
    } else {
      ConvertIsMeaning(lib, m.kind, v);
      match BuildClause(lib, m, v, "=")
      case None => return None;
      case Some((clause, arg)) =>
        ListsOne(CompareAtom(lib, m, "eq", v));
        return Some(([clause], [arg]));
    }
  }

  /** Whatever the database and the row, the text with its arguments is a valid condition, and it is true
      exactly when the condition map holds. */
  ghost predicate Means(lib: Lib, sql: string, args: seq<Value>, conds: UserConditions) {
    forall db: Db, row: Row ::
      EvalText(db, row, sql, args).Some? && (EvalText(db, row, sql, args) == Some(True) <==> Holds(lib, db, row, conds))
  }

  lemma ListMeans(lib: Lib, conds: UserConditions, list: seq<Atom>)
    requires forall field :: field in conds ==> Known(lib, conds, field)
    requires list != [] && Enumerates(list, AtomsOf(lib, conds))
    ensures Means(lib, Text.Join(Texts(list), " AND "), Args(list), conds)
    ensures CountMarks(Text.Join(Texts(list), " AND ")) == |Args(list)| > 0
  {
    var sql, args := Text.Join(Texts(list), " AND "), Args(list);
    forall db: Db, row: Row
      ensures AllValid(list) && EvalText(db, row, sql, args).Some?
      ensures EvalText(db, row, sql, args) == Some(True) <==> Holds(lib, db, row, conds)
    {
      CondsMeaning(lib, db, row, conds);
      assert forall i :: 0 <= i < |list| ==> list[i] in AtomsOf(lib, conds);
      TextMeansAtoms(db, row, list);
      if forall i :: 0 <= i < |list| ==> AtomTruth(db, row, list[i]) == True {
        assert AllTrue(db, row, AtomsOf(lib, conds));
      }
    }
    CondsMeaning(lib, Db((_, _) => true, (_, _) => true, (_, _) => true), NullRow(), conds);
    assert list[0] in AtomsOf(lib, conds);
    CountTexts(list);
  }

  // There are atoms exactly when some field is not an empty object.
  lemma SomeAtom(lib: Lib, conds: UserConditions)
    requires forall field :: field in conds ==> Known(lib, conds, field)
    ensures AtomsOf(lib, conds) != {} <==> Compilable(lib, conds)
  {
    forall field | field in conds
      ensures AtomsAt(lib, conds, field) != {} <==> conds[field] != Parsed(JObj(map[]))
      ensures AtomsAt(lib, conds, field) <= AtomsOf(lib, conds)
    {
      var v := conds[field].json;
      if v.JObj? && v.fields != map[] {
        var key :| key in v.fields;
        assert OpAtom(lib, Meta(field, KindOf(field).value), key, v.fields[key]) in AtomsAt(lib, conds, field);
      }
    }
    if a :| a in AtomsOf(lib, conds) {
      var field :| field in conds && a in AtomsAt(lib, conds, field);
    }
  }

  // A compilable map does not match a row of NULLs.
  lemma {:induction false} NeverVacuous(lib: Lib, db: Db, conds: UserConditions)
    requires Compilable(lib, conds)
    ensures !Holds(lib, db, NullRow(), conds)
  {
    SomeAtom(lib, conds);
    CondsMeaning(lib, db, NullRow(), conds);
    var a :| a in AtomsOf(lib, conds);
    assert AtomTruth(db, NullRow(), a) == Unknown;
  }

  function NullRow(): Row { _ => None }

  /** The condition is not vacuous: no database takes it as true of a row of NULLs. */
  ghost predicate Selective(sql: string, args: seq<Value>) {
    forall db: Db :: EvalText(db, NullRow(), sql, args) != Some(True)
  }

  lemma MeansSelective(lib: Lib, sql: string, args: seq<Value>, conds: UserConditions)
    requires Compilable(lib, conds) && Means(lib, sql, args, conds)
    ensures Selective(sql, args)
  {
    forall db: Db ensures EvalText(db, NullRow(), sql, args) != Some(True) { NeverVacuous(lib, db, conds); }
  }

  /** What an error says about the map. */
  ghost predicate Explains(e: BuildError, lib: Lib, conds: UserConditions) {
    match e
    case MissingConditions => conds == map[]
    case UnsupportedField(field) => field in conds && KindOf(field).None?
    case BadCondition(field) => field in conds && KindOf(field).Some? && !Known(lib, conds, field)
    case NoClauses => conds != map[] && forall field :: field in conds ==> conds[field] == Parsed(JObj(map[]))
  }

  /** A build succeeds exactly for the compilable maps, and what it returns means the map: for every
      order in which the maps are iterated, for every database and every row. It is never vacuous. */
  method BuildUserConditionClause(lib: Lib, conds: UserConditions)
    returns (r: Result<(string, seq<Value>), BuildError>)
    ensures r.Ok? <==> Compilable(lib, conds)
    ensures r.Ok? ==> Means(lib, r.value.0, r.value.1, conds)
    ensures r.Ok? ==> CountMarks(r.value.0) == |r.value.1| > 0
    ensures r.Ok? ==> Selective(r.value.0, r.value.1)
    ensures r.Err? ==> Explains(r.error, lib, conds)
  {
    if conds == map[] { return Err(MissingConditions); }
    var built: Built := ([], []);
    var left := conds.Keys;
    ghost var atoms: set<Atom> := {};
    ListsNothing();
    while left != {}
      invariant left <= conds.Keys
      invariant forall field :: field in conds.Keys - left ==> Known(lib, conds, field)
      invariant atoms == set field, a | field in conds.Keys - left && a in AtomsAt(lib, conds, field) :: a
      invariant Lists(built, atoms)
      decreases left
    {
      var field :| field in left;
      MetaIsByName(field);
      if field !in USER_CONDITION_META { return Err(UnsupportedField(field)); }
      var one := ParseCondition(lib, USER_CONDITION_META[field], conds[field]);
      if one.None? { return Err(BadCondition(field)); }
      ListsAppend(built, atoms, one.value, AtomsAt(lib, conds, field));
      built := (built.0 + one.value.0, built.1 + one.value.1);
      atoms := atoms + AtomsAt(lib, conds, field);
      left := left - {field};
    }
    assert conds.Keys - left == conds.Keys;
    assert atoms == AtomsOf(lib, conds);
    SomeAtom(lib, conds);
    ghost var list :| Enumerates(list, atoms) && built == (Texts(list), Args(list));
    if |built.0| == 0 { return Err(NoClauses); }
    assert list[0] in atoms;
    ListMeans(lib, conds, list);
    MeansSelective(lib, Text.Join(built.0, " AND "), built.1, conds);
    return Ok((Text.Join(built.0, " AND "), built.1));
  }
}
