/** The conditions of batch updates: what a JSON condition map means, and what an SQL WHERE clause with positional
    arguments means (cdmp-mini/internal/pkg/server/consumer.go:308-333, 2973-3233). */
module Conditions {
  import opened Wrappers
  import Text

  // ---- the source language ----

  datatype Json =
    | JNull | JBool(b: bool) | JNum(r: real) | JStr(s: string)
    | JArr(items: seq<Json>) | JObj(fields: map<string, Json>)

  datatype Raw = Malformed | Parsed(json: Json)

  type UserConditions = map<string, Raw>

  datatype Kind = Numeric | Textual | Temporal

  /** The fields a condition may name; each is the column of the same name. */
  function KindOf(field: string): Option<Kind> {
    if field in {"id", "status", "isAdmin", "version"} then Some(Numeric)
    else if field in {"instanceID", "name", "email", "phone"} then Some(Textual)
    else if field in {"createdAt", "updatedAt", "loginedAt"} then Some(Temporal)
    else None
  }

  /** The library calls the compiler makes; nothing is assumed about them. */
  datatype Lib = Lib(
    lower: string -> string, trim: string -> string,
    int64: real -> int, parseInt: string -> Option<int>,
    parseNano: string -> Option<int>, parseSecond: string -> Option<int>, unix: real -> int)

  datatype Value = Number(i: int) | Str(s: string) | Moment(t: int)

  // ---- what a condition means ----

  /** The value that a JSON value stands for in a column of some kind; it may have none. */
  ghost predicate Denotes(lib: Lib, kind: Kind, v: Json, x: Value) {
    match kind
    case Numeric =>
      && x.Number?
      && (|| (v.JNum? && x.i == lib.int64(v.r))
          || (v.JStr? && lib.trim(v.s) != "" && lib.parseInt(lib.trim(v.s)) == Some(x.i)))
    case Textual => x.Str? && v == JStr(x.s)
    case Temporal =>
      && x.Moment?
      && (|| (v.JNum? && x.t == lib.unix(v.r))
          || (v.JStr? && lib.trim(v.s) != ""
              && (|| lib.parseNano(lib.trim(v.s)) == Some(x.t)
                  || (lib.parseNano(lib.trim(v.s)).None? && lib.parseSecond(lib.trim(v.s)) == Some(x.t)))))
  }

  ghost predicate Readable(lib: Lib, kind: Kind, v: Json) { exists x :: Denotes(lib, kind, v, x) }

  /** The database: how it compares two values. A cell is `None` when it is NULL. */
  datatype Db = Db(equal: (Value, Value) -> bool, less: (Value, Value) -> bool, like: (Value, Value) -> bool)
  type Row = string -> Option<Value>

  const NAMES := {"eq", "neq", "like", "gt", "gte", "lt", "lte"}

  // What the JSON operators ask of a cell.
  predicate Fits(db: Db, name: string, cell: Value, x: Value) {
    || (name == "eq" && db.equal(cell, x))
    || (name == "neq" && !db.equal(cell, x))
    || (name == "like" && db.like(cell, x))
    || (name == "gt" && db.less(x, cell))
    || (name == "gte" && (db.less(x, cell) || db.equal(cell, x)))
    || (name == "lt" && db.less(cell, x))
    || (name == "lte" && (db.less(cell, x) || db.equal(cell, x)))
  }

  // No condition is met by NULL.
  ghost predicate Satisfies(lib: Lib, db: Db, cell: Option<Value>, kind: Kind, name: string, v: Json) {
    cell.Some? && exists x :: Denotes(lib, kind, v, x) && Fits(db, name, cell.value, x)
  }

  ghost predicate OneOf(lib: Lib, db: Db, cell: Option<Value>, kind: Kind, items: seq<Json>) {
    exists i :: 0 <= i < |items| && Satisfies(lib, db, cell, kind, "eq", items[i])
  }

  ghost predicate HoldsOp(lib: Lib, db: Db, cell: Option<Value>, kind: Kind, key: string, v: Json) {
    if lib.lower(key) == "in" then v.JArr? && OneOf(lib, db, cell, kind, v.items)
    else Satisfies(lib, db, cell, kind, lib.lower(key), v)
  }

  ghost predicate HoldsField(lib: Lib, db: Db, cell: Option<Value>, kind: Kind, v: Json) {
    if v.JObj? then forall key :: key in v.fields ==> HoldsOp(lib, db, cell, kind, key, v.fields[key])
    else if v.JArr? then OneOf(lib, db, cell, kind, v.items)
    else Satisfies(lib, db, cell, kind, "eq", v)
  }

  /** The meaning of a condition map: every field's condition holds of the column of that name. */
  ghost predicate Holds(lib: Lib, db: Db, row: Row, conds: UserConditions) {
    forall field :: field in conds ==>
      KindOf(field).Some? && conds[field].Parsed?
      && HoldsField(lib, db, row(field), KindOf(field).value, conds[field].json)
  }

  // ---- which condition maps compile ----

  ghost predicate ReadableItems(lib: Lib, kind: Kind, items: seq<Json>) {
    items != [] && forall i :: 0 <= i < |items| ==> Readable(lib, kind, items[i])
  }

  ghost predicate CompilableOp(lib: Lib, kind: Kind, key: string, v: Json) {
    if lib.lower(key) == "in" then v.JArr? && ReadableItems(lib, kind, v.items)
    else lib.lower(key) in NAMES && (lib.lower(key) == "like" ==> kind == Textual) && Readable(lib, kind, v)
  }

  ghost predicate CompilableField(lib: Lib, kind: Kind, v: Json) {
    if v.JObj? then forall key :: key in v.fields ==> CompilableOp(lib, kind, key, v.fields[key])
    else if v.JArr? then ReadableItems(lib, kind, v.items)
    else Readable(lib, kind, v)
  }

  ghost predicate Known(lib: Lib, conds: UserConditions, field: string)
    requires field in conds
  {
    KindOf(field).Some? && conds[field].Parsed? && CompilableField(lib, KindOf(field).value, conds[field].json)
  }

  /** Every field is known, parsed and readable, and not all of them are empty objects. */
  ghost predicate Compilable(lib: Lib, conds: UserConditions) {
    && (forall field :: field in conds ==> Known(lib, conds, field))
    && (exists field :: field in conds && conds[field] != Parsed(JObj(map[])))
  }

  // ---- the target language ----

  const SQL_OPERATORS := {"=", "<>", ">", ">=", "<", "<=", "LIKE"}

  // What the SQL operators say of a cell.
  predicate Compares(db: Db, op: string, cell: Value, x: Value)
    requires op in SQL_OPERATORS
  {
    if op == "=" then db.equal(cell, x)
    else if op == "<>" then !db.equal(cell, x)
    else if op == ">" then db.less(x, cell)
    else if op == ">=" then db.less(x, cell) || db.equal(cell, x)
    else if op == "<" then db.less(cell, x)
    else if op == "<=" then db.less(cell, x) || db.equal(cell, x)
    else db.like(cell, x)
  }

  /** One conjunct with its arguments: `column op ?`, or `column IN (?, ..., ?)`. */
  datatype Atom = Atom(column: string, op: string, args: seq<Value>) {
    predicate Valid() {
      && ' ' !in column && '?' !in column
      && args != [] && (op == "IN" || (op in SQL_OPERATORS && |args| == 1))
    }
  }

  function Marks(n: nat): seq<string> { seq(n, _ => "?") }

  function AtomText(a: Atom): string {
    if a.op == "IN" then a.column + " IN (" + Text.Join(Marks(|a.args|), ", ") + ")"
    else a.column + " " + a.op + " ?"
  }

  function Texts(atoms: seq<Atom>): (ts: seq<string>)
    ensures |ts| == |atoms|
  {
    seq(|atoms|, i requires 0 <= i < |atoms| => AtomText(atoms[i]))
  }

  function Args(atoms: seq<Atom>): seq<Value> {
    if atoms == [] then [] else atoms[0].args + Args(atoms[1..])
  }

  // SQL's three truth values.
  datatype Truth = True | False | Unknown

  function And(a: Truth, b: Truth): Truth {
    if a == False || b == False then False else if a == True && b == True then True else Unknown
  }

  /** A conjunct as read back from the text: `n` is the number of placeholders of an IN list. */
  datatype Clause = Compare(column: string, op: string) | In(column: string, n: nat) {
    function Holes(): nat { if Compare? then 1 else n }
  }

  function EvalClause(db: Db, row: Row, c: Clause, args: seq<Value>): Truth
    requires |args| == c.Holes() && (c.Compare? ==> c.op in SQL_OPERATORS)
  {
    match row(c.column)
    case None => Unknown
    case Some(cell) =>
      if c.Compare? then (if Compares(db, c.op, cell, args[0]) then True else False)
      else if exists i :: 0 <= i < |args| && db.equal(cell, args[i]) then True
      else False
  }

  // Arguments are consumed from left to right.
  function EvalClauses(db: Db, row: Row, cs: seq<Clause>, args: seq<Value>): Option<Truth> {
    if cs == [] then (if args == [] then Some(True) else None)
    else
      var n := cs[0].Holes();
      if |args| < n || (cs[0].Compare? && cs[0].op !in SQL_OPERATORS) then None
      else
        match EvalClauses(db, row, cs[1..], args[n..])
        case None => None
        case Some(rest) => Some(And(EvalClause(db, row, cs[0], args[..n]), rest))
  }

  // The rest of an IN list after its first placeholder: how many more, and what follows.
  function ReadMarks(words: seq<string>): Option<(nat, seq<string>)> {
    if words == [] then None
    else if words[0] == "?)" then Some((1, words[1..]))
    else if words[0] == "?," then
      (match ReadMarks(words[1..]) case None => None case Some((n, rest)) => Some((n + 1, rest)))
    else None
  }

  function ReadClause(words: seq<string>): (r: Option<(Clause, seq<string>)>)
    ensures r.Some? ==> |r.value.1| < |words|
  {
    if |words| < 3 then None
    else if words[1] == "IN" then
      if words[2] == "(?)" then Some((In(words[0], 1), words[3..]))
      else if words[2] == "(?," then
        ReadMarksShrinks(words[3..]);
        (match ReadMarks(words[3..]) case None => None case Some((n, rest)) => Some((In(words[0], n + 1), rest)))
      else None
    else if words[2] == "?" then Some((Compare(words[0], words[1]), words[3..]))
    else None
  }

  lemma {:induction false} ReadMarksShrinks(words: seq<string>)
    ensures ReadMarks(words).Some? ==> |ReadMarks(words).value.1| < |words|
  {
    if words != [] && words[0] == "?," { ReadMarksShrinks(words[1..]); }
  }

  function ReadClauses(words: seq<string>): Option<seq<Clause>>
    decreases |words|
  {
    match ReadClause(words)
    case None => None
    case Some((c, rest)) =>
      if rest == [] then Some([c])
      else if rest[0] != "AND" then None
      else (match ReadClauses(rest[1..]) case None => None case Some(cs) => Some([c] + cs))
  }

  /** The value of a WHERE text on a row; `None` if it is not of this form or the arguments do not fit. */
  function EvalText(db: Db, row: Row, sql: string, args: seq<Value>): Option<Truth> {
    match ReadClauses(Text.Split(sql, ' '))
    case None => None
    case Some(cs) => EvalClauses(db, row, cs, args)
  }
}
