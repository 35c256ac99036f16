/** Optimistic updates of one user row by any number of concurrent consumers: a snapshot, possibly
    stale, is patched and written back with `WHERE name = ? AND version = ?`
    (cdmp-mini/internal/pkg/server/consumer.go:1792-2030, 2819-2944). */
module VersionedUpdate {
  import opened Wrappers

  // ObjectMeta.Version is a uint64.
  const MODULUS: int := 0x1_0000_0000_0000_0000
  type Version = v: int | 0 <= v < MODULUS

  function Next(v: Version): Version { (v + 1) % MODULUS }

  // The version after k writes.
  function Nth(base: Version, k: nat): Version { (base + k) % MODULUS }

  // The columns in the UPDATE besides version (line 2866).
  datatype Columns = Columns(
    email: string, password: string, status: int, isAdmin: int, updatedAt: int,
    extendShadow: string, nickname: string, phone: Option<string>, loginedAt: Option<int>)

  datatype Row = Row(cols: Columns, version: Version)

  /** What a message makes of a snapshot in one of its attempts, each of which stamps the time anew; `None` if the patch
      cannot be applied or serialised. */
  type Change = (Row, nat) -> Option<Columns>

  datatype Request =
    | Single(change: Change, expected: Option<Version>, full: bool)
    | Batch(change: Change)

  datatype Outcome =
    | Updated | Discarded | Conflict | Unresolved | DuplicateKey | DeadLetter
    | Retry   // an error was reported and the message is sent to the retry topic

  datatype Phase =
    | Loading(attempt: nat)
    | Loaded(attempt: nat, snapshot: Row)
    | Writing(attempt: nat, snapshot: Row, cols: Columns, tries: nat)
    | Finished(outcome: Outcome)

  datatype Run = Run(req: Request, phase: Phase)

  /** A write that took effect. */
  datatype Applied = Applied(runId: nat, attempt: nat, expected: Version, change: Change)

  datatype State = State(row: Row, history: seq<Row>, applied: seq<Applied>, runs: seq<Run>)

  datatype DBResult =
    | Executed
    | Duplicate                    // unique constraint, nothing written
    | Deadlock                     // rolled back, may be retried
    | Failed(afterWrite: bool)     // any other error, possibly after the statement took effect (line 2917)

  datatype Action =
    | Start(req: Request)
    | Load(i: nat, age: nat)       // read the row as it was `age` writes ago
    | LoadFails(i: nat)
    | Prepare(i: nat)
    | Execute(i: nat, result: DBResult)

  const MAX_ATTEMPTS := 3          // maxConflictResyncAttempts
  const MAX_TRIES := 3             // dbWriteMaxRetries

  function Init(row: Row): State { State(row, [row], [], []) }

  function SetPhase(s: State, i: nat, p: Phase): State
    requires i < |s.runs|
  {
    s.(runs := s.runs[i := s.runs[i].(phase := p)])
  }

  /** Reads that must see the current row: a client that names a version, and the first read of a batch. */
  predicate ReadsDatabase(req: Request, attempt: nat) {
    match req case Single(_, expected, _) => expected.Some? case Batch(_) => attempt <= 1
  }

  // Lines 1820-1895 and 1971-1984: patch first, then the version checks.
  function Prepared(req: Request, attempt: nat, snapshot: Row): Phase {
    match req.change(snapshot, attempt)
    case None => Finished(DeadLetter)
    case Some(cols) =>
      if req.Single? && req.expected.Some? && req.expected.value != snapshot.version then Finished(Discarded)
      else if req.Single? && req.expected.None? && req.full then Finished(Discarded)
      else Writing(attempt, snapshot, cols, 1)
  }

  // No row matched: give up, or reload the snapshot.
  function AfterConflict(req: Request, attempt: nat): Phase {
    if req.Single? then Finished(Conflict)
    else if attempt >= MAX_ATTEMPTS then Finished(Unresolved)
    else Loading(attempt + 1)
  }

  // The UPDATE statement itself, for a version that matches.
  function Write(s: State, i: nat, w: Phase): State
    requires i < |s.runs| && w.Writing?
  {
    var row := Row(w.cols, Next(w.snapshot.version));
    s.(row := row, history := s.history + [row],
       applied := s.applied + [Applied(i, w.attempt, w.snapshot.version, s.runs[i].req.change)])
  }

  function ExecuteStep(s: State, i: nat, w: Phase, result: DBResult): State
    requires i < |s.runs| && w.Writing?
  {
    var matches := s.row.version == w.snapshot.version;
    match result
    case Executed =>
      if matches then SetPhase(Write(s, i, w), i, Finished(Updated))
      else SetPhase(s, i, AfterConflict(s.runs[i].req, w.attempt))
    case Duplicate => SetPhase(s, i, Finished(DuplicateKey))
    case Deadlock =>
      SetPhase(s, i, if w.tries < MAX_TRIES then w.(tries := w.tries + 1) else Finished(Retry))
    case Failed(afterWrite) =>
      SetPhase(if afterWrite && matches then Write(s, i, w) else s, i, Finished(Retry))
  }

  function Step(s: State, a: Action): (t: State)
    ensures |t.history| - |t.applied| == |s.history| - |s.applied|
  {
    if a.Start? then s.(runs := s.runs + [Run(a.req, Loading(1))])
    else if a.i >= |s.runs| then s
    else
      var r := s.runs[a.i];
      match a
      case Load(i, age) =>
        if r.phase.Loading? && age < |s.history| && (ReadsDatabase(r.req, r.phase.attempt) ==> age == 0)
        then SetPhase(s, i, Loaded(r.phase.attempt, s.history[|s.history| - 1 - age])) else s
      case LoadFails(i) => if r.phase.Loading? then SetPhase(s, i, Finished(Retry)) else s
      case Prepare(i) =>
        if r.phase.Loaded? then SetPhase(s, i, Prepared(r.req, r.phase.attempt, r.phase.snapshot)) else s
      case Execute(i, result) => if r.phase.Writing? then ExecuteStep(s, i, r.phase, result) else s
  }

  /** The state after any interleaving; every list of actions is a run of the system. */
  function Exec(row: Row, run: seq<Action>): (s: State)
    ensures |s.history| == |s.applied| + 1
  {
    if run == [] then Init(row) else Step(Exec(row, run[..|run|-1]), run[|run|-1])
  }

  // ---- a run with the states it passes through ----

  ghost predicate StepsTo(run: seq<Action>, states: seq<State>, k: nat)
    requires k < |run| && |states| == |run| + 1
  {
    states[k + 1] == Step(states[k], run[k])
  }

  ghost predicate IsRun(row: Row, run: seq<Action>, states: seq<State>) {
    && |states| == |run| + 1 && states[0] == Init(row)
    && forall k :: 0 <= k < |run| ==> StepsTo(run, states, k)
  }

  lemma RunSnoc(row: Row, run: seq<Action>, states: seq<State>, a: Action, t: State)
    requires IsRun(row, run, states) && t == Step(states[|run|], a)
    ensures IsRun(row, run + [a], states + [t])
  {
    forall k | 0 <= k < |run + [a]| ensures StepsTo(run + [a], states + [t], k) {
      if k < |run| { assert StepsTo(run, states, k); }
    }
  }

  lemma {:induction false} RunIsExec(row: Row, run: seq<Action>, states: seq<State>)
    requires IsRun(row, run, states)
    ensures states[|run|] == Exec(row, run)
  {
    if run != [] {
      var n := |run| - 1;
      var rest, before := run[..n], states[..n + 1];
      forall k | 0 <= k < n ensures StepsTo(rest, before, k) { assert StepsTo(run, states, k); }
      RunIsExec(row, rest, before);
      assert StepsTo(run, states, n);
    }
  }

  // ---- the reference: changes applied one after the other ----

  // What a write makes of a row.
  function Made(w: Applied, before: Row): Option<Columns> { w.change(before, w.attempt) }

  function Replay(row: Row, applied: seq<Applied>): Option<Row> {
    if applied == [] then Some(row)
    else
      match Replay(row, applied[..|applied|-1])
      case None => None
      case Some(before) =>
        match Made(applied[|applied|-1], before)
        case None => None
        case Some(cols) => Some(Row(cols, Next(before.version)))
  }

  function CountBy(applied: seq<Applied>, i: nat): nat {
    if applied == [] then 0
    else CountBy(applied[..|applied|-1], i) + (if applied[|applied|-1].runId == i then 1 else 0)
  }

  // ---- the invariant ----

  /** Versions count the writes, modulo the width of the column. */
  ghost predicate Numbered(s: State) {
    && |s.history| == |s.applied| + 1 && s.row == s.history[|s.history|-1]
    && (forall k :: 0 <= k < |s.history| ==> s.history[k].version == Nth(s.history[0].version, k))
    && (forall k :: 0 <= k < |s.applied| ==> s.applied[k].expected == s.history[k].version)
  }

  /** Each write was computed from the row it replaced. */
  ghost predicate Derived(s: State) {
    |s.history| == |s.applied| + 1 &&
    forall k :: 0 <= k < |s.applied| ==> Made(s.applied[k], s.history[k]) == Some(s.history[k + 1].cols)
  }

  ghost predicate SnapshotsStored(s: State) {
    forall i :: 0 <= i < |s.runs| && (s.runs[i].phase.Loaded? || s.runs[i].phase.Writing?) ==>
      s.runs[i].phase.snapshot in s.history
  }

  ghost predicate WritesPrepared(s: State) {
    forall i :: 0 <= i < |s.runs| && s.runs[i].phase.Writing? ==>
      var w, req := s.runs[i].phase, s.runs[i].req;
      && req.change(w.snapshot, w.attempt) == Some(w.cols)
      && Allows(req, w.snapshot.version)
  }

  /** A row of this version may be written: a version that is named is this one, and a full update names one. */
  predicate Allows(req: Request, version: Version) {
    req.Single? ==> (req.expected.Some? ==> req.expected.value == version) && (req.full ==> req.expected.Some?)
  }

  // What a phase says about the number of writes made so far.
  predicate Tells(p: Phase, writes: nat) {
    if p == Finished(Updated) then writes == 1
    else if p == Finished(Retry) then writes <= 1
    else writes == 0
  }

  /** A run has written at most once, and reports it truthfully. */
  ghost predicate Truthful(s: State, i: nat) {
    i < |s.runs| ==> Tells(s.runs[i].phase, CountBy(s.applied, i))
  }

  ghost predicate Known(s: State) {
    forall k :: 0 <= k < |s.applied| ==>
      s.applied[k].runId < |s.runs| && s.applied[k].change == s.runs[s.applied[k].runId].req.change
      && Allows(s.runs[s.applied[k].runId].req, s.applied[k].expected)
  }

  /** What holds however often the row is written. */
  ghost predicate Ledger(s: State) { Numbered(s) && WritesPrepared(s) && Known(s) }

  /** What holds as long as versions do not repeat. */
  ghost predicate Rooted(s: State) { Derived(s) && SnapshotsStored(s) }

  ghost predicate Inv(s: State) { Ledger(s) && Rooted(s) }

  // A stored row with the current version is the current row: versions have not wrapped around.
  lemma SameVersionSameRow(s: State, snapshot: Row)
    requires Numbered(s) && |s.history| <= MODULUS && snapshot in s.history && snapshot.version == s.row.version
    ensures snapshot == s.row
  {
    var k :| 0 <= k < |s.history| && s.history[k] == snapshot;
    DistinctResidues(s.history[0].version, k, |s.history| - 1);
  }

  lemma DistinctResidues(base: Version, i: nat, j: nat)
    requires i <= j && Nth(base, i) == Nth(base, j)
    ensures (j - i) % MODULUS == 0
    ensures j - i < MODULUS ==> i == j
  {
  }

  lemma NextNumber(base: Version, k: nat)
    ensures Next(Nth(base, k)) == Nth(base, k + 1)
  {
  }

  lemma WriteKeepsLedger(s: State, i: nat)
    requires Ledger(s) && i < |s.runs| && s.runs[i].phase.Writing?
    requires s.row.version == s.runs[i].phase.snapshot.version
    ensures Ledger(Write(s, i, s.runs[i].phase))
  {
    NextNumber(s.history[0].version, |s.history| - 1);
  }

  lemma WriteKeepsRoots(s: State, i: nat)
    requires Inv(s) && i < |s.runs| && s.runs[i].phase.Writing? && |s.history| <= MODULUS
    requires s.row.version == s.runs[i].phase.snapshot.version
    ensures Rooted(Write(s, i, s.runs[i].phase))
  {
    SameVersionSameRow(s, s.runs[i].phase.snapshot);
  }

  lemma {:induction false} CountAbsent(applied: seq<Applied>, i: nat)
    requires forall k :: 0 <= k < |applied| ==> applied[k].runId != i
    ensures CountBy(applied, i) == 0
  {
    if applied != [] { CountAbsent(applied[..|applied|-1], i); }
  }

  lemma WriteCounts(s: State, i: nat, j: nat)
    requires i < |s.runs| && s.runs[i].phase.Writing?
    ensures CountBy(Write(s, i, s.runs[i].phase).applied, j) == CountBy(s.applied, j) + (if i == j then 1 else 0)
  {
    var t := Write(s, i, s.runs[i].phase);
    assert t.applied[..|t.applied|-1] == s.applied;
  }

  // What a run's phase owes to its request.
  ghost predicate PhasePrepared(req: Request, p: Phase) {
    p.Writing? ==>
      && req.change(p.snapshot, p.attempt) == Some(p.cols)
      && Allows(req, p.snapshot.version)
  }

  lemma SetPhaseKeepsLedger(s: State, i: nat, p: Phase)
    requires Ledger(s) && i < |s.runs| && PhasePrepared(s.runs[i].req, p)
    ensures Ledger(SetPhase(s, i, p))
  {
    var t := SetPhase(s, i, p);
    assert forall j :: 0 <= j < |t.runs| ==> t.runs[j].req == s.runs[j].req;
    assert Known(t);
  }

  lemma SetPhaseKeepsRoots(s: State, i: nat, p: Phase)
    requires Rooted(s) && i < |s.runs| && (p.Loaded? || p.Writing? ==> p.snapshot in s.history)
    ensures Rooted(SetPhase(s, i, p))
  {
  }

  predicate Writes(s: State, w: Phase, result: DBResult)
    requires w.Writing?
  {
    s.row.version == w.snapshot.version && (result.Executed? || (result.Failed? && result.afterWrite))
  }

  lemma ExecuteKeepsLedger(s: State, i: nat, result: DBResult)
    requires Ledger(s) && i < |s.runs| && s.runs[i].phase.Writing?
    ensures Ledger(ExecuteStep(s, i, s.runs[i].phase, result))
  {
    var w := s.runs[i].phase;
    if Writes(s, w, result) {
      WriteKeepsLedger(s, i);
      SetPhaseKeepsLedger(Write(s, i, w), i, Finished(if result.Executed? then Updated else Retry));
    } else {
      SetPhaseKeepsLedger(s, i, ExecuteStep(s, i, w, result).runs[i].phase);
    }
  }

  lemma ExecuteKeepsRoots(s: State, i: nat, result: DBResult)
    requires Inv(s) && i < |s.runs| && s.runs[i].phase.Writing?
    requires |ExecuteStep(s, i, s.runs[i].phase, result).applied| <= MODULUS
    ensures Rooted(ExecuteStep(s, i, s.runs[i].phase, result))
  {
    var w := s.runs[i].phase;
    if Writes(s, w, result) {
      WriteKeepsRoots(s, i);
      SetPhaseKeepsRoots(Write(s, i, w), i, Finished(if result.Executed? then Updated else Retry));
    } else {
      SetPhaseKeepsRoots(s, i, ExecuteStep(s, i, w, result).runs[i].phase);
    }
  }

  lemma StepKeepsLedger(s: State, a: Action)
    requires Ledger(s)
    ensures Ledger(Step(s, a))
  {
    if a.Start? {
      assert Known(Step(s, a));
    } else if a.i < |s.runs| && Step(s, a) != s {
      match a
      case Load(i, age) => SetPhaseKeepsLedger(s, i, Step(s, a).runs[i].phase);
      case LoadFails(i) => SetPhaseKeepsLedger(s, i, Finished(Retry));
      case Prepare(i) =>
        SetPhaseKeepsLedger(s, i, Prepared(s.runs[i].req, s.runs[i].phase.attempt, s.runs[i].phase.snapshot));
      case Execute(i, result) => ExecuteKeepsLedger(s, i, result);
    }
  }

  lemma StepKeepsRoots(s: State, a: Action)
    requires Inv(s) && |Step(s, a).applied| <= MODULUS
    ensures Rooted(Step(s, a))
  {
    if a.Start? {
    } else if a.i < |s.runs| && Step(s, a) != s {
      match a
      case Load(i, age) =>
        SetPhaseKeepsRoots(s, i, Loaded(s.runs[i].phase.attempt, s.history[|s.history| - 1 - age]));
      case LoadFails(i) => SetPhaseKeepsRoots(s, i, Finished(Retry));
      case Prepare(i) =>
        SetPhaseKeepsRoots(s, i, Prepared(s.runs[i].req, s.runs[i].phase.attempt, s.runs[i].phase.snapshot));
      case Execute(i, result) => ExecuteKeepsRoots(s, i, result);
    }
  }

  lemma ExecuteTruthful(s: State, i: nat, result: DBResult)
    requires i < |s.runs| && s.runs[i].phase.Writing? && Truthful(s, i)
    ensures Truthful(ExecuteStep(s, i, s.runs[i].phase, result), i)
  {
    var w := s.runs[i].phase;
    var n := CountBy(s.applied, i);
    assert Tells(w, n) && n == 0;
    WriteCounts(s, i, i);
    var t := ExecuteStep(s, i, w, result);
    if s.row.version == w.snapshot.version && (result.Executed? || (result.Failed? && result.afterWrite)) {
      assert CountBy(t.applied, i) == 1;
      assert t.runs[i].phase == Finished(if result.Executed? then Updated else Retry);
    } else {
      assert t.applied == s.applied;
      assert t.runs[i].phase != Finished(Updated);
    }
  }

  lemma StartTruthful(s: State, req: Request, j: nat)
    requires Known(s) && Truthful(s, j)
    ensures Truthful(Step(s, Start(req)), j)
  {
    if j >= |s.runs| { CountAbsent(s.applied, j); }
  }

  lemma StepTruthful(s: State, a: Action, j: nat)
    requires Known(s) && Truthful(s, j)
    ensures Truthful(Step(s, a), j)
  {
    if a.Start? {
      StartTruthful(s, a.req, j);
    } else if a.i < |s.runs| {
      if a.Execute? && s.runs[a.i].phase.Writing? {
        if a.i == j { ExecuteTruthful(s, j, a.result); } else { ExecuteFrame(s, a.i, a.result, j); }
      }
    }
  }

  // Another run's write is not counted as j's.
  lemma ExecuteFrame(s: State, i: nat, result: DBResult, j: nat)
    requires i < |s.runs| && s.runs[i].phase.Writing? && i != j
    ensures CountBy(ExecuteStep(s, i, s.runs[i].phase, result).applied, j) == CountBy(s.applied, j)
    ensures |ExecuteStep(s, i, s.runs[i].phase, result).runs| == |s.runs|
    ensures j < |s.runs| ==> ExecuteStep(s, i, s.runs[i].phase, result).runs[j] == s.runs[j]
  {
    WriteCounts(s, i, j);
  }

  lemma HistoryOnlyGrows(s: State, a: Action)
    requires s.history != []
    ensures |s.applied| <= |Step(s, a).applied|
    ensures s.history <= Step(s, a).history
  {
  }

  lemma {:induction false} RunKeepsLedger(row: Row, run: seq<Action>)
    ensures Ledger(Exec(row, run))
  {
    if run != [] {
      RunKeepsLedger(row, run[..|run|-1]);
      StepKeepsLedger(Exec(row, run[..|run|-1]), run[|run|-1]);
    }
  }

  lemma {:induction false} RunKeeps(row: Row, run: seq<Action>)
    requires |Exec(row, run).applied| <= MODULUS
    ensures Inv(Exec(row, run)) && Exec(row, run).history[0] == row
  {
    RunStart(row, run);
    RunKeepsLedger(row, run);
    if run != [] {
      RunStart(row, run[..|run|-1]);
      HistoryOnlyGrows(Exec(row, run[..|run|-1]), run[|run|-1]);
      RunKeeps(row, run[..|run|-1]);
      StepKeepsRoots(Exec(row, run[..|run|-1]), run[|run|-1]);
    }
  }

  lemma {:induction false} RunStart(row: Row, run: seq<Action>)
    ensures Exec(row, run).history != [] && Exec(row, run).history[0] == row
  {
    if run != [] {
      RunStart(row, run[..|run|-1]);
      HistoryOnlyGrows(Exec(row, run[..|run|-1]), run[|run|-1]);
    }
  }

  lemma {:induction false} RunTruthful(row: Row, run: seq<Action>, j: nat)
    ensures Truthful(Exec(row, run), j)
  {
    if run != [] {
      RunKeepsLedger(row, run[..|run|-1]);
      RunTruthful(row, run[..|run|-1], j);
      StepTruthful(Exec(row, run[..|run|-1]), run[|run|-1], j);
    }
  }

  lemma {:induction false} ReplayIsHistory(s: State, k: nat)
    requires Numbered(s) && Derived(s) && k <= |s.applied|
    ensures Replay(s.history[0], s.applied[..k]) == Some(s.history[k])
  {
    if k > 0 {
      assert s.applied[..k][..k-1] == s.applied[..k-1];
      ReplayIsHistory(s, k - 1);
      NextNumber(s.history[0].version, k - 1);
    }
  }

  lemma NumberedByOne(s: State)
    requires Numbered(s)
    ensures forall k :: 0 <= k < |s.applied| ==>
              s.applied[k].expected == s.history[k].version && s.history[k + 1].version == Next(s.history[k].version)
  {
    forall k | 0 <= k < |s.applied| ensures s.history[k + 1].version == Next(s.history[k].version) {
      NextNumber(s.history[0].version, k);
    }
  }

  lemma ExpectedNumbers(s: State, i: nat, j: nat)
    requires Numbered(s) && i < j < |s.applied|
    ensures s.applied[j].expected == Nth(s.history[0].version, j)
    ensures s.applied[i].expected == s.applied[j].expected ==> (j - i) % MODULUS == 0
    ensures |s.applied| <= MODULUS ==> s.applied[i].expected != s.applied[j].expected
  {
    if s.applied[i].expected == s.applied[j].expected { DistinctResidues(s.history[0].version, i, j); }
  }

  // ---- what the protocol guarantees ----

  /** No update is lost: the row is the fold of the applied changes, each computed from the row it replaces, and
      every one raises the version by exactly one. With more than 2^64 writes a stale snapshot can have the
      version of the current row. */
  lemma {:induction false} RowIsFoldOfChanges(row: Row, run: seq<Action>)
    ensures CountsWrites(row, Exec(row, run))
    ensures |Exec(row, run).applied| <= MODULUS ==> IsFold(row, Exec(row, run))
  {
    RunStart(row, run);
    RunKeepsLedger(row, run);
    NumberedByOne(Exec(row, run));
    if |Exec(row, run).applied| <= MODULUS {
      RunKeeps(row, run);
      FoldOfState(Exec(row, run));
    }
  }

  lemma FoldOfState(s: State)
    requires Numbered(s) && Derived(s)
    ensures IsFold(s.history[0], s)
  {
    ReplayIsHistory(s, |s.applied|);
    assert s.applied[..|s.applied|] == s.applied;
  }

  ghost predicate IsFold(row: Row, s: State) { Replay(row, s.applied) == Some(s.row) }

  ghost predicate CountsWrites(row: Row, s: State)
    requires |s.history| == |s.applied| + 1
  {
    && s.row.version == Nth(row.version, |s.applied|)
    && (forall k :: 0 <= k < |s.applied| ==>
          s.applied[k].expected == s.history[k].version && s.history[k + 1].version == Next(s.history[k].version))
  }

  // ---- after 2^64 writes ----

  lemma ExecSnoc(row: Row, run: seq<Action>, a: Action)
    ensures Exec(row, run + [a]) == Step(Exec(row, run), a)
  {
    assert (run + [a])[..|run|] == run;
  }

  function Suffixed(cols: Columns, suffix: string): Columns { cols.(email := cols.email + suffix) }

  // A slow patch of whatever it read, and the writes that overtake it.
  function Slow(): Request { Batch((r: Row, _) => Some(Suffixed(r.cols, "x"))) }

  function Overtaking(row: Row): Request { Batch((r: Row, _) => Some(Suffixed(row.cols, "y"))) }

  function Overtaken(row: Row, n: nat): seq<Action> {
    if n == 0 then [] + [Start(Slow())] + [Load(0, 0)] + [Prepare(0)]
    else Overtaken(row, n - 1) + [Start(Overtaking(row))] + [Load(n, 0)] + [Prepare(n)] + [Execute(n, Executed)]
  }

  // The slow patch is ready to write what it made of the first row.
  ghost predicate Behind(row: Row, s: State, n: nat) {
    && |s.runs| == n + 1 && |s.applied| == n && s.history != [] && s.history[|s.history| - 1] == s.row
    && s.runs[0] == Run(Slow(), Writing(1, row, Suffixed(row.cols, "x"), 1))
    && s.row == Row(if n == 0 then row.cols else Suffixed(row.cols, "y"), Nth(row.version, n))
  }

  lemma OneMoreWrite(row: Row, s: State, n: nat)
    requires Behind(row, s, n)
    ensures var j := n + 1;
            var ready := Step(Step(Step(s, Start(Overtaking(row))), Load(j, 0)), Prepare(j));
            Behind(row, Step(ready, Execute(j, Executed)), j)
  {
    NextNumber(row.version, n);
  }

  lemma {:induction false} AfterOvertaking(row: Row, n: nat)
    ensures Behind(row, Exec(row, Overtaken(row, n)), n)
  {
    if n == 0 {
      ExecSnoc(row, [], Start(Slow()));
      ExecSnoc(row, [] + [Start(Slow())], Load(0, 0));
      ExecSnoc(row, [] + [Start(Slow())] + [Load(0, 0)], Prepare(0));
    } else {
      var run, start := Overtaken(row, n - 1), Start(Overtaking(row));
      AfterOvertaking(row, n - 1);
      ExecSnoc(row, run, start);
      ExecSnoc(row, run + [start], Load(n, 0));
      ExecSnoc(row, run + [start] + [Load(n, 0)], Prepare(n));
      ExecSnoc(row, run + [start] + [Load(n, 0)] + [Prepare(n)], Execute(n, Executed));
      OneMoreWrite(row, Exec(row, run), n - 1);
    }
  }

  // The version is the first one again, so the slow patch is written over 2^64 others.
  lemma FoldCanFail(row: Row)
    ensures exists run: seq<Action> :: |Exec(row, run).applied| == MODULUS + 1 && !IsFold(row, Exec(row, run))
  {
    var before := Overtaken(row, MODULUS);
    var run := before + [Execute(0, Executed)];
    AfterOvertaking(row, MODULUS);
    RunStart(row, before);
    ExecSnoc(row, before, Execute(0, Executed));
    var s, t := Exec(row, before), Exec(row, run);
    assert s.row.version == row.version;
    assert t.row.cols == Suffixed(row.cols, "x");
    var last := t.applied[MODULUS];
    assert t.applied == s.applied + [last] && (s.applied + [last])[..MODULUS] == s.applied;
    RunKeeps(row, before);
    FoldOfState(s);
    SuffixesDiffer(row.cols);
  }

  lemma SuffixesDiffer(cols: Columns)
    ensures Suffixed(Suffixed(cols, "y"), "x") != Suffixed(cols, "x")
  {
    assert |Suffixed(Suffixed(cols, "y"), "x").email| == |cols.email| + 2;
  }

  /** The bound is exact: the fold is guaranteed for runs of up to n writes if and only if n is at most 2^64. */
  lemma FoldHoldsExactly(row: Row, n: nat)
    ensures (forall run: seq<Action> :: |Exec(row, run).applied| <= n ==> IsFold(row, Exec(row, run))) <==> n <= MODULUS
  {
    if n <= MODULUS {
      forall run: seq<Action> | |Exec(row, run).applied| <= n ensures IsFold(row, Exec(row, run)) {
        RowIsFoldOfChanges(row, run);
      }
    } else {
      FoldCanFail(row);
    }
  }

  /** The k-th write is made for the version k above the first, modulo 2^64; so for each expected version at most
      one write succeeds, exactly as long as there are no more than 2^64 writes. */
  lemma {:induction false} OneWritePerVersion(row: Row, run: seq<Action>)
    ensures InSequence(row, Exec(row, run).applied)
    ensures DistinctVersions(Exec(row, run).applied) <==> |Exec(row, run).applied| <= MODULUS
  {
    RunStart(row, run);
    RunKeepsLedger(row, run);
    VersionsOfState(Exec(row, run));
  }

  lemma VersionsOfState(s: State)
    requires Numbered(s)
    ensures InSequence(s.history[0], s.applied)
    ensures DistinctVersions(s.applied) <==> |s.applied| <= MODULUS
  {
    forall k | 0 <= k < |s.applied| ensures s.applied[k].expected == Nth(s.history[0].version, k) {
      assert s.history[k].version == Nth(s.history[0].version, k);
    }
    if |s.applied| <= MODULUS {
      forall i, j | 0 <= i < j < |s.applied| ensures s.applied[i].expected != s.applied[j].expected {
        ExpectedNumbers(s, i, j);
      }
    } else {
      assert Nth(s.history[0].version, 0) == Nth(s.history[0].version, MODULUS);
      assert s.applied[0].expected == s.applied[MODULUS].expected;
    }
  }

  ghost predicate InSequence(row: Row, applied: seq<Applied>) {
    forall k :: 0 <= k < |applied| ==> applied[k].expected == Nth(row.version, k)
  }

  ghost predicate DistinctVersions(applied: seq<Applied>) {
    forall i, j :: 0 <= i < j < |applied| ==> applied[i].expected != applied[j].expected
  }

  // The statements of run i that took effect although they were answered with an error.
  function WritesAnsweredBadly(row: Row, run: seq<Action>, i: nat): nat {
    if run == [] then 0
    else
      WritesAnsweredBadly(row, run[..|run|-1], i)
      + (if BadlyAnswered(Exec(row, run[..|run|-1]), run[|run|-1], i) then 1 else 0)
  }

  predicate BadlyAnswered(s: State, a: Action, i: nat) {
    && a == Execute(i, Failed(true))
    && i < |s.runs| && s.runs[i].phase.Writing? && s.row.version == s.runs[i].phase.snapshot.version
  }

  ghost predicate Explained(s: State, i: nat, bad: nat) {
    CountBy(s.applied, i) == bad + (if i < |s.runs| && s.runs[i].phase == Finished(Updated) then 1 else 0)
  }

  lemma ExecuteExplains(s: State, i: nat, result: DBResult, bad: nat)
    requires i < |s.runs| && s.runs[i].phase.Writing? && Explained(s, i, bad)
    ensures Explained(ExecuteStep(s, i, s.runs[i].phase, result), i,
                      bad + if BadlyAnswered(s, Execute(i, result), i) then 1 else 0)
  {
    var w := s.runs[i].phase;
    var t := ExecuteStep(s, i, w, result);
    WriteCounts(s, i, i);
    if Writes(s, w, result) {
      assert t.runs[i].phase == Finished(if result.Executed? then Updated else Retry);
    } else {
      assert t.applied == s.applied && t.runs[i].phase != Finished(Updated);
    }
  }

  lemma StepExplains(s: State, a: Action, i: nat, bad: nat)
    requires Explained(s, i, bad)
    ensures Explained(Step(s, a), i, bad + if BadlyAnswered(s, a, i) then 1 else 0)
  {
    if a.Execute? && a.i < |s.runs| && s.runs[a.i].phase.Writing? {
      if a.i == i { ExecuteExplains(s, i, a.result, bad); } else { ExecuteFrame(s, a.i, a.result, i); }
    }
  }

  lemma {:induction false} RunExplains(row: Row, run: seq<Action>, i: nat)
    ensures Explained(Exec(row, run), i, WritesAnsweredBadly(row, run, i))
  {
    if run != [] {
      RunExplains(row, run[..|run|-1], i);
      StepExplains(Exec(row, run[..|run|-1]), run[|run|-1], i, WritesAnsweredBadly(row, run[..|run|-1], i));
    }
  }

  /** Each handled message writes at most once, and its outcome tells whether it did: exactly once when it ends as
      updated, never when it ends as discarded, in conflict or rejected. One that ends in a retry has written exactly
      if its statement took effect and was answered with an error all the same. */
  lemma {:induction false} OutcomesAreTruthful(row: Row, run: seq<Action>, i: nat)
    requires i < |Exec(row, run).runs|
    ensures var s := Exec(row, run);
            match s.runs[i].phase
            case Finished(Updated) => CountBy(s.applied, i) == 1
            case Finished(Retry) => CountBy(s.applied, i) == WritesAnsweredBadly(row, run, i) <= 1
            case _ => CountBy(s.applied, i) == 0
  {
    RunTruthful(row, run, i);
    RunExplains(row, run, i);
  }

  /** A client that names a version only ever changes a row of that version, with its own change, and a full update
      only ever writes if it names one; and the row it replaces is the one its change was computed from, as long as
      versions do not repeat. */
  lemma NamedVersionIsRespected(row: Row, run: seq<Action>, k: nat)
    requires k < |Exec(row, run).applied|
    ensures var s := Exec(row, run);
            var w := s.applied[k];
            && w.runId < |s.runs|
            && w.change == s.runs[w.runId].req.change
            && (s.runs[w.runId].req.Single? && s.runs[w.runId].req.expected.Some? ==>
                  s.runs[w.runId].req.expected.value == s.history[k].version)
            && (s.runs[w.runId].req.Single? && s.runs[w.runId].req.full ==> s.runs[w.runId].req.expected.Some?)
            && (|s.applied| <= MODULUS ==> Made(w, s.history[k]) == Some(s.history[k + 1].cols))
  {
    RunKeepsLedger(row, run);
    if |Exec(row, run).applied| <= MODULUS { RunKeeps(row, run); }
  }
}
