/** The consumer's update code with its own table, other consumers running in between: every statement that reads or
    writes the table is one step of the protocol in VersionedUpdate
    (cdmp-mini/internal/pkg/server/consumer.go:1792-1918, 1964-2018, 2819-2944). */
module UpdateConsumer {
  import opened Wrappers
  import opened VersionedUpdate

  // What the outside does at each moment: other consumers' steps, the age of a snapshot, the database's answer.
  datatype World = World(others: nat -> seq<Action>, age: nat -> nat, loads: nat -> bool, answers: nat -> DBResult)

  // What updateUserInDB returns.
  datatype WriteError = DuplicateEntry | VersionConflict | WriteFailed

  function PhaseAfter(req: Request, attempt: nat, err: Option<WriteError>): Phase {
    match err
    case None => Finished(Updated)
    case Some(DuplicateEntry) => Finished(DuplicateKey)
    case Some(VersionConflict) => AfterConflict(req, attempt)
    case Some(WriteFailed) => Finished(Retry)
  }

  predicate Foreign(a: Action, i: nat) { a.Start? || a.i != i }

  /** How often run i has sent its statement, and how often it has patched a snapshot. */
  function Executions(run: seq<Action>, i: nat): nat {
    if run == [] then 0
    else Executions(run[..|run|-1], i) + (var a := run[|run|-1]; if a.Execute? && a.i == i then 1 else 0)
  }

  function Preparations(run: seq<Action>, i: nat): nat {
    if run == [] then 0
    else Preparations(run[..|run|-1], i) + (var a := run[|run|-1]; if a.Prepare? && a.i == i then 1 else 0)
  }

  lemma CountSnoc(run: seq<Action>, a: Action, i: nat)
    ensures Executions(run + [a], i) == Executions(run, i) + (if a.Execute? && a.i == i then 1 else 0)
    ensures Preparations(run + [a], i) == Preparations(run, i) + (if a.Prepare? && a.i == i then 1 else 0)
  {
    assert (run + [a])[..|run|] == run;
  }

  lemma ForeignStep(s: State, a: Action, i: nat)
    requires i < |s.runs| && Foreign(a, i)
    ensures i < |Step(s, a).runs| && Step(s, a).runs[i] == s.runs[i]
    ensures CountBy(Step(s, a).applied, i) == CountBy(s.applied, i)
  {
    if a.Execute? && a.i < |s.runs| && s.runs[a.i].phase.Writing? { ExecuteFrame(s, a.i, a.result, i); }
  }

  // What the code's own steps do: they move run i to its next phase.
  lemma OwnSteps(s: State, i: nat, age: nat)
    requires i < |s.runs|
    ensures var r := s.runs[i];
            && (r.phase.Loading? ==> Step(s, LoadFails(i)) == SetPhase(s, i, Finished(Retry)))
            && (r.phase.Loading? && age < |s.history| && (ReadsDatabase(r.req, r.phase.attempt) ==> age == 0) ==>
                  Step(s, Load(i, age))
                  == SetPhase(s, i, Loaded(r.phase.attempt, s.history[|s.history| - 1 - age])))
            && (r.phase.Loaded? ==>
                  Step(s, Prepare(i)) == SetPhase(s, i, Prepared(r.req, r.phase.attempt, r.phase.snapshot)))
  {
  }

  // What an answer of the database means for the run that sent the statement.
  function ErrorOf(matches: bool, answer: DBResult): Option<WriteError> {
    match answer
    case Executed => if matches then None else Some(VersionConflict)
    case Duplicate => Some(DuplicateEntry)
    case _ => Some(WriteFailed)
  }

  /** The row of the statement of run i stands, over one of the expected version. */
  ghost predicate Written(s: State, i: nat, cols: Columns, newVersion: Version, expected: Version) {
    && i < |s.runs| && s.row == Row(cols, newVersion)
    && |s.history| >= 2 && s.history[|s.history| - 1] == s.row && s.history[|s.history| - 2].version == expected
    && s.applied != []
    && var last := s.applied[|s.applied| - 1];
       last.runId == i && last.expected == expected && last.change == s.runs[i].req.change
  }

  // How often run i has written after the statement, given its error.
  predicate Counts(before: State, after: State, i: nat, done: bool, err: Option<WriteError>) {
    if done && err.None? then CountBy(after.applied, i) == CountBy(before.applied, i) + 1
    else if done && err == Some(WriteFailed) then CountBy(after.applied, i) <= CountBy(before.applied, i) + 1
    else CountBy(after.applied, i) == CountBy(before.applied, i)
  }

  lemma ExecuteMoves(s: State, i: nat, answer: DBResult)
    requires i < |s.runs| && s.runs[i].phase.Writing?
    ensures var w := s.runs[i].phase;
            var err := ErrorOf(s.row.version == w.snapshot.version, answer);
            Step(s, Execute(i, answer))
            == SetPhase(if Writes(s, w, answer) then Write(s, i, w) else s, i,
                        if answer.Deadlock? && w.tries < MAX_TRIES then w.(tries := w.tries + 1)
                        else PhaseAfter(s.runs[i].req, w.attempt, err))
  {
  }

  // A statement that takes effect leaves its row.
  lemma WriteIsWritten(s: State, i: nat)
    requires i < |s.runs| && s.runs[i].phase.Writing? && s.history != [] && s.history[|s.history| - 1] == s.row
    requires s.row.version == s.runs[i].phase.snapshot.version
    ensures var w := s.runs[i].phase;
            Written(Write(s, i, w), i, w.cols, Next(w.snapshot.version), w.snapshot.version)
  {
  }

  // What has been written, and how often, by the statement of run i and its answer.
  lemma ExecuteMeans(s: State, i: nat, answer: DBResult)
    requires i < |s.runs| && s.runs[i].phase.Writing? && s.history != [] && s.history[|s.history| - 1] == s.row
    ensures var w, t := s.runs[i].phase, Step(s, Execute(i, answer));
            var err := ErrorOf(s.row.version == w.snapshot.version, answer);
            && (err.None? ==> Written(t, i, w.cols, Next(w.snapshot.version), w.snapshot.version))
            && (err == Some(VersionConflict) ==> t.row.version != w.snapshot.version)
            && Counts(s, t, i, !answer.Deadlock? || w.tries >= MAX_TRIES, err)
  {
    ExecuteMoves(s, i, answer);
    if Writes(s, s.runs[i].phase, answer) {
      WriteIsWritten(s, i);
      WriteCounts(s, i, i);
    }
  }

  class Consumer {
    const start: Row
    const world: World
    var clock: nat
    // the database: the row, every row stored so far, and the updates that took effect
    var row: Row
    var history: seq<Row>
    var applied: seq<Applied>
    // for each message, where the code that handles it is
    var runs: seq<Run>
    ghost var trace: seq<Action>
    ghost var states: seq<State>

    function View(): State reads this { State(row, history, applied, runs) }

    /** The table is where the protocol's steps so far have taken it. */
    ghost predicate Valid()
      reads this
    {
      IsRun(start, trace, states) && View() == states[|trace|] && history != []
    }

    constructor (row: Row, world: World)
      ensures Valid() && start == row && View() == Init(row)
    {
      start, this.world, clock := row, world, 0;
      this.row, history, applied, runs := row, [row], [], [];
      trace, states := [], [Init(row)];
    }

    // The statements since `before` were the step `a` of the protocol.
    ghost method Did(before: State, a: Action, i: nat)
      requires IsRun(start, trace, states) && before == states[|trace|] && before.history != []
      requires View() == Step(before, a)
      modifies this`trace, this`states
      ensures Valid() && trace == old(trace) + [a]
      ensures Executions(trace, i) == Executions(old(trace), i) + (if a.Execute? && a.i == i then 1 else 0)
      ensures Preparations(trace, i) == Preparations(old(trace), i) + (if a.Prepare? && a.i == i then 1 else 0)
    {
      RunSnoc(start, trace, states, a, View());
      HistoryOnlyGrows(before, a);
      CountSnoc(trace, a, i);
      trace, states := trace + [a], states + [View()];
    }

    /** Time passes for the code of run i: others ran, it did not. */
    twostate predicate Passed(i: nat)
      reads this
    {
      && old(trace) <= trace
      && i < |old(runs)| && i < |runs| && runs[i] == old(runs)[i]
      && CountBy(applied, i) == CountBy(old(applied), i)
      && Executions(trace, i) == Executions(old(trace), i) && Preparations(trace, i) == Preparations(old(trace), i)
    }

    // Other consumers take any number of steps, on this run none.
    method Interfere(i: nat)
      requires Valid() && i < |runs|
      modifies this
      ensures Valid() && Passed(i)
    {
      clock := clock + 1;
      var steps := world.others(clock);
      for k := 0 to |steps|
        invariant Valid() && Passed(i)
      {
        if Foreign(steps[k], i) {
          ghost var before := View();
          ForeignStep(before, steps[k], i);
          var t := Step(View(), steps[k]);
          row, history, applied, runs := t.row, t.history, t.applied, t.runs;
          Did(before, steps[k], i);
        }
      }
    }

    // The code of run i has come to another place.
    method Enter(i: nat, phase: Phase)
      requires i < |runs|
      modifies this`runs
      ensures runs == old(runs)[i := old(runs)[i].(phase := phase)]
    {
      runs := runs[i := runs[i].(phase := phase)];
    }

    // What the log of updates says about one of run i.
    function Entry(i: nat, expected: Version): Applied
      requires i < |runs| && runs[i].phase.Writing?
      reads this
    {
      Applied(i, runs[i].phase.attempt, expected, runs[i].req.change)
    }

    /** The UPDATE statement as the database runs it: guarded by the version, and without effect when it is rolled
        back. */
    method ExecUpdate(i: nat, cols: Columns, newVersion: Version, expected: Version, answer: DBResult)
      returns (affected: bool)
      requires i < |runs| && runs[i].phase.Writing?
      modifies this`row, this`history, this`applied
      ensures affected == (row == Row(cols, newVersion)
                           && applied == old(applied) + [Entry(i, expected)])
      ensures affected == (old(row).version == expected && (answer.Executed? || (answer.Failed? && answer.afterWrite)))
      ensures affected ==> history == old(history) + [row]
      ensures !affected ==> row == old(row) && history == old(history) && applied == old(applied)
    {
      affected := false;
      if (answer.Executed? || (answer.Failed? && answer.afterWrite)) && row.version == expected {
        row := Row(cols, newVersion);
        history := history + [row];
        applied := applied + [Entry(i, expected)];
        affected := true;
      }
    }

    /** updateUserInDB: at most three tries, one more after each deadlock. Without an error the row has just been
        replaced; a conflict means that it has another version; after a conflict or a duplicate nothing was
        written. */
    method UpdateUserInDB(i: nat, cols: Columns, newVersion: Version, expected: Version)
      returns (err: Option<WriteError>)
      requires Valid() && i < |runs| && newVersion == Next(expected)
      requires runs[i].phase.Writing? && runs[i].phase.tries == 1
      requires runs[i].phase.cols == cols && runs[i].phase.snapshot.version == expected
      modifies this
      ensures Valid() && old(trace) <= trace
      ensures i < |runs| && runs[i].req == old(runs)[i].req
      ensures runs[i].phase == PhaseAfter(old(runs)[i].req, old(runs)[i].phase.attempt, err)
      ensures Executions(old(trace), i) < Executions(trace, i) <= Executions(old(trace), i) + MAX_TRIES
      ensures Preparations(trace, i) == Preparations(old(trace), i)
      ensures err.None? ==> Written(View(), i, cols, newVersion, expected)
      ensures err == Some(VersionConflict) ==> row.version != expected
      ensures Counts(old(View()), View(), i, true, err)
    {
      var attempt := 1;
      while true
        invariant Valid() && old(trace) <= trace && 1 <= attempt <= MAX_TRIES
        invariant i < |runs| && runs[i] == old(runs)[i].(phase := old(runs)[i].phase.(tries := attempt))
        invariant CountBy(applied, i) == CountBy(old(applied), i)
        invariant Executions(trace, i) == Executions(old(trace), i) + attempt - 1
        invariant Preparations(trace, i) == Preparations(old(trace), i)
        decreases MAX_TRIES - attempt
      {
        Interfere(i);
        var answer := world.answers(clock);
        var done;
        done, err := TryUpdate(i, cols, newVersion, expected, answer, attempt == MAX_TRIES);
        if done { return; }
        attempt := attempt + 1;
      }
    }

    // One round of the retry loop.
    method TryUpdate(i: nat, cols: Columns, newVersion: Version, expected: Version, answer: DBResult, last: bool)
      returns (done: bool, err: Option<WriteError>)
      requires Valid() && i < |runs| && newVersion == Next(expected)
      requires runs[i].phase.Writing? && (last <==> runs[i].phase.tries >= MAX_TRIES)
      requires runs[i].phase.cols == cols && runs[i].phase.snapshot.version == expected
      modifies this`row, this`history, this`applied, this`runs, this`trace, this`states
      ensures Valid() && trace == old(trace) + [Execute(i, answer)]
      ensures Executions(trace, i) == Executions(old(trace), i) + 1
      ensures Preparations(trace, i) == Preparations(old(trace), i)
      ensures |runs| == |old(runs)| && runs[i].req == old(runs)[i].req
      ensures runs[i].phase == (if done then PhaseAfter(old(runs)[i].req, old(runs)[i].phase.attempt, err)
                                else old(runs)[i].phase.(tries := old(runs)[i].phase.tries + 1))
      ensures last ==> done
      ensures done && err.None? ==> Written(View(), i, cols, newVersion, expected)
      ensures done && err == Some(VersionConflict) ==> row.version != expected
      ensures Counts(old(View()), View(), i, done, err)
    {
      ghost var before := View();
      CurrentIsLast(start, trace, states);
      ExecuteMeans(before, i, answer);
      ExecuteMoves(before, i, answer);
      done, err := Answer(i, cols, newVersion, expected, answer, last);
      Did(before, Execute(i, answer), i);
    }

    // The statement, and what its answer means.
    method Answer(i: nat, cols: Columns, newVersion: Version, expected: Version, answer: DBResult, last: bool)
      returns (done: bool, err: Option<WriteError>)
      requires i < |runs| && newVersion == Next(expected) && runs[i].phase.Writing?
      requires runs[i].phase.cols == cols && runs[i].phase.snapshot.version == expected
      modifies this`row, this`history, this`applied, this`runs
      ensures done == (!answer.Deadlock? || last) && err == ErrorOf(old(row).version == expected, answer)
      ensures var w, written := old(runs)[i].phase, Writes(old(View()), old(runs)[i].phase, answer);
              View() == SetPhase(if written then Write(old(View()), i, w) else old(View()), i,
                                 if done then PhaseAfter(old(runs)[i].req, w.attempt, err)
                                 else w.(tries := w.tries + 1))
    {
      var w := runs[i].phase;
      var affected := ExecUpdate(i, cols, newVersion, expected, answer);
      done := !answer.Deadlock? || last;
      err := match answer
        case Executed => if affected then None else Some(VersionConflict)
        case Duplicate => Some(DuplicateEntry)
        case _ => Some(WriteFailed);
      Enter(i, if done then PhaseAfter(runs[i].req, w.attempt, err) else w.(tries := w.tries + 1));
    }

    // Reading the row, or a copy of it stored earlier.
    method LoadSnapshot(i: nat) returns (snapshot: Option<Row>)
      requires Valid() && i < |runs| && runs[i].phase.Loading?
      modifies this
      ensures Valid() && old(trace) <= trace
      ensures i < |runs| && runs[i].req == old(runs)[i].req
      ensures runs[i].phase ==
              if snapshot.None? then Finished(Retry) else Loaded(old(runs)[i].phase.attempt, snapshot.value)
      ensures snapshot.Some? ==> snapshot.value in history
      ensures snapshot.Some? && ReadsDatabase(runs[i].req, old(runs)[i].phase.attempt) ==> snapshot.value == row
      ensures CountBy(applied, i) == CountBy(old(applied), i)
      ensures Executions(trace, i) == Executions(old(trace), i) && Preparations(trace, i) == Preparations(old(trace), i)
    {
      Interfere(i);
      ghost var before := View();
      var r := runs[i];
      CurrentIsLast(start, trace, states);
      OwnSteps(before, i, 0);
      if !world.loads(clock) {
        Enter(i, Finished(Retry));
        Did(before, LoadFails(i), i);
        return None;
      }
      var wanted := if ReadsDatabase(r.req, r.phase.attempt) then 0 else world.age(clock);
      var age := if wanted < |history| then wanted else |history| - 1;
      OwnSteps(before, i, age);
      snapshot := Some(history[|history| - 1 - age]);
      Enter(i, Loaded(r.phase.attempt, snapshot.value));
      Did(before, Load(i, age), i);
    }

    // A finished run tells how often it has written.
    lemma Told(i: nat)
      requires Valid() && i < |runs|
      ensures Tells(runs[i].phase, CountBy(applied, i))
    {
      RunIsExec(start, trace, states);
      RunTruthful(start, trace, i);
    }

    /** The message would be written over something it has not seen: another version than the one it names, or any
        version if it is full and names none. */
    static predicate Overwrites(version: Version, expected: Option<Version>, full: bool) {
      match expected case Some(v) => v != version case None => full
    }

    // The patch and the version checks of handleSingleUpdate: what to write, or how the message ends.
    method PrepareSingle(i: nat, snapshot: Row, change: Change, expected: Option<Version>, full: bool)
      returns (cols: Option<Columns>, outcome: Outcome)
      requires Valid() && i < |runs| && runs[i] == Run(Single(change, expected, full), Loaded(1, snapshot))
      modifies this
      ensures Valid() && old(trace) <= trace && i < |runs| && runs[i].req == old(runs)[i].req
      ensures runs[i].phase == if cols.None? then Finished(outcome) else Writing(1, snapshot, cols.value, 1)
      ensures cols.Some? ==> cols == change(snapshot, 1) && (expected.Some? ==> snapshot.version == expected.value)
      ensures cols.Some? <==> change(snapshot, 1).Some? && !Overwrites(snapshot.version, expected, full)
      ensures cols.None? ==> outcome == if change(snapshot, 1).None? then DeadLetter else Discarded
      ensures Executions(trace, i) == Executions(old(trace), i)
    {
      Interfere(i);
      ghost var before := View();
      OwnSteps(before, i, 0);
      cols, outcome := change(snapshot, 1), DeadLetter;
      if cols.Some? && ((expected.Some? && snapshot.version != expected.value) || (expected.None? && full)) {
        cols, outcome := None, Discarded;
      }
      Enter(i, if cols.None? then Finished(outcome) else Writing(1, snapshot, cols.value, 1));
      Did(before, Prepare(i), i);
    }

    /** handleSingleUpdate. The message ends with the outcome its run of the protocol has, after at most three tries;
        it sends its statement exactly when the change applies to what it read and would not overwrite something else,
        and is discarded or rejected exactly otherwise. It has written once when the outcome says so and not otherwise,
        and then over a row of the version it read or named. */
    method HandleSingleUpdate(change: Change, expected: Option<Version>, full: bool)
      returns (i: nat, outcome: Outcome, ghost read: Option<Row>)
      requires Valid()
      modifies this
      ensures Valid() && old(trace) <= trace
      ensures i == |old(runs)| < |runs| && runs[i] == Run(Single(change, expected, full), Finished(outcome))
      ensures Executions(trace, i) <= Executions(old(trace), i) + MAX_TRIES
      ensures Tells(Finished(outcome), CountBy(applied, i))
      ensures read.Some? ==> read.value in history
      ensures read.None? ==> outcome == Retry
      ensures read.Some? ==>
                && (outcome == DeadLetter <==> change(read.value, 1).None?)
                && (outcome == Discarded <==>
                      change(read.value, 1).Some? && Overwrites(read.value.version, expected, full))
      ensures Executions(trace, i) > Executions(old(trace), i) <==>
              read.Some? && change(read.value, 1).Some? && !Overwrites(read.value.version, expected, full)
      ensures outcome.Updated? ==>
                && Replaced(i) && read.Some? && change(read.value, 1) == Some(row.cols)
                && history[|history| - 2].version == read.value.version
                && (expected.Some? ==> expected.value == read.value.version)
    {
      outcome := Retry;
      i := Begin(Single(change, expected, full));
      var snapshot := LoadSnapshot(i);
      read := snapshot;
      label Loaded:
      if snapshot.Some? { outcome := WriteSingle(i, snapshot.value, change, expected, full); }
      Stored@Loaded();
      Told(i);
    }

    // What was stored stays in the history.
    twostate lemma Stored()
      requires old(Valid()) && Valid() && old(trace) <= trace
      ensures old(history) <= history
    {
      RunIsExec(start, old(trace), old(states));
      RunIsExec(start, trace, states);
      HistoryGrows(start, old(trace), trace);
    }

    // What follows the load.
    method WriteSingle(i: nat, snapshot: Row, change: Change, expected: Option<Version>, full: bool)
      returns (outcome: Outcome)
      requires Valid() && i < |runs| && runs[i] == Run(Single(change, expected, full), Loaded(1, snapshot))
      modifies this
      ensures Valid() && old(trace) <= trace
      ensures i < |runs| && runs[i] == Run(Single(change, expected, full), Finished(outcome))
      ensures Executions(trace, i) <= Executions(old(trace), i) + MAX_TRIES
      ensures outcome == DeadLetter <==> change(snapshot, 1).None?
      ensures outcome == Discarded <==> change(snapshot, 1).Some? && Overwrites(snapshot.version, expected, full)
      ensures Executions(trace, i) > Executions(old(trace), i) <==>
              change(snapshot, 1).Some? && !Overwrites(snapshot.version, expected, full)
      ensures outcome.Updated? ==>
                && Replaced(i) && change(snapshot, 1) == Some(row.cols)
                && history[|history| - 2].version == snapshot.version
                && (expected.Some? ==> expected.value == snapshot.version)
    {
      var cols;
      cols, outcome := PrepareSingle(i, snapshot, change, expected, full);
      if cols.Some? {
        var err := UpdateUserInDB(i, cols.value, Next(snapshot.version), snapshot.version);
        outcome := match err
          case None => Updated
          case Some(DuplicateEntry) => DuplicateKey
          case Some(VersionConflict) => Conflict
          case Some(WriteFailed) => Retry;
      }
    }

    /** The last thing that happened to the table: run i raised the version by one. */
    ghost predicate Replaced(i: nat)
      reads this
    {
      |history| >= 2
      && Written(View(), i, row.cols, Next(history[|history| - 2].version), history[|history| - 2].version)
    }

    // One attempt: patch the snapshot and write it, if it can be patched.
    method PatchOnce(i: nat, snapshot: Row) returns (patched: bool, err: Option<WriteError>)
      requires Valid() && i < |runs| && runs[i].req.Batch?
      requires runs[i].phase.Loaded? && runs[i].phase.snapshot == snapshot
      modifies this
      ensures Valid() && old(trace) <= trace
      ensures i < |runs| && runs[i].req == old(runs)[i].req
      ensures runs[i].phase ==
              if patched then PhaseAfter(runs[i].req, old(runs)[i].phase.attempt, err) else Finished(DeadLetter)
      ensures Preparations(trace, i) == Preparations(old(trace), i) + 1
      ensures Executions(trace, i) <= Executions(old(trace), i) + MAX_TRIES
      ensures patched && err.None? ==> Replaced(i)
    {
      Interfere(i);
      ghost var before := View();
      OwnSteps(before, i, 0);
      var updated := runs[i].req.change(snapshot, runs[i].phase.attempt);
      if updated.None? {
        Enter(i, Finished(DeadLetter));
        Did(before, Prepare(i), i);
        return false, None;
      }
      Enter(i, Writing(runs[i].phase.attempt, snapshot, updated.value, 1));
      Did(before, Prepare(i), i);
      err := UpdateUserInDB(i, updated.value, Next(snapshot.version), snapshot.version);
      return true, err;
    }

    /** One target of handleBatchPatch: up to three attempts, reloading the row after each version conflict; it is
        given up as unresolved after exactly three. */
    method PatchTarget(change: Change) returns (i: nat, outcome: Outcome)
      requires Valid()
      modifies this
      ensures Valid() && old(trace) <= trace
      ensures i == |old(runs)| < |runs| && runs[i] == Run(Batch(change), Finished(outcome))
      ensures Preparations(trace, i) <= Preparations(old(trace), i) + MAX_ATTEMPTS
      ensures outcome.Unresolved? ==> Preparations(trace, i) == Preparations(old(trace), i) + MAX_ATTEMPTS
      ensures Executions(trace, i) <= Executions(old(trace), i) + MAX_ATTEMPTS * MAX_TRIES
      ensures Tells(Finished(outcome), CountBy(applied, i))
      ensures outcome.Updated? ==> Replaced(i)
    {
      i := Begin(Batch(change));
      var snapshot := LoadSnapshot(i);
      outcome := Retry;
      if snapshot.Some? { outcome := Attempts(i, snapshot.value); }
      Told(i);
    }

    // The attempt loop, with the snapshot found first.
    method Attempts(i: nat, found: Row) returns (outcome: Outcome)
      requires Valid() && i < |runs| && runs[i].req.Batch? && runs[i].phase == Loaded(1, found)
      modifies this
      ensures Valid() && old(trace) <= trace
      ensures i < |runs| && runs[i] == Run(old(runs)[i].req, Finished(outcome))
      ensures Preparations(trace, i) <= Preparations(old(trace), i) + MAX_ATTEMPTS
      ensures outcome.Unresolved? ==> Preparations(trace, i) == Preparations(old(trace), i) + MAX_ATTEMPTS
      ensures Executions(trace, i) <= Executions(old(trace), i) + MAX_ATTEMPTS * MAX_TRIES
      ensures outcome.Updated? ==> Replaced(i)
    {
      var snapshot, attempt := found, 1;
      while true
        invariant Valid() && old(trace) <= trace && 1 <= attempt <= MAX_ATTEMPTS
        invariant i < |runs| && runs[i] == Run(old(runs)[i].req, Loaded(attempt, snapshot))
        invariant Preparations(trace, i) == Preparations(old(trace), i) + attempt - 1
        invariant Executions(trace, i) <= Executions(old(trace), i) + (attempt - 1) * MAX_TRIES
        decreases MAX_ATTEMPTS - attempt
      {
        var patched, err := PatchOnce(i, snapshot);
        if !patched { return DeadLetter; }
        if err.None? { return Updated; }
        if err == Some(DuplicateEntry) { return DuplicateKey; }
        if err == Some(WriteFailed) { return Retry; }
        if attempt == MAX_ATTEMPTS { return Unresolved; }
        var latest := LoadSnapshot(i);
        if latest.None? { return Retry; }
        snapshot := latest.value;
        attempt := attempt + 1;
      }
    }

    method Begin(req: Request) returns (i: nat)
      requires Valid()
      modifies this`runs, this`trace, this`states
      ensures Valid() && old(trace) <= trace
      ensures i == |old(runs)| && |runs| == i + 1 && runs[i] == Run(req, Loading(1))
      ensures Executions(trace, i) == Executions(old(trace), i) && Preparations(trace, i) == Preparations(old(trace), i)
    {
      ghost var before := View();
      i := |runs|;
      runs := runs + [Run(req, Loading(1))];
      Did(before, Start(req), i);
    }
  }

  lemma CurrentIsLast(row: Row, run: seq<Action>, states: seq<State>)
    requires IsRun(row, run, states)
    ensures var s := states[|run|]; s.history != [] && s.row == s.history[|s.history| - 1]
  {
    RunIsExec(row, run, states);
    RunKeepsLedger(row, run);
  }

  // Rows once stored stay in the history.
  lemma {:induction false} HistoryGrows(row: Row, run: seq<Action>, more: seq<Action>)
    requires run <= more
    ensures Exec(row, run).history <= Exec(row, more).history
    decreases |more|
  {
    if |run| < |more| {
      var less := more[..|more|-1];
      assert run <= less;
      HistoryGrows(row, run, less);
      RunStart(row, less);
      HistoryOnlyGrows(Exec(row, less), more[|more|-1]);
    } else {
      assert run == more;
    }
  }
}
