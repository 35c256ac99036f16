/** How a message of VersionedUpdate ends, told from what happened to it: the snapshots it was given and the answers
    to its statements (cdmp-mini/internal/pkg/server/consumer.go:1803-1917, 1963-2018, 2885-2932). */
module UpdateOutcomes {
  import opened Wrappers
  import opened VersionedUpdate

  datatype Incident =
    | NoSnapshot                             // the load failed
    | Read(snapshot: Row)
    | Patched(snapshot: Row)
    | Told(result: DBResult, matched: bool)  // the answer to its statement, and whether the version was still there

  /** A copy of the row that is `age` writes old will do for a message that names no version, and when a target of a
      batch is read again after a conflict. */
  predicate WillDo(req: Request, attempt: nat, age: nat) {
    age > 0 ==> match req case Single(_, expected, _) => expected.None? case Batch(_) => attempt > 1
  }

  function IncidentOf(s: State, a: Action, i: nat): seq<Incident> {
    if a.Start? || a.i != i || i >= |s.runs| then []
    else
      match (a, s.runs[i].phase)
      case (LoadFails(_), Loading(_)) => [NoSnapshot]
      case (Load(_, age), Loading(attempt)) =>
        if age < |s.history| && WillDo(s.runs[i].req, attempt, age)
        then [Read(s.history[|s.history| - 1 - age])] else []
      case (Prepare(_), Loaded(_, snapshot)) => [Patched(snapshot)]
      case (Execute(_, result), Writing(_, snapshot, _, _)) => [Told(result, s.row.version == snapshot.version)]
      case _ => []
  }

  /** All that happened to message i in a run. */
  function Story(row: Row, run: seq<Action>, i: nat): seq<Incident> {
    if run == [] then []
    else Story(row, run[..|run|-1], i) + IncidentOf(Exec(row, run[..|run|-1]), run[|run|-1], i)
  }

  const LOST := Told(Executed, false)

  // Statements that found another version.
  function Conflicts(t: seq<Incident>): nat {
    if t == [] then 0 else Conflicts(t[..|t|-1]) + (if t[|t|-1] == LOST then 1 else 0)
  }

  // Deadlocks in a row at the end.
  function Deadlocks(t: seq<Incident>): nat {
    if t != [] && t[|t|-1].Told? && t[|t|-1].result.Deadlock? then Deadlocks(t[..|t|-1]) + 1 else 0
  }

  /** A request must not be written over the version it was patched from: it names another one, or it is full and
      names none. */
  predicate Unwanted(req: Request, version: Version) {
    req.Single? && (if req.expected.Some? then req.expected.value != version else req.full)
  }

  /** What the story of a message makes of it; `None` as long as it goes on. */
  function Verdict(req: Request, t: seq<Incident>): Option<Outcome> {
    if t == [] then None
    else
      match t[|t|-1]
      case NoSnapshot => Some(Retry)
      case Read(_) => None
      case Patched(snapshot) =>
        if req.change(snapshot, 1 + Conflicts(t)).None? then Some(DeadLetter)
        else if Unwanted(req, snapshot.version) then Some(Discarded)
        else None
      case Told(Executed, true) => Some(Updated)
      case Told(Executed, false) =>
        if req.Single? then Some(Conflict) else if Conflicts(t) == 3 then Some(Unresolved) else None
      case Told(Duplicate, _) => Some(DuplicateKey)
      case Told(Failed(_), _) => Some(Retry)
      case Told(Deadlock, _) => if Deadlocks(t) == 3 then Some(Retry) else None
  }

  // ---- the invariant ----

  // Where a message stands, by its story.
  ghost predicate Fits(req: Request, t: seq<Incident>, p: Phase) {
    match p
    case Finished(outcome) => Verdict(req, t) == Some(outcome)
    case Loading(attempt) =>
      Verdict(req, t).None? && attempt == 1 + Conflicts(t) <= 3 && (t == [] || t[|t|-1] == LOST)
    case Loaded(attempt, snapshot) => attempt == 1 + Conflicts(t) <= 3 && t != [] && t[|t|-1] == Read(snapshot)
    case Writing(attempt, snapshot, cols, tries) =>
      && Verdict(req, t).None? && attempt == 1 + Conflicts(t) <= 3 && tries == 1 + Deadlocks(t) <= 3
      && req.change(snapshot, attempt) == Some(cols) && !Unwanted(req, snapshot.version)
      && t != [] && (t[|t|-1].Patched? || t[|t|-1].Told?)
  }

  ghost predicate FitsAt(s: State, t: seq<Incident>, i: nat) {
    if i < |s.runs| then Fits(s.runs[i].req, t, s.runs[i].phase) else t == []
  }

  lemma StorySnoc(t: seq<Incident>, e: Incident)
    ensures Conflicts(t + [e]) == Conflicts(t) + (if e == LOST then 1 else 0)
    ensures Deadlocks(t + [e]) == if e.Told? && e.result.Deadlock? then Deadlocks(t) + 1 else 0
  {
    assert (t + [e])[..|t|] == t;
  }

  lemma LoadFits(s: State, a: Action, t: seq<Incident>, i: nat)
    requires i < |s.runs| && FitsAt(s, t, i) && s.history != [] && (a.Load? || a.LoadFails?) && a.i == i
    ensures FitsAt(Step(s, a), t + IncidentOf(s, a, i), i)
  {
    if IncidentOf(s, a, i) != [] { StorySnoc(t, IncidentOf(s, a, i)[0]); } else { assert t + [] == t; }
  }

  lemma PrepareFits(s: State, t: seq<Incident>, i: nat)
    requires i < |s.runs| && FitsAt(s, t, i)
    ensures FitsAt(Step(s, Prepare(i)), t + IncidentOf(s, Prepare(i), i), i)
  {
    if s.runs[i].phase.Loaded? { StorySnoc(t, Patched(s.runs[i].phase.snapshot)); } else { assert t + [] == t; }
  }

  lemma ExecuteFits(s: State, result: DBResult, t: seq<Incident>, i: nat)
    requires i < |s.runs| && FitsAt(s, t, i)
    ensures FitsAt(Step(s, Execute(i, result)), t + IncidentOf(s, Execute(i, result), i), i)
  {
    if s.runs[i].phase.Writing? {
      StorySnoc(t, Told(result, s.row.version == s.runs[i].phase.snapshot.version));
    } else {
      assert t + [] == t;
    }
  }

  lemma StepFits(s: State, a: Action, t: seq<Incident>, i: nat)
    requires FitsAt(s, t, i) && s.history != []
    ensures FitsAt(Step(s, a), t + IncidentOf(s, a, i), i)
  {
    if a.Start? || a.i != i || i >= |s.runs| {
      assert t + [] == t;
      if a.Execute? && a.i < |s.runs| && s.runs[a.i].phase.Writing? && a.i != i { ExecuteFrame(s, a.i, a.result, i); }
    } else {
      match a
      case Load(_, _) => LoadFits(s, a, t, i);
      case LoadFails(_) => LoadFits(s, a, t, i);
      case Prepare(_) => PrepareFits(s, t, i);
      case Execute(_, result) => ExecuteFits(s, result, t, i);
    }
  }

  lemma {:induction false} RunFits(row: Row, run: seq<Action>, i: nat)
    ensures FitsAt(Exec(row, run), Story(row, run, i), i)
  {
    if run != [] {
      RunFits(row, run[..|run|-1], i);
      RunStart(row, run[..|run|-1]);
      StepFits(Exec(row, run[..|run|-1]), run[|run|-1], Story(row, run[..|run|-1], i), i);
    }
  }

  // ---- what a story says ----

  /** In every interleaving a message ends exactly as its story has it: each outcome if and only if the story ends that
      way, and the message goes on as long as the story does. */
  lemma OutcomeIsEarned(row: Row, run: seq<Action>, i: nat, outcome: Outcome)
    requires i < |Exec(row, run).runs|
    ensures var r := Exec(row, run).runs[i];
            r.phase == Finished(outcome) <==> Verdict(r.req, Story(row, run, i)) == Some(outcome)
  {
    RunFits(row, run, i);
  }

  /** Exactly the messages that must not be written are discarded: the change applies to the snapshot, but the
      message names another version than the snapshot has, or is full and names none. */
  lemma DiscardedExactly(row: Row, run: seq<Action>, i: nat)
    requires i < |Exec(row, run).runs| && Exec(row, run).runs[i].req.Single?
    ensures var r := Exec(row, run).runs[i];
            r.phase == Finished(Discarded) <==> EndsUnwanted(r.req, Story(row, run, i))
  {
    RunFits(row, run, i);
    RunIsOneAttempt(row, run, i);
    DiscardedByStory(Exec(row, run).runs[i].req, Story(row, run, i), Exec(row, run).runs[i].phase);
  }

  predicate EndsUnwanted(req: Request, t: seq<Incident>)
    requires req.Single?
  {
    && t != [] && t[|t|-1].Patched?
    && req.change(t[|t|-1].snapshot, 1).Some?
    && (req.expected.Some? ==> req.expected.value != t[|t|-1].snapshot.version)
    && (req.expected.None? ==> req.full)
  }

  lemma DiscardedByStory(req: Request, t: seq<Incident>, p: Phase)
    requires req.Single? && Fits(req, t, p) && (t != [] && t[|t|-1] != LOST ==> Conflicts(t) == 0)
    ensures p == Finished(Discarded) <==> EndsUnwanted(req, t)
  {
  }

  // A single update is never tried twice: its first conflict is its last incident.
  ghost predicate OneAttempt(s: State, t: seq<Incident>, i: nat) {
    i < |s.runs| && s.runs[i].req.Single? && Conflicts(t) > 0 ==>
      s.runs[i].phase.Finished? && t[|t|-1] == LOST
  }

  lemma StepIsOneAttempt(s: State, a: Action, t: seq<Incident>, i: nat)
    requires FitsAt(s, t, i) && OneAttempt(s, t, i) && s.history != []
    ensures OneAttempt(Step(s, a), t + IncidentOf(s, a, i), i)
  {
    StepFits(s, a, t, i);
    var more := IncidentOf(s, a, i);
    if more == [] { assert t + more == t; } else { StorySnoc(t, more[0]); }
    if i < |s.runs| { RequestStays(s, a, i); }
  }

  lemma {:induction false} RunIsOneAttempt(row: Row, run: seq<Action>, i: nat)
    ensures OneAttempt(Exec(row, run), Story(row, run, i), i)
  {
    if run != [] {
      RunFits(row, run[..|run|-1], i);
      RunStart(row, run[..|run|-1]);
      RunIsOneAttempt(row, run[..|run|-1], i);
      StepIsOneAttempt(Exec(row, run[..|run|-1]), run[|run|-1], Story(row, run[..|run|-1], i), i);
    }
  }

  lemma RequestStays(s: State, a: Action, i: nat)
    requires i < |s.runs|
    ensures i < |Step(s, a).runs| && Step(s, a).runs[i].req == s.runs[i].req
  {
  }
}
