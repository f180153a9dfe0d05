/** What becomes of a pausing batch, told by what its checks and its tables' runs give. */
module LangGraphLaws {
  import opened Sequences
  import opened TaskLedger
  import opened BatchLangGraph

  // ---- What a round may do ----

  /** The table has tasks, and they are all done or skipped. */
  ghost predicate AllDone(tasks: seq<Task>, table: string) {
    && (exists k | 0 <= k < |tasks| :: tasks[k].table == table)
    && (forall k | 0 <= k < |tasks| && tasks[k].table == table :: tasks[k].status in [Done, TaskSkipped])
  }

  /** Nothing but the end and the open tasks has changed. */
  ghost predicate CancelDue(s: State, next: State) {
    match s
    case State(b, latest) =>
      && next == State(b.(status := Cancelled, cancelReason := "run cancelled", tasks := next.run.tasks), latest)
      && |next.run.tasks| == |b.tasks|
      && forall k | 0 <= k < |b.tasks| ::
           next.run.tasks[k] == if b.tasks[k].status in [Planned, TaskRunning] then b.tasks[k].(status := TaskCancelled)
                                else b.tasks[k]
  }

  /** Nothing but the end has changed. */
  ghost predicate ThrewDue(s: State, next: State, e: string) {
    match s
    case State(b, latest) => next == State(b.(status := Failed, error := e), latest)
  }

  /** The table's steps have been replaced by its new run's, at the end, and its tasks carry them. */
  ghost predicate Replaced(s: State, next: State, table: string, r: TableRun) {
    match s
    case State(b, latest) =>
      && next.run.tables == b.tables && next.run.steps == NotOfTable(b.steps, table) + r.steps
      && |next.run.tasks| == |b.tasks|
      && (forall k | 0 <= k < |b.tasks| :: Synced(b.tasks[k], next.run.tasks[k], table, r.steps))
      && (forall e :: e in next.latest <==> e == Entry(table, r) || (e in latest && e.table != table))
  }

  /** A run that came back pauses the batch, fails it or lets it go on, by its status alone. */
  ghost predicate RunDue(s: State, next: State, table: string, r: TableRun) {
    match next
    case State(b, _) =>
      && Replaced(s, next, table, r) && b.session == r.session && b.cancelReason == s.run.cancelReason
      && (r.status == AwaitingHitl ==> b.status == AwaitingHitl && b.hitl == r.hitl)
      && (r.status != AwaitingHitl ==> b.hitl == s.run.hitl)
      && (r.status == Failed ==> b.status == Failed && b.error == r.error)
      && (r.status != Failed ==> b.error == s.run.error)
      && (r.status != AwaitingHitl && r.status != Failed ==> b.status == s.run.status)
      && b.meta.session == r.session
      && b.meta.paused == (if r.status == AwaitingHitl then Some(table) else None)
      && b.meta.lastCompleted == (if r.status == AwaitingHitl then None else Some(table))
  }

  /** The batch is running, and position `i` names a table that is not done. */
  ghost predicate Takes(s: State, i: nat) {
    i < |s.run.tables| && s.run.status == Running && !AllDone(s.run.tasks, s.run.tables[i])
  }

  /** What executing the table at position `i` gives: the spec is validated if the batch started from its first table,
      this is that table, and it has no step yet. */
  ghost function Given(s: State, i: nat, w: World, fromStart: bool): Outcome
    requires i < |s.run.tables|
  {
    w.execute(i, fromStart && s.run.tables[i] == s.run.tables[0]
                 && forall k | 0 <= k < |s.run.steps| :: s.run.steps[k].table != s.run.tables[i])
  }

  /** How a round that takes position `i` ends. */
  ghost predicate RoundEnds(s: State, next: State, i: nat, w: World, fromStart: bool)
    requires i < |s.run.tables|
  {
    if w.cancelled(i) then CancelDue(s, next)
    else
      match Given(s, i, w, fromStart)
      case Threw(e) => ThrewDue(s, next, e)
      case Returned(r) => RunDue(s, next, s.run.tables[i], r)
  }

  lemma WithRunReplaces(s: State, table: string, r: TableRun)
    requires Recorded(s)
    ensures Replaced(s, WithRun(s, table, r), table, r)
  {
    OwnedSteps(s.run.tables, s.latest);
    GroupedDropped(s.latest, table);
    GroupedAppend(Dropped(s.latest, table), Entry(table, r));
    PutHas(s.latest, table, r);
    forall k | 0 <= k < |s.run.tasks|
      ensures Synced(s.run.tasks[k], WithRun(s, table, r).run.tasks[k], table, r.steps)
    {
      SyncIsSynced(s.run.tasks[k], table, r.steps);
    }
  }

  lemma ReplacedBy(s: State, x: State, next: State, table: string, r: TableRun)
    requires Replaced(s, x, table, r) && SameRecord(x, next)
    ensures Replaced(s, next, table, r)
  {
  }

  lemma AdvanceDue(s: State, table: string, r: TableRun)
    requires Recorded(s)
    ensures RunDue(s, Advance(s, table, r), table, r)
  {
    WithRunReplaces(s, table, r);
    AdvanceFields(s, table, r);
    ReplacedBy(s, WithRun(s, table, r), Advance(s, table, r), table, r);
  }

  lemma SameDone(tasks: seq<Task>, table: string)
    ensures TasksDone(tasks, table) <==> AllDone(tasks, table)
  {
  }

  lemma SameOutcome(s: State, i: nat, w: World, fromStart: bool)
    requires i < |s.run.tables|
    ensures w.execute(i, Validates(s.run, i, fromStart)) == Given(s, i, w, fromStart)
  {
  }

  /** One round: it does nothing unless the batch is running and the position names a table that is not done; else a
      cancellation, an exception or the table's run is all that counts. */
  lemma RoundDue(s: State, i: nat, w: World, fromStart: bool)
    requires Recorded(s)
    ensures var next := Turn(s, i, w, fromStart);
            if Takes(s, i) then RoundEnds(s, next, i, w, fromStart) else next == s
  {
    if i < |s.run.tables| {
      SameDone(s.run.tasks, s.run.tables[i]);
      if Takes(s, i) { RoundTaken(s, i, w, fromStart); }
    }
  }

  lemma CancelledDue(s: State)
    ensures CancelDue(s, s.(run := s.run.(status := Cancelled, cancelReason := "run cancelled",
                                          tasks := CancelAll(s.run.tasks))))
  {
  }

  lemma RoundTaken(s: State, i: nat, w: World, fromStart: bool)
    requires Recorded(s) && i < |s.run.tables|
    ensures RoundEnds(s, RunNext(s, i, w, fromStart), i, w, fromStart)
  {
    SameOutcome(s, i, w, fromStart);
    if w.cancelled(i) {
      CancelledDue(s);
    } else {
      match Given(s, i, w, fromStart)
      case Threw(_) =>
      case Returned(r) => AdvanceDue(s, s.run.tables[i], r);
    }
  }

  // ---- How a run over the tables ends ----

  /** The round at position `p`, from state `x`, leaves the batch as `end`, and not running. */
  ghost predicate EndsAt(x: State, p: nat, end: State, w: World, fromStart: bool) {
    match end
    case State(b, _) => Takes(x, p) && RoundEnds(x, end, p, w, fromStart) && b.status != Running
  }

  lemma RoundStops(x: State, p: nat, next: State, w: World, fromStart: bool)
    requires Recorded(x) && next == Turn(x, p, w, fromStart)
    ensures if x.run.status != Running then next == x
            else next.run.status != Running ==> EndsAt(x, p, next, w, fromStart)
  {
    RoundDue(x, p, w, fromStart);
  }

  lemma RecordedOnTheWay(s: State, i: nat, n: nat, w: World, fromStart: bool)
    requires Recorded(s) && i <= n <= |s.run.tables| && OwnRuns(w, s.run.tables)
    ensures Recorded(RunTo(s, i, n, w, fromStart))
  {
    RoundsRecorded(s, i, w, fromStart, RoundOf(w, fromStart));
  }

  /** The batch is still running before position `n`, or a round before it ended it. */
  ghost predicate EndsBy(s: State, i: nat, n: nat, w: World, fromStart: bool)
    requires i <= n
  {
    match RunTo(s, i, n, w, fromStart)
    case State(b, latest) =>
      b.status == Running ||
      exists p | i <= p < n :: EndsAt(RunTo(s, i, p, w, fromStart), p, State(b, latest), w, fromStart)
  }

  lemma LastRound(s: State, i: nat, n: nat, w: World, fromStart: bool)
    requires Recorded(s) && i <= n < |s.run.tables| && OwnRuns(w, s.run.tables) && EndsBy(s, i, n, w, fromStart)
    ensures EndsBy(s, i, n + 1, w, fromStart)
  {
    var x, next := RunTo(s, i, n, w, fromStart), RunTo(s, i, n + 1, w, fromStart);
    RecordedOnTheWay(s, i, n, w, fromStart);
    RunToStep(s, i, n, w, fromStart);
    RoundStops(x, n, next, w, fromStart);
    if x.run.status != Running {
      var p :| i <= p < n && EndsAt(RunTo(s, i, p, w, fromStart), p, x, w, fromStart);
      assert EndsAt(RunTo(s, i, p, w, fromStart), p, next, w, fromStart);
    }
  }

  lemma NotBegun(s: State, i: nat, w: World, fromStart: bool)
    requires s.run.status == Running
    ensures EndsBy(s, i, i, w, fromStart)
  {
    assert RunTo(s, i, i, w, fromStart) == s;
  }

  lemma EndedBy(s: State, i: nat, n: nat, w: World, fromStart: bool)
    requires Recorded(s) && i <= n <= |s.run.tables| && OwnRuns(w, s.run.tables) && s.run.status == Running
    ensures EndsBy(s, i, n, w, fromStart)
  {
    var P := (k: nat) => EndsBy(s, i, i + k, w, fromStart);
    assert P(0) by { NotBegun(s, i, w, fromStart); }
    forall k: nat, m: nat | k < m <= n - i && m == k + 1 && P(k) ensures P(m) { LastRound(s, i, i + k, w, fromStart); }
    Inductively(P, n - i);
  }

  /** A run over the tables from position `i` either goes through all of them and completes, or ends as the round at
      some position leaves it: cancelled, failed or paused. */
  lemma RunEnds(s: State, i: nat, w: World, fromStart: bool)
    requires Recorded(s) && i <= |s.run.tables| && OwnRuns(w, s.run.tables) && s.run.status == Running
    ensures var (n, end) := (|s.run.tables|, RunFrom(s, i, w, fromStart));
            if end.run.status == Completed then
              var through := RunTo(s, i, n, w, fromStart);
              through.run.status == Running && end == through.(run := through.run.(status := Completed))
            else
              exists p | i <= p < n :: EndsAt(RunTo(s, i, p, w, fromStart), p, end, w, fromStart)
  {
    RunToNotCompleted(s, i, |s.run.tables|, w, fromStart);
    EndedBy(s, i, |s.run.tables|, w, fromStart);
  }

  // ---- How a resume ends ----

  /** The batch pauses again at the table, or fails, or goes on behind the table's first place in the list. */
  ghost predicate ResumeEnds(s: State, after: State, table: string, r: TableRun, w: World) {
    if r.status == AwaitingHitl then
      && Replaced(s, after, table, r) && after.run.status == AwaitingHitl && after.run.hitl == r.hitl
      && after.run.session == r.session && after.run.meta == Meta(r.session, Some(table), None)
      && after.run.error == s.run.error && after.run.cancelReason == s.run.cancelReason
    else if r.status == Failed then
      && Replaced(s, after, table, r) && after.run.status == Failed && after.run.error == r.error
      && after.run.hitl == s.run.hitl && after.run.session == s.run.session && after.run.meta == s.run.meta
      && after.run.cancelReason == s.run.cancelReason
    else
      exists x, i: nat :: GoesOnBehind(s, x, i, table, r) && after == RunFrom(x, i, w, false)
  }

  /** Running, with the table's run in its place and nothing else changed, and ready for what is behind the table. */
  ghost predicate GoesOnBehind(s: State, x: State, i: nat, table: string, r: TableRun) {
    match x
    case State(b, _) =>
      && Replaced(s, x, table, r) && b.status == Running && b.hitl == "" && b.session == s.run.session
      && b.meta == s.run.meta && b.error == s.run.error && b.cancelReason == s.run.cancelReason
      && Behind(b.tables, table, i)
  }

  /** Position `i` is the one behind the table's first place. */
  ghost predicate Behind(tables: seq<string>, table: string, i: nat) {
    && 0 < i <= |tables| && tables[i - 1] == table && forall j | 0 <= j < i - 1 :: tables[j] != table
  }

  /** What a resume of the table paused at answers. */
  ghost predicate ResumesAs(s: State, answer: Result<State, ResumeError>, table: string, w: World) {
    match w.resume(table)
    case Threw(e) => answer == Err(TableRunThrew(e))
    case Returned(r) => answer.Ok? && ResumeEnds(s, answer.value, table, r, w)
  }

  /** Refused are exactly batches that await nobody, or do not say at which table or in which session, and those whose
      table's run throws. */
  lemma ResumeDue(s: State, w: World)
    requires Recorded(s) && (s.run.meta.paused.Some? ==> s.run.meta.paused.value in s.run.tables)
    ensures Resume(s, w) == Err(NotAwaitingHitl) <==> s.run.status != AwaitingHitl
    ensures Resume(s, w) == Err(MissingPause) <==>
            && s.run.status == AwaitingHitl
            && (s.run.meta.paused in [None, Some("")] || (s.run.session == "" && s.run.meta.session == ""))
    ensures forall table | s.run.status == AwaitingHitl && s.run.meta.paused == Some(table) && table != ""
                           && (s.run.session != "" || s.run.meta.session != "") ::
              ResumesAs(s, Resume(s, w), table, w)
  {
    forall table | s.run.status == AwaitingHitl && s.run.meta.paused == Some(table) && table != ""
                   && (s.run.session != "" || s.run.meta.session != "")
      ensures ResumesAs(s, Resume(s, w), table, w)
    {
      if w.resume(table).Returned? { ResumedDue(s, table, w.resume(table).run, w); }
    }
  }

  lemma ResumedDue(s: State, table: string, r: TableRun, w: World)
    requires Recorded(s) && table != "" && table in s.run.tables
    ensures ResumeEnds(s, AfterResumed(WithRun(s, table, r), table, r, w), table, r, w)
  {
    WithRunReplaces(s, table, r);
    var x := WithRun(s, table, r);
    var after := AfterResumed(x, table, r, w);
    if r.status == AwaitingHitl || r.status == Failed {
      ReplacedBy(s, x, after, table, r);
    } else {
      ReplacedBy(s, x, Restarted(x), table, r);
      assert GoesOnBehind(s, Restarted(x), After(s.run.tables, table), table, r);
    }
  }
}
