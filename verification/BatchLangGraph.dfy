/** The batch run that pauses for a human and resumes (redibis/agents/batch_executor.py, resume_batch and
    _continue_langgraph_batch). */
module BatchLangGraph {
  import opened Sequences
  import opened TaskLedger

  // ---- What the batch takes from outside ----

  /** The record of one table's own run. */
  datatype TableRun = TableRun(status: RunStatus, steps: seq<Step>, session: string, hitl: string, error: string)

  datatype Outcome = Returned(run: TableRun) | Threw(error: string)

  /** By position in the table list: what the cancellation check there sees, and what executing the table there gives,
      with the spec validated or not. By table: what resuming its paused run gives. */
  datatype World = World(cancelled: nat -> bool, execute: (nat, bool) -> Outcome, resume: string -> Outcome)

  /** A table's run has ended or paused, and its steps are that table's. */
  ghost predicate OwnRun(o: Outcome, table: string) {
    o.Returned? ==> o.run.status != Running && forall s | s in o.run.steps :: s.table == table
  }

  ghost predicate OwnRuns(w: World, tables: seq<string>) {
    && (forall i: nat, v: bool | i < |tables| :: OwnRun(w.execute(i, v), tables[i]))
    && (forall t :: OwnRun(w.resume(t), t))
  }

  // ---- State ----

  datatype Meta = Meta(session: string, paused: Option<string>, lastCompleted: Option<string>)

  datatype Batch = Batch(status: RunStatus, tables: seq<string>, steps: seq<Step>, tasks: seq<Task>,
                         session: string, hitl: string, error: string, cancelReason: string, meta: Meta)

  datatype Entry = Entry(table: string, run: TableRun)

  /** A batch together with the latest run of each table reached so far, in the order in which they ran. */
  datatype State = State(run: Batch, latest: seq<Entry>)

  datatype ResumeError = NotAwaitingHitl | MissingPause | TableRunThrew(error: string)

  /** The steps of the latest runs, one after the other. */
  function Grouped(latest: seq<Entry>): seq<Step> {
    if latest == [] then [] else Grouped(latest[..|latest| - 1]) + latest[|latest| - 1].run.steps
  }

  function Dropped(latest: seq<Entry>, table: string): seq<Entry> {
    if latest == [] then []
    else
      var last := latest[|latest| - 1];
      Dropped(latest[..|latest| - 1], table) + if last.table == table then [] else [last]
  }

  /** A table's new run replaces its earlier one, at the end. */
  function Put(latest: seq<Entry>, table: string, r: TableRun): seq<Entry> {
    Dropped(latest, table) + [Entry(table, r)]
  }

  // ---- What a run is meant to do ----

  /** The state after `table` ran as `r`. */
  function WithRun(s: State, table: string, r: TableRun): State {
    var latest := Put(s.latest, table, r);
    State(s.run.(steps := Grouped(latest), tasks := SyncAll(s.run.tasks, table, r.steps)), latest)
  }

  /** An executed table's run has come back. */
  function Advance(s: State, table: string, r: TableRun): State {
    var after := WithRun(s, table, r);
    var b := after.run.(session := r.session);
    after.(run :=
      match r.status
      case AwaitingHitl => b.(status := AwaitingHitl, hitl := r.hitl, meta := Meta(r.session, Some(table), None))
      case Failed => b.(status := Failed, error := r.error, meta := Meta(r.session, None, Some(table)))
      case _ => b.(meta := Meta(r.session, None, Some(table))))
  }

  /** The spec is validated where the first table of an unstarted batch is executed. */
  predicate Validates(b: Batch, i: nat, fromStart: bool)
    requires i < |b.tables|
  {
    fromStart && b.tables[i] == b.tables[0] && !exists s | s in b.steps :: s.table == b.tables[i]
  }

  /** Position `i`: a cancellation seen before it, an executor that throws, or the table's run. */
  function RunNext(s: State, i: nat, w: World, fromStart: bool): (next: State)
    requires i < |s.run.tables|
    ensures next.run.tables == s.run.tables
  {
    if w.cancelled(i) then
      s.(run := s.run.(status := Cancelled, cancelReason := "run cancelled", tasks := CancelAll(s.run.tasks)))
    else
      match w.execute(i, Validates(s.run, i, fromStart))
      case Threw(e) => s.(run := s.run.(status := Failed, error := e))
      case Returned(r) => Advance(s, s.run.tables[i], r)
  }

  /** One round of the loop, at position `i`: a table whose tasks are all done is skipped, and once a table paused,
      failed or threw, or a check saw a cancellation, nothing follows. */
  function Turn(s: State, i: nat, w: World, fromStart: bool): (next: State)
    ensures next.run.tables == s.run.tables
  {
    if i >= |s.run.tables| || s.run.status != Running || TasksDone(s.run.tasks, s.run.tables[i]) then s
    else RunNext(s, i, w, fromStart)
  }

  type Round = (State, nat) -> State

  ghost predicate IsRound(round: Round, w: World, fromStart: bool) {
    forall s, i {:trigger Turn(s, i, w, fromStart)} :: round(s, i) == Turn(s, i, w, fromStart)
  }

  ghost function RoundOf(w: World, fromStart: bool): (round: Round)
    ensures IsRound(round, w, fromStart)
  {
    (s: State, i: nat) => Turn(s, i, w, fromStart)
  }

  /** The rounds at positions `i` to `n`; the round is a parameter so that proofs about them need not look inside it. */
  ghost function Rounds(s: State, i: nat, n: nat, round: Round): State
    requires i <= n
  {
    if n == i then s else round(Rounds(s, i, n - 1, round), n - 1)
  }

  /** What holds at first and every round keeps, holds in the end. */
  lemma {:induction false} RoundsHave(P: (State, nat) -> bool, s: State, i: nat, n: nat, round: Round)
    requires i <= n && P(s, i)
    requires forall x: State, k: nat {:trigger round(x, k)} | i <= k < n && P(x, k) :: P(round(x, k), k + 1)
    ensures P(Rounds(s, i, n, round), n)
  {
    if i < n { RoundsHave(P, s, i, n - 1, round); }
  }

  ghost function RunTo(s: State, i: nat, n: nat, w: World, fromStart: bool): (r: State)
    requires i <= n
    ensures r.run.tables == s.run.tables
  {
    var round := RoundOf(w, fromStart);
    assert Rounds(s, i, n, round).run.tables == s.run.tables by { RoundsKeepTables(s, i, n, w, fromStart, round); }
    Rounds(s, i, n, round)
  }

  lemma RunToStep(s: State, i: nat, n: nat, w: World, fromStart: bool)
    requires i <= n
    ensures RunTo(s, i, n + 1, w, fromStart) == Turn(RunTo(s, i, n, w, fromStart), n, w, fromStart)
  {
    assert RoundOf(w, fromStart)(RunTo(s, i, n, w, fromStart), n) ==
           Turn(RunTo(s, i, n, w, fromStart), n, w, fromStart);
  }

  lemma RoundsKeepTables(s: State, i: nat, n: nat, w: World, fromStart: bool, round: Round)
    requires i <= n && IsRound(round, w, fromStart)
    ensures Rounds(s, i, n, round).run.tables == s.run.tables
  {
    var P := (x: State, k: nat) => x.run.tables == s.run.tables;
    forall x: State, k: nat | i <= k < n && P(x, k) ensures P(round(x, k), k + 1) {
      assert round(x, k) == Turn(x, k, w, fromStart);
    }
    RoundsHave(P, s, i, n, round);
  }

  /** Run the tables from position `i` on; a batch still running at the end has completed. */
  ghost function RunFrom(s: State, i: nat, w: World, fromStart: bool): State
    requires i <= |s.run.tables|
  {
    var end := RunTo(s, i, |s.run.tables|, w, fromStart);
    if end.run.status == Running then end.(run := end.run.(status := Completed)) else end
  }

  function Restarted(s: State): State { s.(run := s.run.(status := Running, hitl := "")) }

  /** Where the loop goes on after `table`: behind its first place in the list. */
  function After(tables: seq<string>, table: string): (i: nat)
    ensures i <= |tables|
  {
    if table != "" && table in tables then IndexOf(tables, table) + 1 else 0
  }

  /** A resumed table has run as `r`: unless it pauses again or fails, the tables behind it follow. */
  ghost function AfterResumed(s: State, table: string, r: TableRun, w: World): State {
    match r.status
    case AwaitingHitl =>
      s.(run := s.run.(status := AwaitingHitl, hitl := r.hitl, session := r.session,
                       meta := Meta(r.session, Some(table), None)))
    case Failed => s.(run := s.run.(status := Failed, error := r.error))
    case _ => RunFrom(Restarted(s), After(s.run.tables, table), w, false)
  }

  /** The paused table's run replaces its latest one, and the batch goes on from there. */
  ghost function Resume(s: State, w: World): Result<State, ResumeError> {
    var b := s.run;
    if b.status != AwaitingHitl then Err(NotAwaitingHitl)
    else if b.meta.paused.GetOr("") == "" || (b.session == "" && b.meta.session == "") then Err(MissingPause)
    else
      var table := b.meta.paused.value;
      match w.resume(table)
      case Threw(e) => Err(TableRunThrew(e))
      case Returned(r) => Ok(AfterResumed(WithRun(s, table, r), table, r, w))
  }

  function Start(tables: seq<string>, tasks: seq<Task>): State {
    State(Batch(Running, tables, [], tasks, "", "", "", "", Meta("", None, None)), [])
  }

  // ---- What every state of a batch satisfies ----

  /** The batch goes on after such a run. */
  predicate Passed(r: TableRun) { r.status == Completed || r.status == Cancelled }

  ghost predicate AllPassed(latest: seq<Entry>) { forall e | e in latest :: Passed(e.run) }

  ghost predicate HasRun(latest: seq<Entry>, table: string) { exists e | e in latest :: e.table == table }

  ghost predicate Distinct(latest: seq<Entry>) {
    forall i, j | 0 <= i < j < |latest| :: latest[i].table != latest[j].table
  }

  ghost predicate Owned(tables: seq<string>, latest: seq<Entry>) {
    forall e | e in latest :: e.table in tables && forall s | s in e.run.steps :: s.table == e.table
  }

  /** The tables reached are the first ones of the list, in its order. */
  ghost predicate InTableOrder(tables: seq<string>, latest: seq<Entry>) {
    |latest| <= |tables| && forall i | 0 <= i < |latest| :: latest[i].table == tables[i]
  }

  /** Every table before position `n` has been reached. */
  ghost predicate Covered(tables: seq<string>, latest: seq<Entry>, n: nat)
    requires n <= |tables|
  {
    forall i {:trigger HasRun(latest, tables[i])} | 0 <= i < n :: HasRun(latest, tables[i])
  }

  /** Tasks of tables not reached yet have the given status. */
  ghost predicate Ahead(tasks: seq<Task>, latest: seq<Entry>, status: TaskStatus) {
    forall k | 0 <= k < |tasks| && !HasRun(latest, tasks[k].table) :: tasks[k].status == status
  }

  /** A task that has a step of its kind in its table's latest run carries the last such step's id and status. */
  ghost predicate Follows(task: Task, steps: seq<Step>) {
    var last := LastOfKind(steps, task.kind);
    last.Some? ==> task.step == last.value.id && task.status == Settle(last.value.status)
  }

  ghost predicate LedgerFollows(tasks: seq<Task>, latest: seq<Entry>) {
    forall e, k | e in latest && 0 <= k < |tasks| && tasks[k].table == e.table :: Follows(tasks[k], e.run.steps)
  }

  ghost predicate Grounded(s: State) {
    match s
    case State(b, latest) =>
      && Distinct(latest) && Owned(b.tables, latest)
      && b.steps == Grouped(latest) && LedgerFollows(b.tasks, latest)
      && (NoDup(b.tables) ==> InTableOrder(b.tables, latest))
  }

  /** Ready for position `i`. */
  ghost predicate Ready(s: State, i: nat) {
    match s
    case State(b, latest) =>
      && Grounded(s) && i <= |b.tables| && b.status == Running
      && AllPassed(latest) && Ahead(b.tasks, latest, Planned)
      && Covered(b.tables, latest, i) && (NoDup(b.tables) ==> |latest| == i)
  }

  /** All but the last run have passed. */
  ghost predicate EarlierPassed(latest: seq<Entry>) { latest != [] && AllPassed(latest[..|latest| - 1]) }

  ghost predicate Inv(s: State) {
    match s
    case State(b, latest) =>
      && Grounded(s)
      && Ahead(b.tasks, latest, if b.status == Cancelled then TaskCancelled else Planned)
      && match b.status
         case Running => AllPassed(latest)
         case AwaitingHitl =>
           && EarlierPassed(latest) && latest[|latest| - 1].run.status == AwaitingHitl
           && b.meta.paused == Some(latest[|latest| - 1].table) && b.meta.lastCompleted == None
           && Covered(b.tables, latest, After(b.tables, latest[|latest| - 1].table))
         case Completed => AllPassed(latest) && Covered(b.tables, latest, |b.tables|)
         case Cancelled =>
           && AllPassed(latest) && (NoDup(b.tables) ==> |latest| < |b.tables|)
           && forall k | 0 <= k < |b.tasks| :: b.tasks[k].status != Planned && b.tasks[k].status != TaskRunning
         case Failed =>
           AllPassed(latest) || (EarlierPassed(latest) && latest[|latest| - 1].run.status == Failed)
  }

  // ---- Putting a table's run in its place ----

  lemma {:induction false} DroppedHas(latest: seq<Entry>, table: string)
    ensures forall e :: e in Dropped(latest, table) <==> e in latest && e.table != table
  {
    if latest != [] {
      var n := |latest| - 1;
      DroppedHas(latest[..n], table);
      assert latest == latest[..n] + [latest[n]];
    }
  }

  lemma {:induction false} DroppedDistinct(latest: seq<Entry>, table: string)
    requires Distinct(latest)
    ensures Distinct(Dropped(latest, table))
  {
    if latest != [] {
      var n := |latest| - 1;
      DroppedDistinct(latest[..n], table);
      DroppedHas(latest[..n], table);
      forall e | e in Dropped(latest[..n], table) ensures e.table != latest[n].table {}
    }
  }

  lemma {:induction false} DroppedAbsent(latest: seq<Entry>, table: string)
    requires forall i | 0 <= i < |latest| :: latest[i].table != table
    ensures Dropped(latest, table) == latest
  {
    if latest != [] {
      var front, last := latest[..|latest| - 1], latest[|latest| - 1];
      assert forall i | 0 <= i < |front| :: front[i] == latest[i];
      DroppedAbsent(front, table);
      assert latest == front + [last];
    }
  }

  lemma PutHas(latest: seq<Entry>, table: string, r: TableRun)
    ensures forall e :: e in Put(latest, table, r) <==> e == Entry(table, r) || (e in latest && e.table != table)
    ensures forall t :: HasRun(Put(latest, table, r), t) <==> t == table || HasRun(latest, t)
  {
    DroppedHas(latest, table);
    var after := Put(latest, table, r);
    assert forall e :: e in after <==> e in Dropped(latest, table) || e == Entry(table, r);
    forall t ensures HasRun(after, t) <==> t == table || HasRun(latest, t) {
      if t == table { assert Entry(table, r) in after; }
    }
  }

  lemma PutDistinct(latest: seq<Entry>, table: string, r: TableRun)
    requires Distinct(latest)
    ensures Distinct(Put(latest, table, r))
  {
    DroppedDistinct(latest, table);
    DroppedHas(latest, table);
    forall e | e in Dropped(latest, table) ensures e.table != table {}
  }

  lemma NextNotRun(tables: seq<string>, latest: seq<Entry>)
    requires NoDup(tables) && InTableOrder(tables, latest) && |latest| < |tables|
    ensures !HasRun(latest, tables[|latest|])
  {
    forall e | e in latest ensures e.table != tables[|latest|] {
      var i :| 0 <= i < |latest| && latest[i] == e;
    }
  }

  /** With distinct tables, the run of the next table goes behind the others. */
  lemma PutNext(tables: seq<string>, latest: seq<Entry>, r: TableRun)
    requires NoDup(tables) && InTableOrder(tables, latest) && |latest| < |tables|
    ensures Put(latest, tables[|latest|], r) == latest + [Entry(tables[|latest|], r)]
  {
    DroppedAbsent(latest, tables[|latest|]);
  }

  /** The table that ran last keeps its place. */
  lemma PutLast(latest: seq<Entry>, r: TableRun)
    requires Distinct(latest) && latest != []
    ensures var n := |latest| - 1; Put(latest, latest[n].table, r) == latest[..n] + [Entry(latest[n].table, r)]
  {
    DroppedAbsent(latest[..|latest| - 1], latest[|latest| - 1].table);
  }

  lemma SyncFollows(task: Task, table: string, steps: seq<Step>)
    requires task.table == table
    ensures Follows(SyncTask(task, table, steps), steps)
  {
  }

  /** Syncing one table keeps the other tables' tasks and makes its own follow the new run. */
  lemma SyncKeepsLedger(s: State, table: string, r: TableRun)
    requires LedgerFollows(s.run.tasks, s.latest) && Ahead(s.run.tasks, s.latest, Planned)
    ensures var after := WithRun(s, table, r);
            LedgerFollows(after.run.tasks, after.latest) && Ahead(after.run.tasks, after.latest, Planned)
  {
    var after := WithRun(s, table, r);
    PutHas(s.latest, table, r);
    forall e, k | e in after.latest && 0 <= k < |after.run.tasks| && after.run.tasks[k].table == e.table
      ensures Follows(after.run.tasks[k], e.run.steps)
    {
      assert after.run.tasks[k] == SyncTask(s.run.tasks[k], table, r.steps);
      if e.table == table { SyncFollows(s.run.tasks[k], table, r.steps); }
    }
  }

  /** Where a run may be put when no table is listed twice: at the next table, or again at the last one. */
  ghost predicate Placed(s: State, table: string) {
    NoDup(s.run.tables) ==>
      || (|s.latest| < |s.run.tables| && table == s.run.tables[|s.latest|])
      || (s.latest != [] && table == s.latest[|s.latest| - 1].table)
  }

  lemma PutOwned(tables: seq<string>, latest: seq<Entry>, table: string, r: TableRun)
    requires Owned(tables, latest) && table in tables && OwnRun(Returned(r), table)
    ensures Owned(tables, Put(latest, table, r))
  {
    PutHas(latest, table, r);
  }

  lemma PutInOrder(s: State, table: string, r: TableRun)
    requires Grounded(s) && Placed(s, table) && NoDup(s.run.tables)
    ensures InTableOrder(s.run.tables, Put(s.latest, table, r))
  {
    if s.latest != [] && table == s.latest[|s.latest| - 1].table {
      PutLast(s.latest, r);
    } else {
      PutNext(s.run.tables, s.latest, r);
    }
  }

  lemma WithRunKeeps(s: State, table: string, r: TableRun)
    requires Grounded(s) && Ahead(s.run.tasks, s.latest, Planned) && table in s.run.tables
    requires OwnRun(Returned(r), table) && Placed(s, table)
    ensures Grounded(WithRun(s, table, r))
    ensures Ahead(WithRun(s, table, r).run.tasks, WithRun(s, table, r).latest, Planned)
  {
    PutOwned(s.run.tables, s.latest, table, r);
    PutDistinct(s.latest, table, r);
    SyncKeepsLedger(s, table, r);
    if NoDup(s.run.tables) { PutInOrder(s, table, r); }
  }

  // ---- One step ----

  lemma PutPassed(latest: seq<Entry>, table: string, r: TableRun)
    requires AllPassed(latest)
    ensures var after := Put(latest, table, r);
            after[..|after| - 1] == Dropped(latest, table) && AllPassed(after[..|after| - 1])
    ensures Passed(r) ==> AllPassed(Put(latest, table, r))
  {
    DroppedHas(latest, table);
    PutHas(latest, table, r);
  }

  lemma PutCovers(tables: seq<string>, latest: seq<Entry>, i: nat, r: TableRun)
    requires i < |tables| && Covered(tables, latest, i)
    ensures Covered(tables, Put(latest, tables[i], r), i + 1)
    ensures Covered(tables, Put(latest, tables[i], r), After(tables, tables[i]))
  {
    PutHas(latest, tables[i], r);
  }

  /** `next` has the runs, steps and tasks of `s`. */
  predicate SameRecord(s: State, next: State) {
    && next.latest == s.latest && next.run.tables == s.run.tables
    && next.run.steps == s.run.steps && next.run.tasks == s.run.tasks
  }

  /** The last run has been put in its place and stops the batch. */
  lemma StoppedKeeps(s: State, next: State, r: TableRun)
    requires Grounded(s) && Ahead(s.run.tasks, s.latest, Planned) && EarlierPassed(s.latest)
    requires s.latest[|s.latest| - 1].run == r && (r.status == AwaitingHitl || r.status == Failed)
    requires SameRecord(s, next) && next.run.status == r.status
    requires r.status == AwaitingHitl ==>
               var table := s.latest[|s.latest| - 1].table;
               && next.run.meta.paused == Some(table) && next.run.meta.lastCompleted == None
               && Covered(s.run.tables, s.latest, After(s.run.tables, table))
    ensures Inv(next)
  {
  }

  /** Between two rounds of the loop: the invariant holds and, while running, position `i` is next. */
  ghost predicate Good(s: State, i: nat) { Inv(s) && (s.run.status == Running ==> Ready(s, i)) }

  lemma ReadyIsGood(s: State, i: nat)
    requires Ready(s, i)
    ensures Good(s, i)
  {
  }

  lemma AdvanceIsReady(s: State, i: nat, r: TableRun)
    requires Ready(s, i) && i < |s.run.tables| && OwnRun(Returned(r), s.run.tables[i]) && Passed(r)
    ensures Ready(Advance(s, s.run.tables[i], r), i + 1)
  {
    var table := s.run.tables[i];
    WithRunKeeps(s, table, r);
    PutPassed(s.latest, table, r);
    PutCovers(s.run.tables, s.latest, i, r);
    if NoDup(s.run.tables) { PutNext(s.run.tables, s.latest, r); }
  }

  lemma AdvanceFields(s: State, table: string, r: TableRun)
    ensures SameRecord(WithRun(s, table, r), Advance(s, table, r))
    ensures r.status == AwaitingHitl || r.status == Failed ==> Advance(s, table, r).run.status == r.status
    ensures r.status == AwaitingHitl ==> Advance(s, table, r).run.meta == Meta(r.session, Some(table), None)
  {
  }

  lemma AdvanceStops(s: State, i: nat, r: TableRun)
    requires Ready(s, i) && i < |s.run.tables| && OwnRun(Returned(r), s.run.tables[i]) && !Passed(r)
    ensures Inv(Advance(s, s.run.tables[i], r)) && Advance(s, s.run.tables[i], r).run.status != Running
  {
    var table := s.run.tables[i];
    var after, next := WithRun(s, table, r), Advance(s, table, r);
    WithRunKeeps(s, table, r);
    PutPassed(s.latest, table, r);
    PutCovers(s.run.tables, s.latest, i, r);
    AdvanceFields(s, table, r);
    StoppedKeeps(after, next, r);
  }

  lemma AdvanceKeeps(s: State, i: nat, r: TableRun)
    requires Ready(s, i) && i < |s.run.tables| && OwnRun(Returned(r), s.run.tables[i])
    ensures Good(Advance(s, s.run.tables[i], r), i + 1)
  {
    if Passed(r) {
      AdvanceIsReady(s, i, r);
      ReadyIsGood(Advance(s, s.run.tables[i], r), i + 1);
    } else {
      AdvanceStops(s, i, r);
    }
  }

  lemma CancelKeeps(s: State, i: nat)
    requires Ready(s, i) && i < |s.run.tables|
    ensures var tasks := CancelAll(s.run.tasks);
            Inv(s.(run := s.run.(status := Cancelled, cancelReason := "run cancelled", tasks := tasks)))
  {
  }

  lemma StepKeeps(s: State, i: nat, w: World, fromStart: bool)
    requires Ready(s, i) && i < |s.run.tables| && OwnRuns(w, s.run.tables)
    ensures Good(RunNext(s, i, w, fromStart), i + 1)
  {
    if w.cancelled(i) {
      CancelKeeps(s, i);
    } else {
      var o := w.execute(i, Validates(s.run, i, fromStart));
      assert OwnRun(o, s.run.tables[i]);
      if o.Returned? { AdvanceKeeps(s, i, o.run); }
    }
  }

  /** Only a table that was reached before can have all its tasks done; when no table is listed twice, none is
      skipped. */
  lemma SkipKeeps(s: State, i: nat)
    requires Ready(s, i) && i < |s.run.tables| && TasksDone(s.run.tasks, s.run.tables[i])
    ensures Ready(s, i + 1) && !NoDup(s.run.tables)
  {
    var k :| 0 <= k < |s.run.tasks| && s.run.tasks[k].table == s.run.tables[i];
    assert HasRun(s.latest, s.run.tables[i]);
    if NoDup(s.run.tables) { NextNotRun(s.run.tables, s.latest); }
  }

  lemma TurnKeeps(s: State, i: nat, w: World, fromStart: bool)
    requires Good(s, i) && i < |s.run.tables| && OwnRuns(w, s.run.tables)
    ensures Good(Turn(s, i, w, fromStart), i + 1)
  {
    if s.run.status == Running {
      if TasksDone(s.run.tasks, s.run.tables[i]) { SkipKeeps(s, i); } else { StepKeeps(s, i, w, fromStart); }
    }
  }

  // ---- Runs ----

  lemma RunToKeeps(s: State, i: nat, n: nat, w: World, fromStart: bool)
    requires Ready(s, i) && i <= n <= |s.run.tables| && OwnRuns(w, s.run.tables)
    ensures Good(RunTo(s, i, n, w, fromStart), n)
  {
    var tables := s.run.tables;
    var P := (x: State, k: nat) => x.run.tables == tables && Good(x, k);
    var round := RoundOf(w, fromStart);
    forall x: State, k: nat | i <= k < n && P(x, k) ensures P(round(x, k), k + 1) {
      assert round(x, k) == Turn(x, k, w, fromStart);
      TurnKeeps(x, k, w, fromStart);
    }
    RoundsHave(P, s, i, n, round);
  }

  /** Whatever the world does, running the tables from some position on ends in a state satisfying the invariant. */
  lemma RunFromKeeps(s: State, i: nat, w: World, fromStart: bool)
    requires Ready(s, i) && OwnRuns(w, s.run.tables)
    ensures var end := RunFrom(s, i, w, fromStart);
            Inv(end) && end.run.status != Running && end.run.tables == s.run.tables
  {
    RunToKeeps(s, i, |s.run.tables|, w, fromStart);
  }

  /** The state right after a resumed table's run has replaced its latest one. */
  lemma ReplacedKeeps(s: State, r: TableRun)
    requires Inv(s) && s.run.status == AwaitingHitl && OwnRun(Returned(r), s.run.meta.paused.value)
    ensures var table := s.run.meta.paused.value;
            var after := WithRun(s, table, r);
            && Grounded(after) && Ahead(after.run.tasks, after.latest, Planned)
            && after.latest == s.latest[..|s.latest| - 1] + [Entry(table, r)]
            && EarlierPassed(after.latest) && Covered(s.run.tables, after.latest, After(s.run.tables, table))
  {
    var n := |s.latest| - 1;
    var table := s.run.meta.paused.value;
    assert s.latest[n] in s.latest;
    WithRunKeeps(s, table, r);
    LastReplaced(s.latest, r);
    ReplacedCovers(s.run.tables, s.latest, After(s.run.tables, table), table, r);
  }

  lemma LastReplaced(latest: seq<Entry>, r: TableRun)
    requires Distinct(latest) && EarlierPassed(latest)
    ensures var (front, table) := (latest[..|latest| - 1], latest[|latest| - 1].table);
            Put(latest, table, r) == front + [Entry(table, r)] && EarlierPassed(Put(latest, table, r))
  {
    PutLast(latest, r);
    var (front, table) := (latest[..|latest| - 1], latest[|latest| - 1].table);
    assert (front + [Entry(table, r)])[..|front|] == front;
  }

  lemma ReplacedCovers(tables: seq<string>, latest: seq<Entry>, n: nat, table: string, r: TableRun)
    requires n <= |tables| && Covered(tables, latest, n)
    ensures Covered(tables, Put(latest, table, r), n)
  {
    PutHas(latest, table, r);
  }

  /** After a passed run the batch is ready for the position behind the resumed table's first place. */
  lemma ReplacedIsReady(s: State, table: string, r: TableRun)
    requires Grounded(s) && Ahead(s.run.tasks, s.latest, Planned) && EarlierPassed(s.latest) && Passed(r)
    requires s.latest[|s.latest| - 1] == Entry(table, r) && table != ""
    requires Covered(s.run.tables, s.latest, After(s.run.tables, table))
    ensures Ready(Restarted(s), After(s.run.tables, table))
  {
    var n := |s.latest| - 1;
    assert s.latest == s.latest[..n] + [s.latest[n]];
    assert s.latest[n] in s.latest;
  }

  lemma AfterResumedKeeps(s: State, table: string, r: TableRun, w: World)
    requires Grounded(s) && Ahead(s.run.tasks, s.latest, Planned) && EarlierPassed(s.latest)
             && OwnRun(Returned(r), table)
    requires s.latest[|s.latest| - 1] == Entry(table, r) && table != ""
    requires Covered(s.run.tables, s.latest, After(s.run.tables, table)) && OwnRuns(w, s.run.tables)
    ensures var after := AfterResumed(s, table, r, w);
            Inv(after) && after.run.status != Running && after.run.tables == s.run.tables
  {
    if Passed(r) {
      ReplacedIsReady(s, table, r);
      RunFromKeeps(Restarted(s), After(s.run.tables, table), w, false);
    } else {
      StoppedKeeps(s, AfterResumed(s, table, r, w), r);
    }
  }

  lemma ResumeKeeps(s: State, w: World)
    requires Inv(s) && OwnRuns(w, s.run.tables)
    ensures var after := Resume(s, w);
            after.Ok? ==>
              Inv(after.value) && after.value.run.status != Running && after.value.run.tables == s.run.tables
  {
    if Resume(s, w).Ok? {
      var table := s.run.meta.paused.value;
      var o := w.resume(table);
      assert OwnRun(o, table);
      ReplacedKeeps(s, o.run);
      AfterResumedKeeps(WithRun(s, table, o.run), table, o.run, w);
    }
  }

  // ---- Any number of pauses and resumes ----

  ghost function Attempted(s: State, w: World): State {
    match Resume(s, w)
    case Ok(after) => after
    case Err(_) => s
  }

  /** A batch started in one world, then resumed, or tried to be, in each of the following ones. */
  ghost function Session(start: State, w: World, attempts: seq<World>): State {
    if attempts == [] then RunFrom(start, 0, w, true)
    else Attempted(Session(start, w, attempts[..|attempts| - 1]), attempts[|attempts| - 1])
  }

  ghost predicate AllOwn(w: World, attempts: seq<World>, tables: seq<string>) {
    OwnRuns(w, tables) && forall a | a in attempts :: OwnRuns(a, tables)
  }

  lemma StartReady(tables: seq<string>, nodes: seq<Node>)
    ensures Ready(Start(tables, Plan(tables, nodes)), 0)
  {
    PlanIsPlanned(tables, nodes);
  }

  lemma {:induction false} SessionInv(start: State, w: World, attempts: seq<World>)
    requires Ready(start, 0) && AllOwn(w, attempts, start.run.tables)
    ensures var s := Session(start, w, attempts);
            Inv(s) && s.run.status != Running && s.run.tables == start.run.tables
  {
    if attempts == [] {
      RunFromKeeps(start, 0, w, true);
    } else {
      var last := attempts[|attempts| - 1];
      assert last in attempts;
      SessionInv(start, w, attempts[..|attempts| - 1]);
      ResumeKeeps(Session(start, w, attempts[..|attempts| - 1]), last);
    }
  }

  /** The invariant holds after any number of pauses and resumes, whatever tables the list names, and however often. */
  lemma SessionKeeps(tables: seq<string>, nodes: seq<Node>, w: World, attempts: seq<World>)
    requires AllOwn(w, attempts, tables)
    ensures var s := Session(Start(tables, Plan(tables, nodes)), w, attempts);
            Inv(s) && s.run.status != Running && s.run.tables == tables
  {
    StartReady(tables, nodes);
    SessionInv(Start(tables, Plan(tables, nodes)), w, attempts);
  }

  // ---- Without cancelled table runs ----

  predicate CameBackCancelled(o: Outcome) { o.Returned? && o.run.status == Cancelled }

  /** No table's run comes back cancelled. */
  ghost predicate NeverCancels(w: World) {
    && (forall i, v :: !CameBackCancelled(w.execute(i, v)))
    && (forall t :: !CameBackCancelled(w.resume(t)))
  }

  ghost predicate NoneCancelled(latest: seq<Entry>) { forall e | e in latest :: e.run.status != Cancelled }

  lemma PutNoneCancelled(latest: seq<Entry>, table: string, r: TableRun)
    requires NoneCancelled(latest) && r.status != Cancelled
    ensures NoneCancelled(Put(latest, table, r))
  {
    PutHas(latest, table, r);
  }

  lemma NextNoneCancelled(s: State, i: nat, w: World, fromStart: bool)
    requires NoneCancelled(s.latest) && NeverCancels(w) && i < |s.run.tables|
    ensures NoneCancelled(RunNext(s, i, w, fromStart).latest)
  {
    var o := w.execute(i, Validates(s.run, i, fromStart));
    if o.Returned? { PutNoneCancelled(s.latest, s.run.tables[i], o.run); }
  }

  lemma RunFromNoneCancelled(s: State, i: nat, w: World, fromStart: bool)
    requires NoneCancelled(s.latest) && NeverCancels(w) && i <= |s.run.tables|
    ensures NoneCancelled(RunFrom(s, i, w, fromStart).latest)
  {
    var P := (x: State, k: nat) => NoneCancelled(x.latest);
    var round := RoundOf(w, fromStart);
    forall x: State, k: nat | P(x, k) ensures P(round(x, k), k + 1) {
      assert round(x, k) == Turn(x, k, w, fromStart);
      if k < |x.run.tables| { NextNoneCancelled(x, k, w, fromStart); }
    }
    RoundsHave(P, s, i, |s.run.tables|, round);
  }

  lemma {:induction false} SessionNoneCancelled(start: State, w: World, attempts: seq<World>)
    requires start.latest == [] && NeverCancels(w) && forall a | a in attempts :: NeverCancels(a)
    ensures NoneCancelled(Session(start, w, attempts).latest)
  {
    if attempts == [] {
      RunFromNoneCancelled(start, 0, w, true);
    } else {
      var before, last := Session(start, w, attempts[..|attempts| - 1]), attempts[|attempts| - 1];
      assert last in attempts;
      SessionNoneCancelled(start, w, attempts[..|attempts| - 1]);
      if Resume(before, last).Ok? {
        var table := before.run.meta.paused.value;
        var after := WithRun(before, table, last.resume(table).run);
        PutNoneCancelled(before.latest, table, last.resume(table).run);
        RunFromNoneCancelled(Restarted(after), After(after.run.tables, table), last, false);
      }
    }
  }

  /** Over any number of pauses and resumes without cancelled table runs: the step list is the latest runs' steps, one
      run for each table reached; at a pause every table before the paused one has completed, and so has every table at
      the end of a completed batch; and when no table is listed twice, the tables reached are the first ones, in list
      order. */
  lemma PausesKeepProgress(tables: seq<string>, nodes: seq<Node>, w: World, attempts: seq<World>)
    requires AllOwn(w, attempts, tables) && NeverCancels(w) && forall a | a in attempts :: NeverCancels(a)
    ensures var s := Session(Start(tables, Plan(tables, nodes)), w, attempts);
            && s.run.steps == Grouped(s.latest) && Distinct(s.latest) && Owned(tables, s.latest)
            && (NoDup(tables) ==> InTableOrder(tables, s.latest))
            && (s.run.status == AwaitingHitl ==>
                  && s.latest != [] && s.run.meta.paused == Some(s.latest[|s.latest| - 1].table)
                  && (forall i | 0 <= i < |s.latest| - 1 :: s.latest[i].run.status == Completed)
                  && forall i | 0 <= i < After(tables, s.latest[|s.latest| - 1].table) :: HasRun(s.latest, tables[i]))
            && (s.run.status == Completed ==>
                  && (forall e | e in s.latest :: e.run.status == Completed)
                  && forall t | t in tables :: HasRun(s.latest, t))
  {
    var s := Session(Start(tables, Plan(tables, nodes)), w, attempts);
    SessionKeeps(tables, nodes, w, attempts);
    SessionNoneCancelled(Start(tables, Plan(tables, nodes)), w, attempts);
    if s.run.status == AwaitingHitl {
      forall i | 0 <= i < |s.latest| - 1 ensures s.latest[i].run.status == Completed {
        assert s.latest[..|s.latest| - 1][i] in s.latest[..|s.latest| - 1];
      }
    }
  }

  // ---- When a batch completes ----

  /** Position `k` lets the batch go on when it is executed. */
  predicate GoesOn(w: World, k: nat, validate: bool) {
    var o := w.execute(k, validate);
    !w.cancelled(k) && o.Returned? && o.run.status != AwaitingHitl && o.run.status != Failed
  }

  /** The loop, in state `b`, goes on behind position `k`. */
  predicate Passes(b: State, k: nat, w: World, fromStart: bool) {
    k < |b.run.tables| ==> TasksDone(b.run.tasks, b.run.tables[k]) || GoesOn(w, k, Validates(b.run, k, fromStart))
  }

  lemma PassesIff(b: State, k: nat, w: World, fromStart: bool)
    ensures Turn(b, k, w, fromStart).run.status == Running <==> b.run.status == Running && Passes(b, k, w, fromStart)
    ensures Turn(b, k, w, fromStart).run.status == Completed <==> b.run.status == Completed
  {
  }

  /** What no round brings back once it is lost, still holds in the end exactly when every round passed it on. */
  lemma {:induction false} RunToHasIff(
      P: State -> bool, passes: (State, nat) -> bool, s: State, i: nat, n: nat, w: World, fromStart: bool, round: Round)
    requires i <= n && P(s) && round == RoundOf(w, fromStart)
    requires forall x: State, k: nat {:trigger round(x, k)} | i <= k < n :: P(round(x, k)) <==> P(x) && passes(x, k)
    ensures P(RunTo(s, i, n, w, fromStart)) <==> forall k | i <= k < n :: passes(RunTo(s, i, k, w, fromStart), k)
  {
    if i < n {
      RunToHasIff(P, passes, s, i, n - 1, w, fromStart, round);
      assert RunTo(s, i, n, w, fromStart) == round(RunTo(s, i, n - 1, w, fromStart), n - 1);
    }
  }

  lemma RunningIff(s: State, i: nat, n: nat, w: World, fromStart: bool)
    requires s.run.status == Running && i <= n
    ensures RunTo(s, i, n, w, fromStart).run.status == Running <==>
            forall k | i <= k < n :: Passes(RunTo(s, i, k, w, fromStart), k, w, fromStart)
  {
    var round := RoundOf(w, fromStart);
    var P := (x: State) => x.run.status == Running;
    var passes := (x: State, k: nat) => Passes(x, k, w, fromStart);
    forall x: State, k: nat | i <= k < n ensures P(round(x, k)) <==> P(x) && passes(x, k) {
      assert round(x, k) == Turn(x, k, w, fromStart);
      PassesIff(x, k, w, fromStart);
    }
    RunToHasIff(P, passes, s, i, n, w, fromStart, round);
  }

  lemma RunToNotCompleted(s: State, i: nat, n: nat, w: World, fromStart: bool)
    requires s.run.status != Completed && i <= n
    ensures RunTo(s, i, n, w, fromStart).run.status != Completed
  {
    var P := (x: State, k: nat) => x.run.status != Completed;
    var round := RoundOf(w, fromStart);
    forall x: State, k: nat | P(x, k) ensures P(round(x, k), k + 1) {
      assert round(x, k) == Turn(x, k, w, fromStart);
      PassesIff(x, k, w, fromStart);
    }
    RoundsHave(P, s, i, n, round);
  }

  /** The batch completes exactly when every position is either skipped, its table's tasks being done by then, or
      reached uncancelled with a run that neither pauses, fails nor throws. */
  lemma CompletesIff(s: State, i: nat, w: World, fromStart: bool)
    requires s.run.status == Running && i <= |s.run.tables|
    ensures RunFrom(s, i, w, fromStart).run.status == Completed <==>
            forall k | i <= k < |s.run.tables| :: Passes(RunTo(s, i, k, w, fromStart), k, w, fromStart)
  {
    RunningIff(s, i, |s.run.tables|, w, fromStart);
    RunToNotCompleted(s, i, |s.run.tables|, w, fromStart);
  }

  /** With distinct tables no round skips, and the spec is validated at the first position alone. */
  lemma DistinctReady(b: State, k: nat, fromStart: bool)
    requires Ready(b, k) && NoDup(b.run.tables) && k < |b.run.tables|
    ensures !TasksDone(b.run.tasks, b.run.tables[k])
    ensures Validates(b.run, k, fromStart) <==> fromStart && k == 0
  {
    if TasksDone(b.run.tasks, b.run.tables[k]) { SkipKeeps(b, k); }
  }

  /** In a batch without repeated tables the spec is validated for the first table only. */
  predicate GoesOnAt(w: World, k: nat, fromStart: bool) { GoesOn(w, k, fromStart && k == 0) }

  /** With distinct tables the batch completes exactly when every remaining table is reached uncancelled with a run that
      neither pauses, fails nor throws. */
  lemma DistinctCompletesIff(s: State, i: nat, w: World, fromStart: bool)
    requires Ready(s, i) && NoDup(s.run.tables) && OwnRuns(w, s.run.tables)
    ensures RunFrom(s, i, w, fromStart).run.status == Completed <==>
            forall k: nat | i <= k < |s.run.tables| :: GoesOnAt(w, k, fromStart)
  {
    DistinctRunningIff(s, i, |s.run.tables|, w, fromStart);
    RunToNotCompleted(s, i, |s.run.tables|, w, fromStart);
  }

  /** Between two rounds in a batch of distinct tables: it is still running exactly when all positions so far went
      on. */
  ghost predicate OnTrack(x: State, tables: seq<string>, i: nat, k: nat, w: World, fromStart: bool) {
    match x
    case State(b, _) =>
      && b.tables == tables && Good(x, k)
      && (b.status == Running <==> forall j: nat | i <= j < k :: GoesOnAt(w, j, fromStart))
  }

  lemma TurnOnTrack(x: State, tables: seq<string>, i: nat, k: nat, w: World, fromStart: bool)
    requires OnTrack(x, tables, i, k, w, fromStart) && i <= k < |tables| && NoDup(tables) && OwnRuns(w, tables)
    ensures OnTrack(Turn(x, k, w, fromStart), tables, i, k + 1, w, fromStart)
  {
    TurnKeeps(x, k, w, fromStart);
    GoesOnIff(x, k, w, fromStart);
    assert (forall j: nat | i <= j < k + 1 :: GoesOnAt(w, j, fromStart)) <==>
           (forall j: nat | i <= j < k :: GoesOnAt(w, j, fromStart)) && GoesOnAt(w, k, fromStart);
  }

  lemma GoesOnIff(x: State, k: nat, w: World, fromStart: bool)
    requires Good(x, k) && NoDup(x.run.tables) && k < |x.run.tables|
    ensures Turn(x, k, w, fromStart).run.status == Running <==>
            x.run.status == Running && GoesOnAt(w, k, fromStart)
  {
    PassesIff(x, k, w, fromStart);
    if x.run.status == Running { DistinctReady(x, k, fromStart); }
  }

  lemma ReadyOnTrack(s: State, i: nat, w: World, fromStart: bool)
    requires Ready(s, i)
    ensures OnTrack(s, s.run.tables, i, i, w, fromStart)
  {
  }

  lemma OnTrackIsKept(tables: seq<string>, i: nat, n: nat, w: World, fromStart: bool, round: Round)
    requires n <= |tables| && NoDup(tables) && OwnRuns(w, tables) && round == RoundOf(w, fromStart)
    ensures forall x: State, k: nat {:trigger round(x, k)} | i <= k < n && OnTrack(x, tables, i, k, w, fromStart) ::
              OnTrack(round(x, k), tables, i, k + 1, w, fromStart)
  {
    forall x: State, k: nat | i <= k < n && OnTrack(x, tables, i, k, w, fromStart)
      ensures OnTrack(round(x, k), tables, i, k + 1, w, fromStart)
    {
      assert round(x, k) == Turn(x, k, w, fromStart);
      TurnOnTrack(x, tables, i, k, w, fromStart);
    }
  }

  lemma RunsOnTrack(s: State, i: nat, n: nat, w: World, fromStart: bool)
    requires OnTrack(s, s.run.tables, i, i, w, fromStart) && i <= n <= |s.run.tables|
    requires NoDup(s.run.tables) && OwnRuns(w, s.run.tables)
    ensures RunTo(s, i, n, w, fromStart).run.status == Running <==>
            forall k: nat | i <= k < n :: GoesOnAt(w, k, fromStart)
  {
    var tables, round := s.run.tables, RoundOf(w, fromStart);
    OnTrackIsKept(tables, i, n, w, fromStart, round);
    RoundsHave((x: State, k: nat) => OnTrack(x, tables, i, k, w, fromStart), s, i, n, round);
  }

  lemma DistinctRunningIff(s: State, i: nat, n: nat, w: World, fromStart: bool)
    requires Ready(s, i) && NoDup(s.run.tables) && OwnRuns(w, s.run.tables) && i <= n <= |s.run.tables|
    ensures RunTo(s, i, n, w, fromStart).run.status == Running <==>
            forall k: nat | i <= k < n :: GoesOnAt(w, k, fromStart)
  {
    ReadyOnTrack(s, i, w, fromStart);
    RunsOnTrack(s, i, n, w, fromStart);
  }

  // ---- When no table is listed twice ----

  ghost predicate AllCompleted(latest: seq<Entry>) { forall e | e in latest :: e.run.status == Completed }

  /** The runs from position `i` on are what the world gave there, the spec validated for the first table only. */
  ghost predicate ExecutedFrom(latest: seq<Entry>, base: seq<Entry>, i: nat, w: World, fromStart: bool) {
    && i <= |latest| && i <= |base| && latest[..i] == base[..i]
    && forall k: nat | i <= k < |latest| :: w.execute(k, fromStart && k == 0) == Returned(latest[k].run)
  }

  lemma ExecutedAppend(latest: seq<Entry>, base: seq<Entry>, i: nat, w: World, fromStart: bool, e: Entry)
    requires ExecutedFrom(latest, base, i, w, fromStart)
    requires w.execute(|latest|, fromStart && |latest| == 0) == Returned(e.run)
    ensures ExecutedFrom(latest + [e], base, i, w, fromStart)
  {
  }

  lemma NextLatest(b: State, k: nat, w: World, fromStart: bool)
    requires k < |b.run.tables|
    ensures var o := w.execute(k, Validates(b.run, k, fromStart));
            RunNext(b, k, w, fromStart).latest ==
            if w.cancelled(k) || o.Threw? then b.latest else Put(b.latest, b.run.tables[k], o.run)
  {
  }

  lemma TurnAppends(b: State, k: nat, w: World, fromStart: bool)
    requires k < |b.run.tables| && b.run.status == Running && !TasksDone(b.run.tasks, b.run.tables[k])
    requires Dropped(b.latest, b.run.tables[k]) == b.latest
    ensures var o := w.execute(k, Validates(b.run, k, fromStart));
            Turn(b, k, w, fromStart).latest ==
            if w.cancelled(k) || o.Threw? then b.latest else b.latest + [Entry(b.run.tables[k], o.run)]
  {
    NextLatest(b, k, w, fromStart);
  }

  lemma NextIsNew(b: State, k: nat)
    requires Ready(b, k) && NoDup(b.run.tables) && k < |b.run.tables|
    ensures Dropped(b.latest, b.run.tables[k]) == b.latest && |b.latest| == k
  {
    DroppedAbsent(b.latest, b.run.tables[k]);
  }

  lemma TurnExecuted(b: State, k: nat, base: seq<Entry>, i: nat, w: World, fromStart: bool)
    requires Ready(b, k) && NoDup(b.run.tables) && i <= k < |b.run.tables|
             && ExecutedFrom(b.latest, base, i, w, fromStart)
    ensures ExecutedFrom(Turn(b, k, w, fromStart).latest, base, i, w, fromStart)
  {
    DistinctReady(b, k, fromStart);
    NextIsNew(b, k);
    TurnAppends(b, k, w, fromStart);
    var o := w.execute(k, fromStart && k == 0);
    if o.Returned? { ExecutedAppend(b.latest, base, i, w, fromStart, Entry(b.run.tables[k], o.run)); }
  }

  lemma DistinctLatest(s: State, i: nat, n: nat, w: World, fromStart: bool)
    requires Ready(s, i) && NoDup(s.run.tables) && OwnRuns(w, s.run.tables) && i <= n <= |s.run.tables|
    ensures ExecutedFrom(RunTo(s, i, n, w, fromStart).latest, s.latest, i, w, fromStart)
  {
    var tables, round := s.run.tables, RoundOf(w, fromStart);
    var P := (x: State, k: nat) =>
      x.run.tables == tables && Good(x, k) && ExecutedFrom(x.latest, s.latest, i, w, fromStart);
    ReadyIsGood(s, i);
    forall x: State, k: nat | i <= k < n && P(x, k) ensures P(round(x, k), k + 1) {
      assert round(x, k) == Turn(x, k, w, fromStart);
      TurnKeeps(x, k, w, fromStart);
      if x.run.status == Running { TurnExecuted(x, k, s.latest, i, w, fromStart); }
    }
    RoundsHave(P, s, i, n, round);
  }

  lemma CompletedCovers(s: State)
    requires Inv(s) && s.run.status == Completed && NoDup(s.run.tables)
    ensures |s.latest| == |s.run.tables|
  {
    if |s.latest| < |s.run.tables| { NextNotRun(s.run.tables, s.latest); }
  }

  /** Whether the run of position `k` came back cancelled. */
  predicate CancelledAt(w: World, k: nat, fromStart: bool) { CameBackCancelled(w.execute(k, fromStart && k == 0)) }

  /** In a completed batch of distinct tables, table `k`'s run is what the world gave at position `k`, and it completed
      unless it came back cancelled. */
  lemma CompletedRun(start: State, w: World, k: nat)
    requires Ready(start, 0) && NoDup(start.run.tables) && OwnRuns(w, start.run.tables)
    requires RunFrom(start, 0, w, true).run.status == Completed && k < |start.run.tables|
    ensures var latest := RunFrom(start, 0, w, true).latest;
            && |latest| == |start.run.tables|
            && w.execute(k, k == 0) == Returned(latest[k].run)
            && (latest[k].run.status == Completed <==> !CancelledAt(w, k, true))
  {
    var end := RunFrom(start, 0, w, true);
    RunFromKeeps(start, 0, w, true);
    DistinctLatest(start, 0, |start.run.tables|, w, true);
    CompletedCovers(end);
    assert end.latest[k] in end.latest;
  }

  /** A batch of distinct tables completes with every table's run completed exactly when each position is reached
      uncancelled and its run goes on and does not come back cancelled. */
  lemma DistinctAllCompletedIff(start: State, w: World)
    requires Ready(start, 0) && NoDup(start.run.tables) && OwnRuns(w, start.run.tables)
    ensures var end := RunFrom(start, 0, w, true);
            end.run.status == Completed && AllCompleted(end.latest) <==>
            forall k: nat | k < |start.run.tables| :: GoesOnAt(w, k, true) && !CancelledAt(w, k, true)
  {
    var tables, end := start.run.tables, RunFrom(start, 0, w, true);
    DistinctCompletesIff(start, 0, w, true);
    if end.run.status == Completed {
      CompletedLatest(start, w);
      forall k: nat | k < |tables| ensures end.latest[k].run.status == Completed <==> !CancelledAt(w, k, true) {
        CompletedRun(start, w, k);
      }
      AllCompletedEach(end.latest, (k: nat) => !CancelledAt(w, k, true));
    }
  }

  lemma CompletedLatest(start: State, w: World)
    requires Ready(start, 0) && NoDup(start.run.tables) && OwnRuns(w, start.run.tables)
    requires RunFrom(start, 0, w, true).run.status == Completed
    ensures |RunFrom(start, 0, w, true).latest| == |start.run.tables|
  {
    RunFromKeeps(start, 0, w, true);
    CompletedCovers(RunFrom(start, 0, w, true));
  }

  lemma AllCompletedEach(latest: seq<Entry>, completed: nat -> bool)
    requires forall k: nat | k < |latest| :: latest[k].run.status == Completed <==> completed(k)
    ensures AllCompleted(latest) <==> forall k: nat | k < |latest| :: completed(k)
  {
    assert forall k: nat | k < |latest| :: latest[k] in latest;
  }

  // ---- When a cancellation stays seen ----

  /** Once a table's run came back cancelled, every later check sees the cancellation. */
  ghost predicate Sticky(w: World) {
    && (forall i: nat, v: bool, j: nat | i < j && CameBackCancelled(w.execute(i, v)) :: w.cancelled(j))
    && (forall t: string, j: nat | CameBackCancelled(w.resume(t)) :: w.cancelled(j))
  }

  /** No run but the last one is cancelled. */
  ghost predicate OnlyLastCancelled(latest: seq<Entry>) { latest != [] ==> NoneCancelled(latest[..|latest| - 1]) }

  predicate EndsInCancelled(latest: seq<Entry>) { latest != [] && latest[|latest| - 1].run.status == Cancelled }

  /** Only the last run may be cancelled, and then every check from position `k` on sees it. */
  ghost predicate Contained(s: State, k: nat, w: World) {
    && OnlyLastCancelled(s.latest)
    && (s.run.status == Running && EndsInCancelled(s.latest) ==> forall j: nat | j >= k :: w.cancelled(j))
  }

  lemma LastRunNotCancelled(latest: seq<Entry>)
    requires OnlyLastCancelled(latest) && !EndsInCancelled(latest)
    ensures NoneCancelled(latest)
  {
    if latest != [] { assert latest == latest[..|latest| - 1] + [latest[|latest| - 1]]; }
  }

  lemma PutOnlyLast(latest: seq<Entry>, table: string, r: TableRun)
    requires NoneCancelled(latest)
    ensures OnlyLastCancelled(Put(latest, table, r))
    ensures EndsInCancelled(Put(latest, table, r)) <==> r.status == Cancelled
  {
    DroppedHas(latest, table);
    assert Put(latest, table, r)[..|Dropped(latest, table)|] == Dropped(latest, table);
  }

  lemma TurnContained(s: State, k: nat, w: World, fromStart: bool)
    requires Contained(s, k, w) && Sticky(w)
    ensures Contained(Turn(s, k, w, fromStart), k + 1, w)
  {
    if k < |s.run.tables| && s.run.status == Running {
      NextLatest(s, k, w, fromStart);
      var o := w.execute(k, Validates(s.run, k, fromStart));
      if !w.cancelled(k) && o.Returned? {
        LastRunNotCancelled(s.latest);
        PutOnlyLast(s.latest, s.run.tables[k], o.run);
      }
    }
  }

  /** With a sticky cancellation, running on from a state where only the last run may be cancelled leaves it so. */
  lemma RunFromContained(s: State, i: nat, w: World, fromStart: bool)
    requires Contained(s, i, w) && Sticky(w) && i <= |s.run.tables|
    ensures OnlyLastCancelled(RunFrom(s, i, w, fromStart).latest)
  {
    var P := (x: State, k: nat) => Contained(x, k, w);
    var round := RoundOf(w, fromStart);
    forall x: State, k: nat | P(x, k) ensures P(round(x, k), k + 1) {
      assert round(x, k) == Turn(x, k, w, fromStart);
      TurnContained(x, k, w, fromStart);
    }
    RoundsHave(P, s, i, |s.run.tables|, round);
  }

  /** With a sticky cancellation, a batch of distinct tables completes with some table's run cancelled exactly when
      every position goes on and the last one comes back cancelled. */
  lemma StickyCancelledIff(start: State, w: World)
    requires Ready(start, 0) && NoDup(start.run.tables) && OwnRuns(w, start.run.tables) && Sticky(w)
    ensures var (n, end) := (|start.run.tables|, RunFrom(start, 0, w, true));
            end.run.status == Completed && !AllCompleted(end.latest) <==>
            n > 0 && CancelledAt(w, n - 1, true) && forall k: nat | k < n :: GoesOnAt(w, k, true)
  {
    var n := |start.run.tables|;
    DistinctCompletesIff(start, 0, w, true);
    DistinctAllCompletedIff(start, w);
    if (forall k: nat | k < n :: GoesOnAt(w, k, true)) {
      forall k: nat | k < n && CancelledAt(w, k, true) ensures k == n - 1 {
        assert k + 1 < n ==> GoesOnAt(w, k + 1, true);
      }
    }
  }

  // ---- Over a whole session ----

  ghost predicate AllSticky(w: World, attempts: seq<World>) { Sticky(w) && forall a | a in attempts :: Sticky(a) }

  /** With sticky cancellations, at any point of any session no run but the last one is cancelled. */
  lemma {:induction false} SessionOnlyLastCancelled(start: State, w: World, attempts: seq<World>)
    requires start.latest == [] && AllSticky(w, attempts)
    requires AllOwn(w, attempts, start.run.tables) && Ready(start, 0)
    ensures OnlyLastCancelled(Session(start, w, attempts).latest)
  {
    if attempts == [] {
      RunFromContained(start, 0, w, true);
    } else {
      var front, last := attempts[..|attempts| - 1], attempts[|attempts| - 1];
      assert last in attempts;
      SessionInv(start, w, front);
      SessionOnlyLastCancelled(start, w, front);
      ResumeOnlyLast(Session(start, w, front), last);
    }
  }

  lemma ResumeOnlyLast(s: State, w: World)
    requires Inv(s) && OnlyLastCancelled(s.latest) && Sticky(w) && OwnRuns(w, s.run.tables)
    ensures OnlyLastCancelled(Attempted(s, w).latest)
  {
    if Resume(s, w).Ok? {
      var table := s.run.meta.paused.value;
      var r := w.resume(table).run;
      LastRunNotCancelled(s.latest);
      PutOnlyLast(s.latest, table, r);
      var after := WithRun(s, table, r);
      if Passed(r) { RunFromContained(Restarted(after), After(after.run.tables, table), w, false); }
    }
  }

  // ---- Recovery after a crash ----

  /** The stored batch goes on behind the last table recorded as completed. */
  ghost function Recover(s: State, w: World): State {
    var last := s.run.meta.lastCompleted.GetOr("");
    RunFrom(Restarted(s), After(s.run.tables, last), w, last == "")
  }

  // ---- Steps by table ----

  function OfTable(steps: seq<Step>, table: string): seq<Step> {
    if steps == [] then []
    else
      var last := steps[|steps| - 1];
      OfTable(steps[..|steps| - 1], table) + if last.table == table then [last] else []
  }

  function NotOfTable(steps: seq<Step>, table: string): seq<Step> {
    if steps == [] then []
    else
      var last := steps[|steps| - 1];
      NotOfTable(steps[..|steps| - 1], table) + if last.table == table then [] else [last]
  }

  lemma {:induction false} OfTableConcat(a: seq<Step>, b: seq<Step>, table: string)
    ensures OfTable(a + b, table) == OfTable(a, table) + OfTable(b, table)
  {
    if b == [] {
      assert a + b == a;
    } else {
      OfTableConcat(a, b[..|b| - 1], table);
      assert (a + b)[..|a + b| - 1] == a + b[..|b| - 1];
    }
  }

  lemma {:induction false} NotOfTableConcat(a: seq<Step>, b: seq<Step>, table: string)
    ensures NotOfTable(a + b, table) == NotOfTable(a, table) + NotOfTable(b, table)
  {
    if b == [] {
      assert a + b == a;
    } else {
      NotOfTableConcat(a, b[..|b| - 1], table);
      assert (a + b)[..|a + b| - 1] == a + b[..|b| - 1];
    }
  }

  lemma {:induction false} SplitSame(steps: seq<Step>, table: string)
    requires forall s | s in steps :: s.table == table
    ensures OfTable(steps, table) == steps && NotOfTable(steps, table) == []
  {
    if steps != [] {
      assert steps[|steps| - 1] in steps;
      SplitSame(steps[..|steps| - 1], table);
      assert steps == steps[..|steps| - 1] + [steps[|steps| - 1]];
    }
  }

  lemma {:induction false} SplitOther(steps: seq<Step>, table: string)
    requires forall s | s in steps :: s.table != table
    ensures OfTable(steps, table) == [] && NotOfTable(steps, table) == steps
  {
    if steps != [] {
      assert steps[|steps| - 1] in steps;
      SplitOther(steps[..|steps| - 1], table);
      assert steps == steps[..|steps| - 1] + [steps[|steps| - 1]];
    }
  }

  /** Each run's steps are its table's. */
  ghost predicate OwnSteps(latest: seq<Entry>) {
    forall i | 0 <= i < |latest| :: forall s | s in latest[i].run.steps :: s.table == latest[i].table
  }

  lemma OwnedSteps(tables: seq<string>, latest: seq<Entry>)
    requires Owned(tables, latest)
    ensures OwnSteps(latest)
  {
    assert forall i | 0 <= i < |latest| :: latest[i] in latest;
  }

  lemma {:induction false} GroupedWithout(latest: seq<Entry>, table: string)
    requires OwnSteps(latest) && forall i | 0 <= i < |latest| :: latest[i].table != table
    ensures OfTable(Grouped(latest), table) == []
  {
    if latest != [] {
      var n := |latest| - 1;
      GroupedWithout(latest[..n], table);
      OfTableConcat(Grouped(latest[..n]), latest[n].run.steps, table);
      SplitOther(latest[n].run.steps, table);
    }
  }

  /** Taking one table's steps out of the list takes out its run. */
  lemma {:induction false} GroupedDropped(latest: seq<Entry>, table: string)
    requires OwnSteps(latest)
    ensures NotOfTable(Grouped(latest), table) == Grouped(Dropped(latest, table))
  {
    if latest != [] {
      var n := |latest| - 1;
      var last := latest[n];
      GroupedDropped(latest[..n], table);
      NotOfTableConcat(Grouped(latest[..n]), last.run.steps, table);
      if last.table == table {
        SplitSame(last.run.steps, table);
        assert Grouped(Dropped(latest[..n], table)) + [] == Grouped(Dropped(latest[..n], table));
        assert Dropped(latest[..n], table) + [] == Dropped(latest[..n], table);
      } else {
        SplitOther(last.run.steps, table);
        GroupedAppend(Dropped(latest[..n], table), last);
      }
    }
  }

  lemma GroupedAppend(latest: seq<Entry>, e: Entry)
    ensures Grouped(latest + [e]) == Grouped(latest) + e.run.steps
  {
    assert (latest + [e])[..|latest|] == latest;
  }

  lemma {:induction false} GroupedSplit(latest: seq<Entry>, i: nat)
    requires Distinct(latest) && OwnSteps(latest) && i < |latest|
    ensures OfTable(Grouped(latest), latest[i].table) == latest[i].run.steps
  {
    var n := |latest| - 1;
    var front, last, table := latest[..n], latest[n], latest[i].table;
    OfTableConcat(Grouped(front), last.run.steps, table);
    if i == n {
      GroupedWithout(front, table);
      SplitSame(last.run.steps, table);
    } else {
      GroupedSplit(front, i);
      SplitOther(last.run.steps, table);
    }
  }

  /** No table is repeated in the step list: a table's steps in it are those of its latest run, and no others. */
  lemma StepsOfTable(s: State, table: string)
    requires Inv(s)
    ensures HasRun(s.latest, table) ==>
              exists e :: e in s.latest && e.table == table && OfTable(s.run.steps, table) == e.run.steps
    ensures !HasRun(s.latest, table) ==> OfTable(s.run.steps, table) == []
  {
    OwnedSteps(s.run.tables, s.latest);
    if HasRun(s.latest, table) {
      var e :| e in s.latest && e.table == table;
      var i :| 0 <= i < |s.latest| && s.latest[i] == e;
      GroupedSplit(s.latest, i);
    } else {
      forall i | 0 <= i < |s.latest| ensures s.latest[i].table != table { assert s.latest[i] in s.latest; }
      GroupedWithout(s.latest, table);
    }
  }

  // ---- The executor ----

  /** A table's steps are replaced by its new run's, and its tasks synced with them. */
  method ReplaceSteps(b: Batch, table: string, r: TableRun, ghost latest: seq<Entry>) returns (batch: Batch)
    requires b.steps == Grouped(latest) && Owned(b.tables, latest)
    ensures batch == WithRun(State(b, latest), table, r).run
  {
    OwnedSteps(b.tables, latest);
    GroupedDropped(latest, table);
    GroupedAppend(Dropped(latest, table), Entry(table, r));
    batch := b.(steps := NotOfTable(b.steps, table) + r.steps);
    var tasks := SyncLedgerForTable(batch.tasks, table, r.steps);
    batch := batch.(tasks := tasks);
  }

  /** The run takes over an executed table's steps, session and status. */
  method TakeOver(b: Batch, table: string, r: TableRun, ghost latest: seq<Entry>) returns (batch: Batch)
    requires b.steps == Grouped(latest) && Owned(b.tables, latest)
    ensures batch == Advance(State(b, latest), table, r).run
  {
    batch := ReplaceSteps(b, table, r, latest);
    batch := batch.(session := r.session, meta := Meta(r.session, None, None));
    if r.status == AwaitingHitl {
      batch := batch.(status := AwaitingHitl, hitl := r.hitl, meta := batch.meta.(paused := Some(table)));
      return;
    }
    batch := batch.(meta := batch.meta.(lastCompleted := Some(table)));
    if r.status == Failed { batch := batch.(status := Failed, error := r.error); }
  }

  lemma {:induction false} StopsThere(s: State, i: nat, n: nat, m: nat, w: World, fromStart: bool, round: Round)
    requires i <= n <= m && Rounds(s, i, n, round).run.status != Running && IsRound(round, w, fromStart)
    ensures Rounds(s, i, m, round) == Rounds(s, i, n, round)
    decreases m
  {
    if n < m {
      StopsThere(s, i, n, m - 1, w, fromStart, round);
      assert round(Rounds(s, i, n, round), m - 1) == Turn(Rounds(s, i, n, round), m - 1, w, fromStart);
    }
  }

  /** The step list is that of the latest runs. */
  ghost predicate Recorded(b: State) { b.run.steps == Grouped(b.latest) && Owned(b.run.tables, b.latest) }

  /** The states `before` each position from `i` to `n`: one round leads to the next, and a batch that stopped stays
      so. */
  ghost predicate Trail(before: nat -> State, i: nat, n: nat, tables: seq<string>, round: Round) {
    && (forall k: nat {:trigger round(before(k), k)} | i <= k < n :: before(k + 1) == round(before(k), k))
    && (forall k: nat {:trigger before(k)} | i <= k <= n :: Recorded(before(k)) && before(k).run.tables == tables)
    && (forall k: nat {:trigger before(k)} | i <= k <= n && before(k).run.status != Running :: before(n) == before(k))
  }

  lemma TurnRecorded(s: State, i: nat, w: World, fromStart: bool)
    requires Recorded(s) && OwnRuns(w, s.run.tables)
    ensures Recorded(Turn(s, i, w, fromStart))
  {
    if i < |s.run.tables| && s.run.status == Running && !TasksDone(s.run.tasks, s.run.tables[i]) && !w.cancelled(i) {
      var o := w.execute(i, Validates(s.run, i, fromStart));
      assert OwnRun(o, s.run.tables[i]);
      if o.Returned? { AdvanceRecorded(s, s.run.tables[i], o.run); }
    }
  }

  lemma AdvanceRecorded(s: State, table: string, r: TableRun)
    requires Recorded(s) && table in s.run.tables && OwnRun(Returned(r), table)
    ensures Recorded(Advance(s, table, r))
  {
    PutOwned(s.run.tables, s.latest, table, r);
    AdvanceFields(s, table, r);
  }

  lemma RoundsRecorded(s: State, i: nat, w: World, fromStart: bool, round: Round)
    requires Recorded(s) && i <= |s.run.tables| && OwnRuns(w, s.run.tables) && round == RoundOf(w, fromStart)
    ensures forall k: nat | i <= k <= |s.run.tables| ::
              Recorded(Rounds(s, i, k, round)) && Rounds(s, i, k, round).run.tables == s.run.tables
  {
    var P := (x: State, k: nat) => x.run.tables == s.run.tables && Recorded(x);
    forall x: State, k: nat | P(x, k) ensures P(round(x, k), k + 1) {
      assert round(x, k) == Turn(x, k, w, fromStart);
      TurnRecorded(x, k, w, fromStart);
    }
    forall k: nat | i <= k <= |s.run.tables| ensures P(Rounds(s, i, k, round), k) {
      RoundsHave(P, s, i, k, round);
    }
  }

  lemma RoundsStop(s: State, i: nat, n: nat, w: World, fromStart: bool, round: Round)
    requires i <= n && IsRound(round, w, fromStart)
    ensures forall k: nat | i <= k <= n && Rounds(s, i, k, round).run.status != Running ::
              Rounds(s, i, n, round) == Rounds(s, i, k, round)
  {
    forall k: nat | i <= k <= n && Rounds(s, i, k, round).run.status != Running
      ensures Rounds(s, i, n, round) == Rounds(s, i, k, round)
    {
      StopsThere(s, i, k, n, w, fromStart, round);
    }
  }

  lemma TrailOf(s: State, i: nat, n: nat, round: Round) returns (before: nat -> State)
    requires i <= n
    requires forall k: nat | i <= k <= n ::
               Recorded(Rounds(s, i, k, round)) && Rounds(s, i, k, round).run.tables == s.run.tables
    requires forall k: nat | i <= k <= n && Rounds(s, i, k, round).run.status != Running ::
               Rounds(s, i, n, round) == Rounds(s, i, k, round)
    ensures Trail(before, i, n, s.run.tables, round) && before(i) == s && before(n) == Rounds(s, i, n, round)
  {
    before := (k: nat) => if k < i then s else Rounds(s, i, k, round);
  }

  lemma RoundsTrail(s: State, i: nat, w: World, fromStart: bool) returns (round: Round, before: nat -> State)
    requires Recorded(s) && i <= |s.run.tables| && OwnRuns(w, s.run.tables)
    ensures IsRound(round, w, fromStart) && Trail(before, i, |s.run.tables|, s.run.tables, round)
    ensures before(i) == s && before(|s.run.tables|) == RunTo(s, i, |s.run.tables|, w, fromStart)
  {
    round := RoundOf(w, fromStart);
    RoundsRecorded(s, i, w, fromStart, round);
    RoundsStop(s, i, |s.run.tables|, w, fromStart, round);
    before := TrailOf(s, i, |s.run.tables|, round);
  }

  class BatchExecutor {
    /** The batch as the store holds it. */
    var stored: Batch
    /** The latest run of each table reached so far. */
    ghost var latest: seq<Entry>

    ghost function Now(): State reads this { State(stored, latest) }

    constructor (kinds: map<string, string>, order: seq<string>, tables: seq<string>)
      ensures Now() == Start(tables, Plan(tables, Executable(kinds, order)))
    {
      stored := Batch(Running, tables, [], [], "", "", "", "", Meta("", None, None));
      latest := [];
      new;
      var tasks := PlanTasks(kinds, order, tables);
      stored := stored.(tasks := tasks);
    }

    /** The loop over the tables after `startAfter`, or over all of them. */
    method ContinueBatch(run0: Batch, startAfter: string, w: World) returns (run: Batch)
      requires Recorded(State(run0, latest)) && OwnRuns(w, run0.tables)
      modifies this
      ensures Now() == RunFrom(Restarted(State(run0, old(latest))), After(run0.tables, startAfter), w, startAfter == "")
      ensures run == stored
    {
      ghost var start, fromStart := Restarted(State(run0, latest)), startAfter == "";
      var base := 0;
      var rest := run0.tables;
      if startAfter != "" && startAfter in rest {
        base := IndexOf(rest, startAfter) + 1;
        rest := rest[base..];
      }
      run := run0.(status := Running, hitl := "");
      stored := run;
      ghost var round, before := RoundsTrail(start, base, w, fromStart);
      run := RunTables(run, rest, base, startAfter, w, round, before);
      if run.status == Running { run := run.(status := Completed); }
      stored := run;
    }

    method RunTables(run0: Batch, rest: seq<string>, base: nat, startAfter: string, w: World,
                     ghost round: Round, ghost before: nat -> State)
      returns (run: Batch)
      requires IsRound(round, w, startAfter == "") && run0.status == Running && stored == run0
      requires base <= |run0.tables| && rest == run0.tables[base..] && (startAfter == "" ==> base == 0)
      requires Trail(before, base, |run0.tables|, run0.tables, round) && State(run0, latest) == before(base)
      modifies this
      ensures State(run, latest) == before(|run0.tables|) && stored == run
    {
      run := run0;
      for j := 0 to |rest|
        invariant run.status == Running && stored == run && State(run, latest) == before(base + j)
      {
        run := RunTable(run, base + j, rest, startAfter, w, round);
        assert State(run, latest) == before(base + j + 1);
        if run.status != Running { return; }
      }
    }

    /** One round of the loop, with the handlers an exception in it reaches. */
    method RunTable(run0: Batch, at: nat, rest: seq<string>, startAfter: string, w: World, ghost round: Round)
      returns (run: Batch)
      requires at < |run0.tables| && run0.status == Running && stored == run0 && Recorded(State(run0, latest))
      requires IsRound(round, w, startAfter == "") && rest != [] && (startAfter == "" ==> rest[0] == run0.tables[0])
      modifies this
      ensures State(run, latest) == round(State(run0, old(latest)), at) && stored == run
    {
      assert round(State(run0, latest), at) == Turn(State(run0, latest), at, w, startAfter == "");
      run := run0;
      var table := run.tables[at];
      var done := TableTasksDone(run.tasks, table);
      if done { return; }
      if w.cancelled(at) {
        var tasks := CancelPendingTasks(run.tasks);
        run := run.(status := Cancelled, cancelReason := "run cancelled", tasks := tasks);
        stored := run;
        return;
      }
      var validate := startAfter == "" && table == rest[0] && !exists s :: s in run.steps && s.table == table;
      assert validate == Validates(run, at, startAfter == "");
      var o := w.execute(at, validate);
      if o.Threw? {
        run := run.(status := Failed, error := o.error);
        stored := run;
        return;
      }
      run := TakeOver(run, table, o.run, latest);
      latest := Put(latest, table, o.run);
      stored := run;
    }

    /** A fresh batch, from its first table. */
    method Run(w: World) returns (run: Batch)
      requires OwnRuns(w, stored.tables) && Recorded(Now())
      modifies this
      ensures Now() == RunFrom(Restarted(old(Now())), 0, w, true) && run == stored
    {
      run := ContinueBatch(stored, "", w);
    }

    /** A batch that was stored while running goes on after a crash. */
    method RecoverBatch(w: World) returns (run: Batch)
      requires OwnRuns(w, stored.tables) && Recorded(Now())
      modifies this
      ensures Now() == Recover(old(Now()), w) && run == stored
    {
      var last := stored.meta.lastCompleted.GetOr("");
      run := ContinueBatch(stored, last, w);
    }

    /** `resume_batch`. */
    method ResumeBatch(w: World) returns (r: Result<Batch, ResumeError>)
      requires Recorded(Now()) && OwnRuns(w, stored.tables)
      requires stored.meta.paused.Some? ==> stored.meta.paused.value in stored.tables
      modifies this
      ensures match Resume(old(Now()), w)
              case Ok(after) => Now() == after && r == Ok(stored)
              case Err(e) => Now() == old(Now()) && r == Err(e)
    {
      var run := stored;
      if run.status != AwaitingHitl { return Err(NotAwaitingHitl); }
      var table := run.meta.paused.GetOr("");
      var session := if run.session != "" then run.session else run.meta.session;
      if table == "" || session == "" { return Err(MissingPause); }
      var o := w.resume(table);
      if o.Threw? { return Err(TableRunThrew(o.error)); }
      assert OwnRun(o, table);

      PutOwned(run.tables, latest, table, o.run);
      run := ReplaceSteps(run, table, o.run, latest);
      latest := Put(latest, table, o.run);
      run := FinishResume(run, table, o.run, w);
      r := Ok(run);
    }

    /** What becomes of the batch once the resumed table's run is in its place. */
    method FinishResume(run0: Batch, table: string, r: TableRun, w: World) returns (run: Batch)
      requires OwnRuns(w, run0.tables) && table != "" && r.status != Running
      requires Recorded(State(run0, latest))
      modifies this
      ensures Now() == AfterResumed(State(run0, old(latest)), table, r, w) && run == stored
    {
      run := run0;
      if r.status == AwaitingHitl {
        run := run.(status := AwaitingHitl, hitl := r.hitl, session := r.session,
                    meta := Meta(r.session, Some(table), None));
        stored := run;
        return;
      }
      if r.status == Failed {
        run := run.(status := Failed, error := r.error);
        stored := run;
        return;
      }
      run := ContinueBatch(run, table, w);
    }
  }
}
