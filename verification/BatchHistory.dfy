/** Every table run that came back over a session, first run and resumes (redibis/agents/batch_executor.py): the latest
    runs and the ledger are what replaying these runs gives. */
module BatchHistory {
  import opened Sequences
  import opened TaskLedger
  import opened BatchLangGraph

  // ---- The runs that came back, in order ----

  /** The run that came back at position `k`, if the loop executed the table there and the executor returned. */
  ghost function ArrivalAt(b: State, k: nat, w: World, fromStart: bool): seq<Entry> {
    if k >= |b.run.tables| || b.run.status != Running || TasksDone(b.run.tasks, b.run.tables[k]) || w.cancelled(k)
    then []
    else
      match w.execute(k, Validates(b.run, k, fromStart))
      case Threw(_) => []
      case Returned(r) => [Entry(b.run.tables[k], r)]
  }

  type Arrival = (State, nat) -> seq<Entry>

  ghost predicate IsArrival(arrival: Arrival, w: World, fromStart: bool) {
    forall s, i {:trigger ArrivalAt(s, i, w, fromStart)} :: arrival(s, i) == ArrivalAt(s, i, w, fromStart)
  }

  ghost function ArrivalOf(w: World, fromStart: bool): (arrival: Arrival)
    ensures IsArrival(arrival, w, fromStart)
  {
    (s: State, i: nat) => ArrivalAt(s, i, w, fromStart)
  }

  /** What comes back in the rounds at positions `i` to `n`; as with the rounds, proofs need not look inside. */
  ghost function Gathered(s: State, i: nat, n: nat, round: Round, arrival: Arrival): seq<Entry>
    requires i <= n
  {
    if n == i then []
    else Gathered(s, i, n - 1, round, arrival) + arrival(Rounds(s, i, n - 1, round), n - 1)
  }

  ghost function Arrivals(s: State, i: nat, n: nat, w: World, fromStart: bool): seq<Entry>
    requires i <= n
  {
    Gathered(s, i, n, RoundOf(w, fromStart), ArrivalOf(w, fromStart))
  }

  /** What holds at first, and every round passes on as it adds what came back, holds in the end. */
  lemma {:induction false} GatheredHas(
      P: (State, seq<Entry>, nat) -> bool, s: State, i: nat, n: nat, round: Round, arrival: Arrival)
    requires i <= n && P(s, [], i)
    requires forall x, came, k: nat {:trigger P(x, came, k), arrival(x, k)} | i <= k < n && P(x, came, k) ::
               P(round(x, k), came + arrival(x, k), k + 1)
    ensures P(Rounds(s, i, n, round), Gathered(s, i, n, round, arrival), n)
  {
    if i < n { GatheredHas(P, s, i, n - 1, round, arrival); }
  }

  /** What a resume attempt brings: the paused table's run and, if it passed, the runs of the tables behind it. */
  ghost function ResumeArrivals(s: State, w: World): seq<Entry> {
    if Resume(s, w).Err? then []
    else
      var table := s.run.meta.paused.value;
      var r := w.resume(table).run;
      var next := Restarted(WithRun(s, table, r));
      var n := |s.run.tables|;
      [Entry(table, r)] +
      if r.status == AwaitingHitl || r.status == Failed then []
      else Arrivals(next, After(s.run.tables, table), n, w, false)
  }

  ghost function SessionArrivals(start: State, w: World, attempts: seq<World>): seq<Entry> {
    if attempts == [] then Arrivals(start, 0, |start.run.tables|, w, true)
    else
      var front := attempts[..|attempts| - 1];
      SessionArrivals(start, w, front) + ResumeArrivals(Session(start, w, front), attempts[|attempts| - 1])
  }

  // ---- Replaying them ----

  function PutAll(latest: seq<Entry>, came: seq<Entry>): seq<Entry> {
    if came == [] then latest
    else
      var last := came[|came| - 1];
      Put(PutAll(latest, came[..|came| - 1]), last.table, last.run)
  }

  function SyncOver(tasks: seq<Task>, came: seq<Entry>): (r: seq<Task>)
    ensures |r| == |tasks|
  {
    if came == [] then tasks
    else
      var last := came[|came| - 1];
      SyncAll(SyncOver(tasks, came[..|came| - 1]), last.table, last.run.steps)
  }

  lemma {:induction false} PutAllConcat(latest: seq<Entry>, a: seq<Entry>, b: seq<Entry>)
    ensures PutAll(latest, a + b) == PutAll(PutAll(latest, a), b)
  {
    if b == [] {
      assert a + b == a;
    } else {
      assert (a + b)[..|a + b| - 1] == a + b[..|b| - 1];
      PutAllConcat(latest, a, b[..|b| - 1]);
    }
  }

  lemma {:induction false} SyncOverConcat(tasks: seq<Task>, a: seq<Entry>, b: seq<Entry>)
    ensures SyncOver(tasks, a + b) == SyncOver(SyncOver(tasks, a), b)
  {
    if b == [] {
      assert a + b == a;
    } else {
      assert (a + b)[..|a + b| - 1] == a + b[..|b| - 1];
      SyncOverConcat(tasks, a, b[..|b| - 1]);
    }
  }

  /** State `s` is what replaying the runs that came back makes of `from`; a cancelled batch's open tasks besides are
      cancelled. */
  ghost predicate Replays(s: State, from: State, came: seq<Entry>) {
    match s
    case State(run, latest) =>
      && run.tables == from.run.tables && latest == PutAll(from.latest, came)
      && run.tasks == Ledger(SyncOver(from.run.tasks, came), run.status)
  }

  function Ledger(tasks: seq<Task>, status: RunStatus): seq<Task> {
    if status == Cancelled then CancelAll(tasks) else tasks
  }

  lemma ReplayOne(latest: seq<Entry>, tasks: seq<Task>, e: Entry)
    ensures PutAll(latest, [e]) == Put(latest, e.table, e.run)
    ensures SyncOver(tasks, [e]) == SyncAll(tasks, e.table, e.run.steps)
  {
    assert [e][..0] == [];
  }

  lemma ReplaysThen(s: State, mid: State, from: State, a: seq<Entry>, b: seq<Entry>)
    requires Replays(mid, from, a) && mid.run.status != Cancelled && Replays(s, mid, b)
    ensures Replays(s, from, a + b)
  {
    PutAllConcat(from.latest, a, b);
    SyncOverConcat(from.run.tasks, a, b);
  }

  lemma NothingReplays(s: State, from: State)
    requires SameRecord(from, s) && s.run.status != Cancelled
    ensures Replays(s, from, [])
  {
  }

  lemma AdvanceReplays(b: State, table: string, r: TableRun)
    requires b.run.status != Cancelled
    ensures Replays(Advance(b, table, r), b, [Entry(table, r)])
  {
    ReplayOne(b.latest, b.run.tasks, Entry(table, r));
    AdvanceFields(b, table, r);
  }

  lemma TurnReplays(b: State, k: nat, w: World, fromStart: bool)
    requires b.run.status != Cancelled
    ensures Replays(Turn(b, k, w, fromStart), b, ArrivalAt(b, k, w, fromStart))
  {
    var next := Turn(b, k, w, fromStart);
    if k < |b.run.tables| && b.run.status == Running && !TasksDone(b.run.tasks, b.run.tables[k]) && !w.cancelled(k) {
      var o := w.execute(k, Validates(b.run, k, fromStart));
      if o.Returned? { AdvanceReplays(b, b.run.tables[k], o.run); } else { NothingReplays(next, b); }
    }
  }

  lemma NextReplays(s: State, before: State, came: seq<Entry>, k: nat, w: World, fromStart: bool)
    requires Replays(before, s, came)
    ensures Replays(Turn(before, k, w, fromStart), s, came + ArrivalAt(before, k, w, fromStart))
  {
    if before.run.status == Running {
      TurnReplays(before, k, w, fromStart);
      ReplaysThen(Turn(before, k, w, fromStart), before, s, came, ArrivalAt(before, k, w, fromStart));
    } else {
      assert came + [] == came;
    }
  }

  lemma RunToReplays(s: State, i: nat, n: nat, w: World, fromStart: bool)
    requires i <= n && s.run.status == Running
    ensures Replays(RunTo(s, i, n, w, fromStart), s, Arrivals(s, i, n, w, fromStart))
  {
    var round, arrival := RoundOf(w, fromStart), ArrivalOf(w, fromStart);
    var P := (x: State, came: seq<Entry>, k: nat) => Replays(x, s, came);
    NothingReplays(s, s);
    forall x, came, k: nat | i <= k < n && P(x, came, k) ensures P(round(x, k), came + arrival(x, k), k + 1) {
      assert round(x, k) == Turn(x, k, w, fromStart) && arrival(x, k) == ArrivalAt(x, k, w, fromStart);
      NextReplays(s, x, came, k, w, fromStart);
    }
    GatheredHas(P, s, i, n, round, arrival);
    assert P(Rounds(s, i, n, round), Gathered(s, i, n, round, arrival), n);
  }

  lemma RunFromReplays(s: State, i: nat, w: World, fromStart: bool)
    requires i <= |s.run.tables| && s.run.status == Running
    ensures Replays(RunFrom(s, i, w, fromStart), s, Arrivals(s, i, |s.run.tables|, w, fromStart))
  {
    RunToReplays(s, i, |s.run.tables|, w, fromStart);
  }

  lemma ResumeReplays(s: State, w: World)
    requires Resume(s, w).Ok?
    ensures Replays(Resume(s, w).value, s, ResumeArrivals(s, w))
  {
    var table := s.run.meta.paused.value;
    var r := w.resume(table).run;
    var next := Restarted(WithRun(s, table, r));
    ReplayOne(s.latest, s.run.tasks, Entry(table, r));
    if r.status != AwaitingHitl && r.status != Failed {
      RunFromReplays(next, After(s.run.tables, table), w, false);
      ReplaysThen(Resume(s, w).value, next, s, [Entry(table, r)],
                  Arrivals(next, After(s.run.tables, table), |s.run.tables|, w, false));
    }
  }

  /** At any point of any session, over any table list, the latest runs and the ledger are the replay of all the runs
      that came back. */
  lemma {:induction false} SessionReplays(start: State, w: World, attempts: seq<World>)
    requires start.run.status == Running
    ensures Replays(Session(start, w, attempts), start, SessionArrivals(start, w, attempts))
  {
    if attempts == [] {
      RunFromReplays(start, 0, w, true);
    } else {
      var front, last := attempts[..|attempts| - 1], attempts[|attempts| - 1];
      var before, came := Session(start, w, front), SessionArrivals(start, w, front);
      SessionReplays(start, w, front);
      if Resume(before, last).Ok? {
        ResumeReplays(before, last);
        ReplaysThen(Resume(before, last).value, before, start, came, ResumeArrivals(before, last));
      } else {
        assert came + [] == came;
      }
    }
  }

  // ---- The latest runs ----

  /** `e` came back, and no run of its table came back after it. */
  ghost predicate LastOfTable(came: seq<Entry>, e: Entry) {
    exists i :: 0 <= i < |came| && came[i] == e && forall j | i < j < |came| :: came[j].table != e.table
  }

  lemma LastOfTableStep(came: seq<Entry>, e: Entry)
    requires came != []
    ensures var (front, last) := (came[..|came| - 1], came[|came| - 1]);
            LastOfTable(came, e) <==> e == last || (LastOfTable(front, e) && e.table != last.table)
  {
    var front, last := came[..|came| - 1], came[|came| - 1];
    if LastOfTable(came, e) {
      var i :| 0 <= i < |came| && came[i] == e && forall j | i < j < |came| :: came[j].table != e.table;
      if i < |front| {
        assert front[i] == e && forall j | i < j < |front| :: front[j] == came[j];
        assert came[|front|].table != e.table;
      }
    }
    if e == last { assert came[|front|] == e; }
    if LastOfTable(front, e) && e.table != last.table {
      var i :| 0 <= i < |front| && front[i] == e && forall j | i < j < |front| :: front[j].table != e.table;
      assert came[i] == e && forall j | i < j < |front| :: came[j] == front[j];
    }
  }

  lemma {:induction false} PutAllHas(came: seq<Entry>, e: Entry)
    ensures e in PutAll([], came) <==> LastOfTable(came, e)
  {
    if came != [] {
      var front, last := came[..|came| - 1], came[|came| - 1];
      PutAllHas(front, e);
      PutHas(PutAll([], front), last.table, last.run);
      LastOfTableStep(came, e);
    }
  }

  /** At any point of any session each table's latest run is the last one that came back for it, whatever tables are
      listed. */
  lemma SessionLatest(start: State, w: World, attempts: seq<World>)
    requires start.run.status == Running && start.latest == []
    ensures forall e :: e in Session(start, w, attempts).latest <==>
                        LastOfTable(SessionArrivals(start, w, attempts), e)
  {
    SessionReplays(start, w, attempts);
    forall e ensures e in Session(start, w, attempts).latest <==> LastOfTable(SessionArrivals(start, w, attempts), e) {
      PutAllHas(SessionArrivals(start, w, attempts), e);
    }
  }

  /** A session that completed has a last run for each listed table, and all its tables completed iff no last run came
      back cancelled. */
  lemma SessionAllCompletedIff(start: State, w: World, attempts: seq<World>)
    requires Ready(start, 0) && start.latest == [] && AllOwn(w, attempts, start.run.tables)
    requires Session(start, w, attempts).run.status == Completed
    ensures var came := SessionArrivals(start, w, attempts);
            && (forall t | t in start.run.tables :: exists e :: LastOfTable(came, e) && e.table == t)
            && (AllCompleted(Session(start, w, attempts).latest) <==>
                forall e | LastOfTable(came, e) :: e.run.status != Cancelled)
  {
    var s, came := Session(start, w, attempts), SessionArrivals(start, w, attempts);
    SessionInv(start, w, attempts);
    SessionLatest(start, w, attempts);
    forall t | t in start.run.tables ensures exists e :: LastOfTable(came, e) && e.table == t {
      var i :| 0 <= i < |start.run.tables| && start.run.tables[i] == t;
      assert HasRun(s.latest, start.run.tables[i]);
      var e :| e in s.latest && e.table == t;
      assert LastOfTable(came, e);
    }
  }

  lemma PutAllEnds(came: seq<Entry>)
    ensures came == [] <==> PutAll([], came) == []
    ensures came != [] ==> PutAll([], came)[|PutAll([], came)| - 1] == came[|came| - 1]
  {
  }

  /** With sticky cancellations, iff the very last run that came back is not a cancelled one. */
  lemma StickySessionCompletedIff(start: State, w: World, attempts: seq<World>)
    requires Ready(start, 0) && start.latest == [] && AllOwn(w, attempts, start.run.tables)
    requires AllSticky(w, attempts) && start.run.tables != []
    requires Session(start, w, attempts).run.status == Completed
    ensures var came := SessionArrivals(start, w, attempts);
            && came != []
            && (AllCompleted(Session(start, w, attempts).latest) <==> came[|came| - 1].run.status != Cancelled)
  {
    CompletedRuns(start, w, attempts);
    SessionReplays(start, w, attempts);
    PutAllEnds(SessionArrivals(start, w, attempts));
    SessionOnlyLastCancelled(start, w, attempts);
    LastDecides(Session(start, w, attempts).latest);
  }

  lemma CompletedRuns(start: State, w: World, attempts: seq<World>)
    requires Ready(start, 0) && AllOwn(w, attempts, start.run.tables) && start.run.tables != []
    requires Session(start, w, attempts).run.status == Completed
    ensures var latest := Session(start, w, attempts).latest;
            latest != [] && forall k: nat | k < |latest| :: Passed(latest[k].run)
  {
    var s := Session(start, w, attempts);
    SessionInv(start, w, attempts);
    assert HasRun(s.latest, start.run.tables[0]);
    assert forall k: nat | k < |s.latest| :: s.latest[k] in s.latest;
  }

  lemma LastDecides(latest: seq<Entry>)
    requires latest != [] && OnlyLastCancelled(latest) && forall k: nat | k < |latest| :: Passed(latest[k].run)
    ensures AllCompleted(latest) <==> latest[|latest| - 1].run.status == Completed
  {
    var n := |latest| - 1;
    forall k: nat | k < n ensures latest[k].run.status == Completed { assert latest[..n][k] in latest[..n]; }
    assert latest[n] in latest;
  }

  // ---- The ledger ----

  /** Some run of the task's table had a step of the task's kind. */
  ghost predicate Stepped(came: seq<Entry>, task: Task) {
    exists e | e in came :: e.table == task.table && LastOfKind(e.run.steps, task.kind).Some?
  }

  /** The last run of the task's table that had a step of its kind. */
  ghost function Settling(came: seq<Entry>, task: Task): (e: Option<Entry>)
    ensures e.Some? <==> Stepped(came, task)
    ensures e.Some? ==> e.value.table == task.table && LastOfKind(e.value.run.steps, task.kind).Some?
  {
    if came == [] then None
    else
      var front, last := came[..|came| - 1], came[|came| - 1];
      assert forall e :: e in came <==> e in front || e == last;
      if last.table == task.table && LastOfKind(last.run.steps, task.kind).Some? then Some(last)
      else Settling(front, task)
  }

  lemma {:induction false} SyncOverAt(tasks: seq<Task>, came: seq<Entry>, q: nat)
    requires q < |tasks|
    ensures var e := Settling(came, tasks[q]);
            SyncOver(tasks, came)[q] ==
            if e.None? then tasks[q]
            else
              var step := LastOfKind(e.value.run.steps, tasks[q].kind).value;
              tasks[q].(step := step.id, status := Settle(step.status))
  {
    if came != [] { SyncOverAt(tasks, came[..|came| - 1], q); }
  }

  /** Task `task`, planned as `plan`, carries the last step of its kind of the last run of its table that had one, and
      is still as planned iff no run of its table had one. */
  ghost predicate Carries(task: Task, plan: Task, came: seq<Entry>) {
    && (task == plan <==> !Stepped(came, plan))
    && (task.status == Planned <==> !Stepped(came, plan))
    && (Stepped(came, plan) ==>
          var step := LastOfKind(Settling(came, plan).value.run.steps, plan.kind).value;
          task == plan.(step := step.id, status := Settle(step.status)))
  }

  lemma SyncOverCarries(tasks: seq<Task>, came: seq<Entry>, q: nat)
    requires q < |tasks| && tasks[q].status == Planned
    ensures Carries(SyncOver(tasks, came)[q], tasks[q], came)
  {
    SyncOverAt(tasks, came, q);
  }

  /** When a session has completed, every task is settled by the runs of its table, or still as planned. */
  lemma CompletedLedgerIff(tables: seq<string>, nodes: seq<Node>, w: World, attempts: seq<World>, q: nat)
    requires Session(Start(tables, Plan(tables, nodes)), w, attempts).run.status == Completed
    requires q < |Plan(tables, nodes)|
    ensures var start := Start(tables, Plan(tables, nodes));
            var tasks := Session(start, w, attempts).run.tasks;
            |tasks| == |start.run.tasks|
            && Carries(tasks[q], start.run.tasks[q], SessionArrivals(start, w, attempts))
  {
    var start := Start(tables, Plan(tables, nodes));
    SessionReplays(start, w, attempts);
    PlanIsPlanned(tables, nodes);
    SyncOverCarries(start.run.tasks, SessionArrivals(start, w, attempts), q);
  }

  /** A table's later runs have steps of all the kinds its earlier ones had. */
  ghost predicate KindsStay(came: seq<Entry>) {
    forall i, j, kind | 0 <= i < j < |came| && came[i].table == came[j].table
                        && LastOfKind(came[i].run.steps, kind).Some? :: LastOfKind(came[j].run.steps, kind).Some?
  }

  /** Then a completed session has settled a task iff its table's latest run has a step of its kind. */
  lemma CompletedSettlesIff(
      tables: seq<string>, nodes: seq<Node>, w: World, attempts: seq<World>, q: nat, e: Entry)
    requires Session(Start(tables, Plan(tables, nodes)), w, attempts).run.status == Completed
    requires q < |Plan(tables, nodes)| && KindsStay(SessionArrivals(Start(tables, Plan(tables, nodes)), w, attempts))
    requires e in Session(Start(tables, Plan(tables, nodes)), w, attempts).latest
    requires e.table == Plan(tables, nodes)[q].table
    ensures var s := Session(Start(tables, Plan(tables, nodes)), w, attempts);
            && |s.run.tasks| == |Plan(tables, nodes)|
            && (s.run.tasks[q].status != Planned <==> LastOfKind(e.run.steps, Plan(tables, nodes)[q].kind).Some?)
  {
    var start := Start(tables, Plan(tables, nodes));
    CompletedLedgerIff(tables, nodes, w, attempts, q);
    SessionLatest(start, w, attempts);
    LastHasKind(SessionArrivals(start, w, attempts), e, Plan(tables, nodes)[q]);
  }

  lemma LastHasKind(came: seq<Entry>, e: Entry, task: Task)
    requires KindsStay(came) && LastOfTable(came, e) && e.table == task.table
    ensures Stepped(came, task) <==> LastOfKind(e.run.steps, task.kind).Some?
  {
    var i :| 0 <= i < |came| && came[i] == e && forall j | i < j < |came| :: came[j].table != e.table;
    if Stepped(came, task) {
      var f :| f in came && f.table == task.table && LastOfKind(f.run.steps, task.kind).Some?;
      var k :| 0 <= k < |came| && came[k] == f;
      assert k <= i;
    }
  }

  ghost predicate ListedFrom(tables: seq<string>, i: nat, n: nat, table: string) {
    exists k :: i <= k < n && k < |tables| && tables[k] == table
  }

  ghost predicate ListedOnce(tables: seq<string>, came: seq<Entry>, i: nat, n: nat) {
    Distinct(came) && forall e | e in came :: ListedFrom(tables, i, n, e.table)
  }

  /** In an uninterrupted run over distinct tables each table comes back at most once. */
  lemma DistinctArrivals(s: State, i: nat, n: nat, w: World, fromStart: bool)
    requires NoDup(s.run.tables) && i <= n <= |s.run.tables|
    ensures ListedOnce(s.run.tables, Arrivals(s, i, n, w, fromStart), i, n)
  {
    var tables, round, arrival := s.run.tables, RoundOf(w, fromStart), ArrivalOf(w, fromStart);
    var P := (x: State, came: seq<Entry>, k: nat) => x.run.tables == tables && ListedOnce(tables, came, i, k);
    forall x, came, k: nat | i <= k < n && P(x, came, k) ensures P(round(x, k), came + arrival(x, k), k + 1) {
      assert round(x, k) == Turn(x, k, w, fromStart) && arrival(x, k) == ArrivalAt(x, k, w, fromStart);
      AppendDistinct(came, arrival(x, k), tables, i, k + 1);
    }
    GatheredHas(P, s, i, n, round, arrival);
    assert P(Rounds(s, i, n, round), Gathered(s, i, n, round, arrival), n);
  }

  lemma AppendDistinct(came: seq<Entry>, next: seq<Entry>, tables: seq<string>, i: nat, n: nat)
    requires i < n <= |tables| && NoDup(tables) && ListedOnce(tables, came, i, n - 1) && |next| <= 1
    requires forall e | e in next :: e.table == tables[n - 1]
    ensures ListedOnce(tables, came + next, i, n)
  {
    assert ListedFrom(tables, i, n, tables[n - 1]);
    forall e | e in came ensures e.table != tables[n - 1] && ListedFrom(tables, i, n, e.table) {
      var k :| i <= k < n - 1 && tables[k] == e.table;
    }
  }

  lemma DistinctKindsStay(start: State, w: World)
    requires NoDup(start.run.tables)
    ensures KindsStay(SessionArrivals(start, w, []))
  {
    DistinctArrivals(start, 0, |start.run.tables|, w, true);
  }

  // ---- A completed batch that settled no task ----

  /** Every table's run completes with one step, of the kind a tool runner gives a `source` node. */
  function Renaming(tables: seq<string>): World {
    var ran := (t: string) =>
      Returned(TableRun(Completed, [Step("1", "n", "source_table", t, StepCompleted)], "", "", ""));
    World((i: nat) => false, (i: nat, v: bool) => if i < |tables| then ran(tables[i]) else Threw(""), ran)
  }

  ghost predicate OnlyOfKind(came: seq<Entry>, kind: string) {
    forall e, s | e in came && s in e.run.steps :: s.kind == kind
  }

  lemma {:induction false} NoneOfKind(steps: seq<Step>, kind: string)
    requires forall s | s in steps :: s.kind != kind
    ensures LastOfKind(steps, kind) == None
  {
    if steps != [] {
      assert steps[|steps| - 1] in steps;
      NoneOfKind(steps[..|steps| - 1], kind);
    }
  }

  lemma RenamingArrival(x: State, k: nat, tables: seq<string>)
    ensures OnlyOfKind(ArrivalAt(x, k, Renaming(tables), true), "source_table")
  {
    if k < |x.run.tables| {
      var o := Renaming(tables).execute(k, Validates(x.run, k, true));
      assert o.Returned? ==> forall s | s in o.run.steps :: s.kind == "source_table";
    }
  }

  lemma AppendKind(a: seq<Entry>, b: seq<Entry>, kind: string)
    requires OnlyOfKind(a, kind) && OnlyOfKind(b, kind)
    ensures OnlyOfKind(a + b, kind)
  {
  }

  lemma RenamingArrivals(start: State)
    ensures OnlyOfKind(SessionArrivals(start, Renaming(start.run.tables), []), "source_table")
  {
    var w, n, tables := Renaming(start.run.tables), |start.run.tables|, start.run.tables;
    var round, arrival := RoundOf(w, true), ArrivalOf(w, true);
    var P := (x: State, came: seq<Entry>, k: nat) => x.run.tables == tables && OnlyOfKind(came, "source_table");
    forall x, came, k: nat | 0 <= k < n && P(x, came, k) ensures P(round(x, k), came + arrival(x, k), k + 1) {
      assert round(x, k) == Turn(x, k, w, true) && arrival(x, k) == ArrivalAt(x, k, w, true);
      RenamingArrival(x, k, tables);
      AppendKind(came, arrival(x, k), "source_table");
    }
    assert OnlyOfKind([], "source_table");
    GatheredHas(P, start, 0, n, round, arrival);
    assert P(Rounds(start, 0, n, round), Gathered(start, 0, n, round, arrival), n);
  }

  lemma RenamingCompletes(start: State)
    requires start.run.status == Running
    ensures Session(start, Renaming(start.run.tables), []).run.status == Completed
    ensures OwnRuns(Renaming(start.run.tables), start.run.tables)
  {
    var w := Renaming(start.run.tables);
    CompletesIff(start, 0, w, true);
    forall k: nat | k < |start.run.tables| ensures Passes(RunTo(start, 0, k, w, true), k, w, true) { }
  }

  /** Where tool runners record their steps under other kinds than the tasks', a batch completes with every task as
      planned. */
  lemma CompletesUnsettled(tables: seq<string>, nodes: seq<Node>)
    requires forall n | n in nodes :: n.kind != "source_table"
    ensures var s := Session(Start(tables, Plan(tables, nodes)), Renaming(tables), []);
            && OwnRuns(Renaming(tables), tables)
            && s.run.status == Completed && s.run.tasks == Plan(tables, nodes)
  {
    var plan, start := Plan(tables, nodes), Start(tables, Plan(tables, nodes));
    RenamingCompletes(start);
    RenamingArrivals(start);
    SessionReplays(start, Renaming(tables), []);
    forall q: nat | q < |plan| ensures Session(start, Renaming(tables), []).run.tasks[q] == plan[q] {
      PlanKinds(tables, nodes, q);
      NotStepped(SessionArrivals(start, Renaming(tables), []), plan[q]);
      CompletedLedgerIff(tables, nodes, Renaming(tables), [], q);
    }
  }

  lemma NotStepped(came: seq<Entry>, task: Task)
    requires OnlyOfKind(came, "source_table") && task.kind != "source_table"
    ensures !Stepped(came, task)
  {
    forall e | e in came ensures LastOfKind(e.run.steps, task.kind) == None { NoneOfKind(e.run.steps, task.kind); }
  }

  lemma {:induction false} PlanKinds(tables: seq<string>, nodes: seq<Node>, q: nat)
    requires q < |Plan(tables, nodes)|
    ensures exists n :: n in nodes && Plan(tables, nodes)[q].kind == n.kind
  {
    var front := Plan(tables[..|tables| - 1], nodes);
    if q < |front| {
      PlanKinds(tables[..|tables| - 1], nodes, q);
    } else {
      assert nodes[q - |front|] in nodes;
    }
  }
}
