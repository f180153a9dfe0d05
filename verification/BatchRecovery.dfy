/** Going on after a crash (redibis/agents/batch_executor.py, _resume_langgraph_batch): from which state the batch goes
    on where it was, and from which it starts over. */
module BatchRecovery {
  import opened Sequences
  import opened TaskLedger
  import opened BatchLangGraph

  // ---- What a running batch records ----

  /** Of distinct tables run from position `i` on, the one before position `k` is recorded as completed, and the batch
      waits for nobody. */
  ghost predicate Marked(s: State, i: nat, k: nat) {
    match s
    case State(b, _) =>
      b.status == Running && k <= |b.tables| ==>
        b.hitl == "" && (i < k ==> b.meta.lastCompleted == Some(b.tables[k - 1]))
  }

  lemma NextMarked(b: State, k: nat, w: World, fromStart: bool)
    requires k < |b.run.tables| && b.run.status == Running && b.run.hitl == ""
    requires RunNext(b, k, w, fromStart).run.status == Running
    ensures RunNext(b, k, w, fromStart).run.hitl == ""
    ensures RunNext(b, k, w, fromStart).run.meta.lastCompleted == Some(b.run.tables[k])
  {
  }

  lemma TurnMarked(x: State, i: nat, k: nat, w: World, fromStart: bool)
    requires i <= k < |x.run.tables| && Good(x, k) && Marked(x, i, k) && NoDup(x.run.tables)
    ensures Marked(Turn(x, k, w, fromStart), i, k + 1)
  {
    if x.run.status == Running {
      DistinctReady(x, k, fromStart);
      if Turn(x, k, w, fromStart).run.status == Running { NextMarked(x, k, w, fromStart); }
    }
  }

  ghost predicate GoodMarked(x: State, tables: seq<string>, i: nat, k: nat) {
    match x
    case State(b, _) => b.tables == tables && Good(x, k) && Marked(x, i, k)
  }

  lemma RoundMarked(
      x: State, tables: seq<string>, i: nat, k: nat, w: World, fromStart: bool, round: Round)
    requires i <= k < |tables| && GoodMarked(x, tables, i, k) && NoDup(tables) && OwnRuns(w, tables)
    requires round == RoundOf(w, fromStart)
    ensures GoodMarked(round(x, k), tables, i, k + 1)
  {
    assert round(x, k) == Turn(x, k, w, fromStart);
    TurnKeeps(x, k, w, fromStart);
    TurnMarked(x, i, k, w, fromStart);
  }

  lemma ReadyMarked(s: State, i: nat)
    requires Ready(s, i) && s.run.hitl == ""
    ensures GoodMarked(s, s.run.tables, i, i)
  {
    ReadyIsGood(s, i);
  }

  lemma MarkedIsKept(tables: seq<string>, i: nat, n: nat, w: World, fromStart: bool, P: (State, nat) -> bool,
        round: Round)
    requires n <= |tables| && NoDup(tables) && OwnRuns(w, tables) && round == RoundOf(w, fromStart)
    requires forall x: State, k: nat :: P(x, k) <==> GoodMarked(x, tables, i, k)
    ensures forall x: State, k: nat {:trigger round(x, k)} | i <= k < n && P(x, k) :: P(round(x, k), k + 1)
  {
    forall x: State, k: nat | i <= k < n && P(x, k) ensures P(round(x, k), k + 1) {
      RoundMarked(x, tables, i, k, w, fromStart, round);
    }
  }

  lemma RoundsMarked(s: State, i: nat, n: nat, w: World, fromStart: bool)
    requires GoodMarked(s, s.run.tables, i, i) && NoDup(s.run.tables) && OwnRuns(w, s.run.tables)
    requires i <= n <= |s.run.tables|
    ensures GoodMarked(RunTo(s, i, n, w, fromStart), s.run.tables, i, n)
  {
    var tables, round := s.run.tables, RoundOf(w, fromStart);
    var P := (x: State, k: nat) => GoodMarked(x, tables, i, k);
    MarkedIsKept(tables, i, n, w, fromStart, P, round);
    RoundsHave(P, s, i, n, round);
    assert P(Rounds(s, i, n, round), n);
  }

  lemma StoredIsMarked(s: State, i: nat, n: nat, w: World, fromStart: bool)
    requires Ready(s, i) && s.run.hitl == "" && NoDup(s.run.tables) && OwnRuns(w, s.run.tables)
    requires i <= n <= |s.run.tables|
    ensures Marked(RunTo(s, i, n, w, fromStart), i, n)
  {
    ReadyMarked(s, i);
    RoundsMarked(s, i, n, w, fromStart);
  }

  // ---- Going on from a stored state ----

  /** Rounds that agree wherever the tables are those of `s` lead to the same state. */
  lemma {:induction false} SameRounds(s: State, i: nat, n: nat, a: Round, b: Round)
    requires i <= n
    requires forall x: State, k: nat {:trigger a(x, k)} | i <= k && x.run.tables == s.run.tables ::
               a(x, k) == b(x, k) && a(x, k).run.tables == s.run.tables
    ensures Rounds(s, i, n, a) == Rounds(s, i, n, b) && Rounds(s, i, n, a).run.tables == s.run.tables
  {
    if i < n { SameRounds(s, i, n - 1, a, b); }
  }

  lemma {:induction false} RoundsSplit(s: State, i: nat, m: nat, n: nat, round: Round)
    requires i <= m <= n
    ensures Rounds(s, i, n, round) == Rounds(Rounds(s, i, m, round), m, n, round)
    decreases n
  {
    if m < n { RoundsSplit(s, i, m, n - 1, round); }
  }

  /** Behind the first position of a list of distinct tables it does not matter whether the batch began at its start. */
  lemma BehindFirst(s: State, m: nat, n: nat, w: World)
    requires NoDup(s.run.tables) && 0 < m <= n
    ensures RunTo(s, m, n, w, false) == RunTo(s, m, n, w, true)
  {
    var a, b := RoundOf(w, false), RoundOf(w, true);
    forall x: State, k: nat | m <= k && x.run.tables == s.run.tables
      ensures a(x, k) == b(x, k) && a(x, k).run.tables == s.run.tables
    {
      assert a(x, k) == Turn(x, k, w, false) && b(x, k) == Turn(x, k, w, true);
      if k < |x.run.tables| { assert !Validates(x.run, k, false) && !Validates(x.run, k, true); }
    }
    SameRounds(s, m, n, a, b);
  }

  /** A run stopped behind position `n` and taken up there is the whole run. */
  lemma GoesOnFrom(s: State, i: nat, n: nat, w: World, fromStart: bool)
    requires NoDup(s.run.tables) && i <= n <= |s.run.tables| && (fromStart ==> i == 0)
    ensures RunFrom(RunTo(s, i, n, w, fromStart), n, w, fromStart && n == 0) == RunFrom(s, i, w, fromStart)
  {
    var x, m := RunTo(s, i, n, w, fromStart), |s.run.tables|;
    RoundsSplit(s, i, n, m, RoundOf(w, fromStart));
    assert RunTo(s, i, m, w, fromStart) == RunTo(x, n, m, w, fromStart);
    if fromStart && n > 0 { BehindFirst(x, n, m, w); }
  }

  lemma RecoversAt(s: State, i: nat, n: nat, w: World)
    requires s.run.status == Running && i < n <= |s.run.tables| && Marked(s, i, n) && NoDup(s.run.tables)
             && "" !in s.run.tables
    ensures Recover(s, w) == RunFrom(s, n, w, false)
  {
    assert Restarted(s) == s;
    assert s.run.tables[n - 1] in s.run.tables;
    assert After(s.run.tables, s.run.tables[n - 1]) == n;
  }

  // ---- A batch that never paused ----

  /** A batch of distinct, named tables that crashes after any number of tables goes on at the first table whose run was
      not stored; in an unchanged world it ends as if it had never crashed. */
  lemma CrashRecovery(tables: seq<string>, nodes: seq<Node>, n: nat, w: World, after: World)
    requires NoDup(tables) && "" !in tables && n <= |tables| && OwnRuns(w, tables)
    requires RunTo(Start(tables, Plan(tables, nodes)), 0, n, w, true).run.status == Running
    ensures var stored := RunTo(Start(tables, Plan(tables, nodes)), 0, n, w, true);
            && Recover(stored, after) == RunFrom(stored, n, after, n == 0)
            && Recover(stored, w) == RunFrom(Start(tables, Plan(tables, nodes)), 0, w, true)
  {
    var start := Start(tables, Plan(tables, nodes));
    var stored := RunTo(start, 0, n, w, true);
    StartReady(tables, nodes);
    StoredIsMarked(start, 0, n, w, true);
    GoesOnFrom(start, 0, n, w, true);
    if n > 0 {
      RecoversAt(stored, 0, n, w);
      RecoversAt(stored, 0, n, after);
    } else {
      assert stored == start && Restarted(start) == start;
    }
  }

  // ---- A batch that records no table as completed ----

  /** The state names no completed table, so recovery starts at the first one. */
  ghost predicate Unmarked(x: State) {
    x.run.status == Running && x.run.hitl == "" && x.run.meta.lastCompleted.GetOr("") == ""
  }

  lemma StartsOver(x: State, w: World)
    requires Unmarked(x)
    ensures Recover(x, w) == RunFrom(x, 0, w, true)
  {
    assert Restarted(x) == x;
  }

  /** The tables before position `n` are skipped when all their tasks are done. */
  lemma {:induction false} SkipsDone(x: State, n: nat, w: World)
    requires n <= |x.run.tables| && forall k | 0 <= k < n :: TasksDone(x.run.tasks, x.run.tables[k])
    ensures RunTo(x, 0, n, w, true) == x
  {
    if n > 0 {
      SkipsDone(x, n - 1, w);
      RunToStep(x, 0, n - 1, w, true);
    }
  }

  /** A world in which every table's run completes, except that position `k` throws. */
  function Throwing(k: nat): World {
    World((i: nat) => false,
          (i: nat, v: bool) => if i == k then Threw("") else Returned(TableRun(Completed, [], "", "", "")),
          (t: string) => Threw(""))
  }

  /** Where the throwing position is behind, the batch completes; where it is ahead and not skipped, it does not. */
  lemma ThrowingTellsApart(x: State, k: nat, n: nat)
    requires x.run.status == Running && k < n <= |x.run.tables|
    requires forall j | 0 <= j < k :: TasksDone(x.run.tasks, x.run.tables[j])
    requires !TasksDone(x.run.tasks, x.run.tables[k])
    ensures RunFrom(x, n, Throwing(k), false).run.status == Completed
    ensures RunFrom(x, 0, Throwing(k), true).run.status != Completed
  {
    var w := Throwing(k);
    CompletesIff(x, n, w, false);
    CompletesIff(x, 0, w, true);
    SkipsDone(x, k, w);
    assert !Passes(RunTo(x, 0, k, w, true), k, w, true);
  }

  /** The batch goes on at position `n` in every world iff all tasks of every table before it are done. */
  lemma RecoversInPlaceIff(x: State, n: nat)
    requires Unmarked(x) && NoDup(x.run.tables) && 0 < n <= |x.run.tables|
    ensures (forall w | OwnRuns(w, x.run.tables) :: Recover(x, w) == RunFrom(x, n, w, false)) <==>
            forall k | 0 <= k < n :: TasksDone(x.run.tasks, x.run.tables[k])
  {
    if k: nat :| k < n && !TasksDone(x.run.tasks, x.run.tables[k]) {
      var first := FirstOpen(x, k);
      ThrowingTellsApart(x, first, n);
      StartsOver(x, Throwing(first));
      assert OwnRuns(Throwing(first), x.run.tables);
    } else {
      forall w ensures Recover(x, w) == RunFrom(x, n, w, false) {
        StartsOver(x, w);
        SkipsDone(x, n, w);
        RoundsSplit(x, 0, n, |x.run.tables|, RoundOf(w, true));
        BehindFirst(x, n, |x.run.tables|, w);
      }
    }
  }

  lemma {:induction false} FirstOpen(x: State, k: nat) returns (first: nat)
    requires k < |x.run.tables| && !TasksDone(x.run.tasks, x.run.tables[k])
    ensures first <= k && !TasksDone(x.run.tasks, x.run.tables[first])
    ensures forall j | 0 <= j < first :: TasksDone(x.run.tasks, x.run.tables[j])
  {
    if j: nat :| j < k && !TasksDone(x.run.tasks, x.run.tables[j]) { first := FirstOpen(x, j); } else { first := k; }
  }

  // ---- A batch that was resumed ----

  /** What is stored as the batch goes on behind its resumed table. */
  ghost function GoingOn(s: State, w: World): State
    requires Resume(s, w).Ok?
  {
    var table := s.run.meta.paused.value;
    Restarted(WithRun(s, table, w.resume(table).run))
  }

  /** The resumed table's run has passed, so the tables behind it follow. */
  ghost predicate ResumePasses(s: State, w: World) {
    Resume(s, w).Ok? && Passed(w.resume(s.run.meta.paused.value).run)
  }

  lemma AfterIsNext(tables: seq<string>, latest: seq<Entry>)
    requires NoDup(tables) && InTableOrder(tables, latest) && latest != [] && latest[|latest| - 1].table != ""
    ensures After(tables, latest[|latest| - 1].table) == |latest|
  {
  }

  lemma ReplacedGoesOn(s: State, r: TableRun)
    requires Inv(s) && s.run.status == AwaitingHitl && NoDup(s.run.tables)
             && OwnRun(Returned(r), s.run.meta.paused.value)
    requires s.run.meta.paused.value != ""
    ensures var table := s.run.meta.paused.value;
            var after := WithRun(s, table, r);
            && after.latest == s.latest[..|s.latest| - 1] + [Entry(table, r)]
            && (Passed(r) ==> Ready(Restarted(after), |after.latest|) && After(s.run.tables, table) == |after.latest|)
  {
    var table := s.run.meta.paused.value;
    ReplacedKeeps(s, r);
    AfterIsNext(s.run.tables, s.latest);
    if Passed(r) { ReplacedIsReady(WithRun(s, table, r), table, r); }
  }

  lemma ResumedGoesOn(s: State, w: World)
    requires Inv(s) && NoDup(s.run.tables) && OwnRuns(w, s.run.tables) && ResumePasses(s, w)
    ensures var x := GoingOn(s, w);
            && Ready(x, |s.latest|) && Unmarked(x) && x.run.tables == s.run.tables
            && 0 < |s.latest| <= |s.run.tables|
            && Resume(s, w).value == RunFrom(x, |s.latest|, w, false)
  {
    var table := s.run.meta.paused.value;
    assert OwnRun(w.resume(table), table);
    ReplacedGoesOn(s, w.resume(table).run);
  }

  /** A resumed batch of distinct, named tables that crashes once another table's run is stored goes on behind it, and
      in an unchanged world ends as if it had never crashed. Before that, it goes on behind the resumed table in every
      world iff all tasks of the tables up to it are done. */
  lemma ResumedCrashRecovery(s: State, w: World, m: nat)
    requires Inv(s) && NoDup(s.run.tables) && "" !in s.run.tables && OwnRuns(w, s.run.tables) && ResumePasses(s, w)
    requires |s.latest| <= m <= |s.run.tables|
    requires RunTo(GoingOn(s, w), |s.latest|, m, w, false).run.status == Running
    ensures var stored := RunTo(GoingOn(s, w), |s.latest|, m, w, false);
            if m > |s.latest| then
              && (forall after :: Recover(stored, after) == RunFrom(stored, m, after, false))
              && Recover(stored, w) == Resume(s, w).value
            else
              && stored == GoingOn(s, w)
              && ((forall after | OwnRuns(after, s.run.tables) ::
                     Recover(stored, after) == RunFrom(stored, m, after, false)) <==>
                  forall k | 0 <= k < m :: TasksDone(stored.run.tasks, s.run.tables[k]))
  {
    var x, n := GoingOn(s, w), |s.latest|;
    var stored := RunTo(x, n, m, w, false);
    ResumedGoesOn(s, w);
    if m > n {
      StoredIsMarked(x, n, m, w, false);
      forall after ensures Recover(stored, after) == RunFrom(stored, m, after, false) {
        RecoversAt(stored, n, m, after);
      }
      GoesOnFrom(x, n, m, w, false);
    } else {
      RecoversInPlaceIff(x, n);
    }
  }

  // ---- Such a batch that starts over ----

  /** A gate pauses the first table; its one step has the kind a tool runner gives a `source` node. */
  function Gated(): World {
    var step := Step("1", "n", "source_table", "a", StepCompleted);
    World((i: nat) => false,
          (i: nat, v: bool) =>
            if i == 0 then Returned(TableRun(AwaitingHitl, [step], "s", "gate", "")) else Threw(""),
          (t: string) => if t == "a" then Returned(TableRun(Completed, [step], "s", "", "")) else Threw(""))
  }

  /** Syncing with that step leaves the only task of table `a` alone. */
  lemma GatedSync(tasks: seq<Task>)
    requires tasks != [] && tasks[0] == Task("a", "n", "source", Planned, "")
    ensures SyncAll(tasks, "a", [Step("1", "n", "source_table", "a", StepCompleted)])[0] == tasks[0]
    ensures !TasksDone(tasks, "a")
  {
    var step := Step("1", "n", "source_table", "a", StepCompleted);
    assert [step][..0] == [];
    assert LastOfKind([step], "source") == None;
  }

  lemma GatedPauses(start: State)
    requires start.run.tables == ["a", "b"] && start.run.status == Running
    requires start.latest == [] && start.run.steps == []
    requires start.run.tasks != [] && start.run.tasks[0] == Task("a", "n", "source", Planned, "")
    ensures var paused := RunFrom(start, 0, Gated(), true);
            && paused.run.status == AwaitingHitl && paused.run.meta == Meta("s", Some("a"), None)
            && paused.run.session == "s" && |paused.latest| == 1
            && paused.run.tasks != [] && paused.run.tasks[0] == start.run.tasks[0]
  {
    var w := Gated();
    var paused := Turn(start, 0, w, true);
    GatedSync(start.run.tasks);
    assert !w.cancelled(0);
    RunToStep(start, 0, 0, w, true);
    RunToStep(start, 0, 1, w, true);
    assert RunTo(start, 0, 2, w, true) == paused;
  }

  lemma GatedResumes(paused: State)
    requires paused.run.status == AwaitingHitl && paused.run.meta == Meta("s", Some("a"), None)
    requires paused.run.session == "s"
    requires paused.run.tasks != [] && paused.run.tasks[0] == Task("a", "n", "source", Planned, "")
    ensures ResumePasses(paused, Gated()) && !TasksDone(GoingOn(paused, Gated()).run.tasks, "a")
  {
    var step := Step("1", "n", "source_table", "a", StepCompleted);
    assert Gated().resume("a") == Returned(TableRun(Completed, [step], "s", "", ""));
    GatedSync(paused.run.tasks);
    GatedSync(GoingOn(paused, Gated()).run.tasks);
  }

  lemma GatedOwnRuns(tables: seq<string>)
    requires tables == ["a", "b"]
    ensures OwnRuns(Gated(), tables)
  {
    forall i: nat, v: bool | i < |tables| ensures OwnRun(Gated().execute(i, v), tables[i]) { }
    forall t ensures OwnRun(Gated().resume(t), t) { }
  }

  lemma GatedPlan(nodes: seq<Node>)
    requires nodes == [Node("n", "source")]
    ensures var start := Start(["a", "b"], Plan(["a", "b"], nodes));
            && Inv(RunFrom(start, 0, Gated(), true)) && RunFrom(start, 0, Gated(), true).run.tables == ["a", "b"]
            && start.run.tasks != [] && start.run.tasks[0] == Task("a", "n", "source", Planned, "")
  {
    StartReady(["a", "b"], nodes);
    GatedOwnRuns(["a", "b"]);
    RunFromKeeps(Start(["a", "b"], Plan(["a", "b"], nodes)), 0, Gated(), true);
    PlanAt(["a", "b"], nodes, 0, 0);
    assert ["a", "b"][..0] == [];
  }

  /** The batch paused at its first table and was resumed, and in some world it does not go on behind that table. */
  ghost predicate StartsOverWhenResumed(paused: State, w: World) {
    && Inv(paused) && ResumePasses(paused, w) && |paused.latest| == 1
    && exists after :: OwnRuns(after, paused.run.tables) &&
         Recover(GoingOn(paused, w), after) != RunFrom(GoingOn(paused, w), 1, after, false)
  }

  lemma OpenMeansOver(paused: State, w: World)
    requires Inv(paused) && NoDup(paused.run.tables) && OwnRuns(w, paused.run.tables) && ResumePasses(paused, w)
    requires |paused.latest| == 1 && !TasksDone(GoingOn(paused, w).run.tasks, paused.run.tables[0])
    ensures StartsOverWhenResumed(paused, w)
  {
    ResumedGoesOn(paused, w);
    RecoversInPlaceIff(GoingOn(paused, w), 1);
  }

  /** The resumed table's step has another kind than its task, so the task is never done; after a crash the batch does
      not go on behind that table. */
  lemma ResumedBatchStartsOver() returns (paused: State)
    ensures paused == RunFrom(Start(["a", "b"], Plan(["a", "b"], [Node("n", "source")])), 0, Gated(), true)
    ensures StartsOverWhenResumed(paused, Gated())
  {
    var start := Start(["a", "b"], Plan(["a", "b"], [Node("n", "source")]));
    paused := RunFrom(start, 0, Gated(), true);
    GatedPlan([Node("n", "source")]);
    GatedPauses(start);
    GatedResumes(paused);
    GatedOwnRuns(paused.run.tables);
    OpenMeansOver(paused, Gated());
  }
}
