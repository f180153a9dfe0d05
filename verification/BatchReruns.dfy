/** Recovering a batch that stopped, any number of times (redibis/agents/batch_executor.py, _resume_langgraph_batch): a
    table that came back is recorded as completed, failed or not, and never runs again. */
module BatchReruns {
  import opened Sequences
  import opened TaskLedger
  import opened BatchLangGraph

  // ---- States a recovery goes on from in place ----

  /** Tasks of tables not reached are not finished. */
  ghost predicate Unfinished(tasks: seq<Task>, latest: seq<Entry>) {
    forall q | 0 <= q < |tasks| && !HasRun(latest, tasks[q].table) :: !Finished(tasks[q])
  }

  /** Distinct tables, of which the first `k` have runs; these need not have passed. */
  ghost predicate InPlace(x: State, k: nat) {
    match x
    case State(b, latest) =>
      && Recorded(x) && NoDup(b.tables) && InTableOrder(b.tables, latest) && |latest| == k
      && Unfinished(b.tasks, latest)
  }

  /** The last table with a run is recorded as completed, whatever its run's status. */
  ghost predicate LastNamed(x: State) {
    match x
    case State(b, latest) => b.meta.lastCompleted.GetOr("") == if latest == [] then "" else latest[|latest| - 1].table
  }

  /** A batch that is not paused, and records its last table as completed: running, cancelled, failed or completed. */
  ghost predicate Recoverable(x: State) {
    match x
    case State(b, latest) =>
      InPlace(x, |latest|) && LastNamed(x) && "" !in b.tables && b.status != AwaitingHitl
  }

  /** No table has a run yet. */
  predicate Fresh(x: State) { x.latest == [] }

  lemma NextOpen(x: State, k: nat, fromStart: bool)
    requires InPlace(x, k) && k < |x.run.tables|
    ensures !TasksDone(x.run.tasks, x.run.tables[k]) && Dropped(x.latest, x.run.tables[k]) == x.latest
    ensures Validates(x.run, k, fromStart) <==> fromStart && k == 0
  {
    NextNotRun(x.run.tables, x.latest);
    DroppedAbsent(x.latest, x.run.tables[k]);
  }

  lemma AppendInPlace(x: State, k: nat, r: TableRun, next: State)
    requires InPlace(x, k) && k < |x.run.tables| && OwnRun(Returned(r), x.run.tables[k])
    requires SameRecord(WithRun(x, x.run.tables[k], r), next)
    ensures InPlace(next, k + 1) && next.latest == x.latest + [Entry(x.run.tables[k], r)]
  {
    var table := x.run.tables[k];
    PutOwned(x.run.tables, x.latest, table, r);
    SyncUnfinished(x.run.tasks, x.latest, table, r);
    assert Put(x.latest, table, r) == x.latest + [Entry(table, r)] by { NextOpen(x, k, false); }
    AppendInOrder(x.run.tables, x.latest, Entry(table, r));
  }

  lemma AppendInOrder(tables: seq<string>, latest: seq<Entry>, e: Entry)
    requires InTableOrder(tables, latest) && |latest| < |tables| && e.table == tables[|latest|]
    ensures InTableOrder(tables, latest + [e])
  {
  }

  lemma SyncUnfinished(tasks: seq<Task>, latest: seq<Entry>, table: string, r: TableRun)
    requires Unfinished(tasks, latest)
    ensures Unfinished(SyncAll(tasks, table, r.steps), Put(latest, table, r))
  {
    PutHas(latest, table, r);
    var synced := SyncAll(tasks, table, r.steps);
    forall q | 0 <= q < |synced| && !HasRun(Put(latest, table, r), synced[q].table) ensures !Finished(synced[q]) {
      assert synced[q] == SyncTask(tasks[q], table, r.steps);
    }
  }

  /** The run the round at position `k` brings, if it executes the table and the executor returns. */
  ghost function Brought(x: State, k: nat, w: World, fromStart: bool): seq<Entry>
    requires k < |x.run.tables|
  {
    var o := w.execute(k, fromStart && k == 0);
    if w.cancelled(k) || o.Threw? then [] else [Entry(x.run.tables[k], o.run)]
  }

  /** A round at position `k` led from `x` to `next`, bringing `brought`, and went on iff `on`. */
  ghost predicate Stepped(x: State, next: State, k: nat, brought: seq<Entry>, on: bool) {
    match next
    case State(b, latest) =>
      && InPlace(next, |latest|) && b.tables == x.run.tables && latest == x.latest + brought
      && (b.status != AwaitingHitl ==> LastNamed(next))
      && (b.status == Running <==> on) && b.status != Completed && (on ==> |latest| == k + 1)
  }

  lemma StopSteps(x: State, k: nat, next: State)
    requires InPlace(x, k) && LastNamed(x)
    requires next.latest == x.latest && next.run.tables == x.run.tables && next.run.steps == x.run.steps
    requires next.run.tasks == x.run.tasks || next.run.tasks == CancelAll(x.run.tasks)
    requires next.run.meta == x.run.meta && (next.run.status == Cancelled || next.run.status == Failed)
    ensures Stepped(x, next, k, [], false)
  {
    assert x.latest + [] == x.latest;
  }

  lemma AdvanceNames(x: State, table: string, r: TableRun)
    ensures var b := Advance(x, table, r).run;
            && b.tables == x.run.tables
            && b.status == (if r.status == AwaitingHitl || r.status == Failed then r.status else x.run.status)
            && (r.status != AwaitingHitl ==> b.meta.lastCompleted == Some(table))
  {
  }

  lemma ReturnSteps(x: State, k: nat, r: TableRun)
    requires InPlace(x, k) && k < |x.run.tables| && x.run.status == Running && OwnRun(Returned(r), x.run.tables[k])
    ensures Stepped(x, Advance(x, x.run.tables[k], r), k, [Entry(x.run.tables[k], r)],
                    r.status != AwaitingHitl && r.status != Failed)
  {
    var table := x.run.tables[k];
    var next := Advance(x, table, r);
    AdvanceFields(x, table, r);
    AdvanceNames(x, table, r);
    AppendInPlace(x, k, r, next);
  }

  lemma NextInPlace(x: State, k: nat, w: World, fromStart: bool)
    requires InPlace(x, k) && LastNamed(x) && k < |x.run.tables| && x.run.status == Running
    requires OwnRuns(w, x.run.tables)
    ensures Stepped(x, Turn(x, k, w, fromStart), k, Brought(x, k, w, fromStart), GoesOnAt(w, k, fromStart))
  {
    NextOpen(x, k, fromStart);
    var o := w.execute(k, fromStart && k == 0);
    assert OwnRun(o, x.run.tables[k]);
    if w.cancelled(k) || o.Threw? {
      StopSteps(x, k, Turn(x, k, w, fromStart));
    } else {
      ReturnSteps(x, k, o.run);
    }
  }

  /** The loop behind the runs in `base`: it is running iff every position so far went on, and every run behind them is
      what the world gave there. */
  ghost predicate Along(x: State, tables: seq<string>, base: seq<Entry>, k: nat, w: World, fromStart: bool) {
    match x
    case State(b, latest) =>
      && b.tables == tables && InPlace(x, |latest|) && (b.status != AwaitingHitl ==> LastNamed(x))
      && (b.status == Running <==> forall j: nat | |base| <= j < k :: GoesOnAt(w, j, fromStart))
      && (b.status == Running ==> |latest| == k) && b.status != Completed
      && ExecutedFrom(latest, base, |base|, w, fromStart)
  }

  lemma StoppedAlong(x: State, tables: seq<string>, base: seq<Entry>, k: nat, w: World, fromStart: bool)
    requires Along(x, tables, base, k, w, fromStart) && |base| <= k && x.run.status != Running
    ensures Along(x, tables, base, k + 1, w, fromStart)
  {
    assert (forall j: nat | |base| <= j < k + 1 :: GoesOnAt(w, j, fromStart)) ==>
           forall j: nat | |base| <= j < k :: GoesOnAt(w, j, fromStart);
  }

  lemma GoingAlong(x: State, tables: seq<string>, base: seq<Entry>, k: nat, w: World, fromStart: bool)
    requires Along(x, tables, base, k, w, fromStart) && |base| <= k < |tables| && x.run.status == Running
    requires OwnRuns(w, tables)
    ensures Along(Turn(x, k, w, fromStart), tables, base, k + 1, w, fromStart)
  {
    NextInPlace(x, k, w, fromStart);
    BroughtExecuted(x, base, k, w, fromStart);
    assert (forall j: nat | |base| <= j < k + 1 :: GoesOnAt(w, j, fromStart)) <==> GoesOnAt(w, k, fromStart);
  }

  lemma BroughtExecuted(x: State, base: seq<Entry>, k: nat, w: World, fromStart: bool)
    requires k < |x.run.tables| && |x.latest| == k && ExecutedFrom(x.latest, base, |base|, w, fromStart)
    ensures ExecutedFrom(x.latest + Brought(x, k, w, fromStart), base, |base|, w, fromStart)
  {
    var brought := Brought(x, k, w, fromStart);
    if brought == [] {
      assert x.latest + [] == x.latest;
    } else {
      ExecutedAppend(x.latest, base, |base|, w, fromStart, brought[0]);
      assert brought == [brought[0]];
    }
  }

  lemma AlongIsKept(tables: seq<string>, base: seq<Entry>, w: World, fromStart: bool, round: Round)
    requires OwnRuns(w, tables) && round == RoundOf(w, fromStart)
    ensures forall x: State, k: nat {:trigger round(x, k)} |
              |base| <= k < |tables| && Along(x, tables, base, k, w, fromStart) ::
              Along(round(x, k), tables, base, k + 1, w, fromStart)
  {
    forall x: State, k: nat | |base| <= k < |tables| && Along(x, tables, base, k, w, fromStart)
      ensures Along(round(x, k), tables, base, k + 1, w, fromStart)
    {
      assert round(x, k) == Turn(x, k, w, fromStart);
      if x.run.status == Running {
        GoingAlong(x, tables, base, k, w, fromStart);
      } else {
        StoppedAlong(x, tables, base, k, w, fromStart);
      }
    }
  }

  lemma RunsAlong(s: State, n: nat, w: World, fromStart: bool)
    requires n <= |s.run.tables| && Along(s, s.run.tables, s.latest, |s.latest|, w, fromStart)
    requires |s.latest| <= n && OwnRuns(w, s.run.tables)
    ensures Along(RunTo(s, |s.latest|, n, w, fromStart), s.run.tables, s.latest, n, w, fromStart)
  {
    var tables, base, round := s.run.tables, s.latest, RoundOf(w, fromStart);
    AlongIsKept(tables, base, w, fromStart, round);
    var P := (x: State, k: nat) => Along(x, tables, base, k, w, fromStart);
    RoundsHave(P, s, |base|, n, round);
    assert P(Rounds(s, |base|, n, round), n);
  }

  lemma RestartedAlong(s: State, w: World, fromStart: bool)
    requires Recoverable(s)
    ensures var x := Restarted(s); Along(x, s.run.tables, s.latest, |s.latest|, w, fromStart)
  {
  }

  lemma RecoversBehindLast(s: State, w: World)
    requires Recoverable(s)
    ensures |s.latest| <= |s.run.tables|
    ensures Recover(s, w) == RunFrom(Restarted(s), |s.latest|, w, Fresh(s))
  {
    if s.latest != [] {
      assert s.latest[|s.latest| - 1].table == s.run.tables[|s.latest| - 1];
      assert s.run.tables[|s.latest| - 1] in s.run.tables;
    }
  }

  /** How far a recovery gets. */
  ghost predicate GoesThrough(s: State, w: World) {
    forall k: nat | |s.latest| <= k < |s.run.tables| :: GoesOnAt(w, k, Fresh(s))
  }

  /** What recovery `r` of `s` is: the runs before it stay, those behind it are what the world gives there; it completes
      iff every position behind goes on, and unless it pauses, what it leaves can be recovered again. */
  ghost predicate WentOn(s: State, r: State, w: World) {
    match r
    case State(b, latest) =>
      && b.tables == s.run.tables && ExecutedFrom(latest, s.latest, |s.latest|, w, Fresh(s))
      && (b.status == Completed <==> GoesThrough(s, w)) && (b.status == Completed ==> |latest| == |b.tables|)
      && (b.status != AwaitingHitl ==> Recoverable(r))
  }

  /** A recovery goes on behind the last table that came back, whatever became of that table's run. */
  lemma RecoveryGoesOn(s: State, w: World)
    requires Recoverable(s) && OwnRuns(w, s.run.tables)
    ensures WentOn(s, Recover(s, w), w)
  {
    RecoversBehindLast(s, w);
    RestartedAlong(s, w, Fresh(s));
    RunsAlong(Restarted(s), |s.run.tables|, w, Fresh(s));
    EndsWell(s, RunTo(Restarted(s), |s.latest|, |s.run.tables|, w, Fresh(s)), w);
  }

  lemma EndsWell(s: State, x: State, w: World)
    requires Recoverable(s) && Along(x, s.run.tables, s.latest, |s.run.tables|, w, Fresh(s))
    ensures WentOn(s, if x.run.status == Running then x.(run := x.run.(status := Completed)) else x, w)
  {
    StaysRecoverable(x, s.run.tables, s.latest, |s.run.tables|, w, Fresh(s));
  }

  lemma StaysRecoverable(x: State, tables: seq<string>, base: seq<Entry>, k: nat, w: World, fromStart: bool)
    requires Along(x, tables, base, k, w, fromStart) && "" !in tables
    ensures x.run.status != AwaitingHitl ==> Recoverable(x)
    ensures x.run.status == Running ==> Recoverable(x.(run := x.run.(status := Completed)))
  {
  }

  /** A recovery completes with only completed tables iff the tables before it all completed, and each position behind
      goes on and does not come back cancelled. */
  lemma RecoveryAllCompletedIff(s: State, w: World)
    requires Recoverable(s) && OwnRuns(w, s.run.tables)
    ensures var r := Recover(s, w);
            r.run.status == Completed && AllCompleted(r.latest) <==>
            && AllCompleted(s.latest)
            && forall k: nat | |s.latest| <= k < |s.run.tables| ::
                 GoesOnAt(w, k, Fresh(s)) && !CancelledAt(w, k, Fresh(s))
  {
    RecoveryGoesOn(s, w);
    var r := Recover(s, w);
    if r.run.status == Completed { WentOnAllCompleted(s, r, w); }
  }

  lemma WentOnAllCompleted(s: State, r: State, w: World)
    requires WentOn(s, r, w) && r.run.status == Completed && OwnRuns(w, s.run.tables)
    ensures AllCompleted(r.latest) <==>
            AllCompleted(s.latest) && forall k: nat | |s.latest| <= k < |s.run.tables| :: !CancelledAt(w, k, Fresh(s))
  {
    var n := |s.latest|;
    assert r.latest[..n] == s.latest[..n] == s.latest;
    forall k: nat | n <= k < |r.latest| ensures r.latest[k].run.status == Completed <==> !CancelledAt(w, k, Fresh(s)) {
      assert GoesOnAt(w, k, Fresh(s));
      assert OwnRun(w.execute(k, Fresh(s) && k == 0), s.run.tables[k]);
    }
    PrefixAllCompleted(r.latest, n);
  }

  lemma PrefixAllCompleted(latest: seq<Entry>, n: nat)
    requires n <= |latest|
    ensures AllCompleted(latest) <==>
            AllCompleted(latest[..n]) && forall k: nat | n <= k < |latest| :: latest[k].run.status == Completed
  {
    forall k: nat | n <= k < |latest| ensures latest[k] in latest {}
    forall e | e in latest[..n] ensures e in latest {}
  }

  /** `r` is what one recovery of `s` leaves, at its end or where it crashes. */
  ghost predicate RecoversTo(s: State, r: State, w: World) {
    && OwnRuns(w, s.run.tables)
    && (r == Recover(s, w)
        || exists m: nat :: |s.latest| <= m <= |s.run.tables| &&
             r == RunTo(Restarted(s), |s.latest|, m, w, Fresh(s)))
  }

  /** The runs of the one list are the first ones of the other. */
  ghost predicate Keeps(s: State, r: State) { r.run.tables == s.run.tables && s.latest <= r.latest }

  lemma CrashedKeeps(s: State, m: nat, w: World)
    requires Recoverable(s) && OwnRuns(w, s.run.tables) && |s.latest| <= m <= |s.run.tables|
    ensures var r := RunTo(Restarted(s), |s.latest|, m, w, Fresh(s));
            Keeps(s, r) && (r.run.status != AwaitingHitl ==> Recoverable(r))
  {
    RestartedAlong(s, w, Fresh(s));
    RunsAlong(Restarted(s), m, w, Fresh(s));
    AlongKeeps(s, RunTo(Restarted(s), |s.latest|, m, w, Fresh(s)), m, w);
  }

  lemma AlongKeeps(s: State, r: State, m: nat, w: World)
    requires Recoverable(s) && Along(r, s.run.tables, s.latest, m, w, Fresh(s))
    ensures Keeps(s, r) && (r.run.status != AwaitingHitl ==> Recoverable(r))
  {
    StaysRecoverable(r, s.run.tables, s.latest, m, w, Fresh(s));
    assert r.latest[..|s.latest|] == s.latest[..|s.latest|] == s.latest;
  }

  lemma RecoveryKeeps(s: State, r: State, w: World)
    requires Recoverable(s) && RecoversTo(s, r, w)
    ensures Keeps(s, r) && (r.run.status != AwaitingHitl ==> Recoverable(r))
  {
    if r == Recover(s, w) {
      RecoveryGoesOn(s, w);
      assert r.latest[..|s.latest|] == s.latest[..|s.latest|] == s.latest;
    } else {
      var m: nat :| |s.latest| <= m <= |s.run.tables| &&
                    r == RunTo(Restarted(s), |s.latest|, m, w, Fresh(s));
      CrashedKeeps(s, m, w);
    }
  }

  /** A batch recovered again and again, each time until it ends, fails, is cancelled or crashes. */
  ghost predicate Recoveries(states: seq<State>, worlds: seq<World>) {
    && |states| == |worlds| + 1 && Recoverable(states[0])
    && (forall j | 0 <= j < |worlds| :: RecoversTo(states[j], states[j + 1], worlds[j]))
    && (forall j | 0 <= j < |worlds| :: states[j].run.status != AwaitingHitl)
  }

  lemma {:induction false} RecoveriesStay(states: seq<State>, worlds: seq<World>, j: nat)
    requires Recoveries(states, worlds) && j <= |worlds|
    ensures states[j].run.status != AwaitingHitl ==> Recoverable(states[j])
  {
    if j > 0 {
      RecoveriesStay(states, worlds, j - 1);
      assert RecoversTo(states[j - 1], states[j - 1 + 1], worlds[j - 1]);
      RecoveryKeeps(states[j - 1], states[j], worlds[j - 1]);
    }
  }

  /** No table that came back runs again: over any number of recoveries its run stays where and as it is. */
  lemma {:induction false} RecoveriesKeepRuns(states: seq<State>, worlds: seq<World>, i: nat, j: nat)
    requires Recoveries(states, worlds) && i <= j <= |worlds|
    ensures Keeps(states[i], states[j])
  {
    if i < j {
      RecoveriesKeepRuns(states, worlds, i, j - 1);
      RecoveriesStay(states, worlds, j - 1);
      assert RecoversTo(states[j - 1], states[j - 1 + 1], worlds[j - 1]);
      RecoveryKeeps(states[j - 1], states[j], worlds[j - 1]);
      KeepsOn(states[i], states[j - 1], states[j]);
    }
  }

  lemma KeepsOn(a: State, b: State, c: State)
    requires Keeps(a, b) && Keeps(b, c)
    ensures Keeps(a, c)
  {
  }

  /** So once a table failed or came back cancelled, no number of recoveries makes all tables completed. */
  lemma FailedTableStays(states: seq<State>, worlds: seq<World>, i: nat, j: nat)
    requires Recoveries(states, worlds) && i <= j <= |worlds| && !AllCompleted(states[i].latest)
    ensures !AllCompleted(states[j].latest)
  {
    RecoveriesKeepRuns(states, worlds, i, j);
    var e :| e in states[i].latest && e.run.status != Completed;
    assert e in states[j].latest;
  }

  /** A new batch of distinct, named tables is recoverable, and its first run is as a recovery. */
  lemma StartRecoverable(tables: seq<string>, nodes: seq<Node>, w: World)
    requires NoDup(tables) && "" !in tables
    ensures var start := Start(tables, Plan(tables, nodes));
            Recoverable(start) && Recover(start, w) == RunFrom(start, 0, w, true)
  {
    PlanIsPlanned(tables, nodes);
    var start := Start(tables, Plan(tables, nodes));
    assert Restarted(start) == start;
  }

  /** A batch whose last table fails is FAILED; recovered, it completes with that failed run in place, in every
      world. */
  lemma FailedBatchCompletes(tables: seq<string>, nodes: seq<Node>, w: World, after: World)
    requires NoDup(tables) && "" !in tables && tables != [] && OwnRuns(w, tables) && OwnRuns(after, tables)
    requires forall k: nat | k < |tables| - 1 :: GoesOnAt(w, k, true)
    requires var n := |tables| - 1;
             var o := w.execute(n, n == 0);
             !w.cancelled(n) && o.Returned? && o.run.status == Failed
    ensures var failed := RunFrom(Start(tables, Plan(tables, nodes)), 0, w, true);
            var r := Recover(failed, after);
            && failed.run.status == Failed && r.run.status == Completed
            && r.latest == failed.latest && !AllCompleted(r.latest)
  {
    var start, n := Start(tables, Plan(tables, nodes)), |tables| - 1;
    StartRecoverable(tables, nodes, w);
    RestartedAlong(start, w, true);
    RunsAlong(start, n, w, true);
    var x := RunTo(start, 0, n, w, true);
    RunToStep(start, 0, n, w, true);
    LastFails(x, n, w);
    RecoveryGoesOn(start, w);
    FullRecovers(Turn(x, n, w, true), after);
  }

  /** Nothing is left to run. */
  lemma FullRecovers(s: State, w: World)
    requires Recoverable(s) && |s.latest| == |s.run.tables| && OwnRuns(w, s.run.tables)
    ensures Recover(s, w).run.status == Completed && Recover(s, w).latest == s.latest
  {
    RecoveryGoesOn(s, w);
    var r := Recover(s, w);
    assert r.latest == r.latest[..|s.latest|] == s.latest[..|s.latest|] == s.latest;
  }

  lemma LastFails(x: State, n: nat, w: World)
    requires InPlace(x, n) && n < |x.run.tables| && x.run.status == Running && !w.cancelled(n)
    requires var o := w.execute(n, n == 0); o.Returned? && o.run.status == Failed
    requires LastNamed(x) && OwnRuns(w, x.run.tables)
    ensures var failed := Turn(x, n, w, true);
            && failed.run.status == Failed && |failed.latest| == n + 1 && !AllCompleted(failed.latest)
  {
    NextOpen(x, n, true);
    NextInPlace(x, n, w, true);
    var failed := Turn(x, n, w, true);
    var o := w.execute(n, n == 0);
    AdvanceNames(x, x.run.tables[n], o.run);
    assert failed.latest[n] == Entry(x.run.tables[n], o.run) && failed.latest[n] in failed.latest;
  }
}
