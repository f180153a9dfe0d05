/** How a sequential run ends, told by what its checks see and what its nodes lead to. */
module SequentialLaws {
  import opened Sequences
  import opened TaskLedger
  import opened BatchSequential

  datatype Job = Job(tables: seq<string>, order: seq<string>, kinds: map<string, string>) {
    function Tasks(): seq<Task> { Plan(tables, Executable(kinds, order)) }

    /** How many nodes are run before node `j` of table `t`. */
    function Before(t: nat, j: nat): nat
      requires t <= |tables| && j <= |order|
    {
      |Plan(tables[..t], Executable(kinds, order))| + |Executable(kinds, order[..j])|
    }

    ghost function Result(w: World): Run { RunOf(tables, order, kinds, w) }
  }

  ghost predicate TablesUncancelled(job: Job, w: World, t: nat) {
    forall u: nat | u < t :: Uncancelled(w, u, |job.order|)
  }

  /** The first check that sees a cancellation is that of table `t`, before all its nodes or before node `c`; until then
      all nodes ran to the end. */
  ghost predicate CancelledAt(job: Job, w: World, t: nat, c: Option<nat>) {
    && t < |job.tables| && TablesUncancelled(job, w, t) && w.cancelled(t, c)
    && match c
       case None => AllRan(w, job.Before(t, 0))
       case Some(j) => j < |job.order| && Uncancelled(w, t, j) && AllRan(w, job.Before(t, j))
  }

  /** Node `j` of table `t` is the first that does not run to the end, and no check up to its own sees a
      cancellation. */
  ghost predicate RaisedAt(job: Job, w: World, t: nat, j: nat) {
    && t < |job.tables| && j < |job.order|
    && job.order[j] in job.kinds && job.kinds[job.order[j]] != "batch_loop"
    && TablesUncancelled(job, w, t) && Uncancelled(w, t, j + 1)
    && AllRan(w, job.Before(t, j)) && !w.run(job.Before(t, j)).Ran?
  }

  function Position(c: Option<nat>): nat { c.GetOr(0) }

  // ---- Where the loops stop ----

  lemma NodesStopAt(job: Job, w: World, t: nat, c: Option<nat>)
    requires CancelledAt(job, w, t, c)
    ensures var base := job.Before(t, 0);
            NodesTo(w, t, job.order, job.kinds, base, |job.order|) ==
            (job.Before(t, Position(c)), Stop("run cancelled"))
  {
    var base, n := job.Before(t, 0), |job.order|;
    match c
    case None =>
      NodesStay(w, t, job.order, job.kinds, base, 0, n);
    case Some(j) =>
      NodesReach(w, t, job.order, job.kinds, base, j);
      NodesStay(w, t, job.order, job.kinds, base, j + 1, n);
  }

  lemma NodesRaiseAt(job: Job, w: World, t: nat, j: nat)
    requires RaisedAt(job, w, t, j)
    ensures var (base, k) := (job.Before(t, 0), job.Before(t, j));
            NodesTo(w, t, job.order, job.kinds, base, |job.order|) == (k, Raise(w.run(k).error))
  {
    var base, n := job.Before(t, 0), |job.order|;
    NodesReach(w, t, job.order, job.kinds, base, j);
    NodesStay(w, t, job.order, job.kinds, base, j + 1, n);
  }

  lemma TablesComeTo(job: Job, w: World, t: nat)
    requires t < |job.tables| && TablesUncancelled(job, w, t) && AllRan(w, job.Before(t, 0))
    ensures TablesTo(w, job.order, job.kinds, t) == (job.Before(t, 0), Proceed)
    ensures var to := NodesTo(w, t, job.order, job.kinds, job.Before(t, 0), |job.order|);
            !to.1.Proceed? ==> TablesTo(w, job.order, job.kinds, |job.tables|) == to
  {
    TablesReach(w, job.order, job.kinds, job.tables, t);
    var to := NodesTo(w, t, job.order, job.kinds, job.Before(t, 0), |job.order|);
    if !to.1.Proceed? { TablesStay(w, job.order, job.kinds, t + 1, |job.tables|); }
  }

  lemma AllRanBefore(w: World, k: nat, n: nat)
    requires k <= n && AllRan(w, n)
    ensures AllRan(w, k)
  {
  }

  /** The loop over all tables stops there. */
  lemma TablesStopAt(job: Job, w: World, t: nat, c: Option<nat>)
    requires CancelledAt(job, w, t, c)
    ensures TablesTo(w, job.order, job.kinds, |job.tables|) == (job.Before(t, Position(c)), Stop("run cancelled"))
  {
    AllRanBefore(w, job.Before(t, 0), job.Before(t, Position(c)));
    TablesComeTo(job, w, t);
    NodesStopAt(job, w, t, c);
  }

  lemma TablesRaiseAt(job: Job, w: World, t: nat, j: nat)
    requires RaisedAt(job, w, t, j)
    ensures var k := job.Before(t, j);
            TablesTo(w, job.order, job.kinds, |job.tables|) == (k, Raise(w.run(k).error))
  {
    AllRanBefore(w, job.Before(t, 0), job.Before(t, j));
    TablesComeTo(job, w, t);
    NodesRaiseAt(job, w, t, j);
  }

  /** Where the first `j` nodes of a table do not all come to their end, one of them is why. */
  lemma {:induction false} NodesStoppedBy(job: Job, w: World, t: nat, j: nat)
    requires t < |job.tables| && j <= |job.order| && TablesUncancelled(job, w, t) && AllRan(w, job.Before(t, 0))
    requires !NodesTo(w, t, job.order, job.kinds, job.Before(t, 0), j).1.Proceed?
    ensures (exists c :: CancelledAt(job, w, t, c)) || exists m: nat :: RaisedAt(job, w, t, m)
  {
    var base := job.Before(t, 0);
    if j == 0 {
      assert CancelledAt(job, w, t, None);
    } else if !NodesTo(w, t, job.order, job.kinds, base, j - 1).1.Proceed? {
      NodesStoppedBy(job, w, t, j - 1);
    } else {
      NodesReach(w, t, job.order, job.kinds, base, j - 1);
      if w.cancelled(t, Some(j - 1)) {
        assert CancelledAt(job, w, t, Some(j - 1));
      } else {
        assert RaisedAt(job, w, t, j - 1);
      }
    }
  }

  lemma {:induction false} TablesStoppedBy(job: Job, w: World, n: nat)
    requires n <= |job.tables| && !TablesTo(w, job.order, job.kinds, n).1.Proceed?
    ensures (exists t, c :: CancelledAt(job, w, t, c)) || exists t, m: nat :: RaisedAt(job, w, t, m)
  {
    if n > 0 && !TablesTo(w, job.order, job.kinds, n - 1).1.Proceed? {
      TablesStoppedBy(job, w, n - 1);
    } else if n > 0 {
      TablesReach(w, job.order, job.kinds, job.tables, n - 1);
      NodesStoppedBy(job, w, n - 1, |job.order|);
    }
  }

  // ---- How a run ends ----

  /** A run stopped by a cancellation is cancelled, with a step for each node run before. */
  lemma CancelledRun(job: Job, w: World, t: nat, c: Option<nat>)
    requires CancelledAt(job, w, t, c)
    ensures var r := job.Result(w);
            && r.now.status == Cancelled && r.cancelReason == "run cancelled" && r.error == ""
            && |r.now.steps| == job.Before(t, Position(c))
  {
    var k := job.Before(t, Position(c));
    TablesStopAt(job, w, t, c);
    TablesReach(w, job.order, job.kinds, job.tables, |job.tables|);
    assert job.tables[..|job.tables|] == job.tables;
    BetweenIsSettled(job.Tasks(), w, k);
    BetweenTexts(job.Tasks(), w, k);
  }

  lemma {:induction false} BetweenTexts(plan: seq<Task>, w: World, k: nat)
    requires k <= |plan| && AllRan(w, k)
    ensures Between(plan, w, k).error == "" && Between(plan, w, k).cancelReason == ""
  {
    if k > 0 { BetweenTexts(plan, w, k - 1); }
  }

  /** A run stopped by a node has failed with that node's error. The node's step is there unless it broke before
      recording it, and its task is still running unless it was settled. */
  lemma FailedRun(job: Job, w: World, t: nat, j: nat)
    requires RaisedAt(job, w, t, j)
    ensures var (r, k) := (job.Result(w), job.Before(t, j));
            && r.now.status == Failed && r.error == w.run(k).error && r.cancelReason == ""
            && |r.now.steps| == (if w.run(k).Broke? then k else k + 1)
            && (if w.run(k).Unsaved? then Settled(r.now, job.Tasks(), k + 1) else Busy(r.now, job.Tasks(), k))
  {
    var k, plan := job.Before(t, j), job.Tasks();
    TablesRaiseAt(job, w, t, j);
    TablesReach(w, job.order, job.kinds, job.tables, |job.tables|);
    assert job.tables[..|job.tables|] == job.tables;
    BrokenAs(plan, w, k);
    EndedFields(Broken(plan, w, k), w.run(k).error);
  }

  lemma EndedFields(r: Run, error: string)
    ensures var ended := Ended(r, Raise(error));
            && ended.now == r.now.(status := Failed) && ended.error == error && ended.cancelReason == r.cancelReason
  {
  }

  lemma BrokenAs(plan: seq<Task>, w: World, k: nat)
    requires k < |plan| && AllRan(w, k) && !w.run(k).Ran?
    ensures var r := Broken(plan, w, k);
            && r.cancelReason == "" && |r.now.steps| == (if w.run(k).Broke? then k else k + 1)
            && (if w.run(k).Unsaved? then Settled(r.now, plan, k + 1) else Busy(r.now, plan, k))
  {
    BetweenIsSettled(plan, w, k);
    BetweenTexts(plan, w, k);
    var b := Between(plan, w, k);
    var marked := Marked(b, Owner(plan, k));
    MarkedIsBusy(plan, b, k);
    if !w.run(k).Broke? {
      var step := StepOf(w.run(k), plan[k]);
      RecordedIsBusy(plan, marked, k, step);
      SettledByIsSettled(plan, Recorded(marked, step), k, step);
    }
  }

  /** A run is cancelled exactly when a cancellation is the first thing to stop it, and fails exactly when a node is;
      otherwise it completes. */
  lemma HowItEnds(job: Job, w: World)
    ensures job.Result(w).now.status == Cancelled <==> exists t, c :: CancelledAt(job, w, t, c)
    ensures job.Result(w).now.status == Failed <==> exists t, j :: RaisedAt(job, w, t, j)
    ensures job.Result(w).now.status in [Completed, Cancelled, Failed]
  {
    RunIsCoherent(job.tables, job.order, job.kinds, w);
    if t, c :| CancelledAt(job, w, t, c) { CancelledRun(job, w, t, c); }
    if t, j :| RaisedAt(job, w, t, j) { FailedRun(job, w, t, j); }
    if job.Result(w).now.status != Completed { TablesStoppedBy(job, w, |job.tables|); }
  }

  // ---- What is written on the way ----

  /** The states written around node `i`: before it, and with its task running. */
  ghost predicate WrittenAround(saved: seq<Snapshot>, plan: seq<Task>, steps: seq<Step>, i: nat) {
    && 2 * i + 1 < |saved| && i < |steps|
    && Settled(saved[2 * i], plan, i) && saved[2 * i].steps == steps[..i]
    && Busy(saved[2 * i + 1], plan, i) && saved[2 * i + 1].steps == steps[..i]
  }

  /** Two states are written for each of the first `k` nodes: before it, and with its task running. */
  ghost predicate AllWritten(r: Run, plan: seq<Task>, k: nat) {
    match r
    case Run(now, _, _, saved) =>
      forall i: nat {:trigger WrittenAround(saved, plan, now.steps, i)} | i < k ::
        WrittenAround(saved, plan, now.steps, i)
  }

  ghost predicate Journal(r: Run, plan: seq<Task>, k: nat) {
    match r
    case Run(now, _, _, saved) => |saved| == 2 * k + 1 && |now.steps| == k && AllWritten(r, plan, k)
  }

  lemma WrittenStays(b: Run, r: Run, plan: seq<Task>, k: nat)
    requires AllWritten(b, plan, k) && b.saved <= r.saved && b.now.steps <= r.now.steps
    ensures AllWritten(r, plan, k)
  {
    forall i: nat | i < k ensures WrittenAround(r.saved, plan, r.now.steps, i) {
      assert WrittenAround(b.saved, plan, b.now.steps, i);
      assert r.now.steps[..i] == b.now.steps[..i];
    }
  }

  ghost predicate JournalAt(plan: seq<Task>, w: World, k: nat) {
    k <= |plan| && AllRan(w, k) ==> Journal(Between(plan, w, k), plan, k)
  }

  lemma StartJournal(plan: seq<Task>, w: World)
    ensures JournalAt(plan, w, 0)
  {
  }

  lemma LastWritten(b: Run, next: Run, plan: seq<Task>, w: World, k: nat)
    requires k < |plan| == |b.now.tasks| && !w.run(k).Broke? && IsBetween(b, plan, w, k) && |b.saved| == 2 * k + 1
    requires next == NextRun(b, plan, w, k)
    ensures |next.saved| == 2 * k + 3 && |next.now.steps| == k + 1
    ensures b.saved <= next.saved && b.now.steps <= next.now.steps
    ensures WrittenAround(next.saved, plan, next.now.steps, k)
  {
    var marked := Marked(b, Owner(plan, k));
    MarkedIsBusy(plan, b, k);
    assert next.saved == b.saved + [marked.now, next.now];
    assert next.now.steps == b.now.steps + [StepOf(w.run(k), plan[k])];
    assert next.now.steps[..k] == b.now.steps;
  }

  lemma NextJournal(plan: seq<Task>, w: World, k: nat)
    requires JournalAt(plan, w, k)
    ensures JournalAt(plan, w, k + 1)
  {
    if k < |plan| && AllRan(w, k + 1) {
      BetweenIsSettled(plan, w, k);
      BetweenNext(plan, w, k);
      LastWritten(Between(plan, w, k), Between(plan, w, k + 1), plan, w, k);
      WrittenStays(Between(plan, w, k), Between(plan, w, k + 1), plan, k);
    }
  }

  lemma BetweenJournal(plan: seq<Task>, w: World, k: nat)
    requires k <= |plan| && AllRan(w, k)
    ensures Journal(Between(plan, w, k), plan, k)
  {
    var P := (m: nat) => JournalAt(plan, w, m);
    assert P(0) by { StartJournal(plan, w); }
    forall i: nat, m: nat | i < m <= k && m == i + 1 && P(i) ensures P(m) { NextJournal(plan, w, i); }
    Inductively(P, k);
  }

  lemma EndedAppends(r: Run, halt: Halt)
    ensures Ended(r, halt).saved == r.saved + [Ended(r, halt).now] && Ended(r, halt).now.steps == r.now.steps
  {
  }

  lemma BrokenWrites(plan: seq<Task>, w: World, k: nat)
    requires k < |plan| && AllRan(w, k) && !w.run(k).Ran?
    ensures var (b, r) := (Between(plan, w, k), Broken(plan, w, k));
            && r.saved == b.saved + [Marked(b, Owner(plan, k)).now] && b.now.steps <= r.now.steps
            && Busy(Marked(b, Owner(plan, k)).now, plan, k)
  {
    BetweenIsSettled(plan, w, k);
    MarkedIsBusy(plan, Between(plan, w, k), k);
  }

  lemma ReachedWrites(plan: seq<Task>, w: World, k: nat, halt: Halt)
    requires CanReach(plan, w, k, halt)
    ensures var r := Ended(Reached(plan, w, k, halt), halt);
            && AllWritten(r, plan, k) && |r.saved| == 2 * k + (if halt.Raise? then 3 else 2)
            && (halt.Raise? ==> Busy(r.saved[2 * k + 1], plan, k))
  {
    var b := Between(plan, w, k);
    BetweenJournal(plan, w, k);
    if halt.Raise? {
      BrokenWrites(plan, w, k);
      EndedWrites(b, Broken(plan, w, k), plan, k, halt);
    } else {
      EndedWrites(b, b, plan, k, halt);
    }
  }

  lemma EndedWrites(b: Run, reached: Run, plan: seq<Task>, k: nat, halt: Halt)
    requires Journal(b, plan, k) && b.saved <= reached.saved && b.now.steps <= reached.now.steps
    ensures var r := Ended(reached, halt);
            && AllWritten(r, plan, k) && |r.saved| == |reached.saved| + 1 && r.saved[..|reached.saved|] == reached.saved
  {
    EndedAppends(reached, halt);
    WrittenStays(b, Ended(reached, halt), plan, k);
  }

  /** Every run has written each node that ran to the end before it began and as running, then how the run ended; a run
      that a node stopped has written that node as running too. */
  lemma RunWrites(job: Job, w: World) returns (k: nat)
    ensures var (r, plan) := (job.Result(w), job.Tasks());
            && AllRan(w, k) && AllWritten(r, plan, k) && (r.now.status == Completed ==> k == |plan|)
            && |r.saved| == 2 * k + (if r.now.status == Failed then 3 else 2)
            && (r.now.status == Failed ==> k < |plan| && !w.run(k).Ran? && Busy(r.saved[2 * k + 1], plan, k))
  {
    var (reach, halt) := TablesTo(w, job.order, job.kinds, |job.tables|);
    k := reach;
    TablesReach(w, job.order, job.kinds, job.tables, |job.tables|);
    assert job.tables[..|job.tables|] == job.tables;
    ReachedWrites(job.Tasks(), w, k, halt);
  }
}
