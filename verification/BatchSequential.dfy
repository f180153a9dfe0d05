/** The sequential batch run over tables and nodes (redibis/agents/batch_executor.py, _run_sequential). */
module BatchSequential {
  import opened Sequences
  import opened TaskLedger
  import Topo = TopologicalOrder

  // ---- What the run takes from outside ----

  /** What running one node for one table can lead to: a recorded step, or an exception before the step is recorded,
      after it (while its governance state is saved), or once its task is settled (while the run is saved). */
  datatype Outcome =
    | Ran(id: string, kind: string, status: StepStatus)
    | Broke(error: string)
    | Unrecorded(id: string, kind: string, status: StepStatus, error: string)
    | Unsaved(id: string, kind: string, status: StepStatus, error: string)

  /** What the cancellation checks see, one before each table and one before each node of its order, by their positions;
      and what running a node leads to, by how many nodes were run before it. */
  datatype World = World(cancelled: (nat, Option<nat>) -> bool, run: nat -> Outcome)

  function StepOf(o: Outcome, task: Task): Step
    requires !o.Broke?
  {
    Step(o.id, task.node, o.kind, task.table, o.status)
  }

  /** The first `k` nodes run to the end. */
  ghost predicate AllRan(w: World, k: nat) { forall i: nat | i < k :: w.run(i).Ran? }

  /** No check of table `t` up to its first `nodes` nodes sees a cancellation. */
  ghost predicate Uncancelled(w: World, t: nat, nodes: nat) {
    !w.cancelled(t, None) && forall j: nat | j < nodes :: !w.cancelled(t, Some(j))
  }

  /** No check sees a cancellation and every node that has a task runs to the end. */
  ghost predicate Smooth(w: World, tables: nat, nodes: nat, plan: nat) {
    (forall t: nat | t < tables :: Uncancelled(w, t, nodes)) && AllRan(w, plan)
  }

  // ---- States of a run ----

  datatype Snapshot = Snapshot(status: RunStatus, steps: seq<Step>, tasks: seq<Task>)

  /** The first task from position `j` on for a table and node that task `k` is for. */
  function FirstFor(plan: seq<Task>, table: string, node: string, j: nat, k: nat): (q: nat)
    requires j <= k < |plan| && IsFor(plan[k], table, node)
    ensures j <= q <= k && IsFor(plan[q], table, node) && forall i | j <= i < q :: !IsFor(plan[i], table, node)
    decreases k - j
  {
    if IsFor(plan[j], table, node) then j else FirstFor(plan, table, node, j + 1, k)
  }

  /** The task that stands for the `k`-th node to run: the first one for its table and node. */
  function Owner(plan: seq<Task>, k: nat): (q: nat)
    requires k < |plan|
    ensures q <= k && IsFor(plan[q], plan[k].table, plan[k].node)
  {
    FirstFor(plan, plan[k].table, plan[k].node, 0, k)
  }

  function Settling(task: Task, step: Step): Task { task.(step := step.id, status := Settle(step.status)) }

  /** The tasks once each node with a step has run: a step settles the task that stands for its node. */
  ghost function TasksAfter(plan: seq<Task>, steps: seq<Step>): (tasks: seq<Task>)
    requires |steps| <= |plan|
    ensures |tasks| == |plan|
  {
    if steps == [] then plan
    else
      var k := |steps| - 1;
      var tasks, q := TasksAfter(plan, steps[..k]), Owner(plan, k);
      tasks[q := Settling(tasks[q], steps[k])]
  }

  function Begun(tasks: seq<Task>, q: nat): seq<Task>
    requires q < |tasks|
  {
    tasks[q := tasks[q].(status := TaskRunning)]
  }

  /** Between two steps: `k` steps are recorded and their tasks settled. */
  ghost predicate Settled(s: Snapshot, plan: seq<Task>, k: nat) {
    match s
    case Snapshot(_, steps, tasks) => |steps| == k <= |plan| && tasks == TasksAfter(plan, steps)
  }

  /** Within a step: the next node's task is running, and its step may have been recorded already. */
  ghost predicate Busy(s: Snapshot, plan: seq<Task>, k: nat) {
    match s
    case Snapshot(_, steps, tasks) =>
      && k < |plan| && (|steps| == k || |steps| == k + 1)
      && tasks == Begun(TasksAfter(plan, steps[..k]), Owner(plan, k))
  }

  ghost predicate Midway(s: Snapshot, plan: seq<Task>, k: nat) { Settled(s, plan, k) || Busy(s, plan, k) }

  /** Cancelled between two steps. */
  ghost predicate Stopped(s: Snapshot, plan: seq<Task>) {
    |s.steps| <= |plan| && s.tasks == CancelAll(TasksAfter(plan, s.steps))
  }

  /** What every state of a run satisfies. */
  ghost predicate Coherent(s: Snapshot, plan: seq<Task>) {
    match s.status
    case Running => exists k: nat :: Midway(s, plan, k)
    case Failed => exists k: nat :: Midway(s, plan, k)
    case Completed => Settled(s, plan, |plan|)
    case Cancelled => Stopped(s, plan)
    case AwaitingHitl => false
  }

  /** All written states are coherent, and their step lists are prefixes of `steps`. */
  ghost predicate Written(saved: seq<Snapshot>, steps: seq<Step>, plan: seq<Task>) {
    forall s | s in saved :: Coherent(s, plan) && s.steps <= steps
  }

  /** Every recorded step is what the runner returned for the node planned there. */
  ghost predicate StepsFrom(steps: seq<Step>, plan: seq<Task>, w: World) {
    && |steps| <= |plan|
    && forall i | 0 <= i < |steps| ::
         && !w.run(i).Broke?
         && steps[i] == Step(w.run(i).id, plan[i].node, w.run(i).kind, plan[i].table, w.run(i).status)
  }

  // ---- What coherent states mean ----

  ghost predicate AllPlanned(plan: seq<Task>) { forall q | 0 <= q < |plan| :: plan[q].status == Planned }

  /** The last of the first `k` steps that task `q` stands for. */
  ghost function LastStep(plan: seq<Task>, k: nat, q: nat): (i: Option<nat>)
    requires k <= |plan|
    ensures i.Some? ==> i.value < k && Owner(plan, i.value) == q && forall m | i.value < m < k :: Owner(plan, m) != q
    ensures i.None? ==> forall m | 0 <= m < k :: Owner(plan, m) != q
  {
    if k == 0 then None else if Owner(plan, k - 1) == q then Some(k - 1) else LastStep(plan, k - 1, q)
  }

  /** A task is settled by the last step it stands for, and as planned when there is none. */
  lemma {:induction false} TasksAfterSteps(plan: seq<Task>, steps: seq<Step>, q: nat)
    requires |steps| <= |plan| && q < |plan|
    ensures var i := LastStep(plan, |steps|, q);
            TasksAfter(plan, steps)[q] == if i.None? then plan[q] else Settling(plan[q], steps[i.value])
    ensures var i := LastStep(plan, |steps|, q);
            i.Some? ==> Carries(TasksAfter(plan, steps)[q], plan[q], steps[i.value])
  {
    if steps != [] { TasksAfterSteps(plan, steps[..|steps| - 1], q); }
  }

  /** Between two steps no task is running. */
  lemma NoneRunning(plan: seq<Task>, steps: seq<Step>, q: nat)
    requires |steps| <= |plan| && q < |plan| && AllPlanned(plan)
    ensures TasksAfter(plan, steps)[q].status != TaskRunning
  {
    TasksAfterSteps(plan, steps, q);
  }

  /** A running task stands for the node run next, or the one whose step was recorded last. */
  lemma MidwayRunning(s: Snapshot, plan: seq<Task>, k: nat, i: nat)
    requires Midway(s, plan, k) && AllPlanned(plan) && i < |s.tasks| && s.tasks[i].status == TaskRunning
    ensures Busy(s, plan, k) && i == Owner(plan, k)
  {
    if Settled(s, plan, k) { NoneRunning(plan, s.steps, i); } else { NoneRunning(plan, s.steps[..k], i); }
  }

  lemma RunningIsMidway(s: Snapshot, plan: seq<Task>, i: nat) returns (k: nat)
    requires Coherent(s, plan) && AllPlanned(plan) && i < |s.tasks| && s.tasks[i].status == TaskRunning
    ensures Midway(s, plan, k)
  {
    if s.status == Running || s.status == Failed {
      k :| Midway(s, plan, k);
    } else {
      NoneRunning(plan, s.steps, i);
    }
  }

  /** In a coherent state at most one task is running. */
  lemma AtMostOneRunning(s: Snapshot, plan: seq<Task>, i: nat, j: nat)
    requires Coherent(s, plan) && AllPlanned(plan) && i < |s.tasks| && j < |s.tasks|
    requires s.tasks[i].status == TaskRunning && s.tasks[j].status == TaskRunning
    ensures i == j
  {
    var k := RunningIsMidway(s, plan, i);
    MidwayRunning(s, plan, k, i);
    MidwayRunning(s, plan, k, j);
  }

  lemma DistinctOwner(plan: seq<Task>, k: nat)
    requires DistinctWork(plan) && k < |plan|
    ensures Owner(plan, k) == k
  {
  }

  /** With distinct work, task `q` is settled by step `q`. */
  lemma DistinctTasksAfter(plan: seq<Task>, steps: seq<Step>, q: nat)
    requires |steps| <= |plan| && q < |plan| && DistinctWork(plan)
    ensures TasksAfter(plan, steps)[q] == if q < |steps| then Settling(plan[q], steps[q]) else plan[q]
  {
    TasksAfterSteps(plan, steps, q);
    forall i: nat | i < |steps| ensures Owner(plan, i) == i { DistinctOwner(plan, i); }
  }

  /** With distinct work a running task follows the settled ones, in step order, and precedes the planned ones. */
  lemma RunningIsInOrder(s: Snapshot, plan: seq<Task>, i: nat, j: nat)
    requires Coherent(s, plan) && AllPlanned(plan) && DistinctWork(plan)
    requires i < |s.tasks| && j < |s.tasks| && s.tasks[i].status == TaskRunning
    ensures |s.steps| == i || |s.steps| == i + 1
    ensures j < i ==> Carries(s.tasks[j], plan[j], s.steps[j])
    ensures j > i ==> s.tasks[j] == plan[j]
  {
    var k := RunningIsMidway(s, plan, i);
    MidwayRunning(s, plan, k, i);
    DistinctOwner(plan, k);
    DistinctTasksAfter(plan, s.steps[..k], j);
  }

  /** With distinct work a cancelled run has settled the first tasks, in step order, and cancelled all the others. */
  lemma CancelledIsInOrder(s: Snapshot, plan: seq<Task>, j: nat)
    requires s.status == Cancelled && Coherent(s, plan) && AllPlanned(plan) && DistinctWork(plan) && j < |plan|
    ensures |s.steps| <= |plan| == |s.tasks|
    ensures j < |s.steps| ==> Carries(s.tasks[j], plan[j], s.steps[j])
    ensures j >= |s.steps| ==> s.tasks[j] == plan[j].(status := TaskCancelled)
  {
    DistinctTasksAfter(plan, s.steps, j);
  }

  /** A completed run has settled every task exactly when no two tasks share a table and a node: a repeated task's steps
      all settle the first of them. */
  lemma CompletedSettlesAllIff(s: Snapshot, plan: seq<Task>)
    requires s.status == Completed && Coherent(s, plan) && AllPlanned(plan)
    ensures (forall q | 0 <= q < |plan| :: s.tasks[q].status != Planned) <==> DistinctWork(plan)
  {
    forall q: nat | q < |plan| ensures s.tasks[q].status == Planned <==> Owner(plan, q) != q {
      TasksAfterSteps(plan, s.steps, q);
      OwnersOwnThemselves(plan, q);
    }
    OwnThemselvesIff(plan);
  }

  lemma OwnThemselvesIff(plan: seq<Task>)
    ensures (forall q: nat | q < |plan| :: Owner(plan, q) == q) <==> DistinctWork(plan)
  {
    if DistinctWork(plan) {
      forall q: nat | q < |plan| ensures Owner(plan, q) == q { DistinctOwner(plan, q); }
    }
    if forall q: nat | q < |plan| :: Owner(plan, q) == q {
      forall i: nat, k: nat | i < k < |plan| ensures plan[i].table != plan[k].table || plan[i].node != plan[k].node {
        assert Owner(plan, k) == k;
      }
    }
  }

  lemma OwnersOwnThemselves(plan: seq<Task>, q: nat)
    requires q < |plan|
    ensures (exists i: nat :: i < |plan| && Owner(plan, i) == q) <==> Owner(plan, q) == q
  {
  }

  // ---- What a run is meant to do ----

  /** A run's record, and every state of it written to the store, oldest first. */
  datatype Run = Run(now: Snapshot, error: string, cancelReason: string, saved: seq<Snapshot>)

  /** How a loop ended. */
  datatype Halt = Proceed | Stop(reason: string) | Raise(error: string)

  function Save(r: Run): Run { r.(saved := r.saved + [r.now]) }

  function WithTasks(r: Run, tasks: seq<Task>): Run { r.(now := r.now.(tasks := tasks)) }

  function Marked(r: Run, q: nat): Run
    requires q < |r.now.tasks|
  {
    Save(WithTasks(r, Begun(r.now.tasks, q)))
  }

  function Recorded(r: Run, step: Step): Run { r.(now := r.now.(steps := r.now.steps + [step])) }

  function SettledBy(r: Run, q: nat, step: Step): Run
    requires q < |r.now.tasks|
  {
    WithTasks(r, r.now.tasks[q := Settling(r.now.tasks[q], step)])
  }

  /** The run after one more node, the `k`-th, has run to the end. */
  function NextRun(r: Run, plan: seq<Task>, w: World, k: nat): Run
    requires k < |plan| == |r.now.tasks| && !w.run(k).Broke?
  {
    var q, step := Owner(plan, k), StepOf(w.run(k), plan[k]);
    Save(SettledBy(Recorded(Marked(r, q), step), q, step))
  }

  /** The run once `k` nodes have run to the end. */
  ghost function Between(plan: seq<Task>, w: World, k: nat): (r: Run)
    requires k <= |plan| && AllRan(w, k)
    ensures |r.now.tasks| == |plan|
  {
    if k == 0 then Save(Run(Snapshot(Running, [], plan), "", "", []))
    else NextRun(Between(plan, w, k - 1), plan, w, k - 1)
  }

  /** The run after a node that raised: before its step was recorded, after that, or after its task was settled. */
  ghost function Broken(plan: seq<Task>, w: World, k: nat): Run
    requires k < |plan| && AllRan(w, k) && !w.run(k).Ran?
  {
    var q, marked := Owner(plan, k), Marked(Between(plan, w, k), Owner(plan, k));
    if w.run(k).Broke? then marked
    else
      var step := StepOf(w.run(k), plan[k]);
      if w.run(k).Unrecorded? then Recorded(marked, step) else SettledBy(Recorded(marked, step), q, step)
  }

  ghost predicate CanReach(plan: seq<Task>, w: World, k: nat, halt: Halt) {
    k <= |plan| && AllRan(w, k) && (halt.Raise? ==> k < |plan| && !w.run(k).Ran?)
  }

  /** The run after `k` nodes that ran to the end and, if it raised, the next one. */
  ghost function Reached(plan: seq<Task>, w: World, k: nat, halt: Halt): Run
    requires CanReach(plan, w, k, halt)
  {
    if halt.Raise? then Broken(plan, w, k) else Between(plan, w, k)
  }

  /** The first `j` nodes of table `t`, the tables before it having run `base` nodes: how many have run to the end then,
      and whether a check or a node stopped the loop. */
  function NodesTo(w: World, t: nat, order: seq<string>, kinds: map<string, string>, base: nat, j: nat): (nat, Halt)
    requires j <= |order|
  {
    if j == 0 then (base, if w.cancelled(t, None) then Stop("run cancelled") else Proceed)
    else
      var (k, halt) := NodesTo(w, t, order, kinds, base, j - 1);
      if !halt.Proceed? then (k, halt)
      else if w.cancelled(t, Some(j - 1)) then (k, Stop("run cancelled"))
      else if !IsExecutable(kinds, order[j - 1]) then (k, halt)
      else if w.run(k).Ran? then (k + 1, halt)
      else (k, Raise(w.run(k).error))
  }

  function TablesTo(w: World, order: seq<string>, kinds: map<string, string>, t: nat): (nat, Halt) {
    if t == 0 then (0, Proceed)
    else
      var (k, halt) := TablesTo(w, order, kinds, t - 1);
      if !halt.Proceed? then (k, halt) else NodesTo(w, t - 1, order, kinds, k, |order|)
  }

  /** What the handlers make of how the loop ended. */
  function Ended(r: Run, halt: Halt): Run {
    Save(match halt
         case Proceed => r.(now := r.now.(status := Completed))
         case Stop(why) => r.(now := r.now.(status := Cancelled, tasks := CancelAll(r.now.tasks)), cancelReason := why)
         case Raise(e) => r.(now := r.now.(status := Failed), error := e))
  }

  // ---- How far a run gets ----

  /** Once stopped, the loop over the nodes stays stopped. */
  lemma {:induction false} NodesStay(
      w: World, t: nat, order: seq<string>, kinds: map<string, string>, base: nat, j: nat, m: nat)
    requires j <= m <= |order| && !NodesTo(w, t, order, kinds, base, j).1.Proceed?
    ensures NodesTo(w, t, order, kinds, base, m) == NodesTo(w, t, order, kinds, base, j)
    decreases m
  {
    if j < m { NodesStay(w, t, order, kinds, base, j, m - 1); }
  }

  lemma {:induction false} TablesStay(w: World, order: seq<string>, kinds: map<string, string>, t: nat, m: nat)
    requires t <= m && !TablesTo(w, order, kinds, t).1.Proceed?
    ensures TablesTo(w, order, kinds, m) == TablesTo(w, order, kinds, t)
    decreases m
  {
    if t < m { TablesStay(w, order, kinds, t, m - 1); }
  }

  /** The loop over a table's nodes runs those that have tasks, all of them to the end up to where it stops. */
  lemma {:induction false} NodesReach(
      w: World, t: nat, order: seq<string>, kinds: map<string, string>, base: nat, j: nat)
    requires j <= |order| && AllRan(w, base)
    ensures var (k, halt) := NodesTo(w, t, order, kinds, base, j);
            var nodes := |Executable(kinds, order[..j])|;
            && base <= k <= base + nodes && AllRan(w, k)
            && (halt.Proceed? ==> k == base + nodes)
            && (halt.Raise? ==> k < base + nodes && !w.run(k).Ran?)
            && (halt.Proceed? <==> Uncancelled(w, t, j) && AllRan(w, base + nodes))
  {
    if j > 0 {
      NodesReach(w, t, order, kinds, base, j - 1);
      TakeStep(order, j - 1);
    }
  }

  /** The loop over the tables likewise: it comes to its end exactly when the run is smooth that far. */
  lemma {:induction false} TablesReach(
      w: World, order: seq<string>, kinds: map<string, string>, tables: seq<string>, t: nat)
    requires t <= |tables|
    ensures var (k, halt) := TablesTo(w, order, kinds, t);
            var reach := |Plan(tables[..t], Executable(kinds, order))|;
            && k <= reach && AllRan(w, k)
            && (halt.Proceed? ==> k == reach)
            && (halt.Raise? ==> k < reach && !w.run(k).Ran?)
            && (halt.Proceed? <==> Smooth(w, t, |order|, reach))
  {
    if t > 0 {
      var (k, halt) := TablesTo(w, order, kinds, t - 1);
      TablesReach(w, order, kinds, tables, t - 1);
      var nodes := Executable(kinds, order);
      var before := |Plan(tables[..t - 1], nodes)|;
      PlanStep(tables, nodes, t - 1);
      SmoothStep(w, t - 1, |order|, before, before + |nodes|);
      if halt.Proceed? {
        assert order[..|order|] == order;
        NodesReach(w, t - 1, order, kinds, k, |order|);
      }
    }
  }

  lemma PlanStep(tables: seq<string>, nodes: seq<Node>, t: nat)
    requires t < |tables|
    ensures |Plan(tables[..t + 1], nodes)| == |Plan(tables[..t], nodes)| + |nodes|
  {
    TakeStep(tables, t);
  }

  lemma SmoothStep(w: World, t: nat, nodes: nat, from: nat, to: nat)
    requires from <= to
    ensures Smooth(w, t + 1, nodes, to) <==> Smooth(w, t, nodes, from) && Uncancelled(w, t, nodes) && AllRan(w, to)
  {
  }

  // ---- What the states of a run are like ----

  /** Between two steps: the steps are the runner's and the tasks are what the steps settle. */
  ghost predicate IsBetween(r: Run, plan: seq<Task>, w: World, k: nat) {
    match r
    case Run(now, _, _, saved) =>
      && Settled(now, plan, k) && StepsFrom(now.steps, plan, w) && now.status == Running
      && saved != [] && saved[|saved| - 1] == now
  }

  ghost predicate SettlesAt(plan: seq<Task>, w: World, k: nat) {
    k <= |plan| && AllRan(w, k) ==> IsBetween(Between(plan, w, k), plan, w, k)
  }

  lemma StartSettles(plan: seq<Task>, w: World)
    ensures SettlesAt(plan, w, 0)
  {
  }

  lemma BetweenNext(plan: seq<Task>, w: World, k: nat)
    requires k < |plan| && AllRan(w, k + 1)
    ensures !w.run(k).Broke? && Between(plan, w, k + 1) == NextRun(Between(plan, w, k), plan, w, k)
  {
  }

  lemma NextIsBetween(b: Run, next: Run, plan: seq<Task>, w: World, k: nat)
    requires k < |plan| == |b.now.tasks| && !w.run(k).Broke? && IsBetween(b, plan, w, k)
    requires next == NextRun(b, plan, w, k)
    ensures IsBetween(next, plan, w, k + 1)
  {
    SettledNext(b, plan, w, k);
  }

  lemma NextSettles(plan: seq<Task>, w: World, k: nat)
    requires SettlesAt(plan, w, k)
    ensures SettlesAt(plan, w, k + 1)
  {
    if k < |plan| && AllRan(w, k + 1) {
      BetweenNext(plan, w, k);
      NextIsBetween(Between(plan, w, k), Between(plan, w, k + 1), plan, w, k);
    }
  }

  lemma BetweenIsSettled(plan: seq<Task>, w: World, k: nat)
    requires k <= |plan| && AllRan(w, k)
    ensures IsBetween(Between(plan, w, k), plan, w, k)
  {
    var P := (m: nat) => SettlesAt(plan, w, m);
    assert P(0) by { StartSettles(plan, w); }
    forall i: nat, m: nat | i < m <= k && m == i + 1 && P(i) ensures P(m) { NextSettles(plan, w, i); }
    Inductively(P, k);
  }

  lemma MarkedIsBusy(plan: seq<Task>, r: Run, k: nat)
    requires Settled(r.now, plan, k) && k < |plan|
    ensures Busy(Marked(r, Owner(plan, k)).now, plan, k)
  {
    assert r.now.steps[..k] == r.now.steps;
  }

  lemma RecordedIsBusy(plan: seq<Task>, r: Run, k: nat, step: Step)
    requires Busy(r.now, plan, k) && |r.now.steps| == k
    ensures Busy(Recorded(r, step).now, plan, k)
  {
    assert (r.now.steps + [step])[..k] == r.now.steps == r.now.steps[..k];
  }

  lemma SettledByIsSettled(plan: seq<Task>, r: Run, k: nat, step: Step)
    requires Busy(r.now, plan, k) && |r.now.steps| == k + 1 && r.now.steps[k] == step
    ensures Settled(SettledBy(r, Owner(plan, k), step).now, plan, k + 1)
  {
    var q, tasks := Owner(plan, k), TasksAfter(plan, r.now.steps[..k]);
    assert r.now.tasks[q := Settling(r.now.tasks[q], step)] == tasks[q := Settling(tasks[q], step)];
  }

  lemma StepsFromAppend(steps: seq<Step>, plan: seq<Task>, w: World)
    requires StepsFrom(steps, plan, w) && |steps| < |plan| && !w.run(|steps|).Broke?
    ensures StepsFrom(steps + [StepOf(w.run(|steps|), plan[|steps|])], plan, w)
  {
  }

  lemma SettledNext(b: Run, plan: seq<Task>, w: World, k: nat)
    requires k < |plan| == |b.now.tasks| && !w.run(k).Broke? && IsBetween(b, plan, w, k)
    ensures IsBetween(NextRun(b, plan, w, k), plan, w, k + 1)
  {
    var q, step := Owner(plan, k), StepOf(w.run(k), plan[k]);
    MarkedIsBusy(plan, b, k);
    RecordedIsBusy(plan, Marked(b, q), k, step);
    SettledByIsSettled(plan, Recorded(Marked(b, q), step), k, step);
    StepsFromAppend(b.now.steps, plan, w);
  }

  lemma WrittenSave(r: Run, plan: seq<Task>)
    requires Written(r.saved, r.now.steps, plan) && Coherent(r.now, plan)
    ensures Written(Save(r).saved, r.now.steps, plan)
  {
  }

  lemma WrittenMore(saved: seq<Snapshot>, steps: seq<Step>, step: Step, plan: seq<Task>)
    requires Written(saved, steps, plan)
    ensures Written(saved, steps + [step], plan)
  {
  }

  /** Between two steps everything written so far is coherent. */
  lemma {:induction false} BetweenIsWritten(plan: seq<Task>, w: World, k: nat)
    requires k <= |plan| && AllRan(w, k)
    ensures Written(Between(plan, w, k).saved, Between(plan, w, k).now.steps, plan)
  {
    BetweenIsSettled(plan, w, k);
    if k == 0 {
      assert Midway(Snapshot(Running, [], plan), plan, 0);
    } else {
      BetweenIsWritten(plan, w, k - 1);
      MarkedIsWritten(plan, w, k - 1);
      var b, q, step := Between(plan, w, k - 1), Owner(plan, k - 1), StepOf(w.run(k - 1), plan[k - 1]);
      WrittenMore(Marked(b, q).saved, b.now.steps, step, plan);
      var settled := SettledBy(Recorded(Marked(b, q), step), q, step);
      assert Midway(settled.now, plan, k);
      WrittenSave(settled, plan);
    }
  }

  lemma MarkedIsWritten(plan: seq<Task>, w: World, k: nat)
    requires k < |plan| && AllRan(w, k)
    requires Written(Between(plan, w, k).saved, Between(plan, w, k).now.steps, plan)
    ensures var marked := Marked(Between(plan, w, k), Owner(plan, k));
            && Written(marked.saved, marked.now.steps, plan) && Busy(marked.now, plan, k)
            && marked.now.status == Running && |marked.now.steps| == k && StepsFrom(marked.now.steps, plan, w)
  {
    var b := Between(plan, w, k);
    BetweenIsSettled(plan, w, k);
    MarkedIsBusy(plan, b, k);
    var marked := WithTasks(b, Begun(b.now.tasks, Owner(plan, k)));
    assert Midway(marked.now, plan, k);
    WrittenSave(marked, plan);
  }

  /** Within or between two steps, with everything written so far coherent. */
  ghost predicate IsMidway(r: Run, plan: seq<Task>, w: World) {
    match r
    case Run(now, _, _, saved) =>
      && (exists m: nat :: Midway(now, plan, m)) && StepsFrom(now.steps, plan, w)
      && Written(saved, now.steps, plan) && now.status == Running
  }

  /** Wherever a run stops, it is midway. */
  lemma ReachedIsMidway(plan: seq<Task>, w: World, k: nat, halt: Halt)
    requires CanReach(plan, w, k, halt)
    ensures IsMidway(Reached(plan, w, k, halt), plan, w)
    ensures !halt.Raise? ==> Settled(Reached(plan, w, k, halt).now, plan, k)
  {
    if halt.Raise? {
      BrokenIsMidway(plan, w, k);
    } else {
      BetweenIsSettled(plan, w, k);
      BetweenIsWritten(plan, w, k);
      assert Midway(Between(plan, w, k).now, plan, k);
    }
  }

  lemma BrokenIsMidway(plan: seq<Task>, w: World, k: nat)
    requires k < |plan| && AllRan(w, k) && !w.run(k).Ran?
    ensures IsMidway(Broken(plan, w, k), plan, w)
  {
    var marked := Marked(Between(plan, w, k), Owner(plan, k));
    BetweenIsWritten(plan, w, k);
    MarkedIsWritten(plan, w, k);
    if w.run(k).Broke? { assert Midway(marked.now, plan, k); } else { RecordedIsMidway(marked, plan, w, k); }
  }

  lemma RecordedIsMidway(marked: Run, plan: seq<Task>, w: World, k: nat)
    requires Busy(marked.now, plan, k) && marked.now.status == Running && |marked.now.steps| == k && !w.run(k).Broke?
    requires Written(marked.saved, marked.now.steps, plan) && StepsFrom(marked.now.steps, plan, w)
    ensures var recorded := Recorded(marked, StepOf(w.run(k), plan[k]));
            && IsMidway(recorded, plan, w)
            && IsMidway(SettledBy(recorded, Owner(plan, k), StepOf(w.run(k), plan[k])), plan, w)
  {
    var q, step := Owner(plan, k), StepOf(w.run(k), plan[k]);
    var recorded := Recorded(marked, step);
    RecordedIsBusy(plan, marked, k, step);
    WrittenMore(marked.saved, marked.now.steps, step, plan);
    StepsFromAppend(marked.now.steps, plan, w);
    SettledByIsSettled(plan, recorded, k, step);
    assert Midway(recorded.now, plan, k);
    assert Midway(SettledBy(recorded, q, step).now, plan, k + 1);
  }

  /** How a whole run ends. */
  ghost function RunOf(tables: seq<string>, order: seq<string>, kinds: map<string, string>, w: World): Run {
    var (k, halt) := TablesTo(w, order, kinds, |tables|);
    TablesReach(w, order, kinds, tables, |tables|);
    assert tables[..|tables|] == tables;
    Ended(Reached(Plan(tables, Executable(kinds, order)), w, k, halt), halt)
  }

  /** Every state a run writes is coherent, its last one is how it ends, its steps are the runner's, and it completes
      exactly when it is smooth. */
  lemma RunIsCoherent(tables: seq<string>, order: seq<string>, kinds: map<string, string>, w: World)
    ensures var (plan, r) := (Plan(tables, Executable(kinds, order)), RunOf(tables, order, kinds, w));
            && Written(r.saved, r.now.steps, plan) && r.saved != [] && r.saved[|r.saved| - 1] == r.now
            && StepsFrom(r.now.steps, plan, w)
            && (r.now.status == Completed <==> Smooth(w, |tables|, |order|, |plan|))
            && (r.now.status == Completed || r.now.status == Cancelled || r.now.status == Failed)
  {
    var plan := Plan(tables, Executable(kinds, order));
    var (k, halt) := TablesTo(w, order, kinds, |tables|);
    TablesReach(w, order, kinds, tables, |tables|);
    assert tables[..|tables|] == tables;
    EndedIsCoherent(plan, w, k, halt);
  }

  lemma EndedIsCoherent(plan: seq<Task>, w: World, k: nat, halt: Halt)
    requires CanReach(plan, w, k, halt) && (halt.Proceed? ==> k == |plan|)
    ensures var r := Ended(Reached(plan, w, k, halt), halt);
            && Written(r.saved, r.now.steps, plan) && r.saved != [] && r.saved[|r.saved| - 1] == r.now
            && StepsFrom(r.now.steps, plan, w)
            && (r.now.status == Completed <==> halt.Proceed?)
            && (r.now.status == Completed || r.now.status == Cancelled || r.now.status == Failed)
  {
    ReachedIsMidway(plan, w, k, halt);
    EndedIsWritten(Reached(plan, w, k, halt), plan, k, halt);
  }

  lemma EndedIsWritten(r: Run, plan: seq<Task>, k: nat, halt: Halt)
    requires (exists m: nat :: Midway(r.now, plan, m)) && Written(r.saved, r.now.steps, plan)
    requires !halt.Raise? ==> Settled(r.now, plan, k) && (halt.Proceed? ==> k == |plan|)
    ensures Written(Ended(r, halt).saved, r.now.steps, plan) && Ended(r, halt).now.steps == r.now.steps
  {
    var m: nat :| Midway(r.now, plan, m);
    assert halt.Raise? ==> Midway(r.now.(status := Failed), plan, m);
    assert halt.Stop? ==> Stopped(r.now.(status := Cancelled, tasks := CancelAll(r.now.tasks)), plan);
    var ended := Ended(r, halt);
    assert Coherent(ended.now, plan);
  }

  /** A completed run has settled all tasks exactly when no two of them share a table and a node. */
  lemma CompletedRunSettlesAllIff(tables: seq<string>, order: seq<string>, kinds: map<string, string>, w: World)
    requires RunOf(tables, order, kinds, w).now.status == Completed
    ensures var (plan, r) := (Plan(tables, Executable(kinds, order)), RunOf(tables, order, kinds, w));
            (forall q | 0 <= q < |r.now.tasks| :: r.now.tasks[q].status != Planned) <==> DistinctWork(plan)
  {
    var r := RunOf(tables, order, kinds, w);
    RunIsCoherent(tables, order, kinds, w);
    assert r.now in r.saved;
    PlanIsPlanned(tables, Executable(kinds, order));
    CompletedSettlesAllIff(r.now, Plan(tables, Executable(kinds, order)));
  }

  /** When the run order names each node once and some node is executable, exactly when no table is listed twice. */
  lemma SettlesAllIffTablesDistinct(tables: seq<string>, order: seq<string>, kinds: map<string, string>, w: World)
    requires RunOf(tables, order, kinds, w).now.status == Completed
    requires NoDup(order) && Executable(kinds, order) != []
    ensures var r := RunOf(tables, order, kinds, w);
            (forall q | 0 <= q < |r.now.tasks| :: r.now.tasks[q].status != Planned) <==> NoDup(tables)
  {
    CompletedRunSettlesAllIff(tables, order, kinds, w);
    ExecutableIds(kinds, order);
    PlanDistinctIff(tables, Executable(kinds, order));
  }

  // ---- The executor ----

  /** `reached` is `Reached`, named so that proofs about the loops need not look inside it. */
  ghost predicate IsReached(reached: (nat, Halt) -> Run, plan: seq<Task>, w: World) {
    forall k, halt {:trigger Reached(plan, w, k, halt)} | CanReach(plan, w, k, halt) ::
      reached(k, halt) == Reached(plan, w, k, halt)
  }

  lemma ReachedStep(reached: (nat, Halt) -> Run, plan: seq<Task>, w: World, k: nat)
    requires IsReached(reached, plan, w) && k < |plan| && AllRan(w, k)
    ensures reached(k, Proceed) == Between(plan, w, k)
    ensures w.run(k).Ran? ==> reached(k + 1, Proceed) == Between(plan, w, k + 1)
    ensures !w.run(k).Ran? ==> forall h: Halt | h.Raise? :: reached(k, h) == Broken(plan, w, k)
  {
    assert reached(k, Proceed) == Reached(plan, w, k, Proceed);
    if w.run(k).Ran? {
      assert reached(k + 1, Proceed) == Reached(plan, w, k + 1, Proceed);
    } else {
      forall h: Halt | h.Raise? ensures reached(k, h) == Broken(plan, w, k) {
        assert reached(k, h) == Reached(plan, w, k, h);
      }
    }
  }

  lemma ReachedStop(reached: (nat, Halt) -> Run, plan: seq<Task>, w: World, k: nat, halt: Halt)
    requires IsReached(reached, plan, w) && k <= |plan| && AllRan(w, k) && halt.Stop?
    ensures reached(k, halt) == reached(k, Proceed)
  {
    assert reached(k, halt) == Reached(plan, w, k, halt) == Reached(plan, w, k, Proceed) == reached(k, Proceed);
  }

  ghost function ReachedAs(plan: seq<Task>, w: World): (reached: (nat, Halt) -> Run)
    ensures IsReached(reached, plan, w)
  {
    (k: nat, halt: Halt) => if CanReach(plan, w, k, halt) then Reached(plan, w, k, halt) else Between(plan, w, 0)
  }

  class BatchRun {
    var status: RunStatus
    var steps: seq<Step>
    var tasks: seq<Task>
    var error: string
    var cancelReason: string
    /** Every state written to the store, oldest first. */
    var saved: seq<Snapshot>

    function Now(): Run reads this { Run(Snapshot(status, steps, tasks), error, cancelReason, saved) }

    constructor (plan: seq<Task>)
      ensures Now() == Run(Snapshot(Running, [], plan), "", "", [])
    {
      status, steps, tasks, error, cancelReason, saved := Running, [], plan, "", "", [];
    }

    method Write()
      modifies this`saved
      ensures Now() == Save(old(Now()))
    {
      saved := saved + [Snapshot(status, steps, tasks)];
    }

    /** One node: mark its task, run it, record the step, settle the task. */
    method RunStep(table: string, node: string, w: World,
                   ghost plan: seq<Task>, ghost k: nat, ghost reached: (nat, Halt) -> Run) returns (halt: Halt)
      requires IsReached(reached, plan, w)
      requires k < |plan| && IsFor(plan[k], table, node) && AllRan(w, k) && Now() == reached(k, Proceed)
      modifies this
      ensures halt == if w.run(k).Ran? then Proceed else Raise(w.run(k).error)
      ensures Now() == reached(if w.run(k).Ran? then k + 1 else k, halt)
    {
      ReachedStep(reached, plan, w, k);
      var found := FindTask(tasks, table, node);
      OwnTaskFound(Now(), plan, w, k, table, node, found);
      var i := found.value;
      tasks := tasks[i := tasks[i].(status := TaskRunning)];
      Write();
      ghost var marked := Now();
      assert marked == Marked(Between(plan, w, k), i);
      var outcome := w.run(|steps|);
      if outcome.Broke? { return Raise(outcome.error); }
      var step := Step(outcome.id, node, outcome.kind, table, outcome.status);
      steps := steps + [step];
      assert Now() == Recorded(marked, step);
      if outcome.Unrecorded? { return Raise(outcome.error); }
      tasks := tasks[i := tasks[i].(step := step.id, status := Settle(step.status))];
      assert Now() == SettledBy(Recorded(marked, step), i, step);
      if outcome.Unsaved? { return Raise(outcome.error); }
      Write();
      halt := Proceed;
    }

    /** All nodes of table `t`, in order; the tables before it have run `base` nodes. */
    method RunTable(t: nat, table: string, order: seq<string>, kinds: map<string, string>, w: World,
                    ghost plan: seq<Task>, ghost base: nat, ghost reached: (nat, Halt) -> Run)
      returns (halt: Halt, ghost k: nat)
      requires IsReached(reached, plan, w)
      requires RowAt(plan, base, table, Executable(kinds, order)) && AllRan(w, base) && Now() == reached(base, Proceed)
      modifies this
      ensures (k, halt) == NodesTo(w, t, order, kinds, base, |order|) && Now() == reached(k, halt)
    {
      k := base;
      if w.cancelled(t, None) {
        halt := Stop("run cancelled");
        ReachedStop(reached, plan, w, k, halt);
        NodesStay(w, t, order, kinds, base, 0, |order|);
        return;
      }
      for j := 0 to |order|
        invariant NodesTo(w, t, order, kinds, base, j) == (k, Proceed) && k == base + |Executable(kinds, order[..j])|
        invariant AllRan(w, k) && k <= |plan| && Now() == reached(k, Proceed)
      {
        ExecutableStep(kinds, order, j);
        var id := order[j];
        if w.cancelled(t, Some(j)) {
          halt := Stop("run cancelled");
          ReachedStop(reached, plan, w, k, halt);
          NodesStay(w, t, order, kinds, base, j + 1, |order|);
          return;
        }
        if id !in kinds || kinds[id] == "batch_loop" { continue; }
        RowNext(plan, base, table, kinds, order, j);
        halt := RunStep(table, id, w, plan, k, reached);
        if !halt.Proceed? {
          NodesStay(w, t, order, kinds, base, j + 1, |order|);
          return;
        }
        k := k + 1;
      }
      assert order[..|order|] == order;
      halt := Proceed;
    }

    /** The whole run: the loop over tables and what its handlers make of an exception. */
    method RunTables(tables: seq<string>, order: seq<string>, kinds: map<string, string>, w: World)
      requires Now() == Run(Snapshot(Running, [], Plan(tables, Executable(kinds, order))), "", "", [])
      modifies this
      ensures Now() == RunOf(tables, order, kinds, w)
    {
      ghost var plan := tasks;
      Write();
      ghost var reached := ReachedAs(plan, w);
      assert Now() == Reached(plan, w, 0, Proceed);
      var halt := AllTables(tables, order, kinds, w, plan, reached);
      TablesReach(w, order, kinds, tables, |tables|);
      assert tables[..|tables|] == tables;
      Finish(halt);
    }

    method AllTables(tables: seq<string>, order: seq<string>, kinds: map<string, string>, w: World,
                     ghost plan: seq<Task>, ghost reached: (nat, Halt) -> Run) returns (halt: Halt)
      requires IsReached(reached, plan, w) && plan == Plan(tables, Executable(kinds, order))
               && Now() == reached(0, Proceed)
      modifies this
      ensures var (k, h) := TablesTo(w, order, kinds, |tables|); halt == h && Now() == reached(k, halt)
    {
      ghost var nodes, k := Executable(kinds, order), 0;
      halt := Proceed;
      for t := 0 to |tables|
        invariant TablesTo(w, order, kinds, t) == (k, Proceed) && halt == Proceed && k == |Plan(tables[..t], nodes)|
        invariant AllRan(w, k) && k <= |plan| && Now() == reached(k, Proceed)
      {
        PlanStep(tables, nodes, t);
        RowInPlan(tables, nodes, t);
        NodesReach(w, t, order, kinds, k, |order|);
        assert order[..|order|] == order;
        halt, k := RunTable(t, tables[t], order, kinds, w, plan, k, reached);
        if !halt.Proceed? {
          TablesStay(w, order, kinds, t + 1, |tables|);
          return;
        }
      }
    }

    /** The end of the run: completed, or what the handlers make of an exception. */
    method Finish(halt: Halt)
      modifies this
      ensures Now() == Ended(old(Now()), halt)
    {
      match halt {
        case Proceed =>
          status := Completed;
        case Stop(reason) =>
          status, cancelReason := Cancelled, reason;
          tasks := CancelPendingTasks(tasks);
        case Raise(e) =>
          status, error := Failed, e;
      }
      Write();
    }
  }

  /** The tasks from `base` on are the table's row. */
  ghost predicate RowAt(plan: seq<Task>, base: nat, table: string, nodes: seq<Node>) {
    && base + |nodes| <= |plan|
    && forall j | 0 <= j < |nodes| :: IsFor(plan[base + j], table, nodes[j].id)
  }

  lemma RowInPlan(tables: seq<string>, nodes: seq<Node>, t: nat)
    requires t < |tables|
    ensures RowAt(Plan(tables, nodes), |Plan(tables[..t], nodes)|, tables[t], nodes)
  {
    PlanGrows(tables, nodes, t);
    forall j: nat | j < |nodes|
      ensures IsFor(Plan(tables, nodes)[|Plan(tables[..t], nodes)| + j], tables[t], nodes[j].id)
    {
      PlanAt(tables, nodes, t, j);
    }
  }

  lemma {:induction false} PlanGrows(tables: seq<string>, nodes: seq<Node>, t: nat)
    requires t < |tables|
    ensures |Plan(tables[..t], nodes)| + |nodes| <= |Plan(tables, nodes)|
  {
    var n := |tables| - 1;
    if t < n {
      PlanGrows(tables[..n], nodes, t);
      assert tables[..n][..t] == tables[..t];
    }
  }

  /** The next node that has a task is the next one of the table's row. */
  lemma RowNext(plan: seq<Task>, base: nat, table: string, kinds: map<string, string>, order: seq<string>, j: nat)
    requires RowAt(plan, base, table, Executable(kinds, order)) && j < |order| && IsExecutable(kinds, order[j])
    ensures var k := base + |Executable(kinds, order[..j])|; k < |plan| && IsFor(plan[k], table, order[j])
  {
    ExecutableAt(kinds, order, j);
  }

  lemma TasksKeepWork(plan: seq<Task>, steps: seq<Step>)
    requires |steps| <= |plan|
    ensures forall q | 0 <= q < |plan| :: SameWork(TasksAfter(plan, steps)[q], plan[q])
  {
    forall q: nat | q < |plan| ensures SameWork(TasksAfter(plan, steps)[q], plan[q]) {
      TasksAfterSteps(plan, steps, q);
    }
  }

  lemma OwnTaskIs(tasks: seq<Task>, plan: seq<Task>, k: nat, table: string, node: string, found: Option<nat>)
    requires k < |plan| && IsFor(plan[k], table, node)
    requires |tasks| == |plan| && forall q | 0 <= q < |plan| :: SameWork(tasks[q], plan[q])
    requires found.None? ==> forall i | 0 <= i < |tasks| :: !IsFor(tasks[i], table, node)
    requires found.Some? ==> found.value < |tasks| && IsFor(tasks[found.value], table, node)
    requires found.Some? ==> forall i | 0 <= i < found.value :: !IsFor(tasks[i], table, node)
    ensures found == Some(Owner(plan, k))
  {
    assert SameWork(tasks[k], plan[k]) && SameWork(tasks[Owner(plan, k)], plan[Owner(plan, k)]);
    if found.Some? { assert SameWork(tasks[found.value], plan[found.value]); }
  }

  /** Between two steps, the first match for the next node's table and node is the task that stands for it. */
  lemma OwnTaskFound(r: Run, plan: seq<Task>, w: World, k: nat, table: string, node: string, found: Option<nat>)
    requires k < |plan| && AllRan(w, k) && r == Between(plan, w, k) && IsFor(plan[k], table, node)
    requires found.None? ==> forall i | 0 <= i < |r.now.tasks| :: !IsFor(r.now.tasks[i], table, node)
    requires found.Some? ==> found.value < |r.now.tasks| && IsFor(r.now.tasks[found.value], table, node)
    requires found.Some? ==> forall i | 0 <= i < found.value :: !IsFor(r.now.tasks[i], table, node)
    ensures found == Some(Owner(plan, k)) && |r.now.steps| == k
  {
    BetweenIsSettled(plan, w, k);
    TasksKeepWork(plan, r.now.steps);
    OwnTaskIs(r.now.tasks, plan, k, table, node, found);
  }

  /** `_run_sequential`. */
  method RunSequential(ids: seq<string>, kinds: map<string, string>, edges: seq<Topo.Edge>, tables: seq<string>,
        w: World)
    returns (run: BatchRun, order: seq<string>)
    ensures Topo.IsRunOrder(ids, edges, order) && run.Now() == RunOf(tables, order, kinds, w)
  {
    order := Topo.Order(ids, edges);
    var plan := PlanTasks(kinds, order, tables);
    run := new BatchRun(plan);
    run.RunTables(tables, order, kinds, w);
  }
}
