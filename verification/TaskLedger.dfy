/** Step records, ledger tasks and the ledger operations of a batch run (redibis/agents/run_models.py,
    batch_executor.py). */
module TaskLedger {
  import opened Sequences

  datatype RunStatus = Running | AwaitingHitl | Completed | Cancelled | Failed
  datatype StepStatus = StepCompleted | StepSkipped | StepFailed
  datatype TaskStatus = Planned | TaskRunning | Done | TaskSkipped | TaskFailed | TaskCancelled

  datatype Node = Node(id: string, kind: string)
  datatype Step = Step(id: string, node: string, kind: string, table: string, status: StepStatus)
  datatype Task = Task(table: string, node: string, kind: string, status: TaskStatus, step: string)

  /** The task status a step's status turns into. */
  function Settle(status: StepStatus): TaskStatus {
    match status
    case StepCompleted => Done
    case StepSkipped => TaskSkipped
    case StepFailed => TaskFailed
  }

  /** A completed step makes its task done, a skipped one skipped, a failed one failed; done and skipped ones are
      finished. */
  lemma SettledAs(status: StepStatus, task: Task)
    ensures Settle(status) == Done <==> status == StepCompleted
    ensures Settle(status) == TaskSkipped <==> status == StepSkipped
    ensures Settle(status) == TaskFailed <==> status == StepFailed
    ensures Finished(task.(status := Settle(status))) <==> status != StepFailed
  {
  }

  ghost predicate SameWork(a: Task, b: Task) { a.table == b.table && a.node == b.node && a.kind == b.kind }

  /** `task` has become `after`, which carries the step's id and the status the step's turns into. */
  ghost predicate Carries(after: Task, task: Task, step: Step) {
    && SameWork(after, task) && after.step == step.id
    && (after.status == Done <==> step.status == StepCompleted)
    && (after.status == TaskSkipped <==> step.status == StepSkipped)
    && (after.status == TaskFailed <==> step.status == StepFailed)
  }

  // ---- Planning ----

  /** A node id the spec knows and that is no batch loop. */
  predicate IsExecutable(kinds: map<string, string>, id: string) { id in kinds && kinds[id] != "batch_loop" }

  /** The nodes of `order` that get tasks, in order. */
  function Executable(kinds: map<string, string>, order: seq<string>): seq<Node> {
    if order == [] then []
    else
      var id := order[|order| - 1];
      Executable(kinds, order[..|order| - 1]) + if IsExecutable(kinds, id) then [Node(id, kinds[id])] else []
  }

  function Row(table: string, nodes: seq<Node>): (r: seq<Task>)
    ensures |r| == |nodes| && forall i | 0 <= i < |r| :: r[i] == Task(table, nodes[i].id, nodes[i].kind, Planned, "")
  {
    seq(|nodes|, i requires 0 <= i < |nodes| => Task(table, nodes[i].id, nodes[i].kind, Planned, ""))
  }

  /** The planned ledger: one row of tasks for each table, in table order. */
  function Plan(tables: seq<string>, nodes: seq<Node>): seq<Task> {
    if tables == [] then [] else Plan(tables[..|tables| - 1], nodes) + Row(tables[|tables| - 1], nodes)
  }

  method PlanTasks(kinds: map<string, string>, order: seq<string>, tables: seq<string>) returns (tasks: seq<Task>)
    ensures tasks == Plan(tables, Executable(kinds, order))
  {
    tasks := [];
    for t := 0 to |tables|
      invariant tasks == Plan(tables[..t], Executable(kinds, order))
    {
      TakeStep(tables, t);
      ghost var before := tasks;
      for j := 0 to |order|
        invariant tasks == before + Row(tables[t], Executable(kinds, order[..j]))
      {
        TakeStep(order, j);
        var id := order[j];
        if id !in kinds || kinds[id] == "batch_loop" { continue; }
        var task := Task(tables[t], id, kinds[id], Planned, "");
        RowAppend(tables[t], Executable(kinds, order[..j]), Node(id, kinds[id]));
        tasks := tasks + [task];
      }
      assert order[..|order|] == order;
    }
    assert tables[..|tables|] == tables;
  }

  lemma RowAppend(table: string, nodes: seq<Node>, node: Node)
    ensures Row(table, nodes + [node]) == Row(table, nodes) + [Task(table, node.id, node.kind, Planned, "")]
  {
  }

  /** Task `j` of table `t` sits right after the rows of the tables before it. */
  lemma {:induction false} PlanAt(tables: seq<string>, nodes: seq<Node>, t: nat, j: nat)
    requires t < |tables| && j < |nodes|
    ensures |Plan(tables[..t], nodes)| + j < |Plan(tables, nodes)|
    ensures Plan(tables, nodes)[|Plan(tables[..t], nodes)| + j] == Row(tables[t], nodes)[j]
  {
    var front := tables[..|tables| - 1];
    if t < |front| {
      assert front[..t] == tables[..t];
      PlanAt(front, nodes, t, j);
    }
  }

  lemma {:induction false} PlanTables(tables: seq<string>, nodes: seq<Node>)
    ensures forall k | 0 <= k < |Plan(tables, nodes)| :: Plan(tables, nodes)[k].table in tables
  {
    if tables != [] { PlanTables(tables[..|tables| - 1], nodes); }
  }

  lemma {:induction false} PlanIsPlanned(tables: seq<string>, nodes: seq<Node>)
    ensures forall k | 0 <= k < |Plan(tables, nodes)| :: Plan(tables, nodes)[k].status == Planned
  {
    if tables != [] { PlanIsPlanned(tables[..|tables| - 1], nodes); }
  }

  lemma {:induction false} ExecutableIff(kinds: map<string, string>, order: seq<string>, node: Node)
    ensures node in Executable(kinds, order) <==>
            node.id in order && node.id in kinds && node.kind == kinds[node.id] && node.kind != "batch_loop"
  {
    if order != [] {
      var front, last := order[..|order| - 1], order[|order| - 1];
      ExecutableIff(kinds, front, node);
      assert order == front + [last];
    }
  }

  lemma {:induction false} PlanHas(tables: seq<string>, nodes: seq<Node>, task: Task)
    ensures task in Plan(tables, nodes) <==>
            && task.table in tables && Node(task.node, task.kind) in nodes
            && task.status == Planned && task.step == ""
  {
    if tables != [] {
      var front, last := tables[..|tables| - 1], tables[|tables| - 1];
      PlanHas(front, nodes, task);
      RowHas(last, nodes, task);
      assert tables == front + [last];
    }
  }

  lemma RowHas(table: string, nodes: seq<Node>, task: Task)
    ensures task in Row(table, nodes) <==>
            && task.table == table && Node(task.node, task.kind) in nodes
            && task.status == Planned && task.step == ""
  {
    var row := Row(table, nodes);
    if task in row {
      var k :| 0 <= k < |row| && row[k] == task;
      assert nodes[k] == Node(task.node, task.kind);
    }
    if Node(task.node, task.kind) in nodes {
      var k :| 0 <= k < |nodes| && nodes[k] == Node(task.node, task.kind);
      assert row[k] in row;
    }
  }

  /** Planned are exactly the listed tables' tasks for the ordered nodes the spec knows, but for batch loops. */
  lemma PlannedIff(tables: seq<string>, kinds: map<string, string>, order: seq<string>, task: Task)
    ensures task in Plan(tables, Executable(kinds, order)) <==>
            && task.table in tables && task.node in order
            && task.node in kinds && task.kind == kinds[task.node] && task.kind != "batch_loop"
            && task.status == Planned && task.step == ""
  {
    PlanHas(tables, Executable(kinds, order), task);
    ExecutableIff(kinds, order, Node(task.node, task.kind));
  }

  ghost predicate DistinctWork(tasks: seq<Task>) {
    forall i, k | 0 <= i < k < |tasks| :: tasks[i].table != tasks[k].table || tasks[i].node != tasks[k].node
  }

  ghost predicate DistinctIds(nodes: seq<Node>) { forall i, k | 0 <= i < k < |nodes| :: nodes[i].id != nodes[k].id }

  /** When some node is executable and ids are unique, tasks are told apart by table and node exactly when no table
      repeats. */
  lemma {:induction false} PlanDistinctIff(tables: seq<string>, nodes: seq<Node>)
    requires DistinctIds(nodes) && nodes != []
    ensures DistinctWork(Plan(tables, nodes)) <==> NoDup(tables)
  {
    if tables != [] {
      var front, last := tables[..|tables| - 1], tables[|tables| - 1];
      var plan, head := Plan(tables, nodes), Plan(front, nodes);
      PlanDistinctIff(front, nodes);
      PlanTables(front, nodes);
      if NoDup(tables) {
        forall i, k | 0 <= i < k < |plan| ensures plan[i].table != plan[k].table || plan[i].node != plan[k].node {
          if i < |head| <= k { assert head[i].table in front; }
        }
      }
      if DistinctWork(plan) {
        assert DistinctWork(head) by { assert forall k | 0 <= k < |head| :: plan[k] == head[k]; }
        if t :| 0 <= t < |front| && front[t] == last { RepeatedTableClashes(tables, nodes, t); }
      }
    }
  }

  lemma RepeatedTableClashes(tables: seq<string>, nodes: seq<Node>, t: nat)
    requires t < |tables| - 1 && tables[t] == tables[|tables| - 1] && nodes != []
    ensures !DistinctWork(Plan(tables, nodes))
  {
    var front := tables[..|tables| - 1];
    PlanAt(front, nodes, t, 0);
    var i, k := |Plan(front[..t], nodes)|, |Plan(front, nodes)|;
    var plan := Plan(tables, nodes);
    assert plan[i] == Row(front[t], nodes)[0] && plan[k] == Row(tables[|tables| - 1], nodes)[0];
  }

  lemma {:induction false} ExecutableIds(kinds: map<string, string>, order: seq<string>)
    requires NoDup(order)
    ensures DistinctIds(Executable(kinds, order))
    ensures forall n | n in Executable(kinds, order) :: n.id in order
  {
    if order != [] {
      var front, last := order[..|order| - 1], order[|order| - 1];
      ExecutableIds(kinds, front);
      var nodes := Executable(kinds, front);
      forall k | 0 <= k < |nodes| ensures nodes[k].id != last { assert nodes[k] in nodes; }
    }
  }

  /** Skipping the nodes without tasks keeps each node at its place among those with tasks. */
  lemma {:induction false} ExecutableAt(kinds: map<string, string>, order: seq<string>, j: nat)
    requires j < |order| && IsExecutable(kinds, order[j])
    ensures |Executable(kinds, order[..j])| < |Executable(kinds, order)|
    ensures Executable(kinds, order)[|Executable(kinds, order[..j])|] == Node(order[j], kinds[order[j]])
  {
    var n := |order| - 1;
    if j < n {
      ExecutableAt(kinds, order[..n], j);
      assert order[..n][..j] == order[..j];
    }
  }

  lemma ExecutableStep(kinds: map<string, string>, order: seq<string>, j: nat)
    requires j < |order|
    ensures |Executable(kinds, order[..j + 1])| ==
            |Executable(kinds, order[..j])| + if IsExecutable(kinds, order[j]) then 1 else 0
  {
    TakeStep(order, j);
  }

  // ---- Looking tasks up ----

  predicate IsFor(task: Task, table: string, node: string) { task.table == table && task.node == node }

  /** The first task for the table and node. */
  method FindTask(tasks: seq<Task>, table: string, node: string) returns (r: Option<nat>)
    ensures r.None? ==> forall i | 0 <= i < |tasks| :: !IsFor(tasks[i], table, node)
    ensures r.Some? ==> r.value < |tasks| && IsFor(tasks[r.value], table, node)
    ensures r.Some? ==> forall i | 0 <= i < r.value :: !IsFor(tasks[i], table, node)
  {
    for i := 0 to |tasks|
      invariant forall k | 0 <= k < i :: !IsFor(tasks[k], table, node)
    {
      if tasks[i].table == table && tasks[i].node == node { return Some(i); }
    }
    r := None;
  }

  predicate Finished(task: Task) { task.status == Done || task.status == TaskSkipped }

  /** The table has tasks and all of them are done or skipped. */
  predicate TasksDone(tasks: seq<Task>, table: string) {
    && (exists k :: 0 <= k < |tasks| && tasks[k].table == table)
    && (forall k | 0 <= k < |tasks| && tasks[k].table == table :: Finished(tasks[k]))
  }

  method TableTasksDone(tasks: seq<Task>, table: string) returns (r: bool)
    ensures r <==> TasksDone(tasks, table)
  {
    var found, all := false, true;
    for i := 0 to |tasks|
      invariant found <==> exists k :: 0 <= k < i && tasks[k].table == table
      invariant all <==> forall k | 0 <= k < i && tasks[k].table == table :: Finished(tasks[k])
    {
      if tasks[i].table == table {
        found, all := true, all && Finished(tasks[i]);
      }
    }
    r := found && all;
  }

  // ---- Cancelling ----

  function CancelTask(task: Task): Task {
    if task.status == Planned || task.status == TaskRunning then task.(status := TaskCancelled) else task
  }

  function CancelAll(tasks: seq<Task>): (r: seq<Task>)
    ensures |r| == |tasks| && forall i | 0 <= i < |r| :: r[i] == CancelTask(tasks[i])
  {
    seq(|tasks|, i requires 0 <= i < |tasks| => CancelTask(tasks[i]))
  }

  method CancelPendingTasks(tasks: seq<Task>) returns (r: seq<Task>)
    ensures r == CancelAll(tasks)
    ensures forall i | 0 <= i < |tasks| ::
              r[i] == if tasks[i].status in [Planned, TaskRunning] then tasks[i].(status := TaskCancelled) else tasks[i]
  {
    r := tasks;
    for i := 0 to |tasks|
      invariant |r| == |tasks|
      invariant forall k | 0 <= k < i :: r[k] == CancelTask(tasks[k])
      invariant forall k | i <= k < |r| :: r[k] == tasks[k]
    {
      if r[i].status == Planned || r[i].status == TaskRunning {
        r := r[i := r[i].(status := TaskCancelled)];
      }
    }
  }

  // ---- Syncing a table's tasks with the steps of its run ----

  /** The last step of each kind. */
  function LastOfKind(steps: seq<Step>, kind: string): Option<Step> {
    if steps == [] then None
    else if steps[|steps| - 1].kind == kind then Some(steps[|steps| - 1])
    else LastOfKind(steps[..|steps| - 1], kind)
  }

  function SyncTask(task: Task, table: string, steps: seq<Step>): Task {
    if task.table != table then task
    else
      match LastOfKind(steps, task.kind)
      case None => task
      case Some(s) => task.(step := s.id, status := Settle(s.status))
  }

  function SyncAll(tasks: seq<Task>, table: string, steps: seq<Step>): (r: seq<Task>)
    ensures |r| == |tasks| && forall i | 0 <= i < |r| :: r[i] == SyncTask(tasks[i], table, steps)
  {
    seq(|tasks|, i requires 0 <= i < |tasks| => SyncTask(tasks[i], table, steps))
  }

  lemma {:induction false} LastOfKindAt(steps: seq<Step>, kind: string, i: nat)
    requires i < |steps| && steps[i].kind == kind
    ensures exists k :: i <= k < |steps| && steps[k].kind == kind && LastOfKind(steps, kind) == Some(steps[k])
  {
    if steps[|steps| - 1].kind != kind {
      LastOfKindAt(steps[..|steps| - 1], kind, i);
      var k :| i <= k < |steps| - 1 && steps[k].kind == kind
        && LastOfKind(steps[..|steps| - 1], kind) == Some(steps[..|steps| - 1][k]);
      assert LastOfKind(steps, kind) == Some(steps[k]);
    }
  }

  /** One step for each node, in order, with its kind and an id of its own. */
  ghost predicate OneStepEach(nodes: seq<Node>, steps: seq<Step>) {
    && |steps| == |nodes|
    && (forall i | 0 <= i < |nodes| :: steps[i].node == nodes[i].id && steps[i].kind == nodes[i].kind)
    && (forall i, k | 0 <= i < k < |steps| :: steps[i].id != steps[k].id)
  }

  ghost predicate DistinctKinds(nodes: seq<Node>) {
    forall i, k | 0 <= i < k < |nodes| :: nodes[i].kind != nodes[k].kind
  }

  /** When every node ran once, syncing gives each task of the table its own node's step iff no two nodes are of one
      kind: nodes of one kind share the last one's step. */
  lemma OwnStepsIff(table: string, nodes: seq<Node>, steps: seq<Step>)
    requires OneStepEach(nodes, steps)
    ensures (forall q | 0 <= q < |nodes| :: SyncAll(Row(table, nodes), table, steps)[q].step == steps[q].id) <==>
            DistinctKinds(nodes)
  {
    forall q: nat | q < |nodes| && DistinctKinds(nodes)
      ensures SyncAll(Row(table, nodes), table, steps)[q].step == steps[q].id
    {
      LastOfKindAt(steps, nodes[q].kind, q);
    }
    forall i: nat, k: nat | i < k < |nodes| && nodes[i].kind == nodes[k].kind
      ensures SyncAll(Row(table, nodes), table, steps)[i].step != steps[i].id
    {
      LastOfKindAt(steps, nodes[k].kind, k);
    }
  }

  /** Step `k` is the last of the kind. */
  ghost predicate IsLast(steps: seq<Step>, kind: string, k: nat) {
    k < |steps| && steps[k].kind == kind && forall j | k < j < |steps| :: steps[j].kind != kind
  }

  lemma {:induction false} LastOfKindIs(steps: seq<Step>, kind: string)
    ensures LastOfKind(steps, kind).None? ==> forall k: nat :: !IsLast(steps, kind, k)
    ensures LastOfKind(steps, kind).Some? ==>
              exists k: nat :: IsLast(steps, kind, k) && LastOfKind(steps, kind) == Some(steps[k])
  {
    if steps != [] {
      var n := |steps| - 1;
      LastOfKindIs(steps[..n], kind);
      if steps[n].kind == kind {
        assert IsLast(steps, kind, n);
      } else if LastOfKind(steps[..n], kind).Some? {
        var k: nat :| IsLast(steps[..n], kind, k) && LastOfKind(steps[..n], kind) == Some(steps[..n][k]);
        assert IsLast(steps, kind, k);
      } else {
        forall k: nat ensures !IsLast(steps, kind, k) {
          if IsLast(steps, kind, k) { assert IsLast(steps[..n], kind, k); }
        }
      }
    }
  }

  /** What syncing does to one task: the table's tasks of a kind some step has take the last such step's id and
      status; nothing else about any task changes. */
  ghost predicate Synced(task: Task, after: Task, table: string, steps: seq<Step>) {
    && (forall k: nat | task.table == table && IsLast(steps, task.kind, k) :: Carries(after, task, steps[k]))
    && ((task.table != table || forall k: nat :: !IsLast(steps, task.kind, k)) ==> after == task)
  }

  lemma SyncIsSynced(task: Task, table: string, steps: seq<Step>)
    ensures Synced(task, SyncTask(task, table, steps), table, steps)
  {
    LastOfKindIs(steps, task.kind);
    assert forall k: nat, j: nat | IsLast(steps, task.kind, k) && IsLast(steps, task.kind, j) :: j == k;
  }

  method SyncLedgerForTable(tasks: seq<Task>, table: string, steps: seq<Step>) returns (r: seq<Task>)
    ensures r == SyncAll(tasks, table, steps)
    ensures forall i | 0 <= i < |tasks| :: Synced(tasks[i], r[i], table, steps)
  {
    forall task { SyncIsSynced(task, table, steps); }
    var byKind: map<string, Step> := map[];
    for k := 0 to |steps|
      invariant forall kind :: LastOfKind(steps[..k], kind) == if kind in byKind then Some(byKind[kind]) else None
    {
      TakeStep(steps, k);
      byKind := byKind[steps[k].kind := steps[k]];
    }
    assert steps[..|steps|] == steps;
    r := tasks;
    for i := 0 to |tasks|
      invariant |r| == |tasks|
      invariant forall k | 0 <= k < i :: r[k] == SyncTask(tasks[k], table, steps)
      invariant forall k | i <= k < |r| :: r[k] == tasks[k]
    {
      var task := tasks[i];
      if task.table != table || task.kind !in byKind { continue; }
      var step := byKind[task.kind];
      r := r[i := task.(step := step.id, status := Settle(step.status))];
    }
  }
}
