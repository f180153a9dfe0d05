/** Dependency ordering of a pipeline graph, with its fallback for cycles (redibis/agents/prompt_compiler.py). */
module TopologicalOrder {
  import opened Sequences

  datatype Edge = Edge(source: string, target: string)

  // ---- Graph vocabulary ----

  ghost predicate IsPath(edges: seq<Edge>, p: seq<string>) {
    && p != []
    && forall k :: 0 <= k < |p| - 1 ==> Edge(p[k], p[k + 1]) in edges
  }

  ghost predicate PathBetween(edges: seq<Edge>, p: seq<string>, u: string, v: string) {
    IsPath(edges, p) && p[0] == u && p[|p| - 1] == v
  }

  ghost predicate OnCycle(edges: seq<Edge>, c: string) {
    exists p :: PathBetween(edges, p, c, c) && |p| >= 2
  }

  ghost predicate Acyclic(edges: seq<Edge>) { forall c :: !OnCycle(edges, c) }

  ghost predicate Reaches(edges: seq<Edge>, u: string, v: string) {
    exists p :: PathBetween(edges, p, u, v)
  }

  /** Unique node ids, and edges only between known nodes; parallel edges and self-loops are allowed. */
  ghost predicate WellFormed(ids: seq<string>, edges: seq<Edge>) {
    && NoDup(ids)
    && forall e | e in edges :: e.source in ids && e.target in ids
  }

  /** Everything the indegree dictionary has a key for. */
  ghost function Keys(ids: seq<string>, edges: seq<Edge>): set<string> {
    (set x | x in ids) + (set e | e in edges :: e.target)
  }

  // ---- What Kahn's loop computes, declaratively ----

  ghost predicate PredecessorsFirst(edges: seq<Edge>, order: seq<string>) {
    forall i, e | 0 <= i < |order| && e in edges && e.target == order[i] :: e.source in order[..i]
  }

  /** `order` lists nodes after all their predecessors, and every node whose predecessors are all listed is listed. */
  ghost predicate IsKahnOrder(ids: seq<string>, edges: seq<Edge>, order: seq<string>) {
    && NoDup(order)
    && (forall x | x in order :: x in Keys(ids, edges))
    && PredecessorsFirst(edges, order)
    && (forall v | v in Keys(ids, edges) && v !in order :: exists e | e in edges :: e.target == v && e.source !in order)
  }

  function Missing(ids: seq<string>, order: seq<string>): (r: seq<string>)
    ensures forall x :: x in r <==> x in ids && x !in order
  {
    if ids == [] then []
    else Missing(ids[..|ids| - 1], order) + if ids[|ids| - 1] in order then [] else [ids[|ids| - 1]]
  }

  /** The listed nodes, then, when they are fewer than the node list, the nodes they miss. */
  function WithFallback(ids: seq<string>, kahn: seq<string>): seq<string> {
    kahn + if |kahn| == |ids| then [] else Missing(ids, kahn)
  }

  // ---- Pending in-edges ----

  /** Targets, with multiplicity, of the edges whose source is not done. */
  ghost function Pending(edges: seq<Edge>, done: set<string>): multiset<string> {
    if edges == [] then multiset{}
    else
      var e := edges[|edges| - 1];
      Pending(edges[..|edges| - 1], done) + Waits(e, done)
  }

  function Targets(edges: seq<Edge>, source: string): seq<string> {
    if edges == [] then []
    else
      var e := edges[|edges| - 1];
      Targets(edges[..|edges| - 1], source) + if e.source == source then [e.target] else []
  }

  /** What one edge contributes while its source is not done. */
  ghost function Waits(e: Edge, done: set<string>): multiset<string> {
    if e.source in done then multiset{} else multiset{e.target}
  }

  lemma WaitsWithout(e: Edge, done: set<string>, x: string)
    requires x !in done
    ensures Waits(e, done) == Waits(e, done + {x}) + multiset(if e.source == x then [e.target] else [])
  {
  }

  lemma {:induction false} PendingWithout(edges: seq<Edge>, done: set<string>, x: string)
    requires x !in done
    ensures Pending(edges, done) == Pending(edges, done + {x}) + multiset(Targets(edges, x))
  {
    if edges != [] {
      var front, e := edges[..|edges| - 1], edges[|edges| - 1];
      PendingWithout(front, done, x);
      WaitsWithout(e, done, x);
    }
  }

  lemma {:induction false} PendingZero(edges: seq<Edge>, done: set<string>, v: string)
    ensures Pending(edges, done)[v] == 0 <==> forall e | e in edges && e.target == v :: e.source in done
  {
    if edges != [] {
      var front, last := edges[..|edges| - 1], edges[|edges| - 1];
      PendingZero(front, done, v);
      assert forall e :: e in edges <==> e in front || e == last;
    }
  }

  ghost function SetOf(s: seq<string>): set<string> { set x | x in s }

  lemma SetOfAppend(s: seq<string>, x: string)
    ensures SetOf(s + [x]) == SetOf(s) + {x}
  {
  }

  // ---- First in, first out ----

  /** The keys of the indegree dictionary in the order in which they were first put there. */
  ghost function KeyOrder(ids: seq<string>, edges: seq<Edge>): seq<string> {
    if edges != [] then With(KeyOrder(ids, edges[..|edges| - 1]), edges[|edges| - 1].target)
    else if ids != [] then With(KeyOrder(ids[..|ids| - 1], []), ids[|ids| - 1])
    else []
  }

  function With(keys: seq<string>, key: string): seq<string> { if key in keys then keys else keys + [key] }

  /** The keys among the first `k` that no edge leads to. */
  ghost function Roots(keys: seq<string>, edges: seq<Edge>, k: nat): seq<string>
    requires k <= |keys|
  {
    if k == 0 then []
    else Roots(keys, edges, k - 1) + if Pending(edges, {})[keys[k - 1]] == 0 then [keys[k - 1]] else []
  }

  /** Of a node's first `k` targets those that wait for nothing once the nodes in `done` are: a target named several
      times counts where it is named last. */
  ghost function Freed(edges: seq<Edge>, done: set<string>, targets: seq<string>, k: nat): seq<string>
    requires k <= |targets|
  {
    if k == 0 then []
    else
      var t := targets[k - 1];
      Freed(edges, done, targets, k - 1) + if t in targets[k..] || Pending(edges, done)[t] > 0 then [] else [t]
  }

  /** What has entered the queue once the nodes of `order` have left it, oldest first. */
  ghost function Enqueued(ids: seq<string>, edges: seq<Edge>, order: seq<string>): seq<string> {
    if order == [] then var keys := KeyOrder(ids, edges); Roots(keys, edges, |keys|)
    else
      var targets := Targets(edges, order[|order| - 1]);
      Enqueued(ids, edges, order[..|order| - 1]) + Freed(edges, SetOf(order), targets, |targets|)
  }

  /** Nodes leave the queue in the order in which they entered it. */
  ghost predicate InQueueOrder(ids: seq<string>, edges: seq<Edge>, order: seq<string>) {
    forall i | 0 <= i < |order| ::
      i < |Enqueued(ids, edges, order[..i])| && order[i] == Enqueued(ids, edges, order[..i])[i]
  }

  /** A Kahn order that empties the queue first in, first out. */
  ghost predicate IsQueueOrder(ids: seq<string>, edges: seq<Edge>, kahn: seq<string>) {
    IsKahnOrder(ids, edges, kahn) && InQueueOrder(ids, edges, kahn) && kahn == Enqueued(ids, edges, kahn)
  }

  ghost predicate IsRunOrder(ids: seq<string>, edges: seq<Edge>, order: seq<string>) {
    exists kahn :: IsQueueOrder(ids, edges, kahn) && order == WithFallback(ids, kahn)
  }

  /** The queue leaves one order. */
  lemma {:induction false} QueueOrderPrefix(ids: seq<string>, edges: seq<Edge>, a: seq<string>, b: seq<string>, n: nat)
    requires InQueueOrder(ids, edges, a) && InQueueOrder(ids, edges, b) && n <= |a| && n <= |b|
    ensures a[..n] == b[..n]
  {
    if n > 0 {
      QueueOrderPrefix(ids, edges, a, b, n - 1);
      TakeStep(a, n - 1);
      TakeStep(b, n - 1);
    }
  }

  /** So a graph has one run order. */
  lemma RunOrderUnique(ids: seq<string>, edges: seq<Edge>, a: seq<string>, b: seq<string>)
    requires IsRunOrder(ids, edges, a) && IsRunOrder(ids, edges, b)
    ensures a == b
  {
    var x :| IsQueueOrder(ids, edges, x) && a == WithFallback(ids, x);
    var y :| IsQueueOrder(ids, edges, y) && b == WithFallback(ids, y);
    if |x| <= |y| { QueueOrderSame(ids, edges, x, y); } else { QueueOrderSame(ids, edges, y, x); }
  }

  lemma QueueOrderSame(ids: seq<string>, edges: seq<Edge>, a: seq<string>, b: seq<string>)
    requires IsQueueOrder(ids, edges, a) && IsQueueOrder(ids, edges, b) && |a| <= |b|
    ensures a == b
  {
    QueueOrderPrefix(ids, edges, a, b, |a|);
    assert a[..|a|] == a == b[..|a|];
  }

  // ---- The algorithm ----

  /** Every node starts with indegree zero; duplicate ids share one key. */
  method ZeroIndegrees(ids: seq<string>) returns (indegree: map<string, int>, keys: seq<string>)
    ensures keys == KeyOrder(ids, [])
    ensures NoDup(keys) && SetOf(keys) == indegree.Keys == SetOf(ids)
    ensures forall v | v in indegree :: indegree[v] == 0
  {
    indegree, keys := map[], [];
    for k := 0 to |ids|
      invariant keys == KeyOrder(ids[..k], [])
      invariant NoDup(keys) && SetOf(keys) == indegree.Keys == SetOf(ids[..k])
      invariant forall v | v in indegree :: indegree[v] == 0
    {
      TakeStep(ids, k);
      SetOfAppend(ids[..k], ids[k]);
      SetOfAppend(keys, ids[k]);
      assert ids[k] in SetOf(keys) <==> ids[k] in keys;
      if ids[k] !in indegree { assert ids[k] !in SetOf(keys); keys := keys + [ids[k]]; }
      indegree := indegree[ids[k] := 0];
    }
    assert ids[..|ids|] == ids;
  }

  ghost predicate IsAdjacency(adj: map<string, seq<string>>, edges: seq<Edge>) {
    forall x :: Targets(edges, x) == if x in adj then adj[x] else []
  }

  ghost predicate CountsPending(indegree: map<string, int>, edges: seq<Edge>, done: set<string>) {
    forall v ::
      && (v in indegree ==> indegree[v] == Pending(edges, done)[v])
      && (v !in indegree ==> Pending(edges, done)[v] == 0)
  }

  lemma AdjacencyStep(adj: map<string, seq<string>>, edges: seq<Edge>, e: Edge)
    requires IsAdjacency(adj, edges)
    ensures IsAdjacency(adj[e.source := (if e.source in adj then adj[e.source] else []) + [e.target]], edges + [e])
  {
    assert (edges + [e])[..|edges|] == edges;
    forall x ensures Targets(edges + [e], x) == Targets(edges, x) + if e.source == x then [e.target] else [] {}
  }

  lemma CountsStep(indegree: map<string, int>, edges: seq<Edge>, e: Edge)
    requires CountsPending(indegree, edges, {})
    ensures var count := (if e.target in indegree then indegree[e.target] else 0) + 1;
            CountsPending(indegree[e.target := count], edges + [e], {})
  {
    assert (edges + [e])[..|edges|] == edges;
    assert Pending(edges + [e], {}) == Pending(edges, {}) + multiset{e.target};
  }

  lemma KeysStep(ids: seq<string>, edges: seq<Edge>, e: Edge)
    ensures Keys(ids, edges + [e]) == Keys(ids, edges) + {e.target}
  {
    assert forall x :: x in edges + [e] <==> x in edges || x == e;
  }

  ghost predicate IsKeyOrder(keys: seq<string>, indegree: map<string, int>) {
    NoDup(keys) && SetOf(keys) == indegree.Keys
  }

  /** A dictionary keeps its key order when a key is overwritten, and a new key goes last. */
  lemma KeyOrderPut(keys: seq<string>, indegree: map<string, int>, key: string, n: int)
    requires IsKeyOrder(keys, indegree)
    ensures IsKeyOrder(if key in indegree then keys else keys + [key], indegree[key := n])
    ensures key in indegree <==> key in keys
  {
    SetOfAppend(keys, key);
    assert key in SetOf(keys) <==> key in keys;
    if key !in indegree { assert key !in SetOf(keys); }
  }

  /** One edge counts against its target. */
  method CountEdge(indegree0: map<string, int>, keys0: seq<string>, e: Edge, ghost ids: seq<string>,
        ghost edges: seq<Edge>)
    returns (indegree: map<string, int>, keys: seq<string>)
    requires CountsPending(indegree0, edges, {}) && IsKeyOrder(keys0, indegree0) && indegree0.Keys == Keys(ids, edges)
    ensures CountsPending(indegree, edges + [e], {}) && keys == With(keys0, e.target)
    ensures IsKeyOrder(keys, indegree) && indegree.Keys == Keys(ids, edges + [e])
  {
    var count := (if e.target in indegree0 then indegree0[e.target] else 0) + 1;
    KeyOrderPut(keys0, indegree0, e.target, count);
    CountsStep(indegree0, edges, e);
    KeysStep(ids, edges, e);
    keys := if e.target in indegree0 then keys0 else keys0 + [e.target];
    indegree := indegree0[e.target := count];
  }

  lemma KeyOrderStep(ids: seq<string>, edges: seq<Edge>, k: nat)
    requires k < |edges|
    ensures KeyOrder(ids, edges[..k + 1]) == With(KeyOrder(ids, edges[..k]), edges[k].target)
  {
    TakeStep(edges, k);
  }

  /** The adjacency lists and indegrees, with the indegree dictionary's key order. */
  method BuildTables(ids: seq<string>, edges: seq<Edge>)
    returns (adj: map<string, seq<string>>, indegree: map<string, int>, keys: seq<string>)
    ensures IsAdjacency(adj, edges) && CountsPending(indegree, edges, {})
    ensures IsKeyOrder(keys, indegree) && indegree.Keys == Keys(ids, edges) && keys == KeyOrder(ids, edges)
  {
    adj := map[];
    indegree, keys := ZeroIndegrees(ids);
    assert edges[..0] == [];
    assert IsAdjacency(adj, []) && CountsPending(indegree, [], {});
    for k := 0 to |edges|
      invariant IsAdjacency(adj, edges[..k]) && CountsPending(indegree, edges[..k], {})
      invariant IsKeyOrder(keys, indegree) && indegree.Keys == Keys(ids, edges[..k])
      invariant keys == KeyOrder(ids, edges[..k])
    {
      TakeStep(edges, k);
      KeyOrderStep(ids, edges, k);
      var e := edges[k];
      AdjacencyStep(adj, edges[..k], e);
      adj := adj[e.source := (if e.source in adj then adj[e.source] else []) + [e.target]];
      indegree, keys := CountEdge(indegree, keys, e, ids, edges[..k]);
    }
    assert edges[..|edges|] == edges;
  }

  /** The zero-indegree nodes in key order. */
  method Sources(indegree: map<string, int>, keys: seq<string>, ghost edges: seq<Edge>) returns (queue: seq<string>)
    requires IsKeyOrder(keys, indegree) && CountsPending(indegree, edges, {})
    ensures queue == Roots(keys, edges, |keys|)
  {
    queue := [];
    for k := 0 to |keys|
      invariant queue == Roots(keys, edges, k)
    {
      assert keys[k] in SetOf(keys);
      if indegree[keys[k]] == 0 { queue := queue + [keys[k]]; }
    }
  }

  lemma {:induction false} RootsHold(keys: seq<string>, edges: seq<Edge>, k: nat)
    requires NoDup(keys) && k <= |keys|
    ensures NoDup(Roots(keys, edges, k))
    ensures forall v :: v in Roots(keys, edges, k) <==> v in keys[..k] && Pending(edges, {})[v] == 0
  {
    if k > 0 {
      RootsHold(keys, edges, k - 1);
      TakeStep(keys, k - 1);
    }
  }

  lemma RootsAreQueue(keys: seq<string>, indegree: map<string, int>, edges: seq<Edge>)
    requires IsKeyOrder(keys, indegree) && CountsPending(indegree, edges, {})
    ensures IsQueue(Roots(keys, edges, |keys|), indegree, {})
  {
    RootsHold(keys, edges, |keys|);
    assert keys[..|keys|] == keys;
    forall v ensures v in keys <==> v in indegree { assert v in SetOf(keys) <==> v in keys; }
  }

  /** The queue holds, once each, the nodes not yet taken that wait for nothing. */
  ghost predicate IsQueue(queue: seq<string>, indegree: map<string, int>, gone: set<string>) {
    && NoDup(queue)
    && forall v :: v in queue <==> v in indegree && v !in gone && indegree[v] == 0
  }

  lemma Requeue(queue: seq<string>, indegree: map<string, int>, gone: set<string>, next: string)
    requires IsQueue(queue, indegree, gone) && next in indegree && next !in gone && indegree[next] > 0
    ensures IsQueue(if indegree[next] == 1 then queue + [next] else queue, indegree[next := indegree[next] - 1], gone)
  {
  }

  lemma OccurrenceLeft(targets: seq<string>, k: nat)
    requires k < |targets|
    ensures multiset(targets[..k + 1]) == multiset(targets[..k]) + multiset{targets[k]}
    ensures multiset(targets[..k])[targets[k]] < multiset(targets)[targets[k]]
  {
    TakeStep(targets, k);
    assert targets == targets[..k + 1] + targets[k + 1..];
  }

  lemma LaterOccurrences(targets: seq<string>, k: nat, t: string)
    requires k <= |targets|
    ensures multiset(targets)[t] == multiset(targets[..k])[t] + multiset(targets[k..])[t]
    ensures t in targets[k..] <==> multiset(targets[k..])[t] > 0
  {
    assert targets == targets[..k] + targets[k..];
    assert t in targets[k..] <==> t in multiset(targets[k..]);
  }

  /** Counting a target down reaches zero exactly where it is freed. */
  lemma CountLeft(edges: seq<Edge>, gone: set<string>, targets: seq<string>, k: nat, count: int)
    requires k < |targets|
    requires count + multiset(targets[..k])[targets[k]] ==
             Pending(edges, gone)[targets[k]] + multiset(targets)[targets[k]]
    ensures count == 1 <==> targets[k] !in targets[k + 1..] && Pending(edges, gone)[targets[k]] == 0
    ensures Freed(edges, gone, targets, k + 1) ==
            Freed(edges, gone, targets, k) + if count == 1 then [targets[k]] else []
  {
    OccurrenceLeft(targets, k);
    LaterOccurrences(targets, k + 1, targets[k]);
  }

  /** The first `k` targets are counted down. */
  ghost predicate CountedDown(indegree: map<string, int>, indegree0: map<string, int>, targets: seq<string>, k: nat)
    requires k <= |targets|
  {
    && indegree.Keys == indegree0.Keys
    && forall v | v in indegree :: indegree[v] == indegree0[v] - multiset(targets[..k])[v]
  }

  lemma CountDown(indegree: map<string, int>, indegree0: map<string, int>, targets: seq<string>, k: nat)
    requires k < |targets| && CountedDown(indegree, indegree0, targets, k) && targets[k] in indegree
    ensures CountedDown(indegree[targets[k] := indegree[targets[k]] - 1], indegree0, targets, k + 1)
  {
    OccurrenceLeft(targets, k);
  }

  lemma StillCounted(indegree: map<string, int>, indegree0: map<string, int>, targets: seq<string>, k: nat)
    requires k < |targets| && CountedDown(indegree, indegree0, targets, k) && targets[k] in indegree
    requires multiset(targets)[targets[k]] <= indegree0[targets[k]]
    ensures indegree[targets[k]] > 0
  {
    OccurrenceLeft(targets, k);
  }

  lemma QueueCounted(edges: seq<Edge>, gone: set<string>, targets: seq<string>, k: nat, count: int,
                     queue: seq<string>, queue0: seq<string>)
    requires k < |targets| && queue == queue0 + Freed(edges, gone, targets, k)
    requires count + multiset(targets[..k])[targets[k]] ==
             Pending(edges, gone)[targets[k]] + multiset(targets)[targets[k]]
    ensures (if count == 1 then queue + [targets[k]] else queue) == queue0 + Freed(edges, gone, targets, k + 1)
  {
    CountLeft(edges, gone, targets, k, count);
    assert queue0 + Freed(edges, gone, targets, k) + [targets[k]] ==
           queue0 + (Freed(edges, gone, targets, k) + [targets[k]]);
    assert queue0 + Freed(edges, gone, targets, k) + [] == queue0 + (Freed(edges, gone, targets, k) + []);
  }

  /** Remove one node's out-edges, queueing every target that has none pending any more. */
  method Release(targets: seq<string>, indegree0: map<string, int>, queue0: seq<string>,
                 ghost gone: set<string>, ghost edges: seq<Edge>)
    returns (indegree: map<string, int>, queue: seq<string>)
    requires forall t | t in targets :: t in indegree0 && t !in gone
    requires forall v | v in indegree0 :: indegree0[v] == Pending(edges, gone)[v] + multiset(targets)[v]
    requires IsQueue(queue0, indegree0, gone)
    ensures indegree.Keys == indegree0.Keys
    ensures forall v | v in indegree :: indegree[v] == indegree0[v] - multiset(targets)[v]
    ensures IsQueue(queue, indegree, gone) && queue == queue0 + Freed(edges, gone, targets, |targets|)
  {
    indegree, queue := indegree0, queue0;
    assert queue0 + [] == queue0;
    for k := 0 to |targets|
      invariant CountedDown(indegree, indegree0, targets, k) && IsQueue(queue, indegree, gone)
      invariant queue == queue0 + Freed(edges, gone, targets, k)
    {
      var next := targets[k];
      assert next in targets;
      StillCounted(indegree, indegree0, targets, k);
      CountDown(indegree, indegree0, targets, k);
      Requeue(queue, indegree, gone, next);
      QueueCounted(edges, gone, targets, k, indegree[next], queue, queue0);
      indegree := indegree[next := indegree[next] - 1];
      if indegree[next] == 0 { queue := queue + [next]; }
    }
    assert targets[..|targets|] == targets;
  }

  /** The variables of Kahn's loop. */
  datatype Progress = Progress(order: seq<string>, indegree: map<string, int>, queue: seq<string>)

  /** Counts, queue, and a predecessor-closed order that the queue was emptied into first in, first out. */
  ghost predicate InProgress(ids: seq<string>, edges: seq<Edge>, p: Progress) {
    match p
    case Progress(order, indegree, queue) =>
      && indegree.Keys == Keys(ids, edges)
      && CountsPending(indegree, edges, SetOf(order))
      && IsQueue(queue, indegree, SetOf(order))
      && NoDup(order)
      && (forall x | x in order :: x in indegree)
      && PredecessorsFirst(edges, order)
      && InQueueOrder(ids, edges, order) && order + queue == Enqueued(ids, edges, order)
  }

  lemma Started(ids: seq<string>, edges: seq<Edge>, indegree: map<string, int>, queue: seq<string>)
    requires indegree.Keys == Keys(ids, edges) && CountsPending(indegree, edges, {}) && IsQueue(queue, indegree, {})
    requires queue == Enqueued(ids, edges, [])
    ensures InProgress(ids, edges, Progress([], indegree, queue))
  {
    assert SetOf([]) == {};
  }

  /** Listed nodes wait for nothing, so they are nobody's pending target. */
  lemma ListedAreReady(ids: seq<string>, edges: seq<Edge>, order: seq<string>, indegree: map<string, int>,
        queue: seq<string>)
    requires InProgress(ids, edges, Progress(order, indegree, queue))
    ensures forall v | v in SetOf(order) :: v in indegree && indegree[v] == 0
  {
    forall v | v in SetOf(order) ensures v in indegree && indegree[v] == 0 {
      var i :| 0 <= i < |order| && order[i] == v;
      forall e | e in edges && e.target == v ensures e.source in SetOf(order) { assert e.source in order[..i]; }
      PendingZero(edges, SetOf(order), v);
    }
  }

  lemma PopQueue(queue: seq<string>, indegree: map<string, int>, gone: set<string>)
    requires IsQueue(queue, indegree, gone) && queue != []
    ensures IsQueue(queue[1..], indegree, gone + {queue[0]})
    ensures queue[0] in indegree && queue[0] !in gone && indegree[queue[0]] == 0
  {
    assert queue[0] in queue;
    assert forall v :: v in queue <==> v == queue[0] || v in queue[1..];
  }

  /** Take the front of the queue into the order and release its targets. */
  method TakeNext(ids: seq<string>, edges: seq<Edge>, adj: map<string, seq<string>>,
                  order0: seq<string>, indegree0: map<string, int>, queue0: seq<string>)
    returns (order: seq<string>, indegree: map<string, int>, queue: seq<string>)
    requires IsAdjacency(adj, edges) && InProgress(ids, edges, Progress(order0, indegree0, queue0)) && queue0 != []
    ensures order == order0 + [queue0[0]] && queue0[0] in Keys(ids, edges) && queue0[0] !in order0
    ensures InProgress(ids, edges, Progress(order, indegree, queue))
  {
    var nid := queue0[0];
    ghost var done := SetOf(order0);
    PopQueue(queue0, indegree0, done);
    ListedAreReady(ids, edges, order0, indegree0, queue0);
    var targets := if nid in adj then adj[nid] else [];
    ReleaseReady(ids, edges, done, nid, indegree0, targets);
    PendingWithout(edges, done, nid);
    indegree, queue := Release(targets, indegree0, queue0[1..], done + {nid}, edges);
    order := order0 + [nid];
    NextInProgress(ids, edges, order0, indegree0, queue0, indegree, queue);
  }

  lemma NextInProgress(
      ids: seq<string>, edges: seq<Edge>, order: seq<string>, indegree: map<string, int>, queue: seq<string>,
      indegree': map<string, int>, queue': seq<string>)
    requires InProgress(ids, edges, Progress(order, indegree, queue)) && queue != [] && indegree'.Keys == indegree.Keys
    requires forall v | v in indegree' :: indegree'[v] == indegree[v] - multiset(Targets(edges, queue[0]))[v]
    requires IsQueue(queue', indegree', SetOf(order) + {queue[0]})
    requires queue' ==
             queue[1..] + Freed(edges, SetOf(order) + {queue[0]}, Targets(edges, queue[0]), |Targets(edges, queue[0])|)
    ensures InProgress(ids, edges, Progress(order + [queue[0]], indegree', queue'))
  {
    var nid := queue[0];
    PopQueue(queue, indegree, SetOf(order));
    SetOfAppend(order, nid);
    CountsAfter(edges, SetOf(order), nid, indegree, indegree');
    PredecessorsExtend(edges, order, nid);
    QueueExtend(ids, edges, order, queue, queue');
  }

  lemma EnqueuedAppend(ids: seq<string>, edges: seq<Edge>, order: seq<string>, x: string)
    ensures Enqueued(ids, edges, order + [x]) ==
            Enqueued(ids, edges, order) + Freed(edges, SetOf(order) + {x}, Targets(edges, x), |Targets(edges, x)|)
  {
    assert (order + [x])[..|order|] == order;
    SetOfAppend(order, x);
  }

  lemma InQueueOrderAppend(ids: seq<string>, edges: seq<Edge>, order: seq<string>, x: string)
    requires InQueueOrder(ids, edges, order)
    requires |order| < |Enqueued(ids, edges, order)| && x == Enqueued(ids, edges, order)[|order|]
    ensures InQueueOrder(ids, edges, order + [x])
  {
    var longer := order + [x];
    forall i | 0 <= i < |longer|
      ensures i < |Enqueued(ids, edges, longer[..i])| && longer[i] == Enqueued(ids, edges, longer[..i])[i]
    {
      assert longer[..i] == order[..i];
      if i == |order| { assert order[..i] == order; }
    }
  }

  /** The front of the queue goes to the end of the order, and what it frees to the end of the queue. */
  lemma QueueExtend(ids: seq<string>, edges: seq<Edge>, order: seq<string>, queue: seq<string>, after: seq<string>)
    requires queue != [] && InQueueOrder(ids, edges, order) && order + queue == Enqueued(ids, edges, order)
    requires after == queue[1..] +
             Freed(edges, SetOf(order) + {queue[0]}, Targets(edges, queue[0]), |Targets(edges, queue[0])|)
    ensures InQueueOrder(ids, edges, order + [queue[0]])
    ensures order + [queue[0]] + after == Enqueued(ids, edges, order + [queue[0]])
  {
    var freed := Freed(edges, SetOf(order) + {queue[0]}, Targets(edges, queue[0]), |Targets(edges, queue[0])|);
    assert (order + queue)[|order|] == queue[0];
    InQueueOrderAppend(ids, edges, order, queue[0]);
    EnqueuedAppend(ids, edges, order, queue[0]);
    FrontMoves(order, queue, freed);
  }

  lemma FrontMoves(order: seq<string>, queue: seq<string>, freed: seq<string>)
    requires queue != []
    ensures order + [queue[0]] + (queue[1..] + freed) == order + queue + freed
  {
  }

  lemma CountsAfter(edges: seq<Edge>, done: set<string>, nid: string, before: map<string, int>, after: map<string, int>)
    requires CountsPending(before, edges, done) && nid !in done && after.Keys == before.Keys
    requires forall v | v in after :: after[v] == before[v] - multiset(Targets(edges, nid))[v]
    ensures CountsPending(after, edges, done + {nid})
  {
    PendingWithout(edges, done, nid);
  }

  lemma PredecessorsExtend(edges: seq<Edge>, order: seq<string>, nid: string)
    requires PredecessorsFirst(edges, order) && Pending(edges, SetOf(order))[nid] == 0
    ensures PredecessorsFirst(edges, order + [nid])
  {
    PendingZero(edges, SetOf(order), nid);
    var longer := order + [nid];
    forall i, e | 0 <= i < |longer| && e in edges && e.target == longer[i] ensures e.source in longer[..i] {
      if i < |order| {
        assert longer[..i] == order[..i];
      } else {
        assert longer[..i] == order;
        assert e.source in SetOf(order);
      }
    }
  }

  /** `topological_order`: the queue-driven loop builds a Kahn order; the fallback completes it. */
  method Order(ids: seq<string>, edges: seq<Edge>) returns (order: seq<string>)
    ensures IsRunOrder(ids, edges, order)
  {
    var adj, indegree, keys := BuildTables(ids, edges);
    var queue := Sources(indegree, keys, edges);
    RootsAreQueue(keys, indegree, edges);
    order := [];
    Started(ids, edges, indegree, queue);
    while queue != []
      invariant InProgress(ids, edges, Progress(order, indegree, queue))
      decreases Keys(ids, edges) - SetOf(order)
    {
      SetOfAppend(order, queue[0]);
      order, indegree, queue := TakeNext(ids, edges, adj, order, indegree, queue);
    }
    ghost var kahn := order;
    QueueEmpty(ids, edges, order, indegree, queue);
    if |order| != |ids| {
      var remaining := CollectMissing(ids, order);
      order := order + remaining;
    }
    assert IsQueueOrder(ids, edges, kahn) && order == WithFallback(ids, kahn);
  }

  method CollectMissing(ids: seq<string>, order: seq<string>) returns (remaining: seq<string>)
    ensures remaining == Missing(ids, order)
  {
    remaining := [];
    for k := 0 to |ids|
      invariant remaining == Missing(ids[..k], order)
    {
      TakeStep(ids, k);
      if ids[k] !in order { remaining := remaining + [ids[k]]; }
    }
    assert ids[..|ids|] == ids;
  }

  lemma ReleaseReady(ids: seq<string>, edges: seq<Edge>, done: set<string>, nid: string, indegree: map<string, int>,
                     targets: seq<string>)
    requires indegree.Keys == Keys(ids, edges) && nid in indegree && nid !in done && targets == Targets(edges, nid)
    requires CountsPending(indegree, edges, done)
    requires forall v | v in done + {nid} :: v in indegree && indegree[v] == 0
    ensures forall t | t in targets :: t in indegree && t !in done + {nid}
    ensures forall v | v in indegree :: multiset(targets)[v] <= indegree[v]
  {
    PendingWithout(edges, done, nid);
    forall t | t in targets ensures t in indegree && t !in done + {nid} {
      assert multiset(targets)[t] > 0;
      PendingZero(edges, done, t);
      assert Pending(edges, done)[t] > 0;
      var e :| e in edges && e.target == t;
    }
  }

  lemma QueueEmpty(ids: seq<string>, edges: seq<Edge>, order: seq<string>, indegree: map<string, int>,
        queue: seq<string>)
    requires InProgress(ids, edges, Progress(order, indegree, queue)) && queue == []
    ensures IsQueueOrder(ids, edges, order)
  {
    assert order + [] == order;
    forall v | v in Keys(ids, edges) && v !in order
      ensures exists e | e in edges :: e.target == v && e.source !in order
    {
      PendingZero(edges, SetOf(order), v);
      assert v !in queue && indegree[v] != 0;
    }
  }

  // ---- What the order means ----

  lemma IndexUnique(s: seq<string>, i: nat)
    requires NoDup(s) && i < |s|
    ensures IndexOf(s, s[i]) == i
  {
  }

  lemma EdgeRises(edges: seq<Edge>, order: seq<string>, u: string, v: string)
    requires NoDup(order) && PredecessorsFirst(edges, order) && Edge(u, v) in edges && v in order
    ensures u in order && IndexOf(order, u) < IndexOf(order, v)
  {
    var i := IndexOf(order, v);
    assert u in order[..i];
    var j :| 0 <= j < i && order[j] == u;
    IndexUnique(order, j);
  }

  /** Along a path into a listed node every node is listed, at ever larger positions. */
  lemma {:induction false} PathRises(edges: seq<Edge>, order: seq<string>, p: seq<string>)
    requires NoDup(order) && PredecessorsFirst(edges, order) && IsPath(edges, p) && p[|p| - 1] in order
    ensures p[0] in order && IndexOf(order, p[0]) + |p| - 1 <= IndexOf(order, p[|p| - 1])
  {
    if |p| > 1 {
      var tail := p[1..];
      assert forall k :: 0 <= k < |tail| - 1 ==> Edge(tail[k], tail[k + 1]) in edges by {
        forall k | 0 <= k < |tail| - 1 ensures Edge(tail[k], tail[k + 1]) in edges {
          assert Edge(p[k + 1], p[k + 2]) in edges;
        }
      }
      PathRises(edges, order, tail);
      assert Edge(p[0], p[1]) in edges;
      EdgeRises(edges, order, p[0], p[1]);
    }
  }

  /** A node Kahn's loop can never take: it lies on a cycle, or only an edge mentions it as a source. */
  ghost predicate Blocker(ids: seq<string>, edges: seq<Edge>, u: string) {
    OnCycle(edges, u) || u !in Keys(ids, edges)
  }

  ghost predicate Blocked(ids: seq<string>, edges: seq<Edge>, v: string) {
    exists u :: Blocker(ids, edges, u) && Reaches(edges, u, v)
  }

  lemma ListedNotBlocked(ids: seq<string>, edges: seq<Edge>, order: seq<string>, v: string)
    requires IsKahnOrder(ids, edges, order) && v in order
    ensures !Blocked(ids, edges, v)
  {
    forall u, p | Blocker(ids, edges, u) && PathBetween(edges, p, u, v) ensures false {
      PathRises(edges, order, p);
      assert u in order;
      if OnCycle(edges, u) {
        var c :| PathBetween(edges, c, u, u) && |c| >= 2;
        PathRises(edges, order, c);
      }
    }
  }

  lemma PathExtendsBack(edges: seq<Edge>, p: seq<string>, u: string)
    requires IsPath(edges, p) && Edge(u, p[0]) in edges
    ensures IsPath(edges, [u] + p)
  {
    var q := [u] + p;
    forall k | 0 <= k < |q| - 1 ensures Edge(q[k], q[k + 1]) in edges {
      if k > 0 { assert q[k] == p[k - 1] && q[k + 1] == p[k]; }
    }
  }

  /** Walk backwards through unlisted nodes, `n` steps or until a node without a key. */
  lemma {:induction false} WalkBack(ids: seq<string>, edges: seq<Edge>, order: seq<string>, v: string, n: nat)
      returns (p: seq<string>)
    requires IsKahnOrder(ids, edges, order) && v !in order
    ensures IsPath(edges, p) && p[|p| - 1] == v && forall x | x in p :: x !in order
    ensures p[0] !in Keys(ids, edges) || (|p| == n + 1 && forall x | x in p :: x in Keys(ids, edges))
  {
    if n == 0 || v !in Keys(ids, edges) {
      p := [v];
    } else {
      var q := WalkBack(ids, edges, order, v, n - 1);
      if q[0] !in Keys(ids, edges) {
        p := q;
      } else {
        var e :| e in edges && e.target == q[0] && e.source !in order;
        assert e == Edge(e.source, q[0]);
        PathExtendsBack(edges, q, e.source);
        p := [e.source] + q;
      }
    }
  }

  lemma {:induction false} Pigeonhole(s: seq<string>, within: set<string>) returns (i: nat, j: nat)
    requires |s| > |within| && forall x | x in s :: x in within
    ensures i < j < |s| && s[i] == s[j]
  {
    var last := |s| - 1;
    if k :| 0 <= k < last && s[k] == s[last] {
      i, j := k, last;
    } else {
      assert s[last] in within;
      assert forall x | x in s[..last] :: x in within - {s[last]};
      i, j := Pigeonhole(s[..last], within - {s[last]});
    }
  }

  lemma SubPath(edges: seq<Edge>, p: seq<string>, i: nat, j: nat)
    requires IsPath(edges, p) && i < j <= |p|
    ensures IsPath(edges, p[i..j])
  {
    var q := p[i..j];
    forall k | 0 <= k < |q| - 1 ensures Edge(q[k], q[k + 1]) in edges { assert Edge(p[i + k], p[i + k + 1]) in edges; }
  }

  lemma UnlistedBlocked(ids: seq<string>, edges: seq<Edge>, order: seq<string>, v: string)
    requires IsKahnOrder(ids, edges, order) && v !in order
    ensures Blocked(ids, edges, v)
  {
    var p := WalkBack(ids, edges, order, v, |Keys(ids, edges)|);
    if p[0] !in Keys(ids, edges) {
      assert PathBetween(edges, p, p[0], v) && Blocker(ids, edges, p[0]);
    } else {
      var i, j := Pigeonhole(p, Keys(ids, edges));
      SubPath(edges, p, i, j + 1);
      SubPath(edges, p, j, |p|);
      assert PathBetween(edges, p[i..j + 1], p[j], p[j]);
      assert PathBetween(edges, p[j..], p[j], v) by { assert p[j..] == p[j..|p|]; }
      assert Blocker(ids, edges, p[j]);
    }
  }

  /** For every graph, the part built before the fallback is exactly the keys no cycle and no unknown source leads
      to. */
  lemma KahnOrderIsUnblocked(ids: seq<string>, edges: seq<Edge>, order: seq<string>, v: string)
    requires IsKahnOrder(ids, edges, order) && v in Keys(ids, edges)
    ensures v in order <==> !Blocked(ids, edges, v)
  {
    if v in order { ListedNotBlocked(ids, edges, order, v); } else { UnlistedBlocked(ids, edges, order, v); }
  }

  ghost predicate ReachedFromCycle(edges: seq<Edge>, v: string) {
    exists c :: OnCycle(edges, c) && Reaches(edges, c, v)
  }

  lemma WellFormedKeys(ids: seq<string>, edges: seq<Edge>)
    requires WellFormed(ids, edges)
    ensures Keys(ids, edges) == SetOf(ids)
  {
  }

  /** Between known nodes a path into a known node starts at a known node. */
  lemma PathStartsKnown(ids: seq<string>, edges: seq<Edge>, u: string, v: string)
    requires WellFormed(ids, edges) && v in ids && Reaches(edges, u, v)
    ensures u in ids
  {
    var p :| PathBetween(edges, p, u, v);
    if |p| > 1 { assert Edge(p[0], p[1]) in edges; }
  }

  /** On a well-formed graph the part built before the fallback is exactly the nodes not reachable from a cycle. */
  lemma KahnOrderIsOffCycle(ids: seq<string>, edges: seq<Edge>, kahn: seq<string>, v: string)
    requires WellFormed(ids, edges) && IsKahnOrder(ids, edges, kahn)
    ensures v in kahn <==> v in ids && !ReachedFromCycle(edges, v)
  {
    WellFormedKeys(ids, edges);
    assert v in SetOf(ids) <==> v in ids;
    if v in ids {
      KahnOrderIsUnblocked(ids, edges, kahn, v);
      if Blocked(ids, edges, v) {
        var u :| Blocker(ids, edges, u) && Reaches(edges, u, v);
        PathStartsKnown(ids, edges, u, v);
        assert u in SetOf(ids);
        assert OnCycle(edges, u);
      }
      if c :| OnCycle(edges, c) && Reaches(edges, c, v) { assert Blocker(ids, edges, c); }
    }
  }

  lemma {:induction false} NoDupSize(s: seq<string>)
    requires NoDup(s)
    ensures |SetOf(s)| == |s|
  {
    if s != [] {
      var front, last := s[..|s| - 1], s[|s| - 1];
      NoDupSize(front);
      SetOfAppend(front, last);
      assert s == front + [last] && last !in SetOf(front);
    }
  }

  lemma {:induction false} MissingNoDup(ids: seq<string>, order: seq<string>)
    requires NoDup(ids)
    ensures NoDup(Missing(ids, order))
  {
    if ids != [] {
      MissingNoDup(ids[..|ids| - 1], order);
      assert ids[|ids| - 1] !in ids[..|ids| - 1];
    }
  }

  lemma KahnWithinIds(ids: seq<string>, edges: seq<Edge>, kahn: seq<string>)
    requires WellFormed(ids, edges) && IsKahnOrder(ids, edges, kahn)
    ensures SetOf(kahn) <= SetOf(ids) && |kahn| <= |ids|
    ensures |kahn| == |ids| ==> SetOf(kahn) == SetOf(ids)
  {
    WellFormedKeys(ids, edges);
    assert forall x | x in kahn :: x in SetOf(ids);
    NoDupSize(kahn);
    NoDupSize(ids);
    assert |SetOf(ids) - SetOf(kahn)| == |SetOf(ids)| - |SetOf(kahn)|;
  }

  lemma WithMissing(ids: seq<string>, kahn: seq<string>)
    requires NoDup(ids) && NoDup(kahn) && SetOf(kahn) <= SetOf(ids)
    ensures NoDup(kahn + Missing(ids, kahn)) && SetOf(kahn + Missing(ids, kahn)) == SetOf(ids)
  {
    MissingNoDup(ids, kahn);
    var rest := Missing(ids, kahn);
    forall i, j | 0 <= i < |kahn| <= j < |kahn + rest| ensures (kahn + rest)[i] != (kahn + rest)[j] {
      assert rest[j - |kahn|] in rest;
    }
    assert forall x | x in kahn :: x in SetOf(ids);
  }

  /** On a well-formed graph the whole order lists every node exactly once. */
  lemma OrderIsPermutation(ids: seq<string>, edges: seq<Edge>, kahn: seq<string>)
    requires WellFormed(ids, edges) && IsKahnOrder(ids, edges, kahn)
    ensures var order := WithFallback(ids, kahn);
            NoDup(order) && |order| == |ids| && forall x :: x in order <==> x in ids
  {
    var order := WithFallback(ids, kahn);
    KahnWithinIds(ids, edges, kahn);
    if |kahn| != |ids| { WithMissing(ids, kahn); }
    assert order == kahn || order == kahn + Missing(ids, kahn);
    NoDupSize(order);
    NoDupSize(ids);
    forall x ensures x in order <==> x in ids { assert x in SetOf(order) <==> x in SetOf(ids); }
  }

  /** The fallback adds nothing exactly when the graph has no cycle. */
  lemma FallbackEmptyIffAcyclic(ids: seq<string>, edges: seq<Edge>, kahn: seq<string>)
    requires WellFormed(ids, edges) && IsKahnOrder(ids, edges, kahn)
    ensures |kahn| == |ids| <==> Acyclic(edges)
  {
    OrderIsPermutation(ids, edges, kahn);
    if |kahn| == |ids| {
      assert kahn + [] == kahn;
      forall c ensures !OnCycle(edges, c) {
        if OnCycle(edges, c) {
          var p :| PathBetween(edges, p, c, c) && |p| >= 2;
          assert Edge(p[0], p[1]) in edges;
          assert PathBetween(edges, [c], c, c);
          assert ReachedFromCycle(edges, c);
          KahnOrderIsOffCycle(ids, edges, kahn, c);
        }
      }
    }
    if Acyclic(edges) {
      forall x | x in ids ensures x in kahn { KahnOrderIsOffCycle(ids, edges, kahn, x); }
      WellFormedKeys(ids, edges);
      assert forall x | x in kahn :: x in SetOf(ids);
      assert SetOf(kahn) == SetOf(ids);
      NoDupSize(kahn);
      NoDupSize(ids);
    }
  }
}
