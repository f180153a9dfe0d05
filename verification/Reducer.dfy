/** Patch operations and their capability-aware reduction (redibis/behavior/models.py, reducer.py). */
module Reducer {
  import opened Sequences
  import opened Conditions

  // ---- Model ----

  datatype Authority =
    | SafetyGuard | AuthoritativeValidator | HumanDecision | ApprovedPolicy | EngineNative | LlmProposal
  {
    function Rank(): int {
      match this
      case SafetyGuard => 60
      case AuthoritativeValidator => 50
      case HumanDecision => 40
      case ApprovedPolicy => 30
      case EngineNative => 20
      case LlmProposal => 10
    }
  }

  datatype Operation = Operation(
    op: string, path: string, value: Value, authority: Authority, reason: string, ruleId: string, policyId: string)

  datatype Patch = Patch(operations: seq<Operation>, requireReview: bool, reviewRole: Option<string>,
      reasons: seq<string>)

  const EMPTY_PATCH := Patch([], false, None, [])

  datatype Bounds = Bounds(minimum: Option<real>, maximum: Option<real>)

  datatype Capabilities = Capabilities(
    allowed: set<string>, immutable: set<string>, constraints: map<string, Bounds>)

  /** What the reducer is configured with: adapter capabilities and durable human decisions by path. */
  datatype Guard = Guard(caps: Capabilities, human: map<string, Authority>)

  datatype BlockReason = Capability | Human(authority: Authority) | ConflictResolution | SameAuthorityConflict

  datatype BlockedOperation = BlockedOperation(operation: Operation, blockedBy: BlockReason)

  // ---- Admission of one operation ----

  function HeadOf(path: string): string {
    if path == "" || path[0] == '.' then "" else [path[0]] + HeadOf(path[1..])
  }

  function Numeric(v: Value): Option<real> {
    match v
    case Bool(b) => Some(if b then 1.0 else 0.0)
    case Int(i) => Some(i as real)
    case Float(r) => Some(r)
    case _ => None
  }

  predicate WithinBounds(v: Value, bounds: Bounds) {
    var n := Numeric(v);
    n.Some? ==>
      && (bounds.minimum.Some? ==> bounds.minimum.value <= n.value)
      && (bounds.maximum.Some? ==> n.value <= bounds.maximum.value)
  }

  predicate Allowed(o: Operation, caps: Capabilities) {
    && o.path !in caps.immutable
    && (caps.allowed == {} || o.path in caps.allowed || HeadOf(o.path) + ".*" in caps.allowed)
    && (o.path in caps.constraints ==> WithinBounds(o.value, caps.constraints[o.path]))
  }

  predicate Overruled(o: Operation, human: map<string, Authority>) {
    o.path in human && human[o.path].Rank() > o.authority.Rank()
  }

  predicate Admissible(o: Operation, g: Guard) {
    Allowed(o, g.caps) && !Overruled(o, g.human)
  }

  predicate Conflict(a: Operation, b: Operation) {
    a.op == "set" && b.op == "set" && a.path == b.path && !PyEq(a.value, b.value)
  }

  // ---- The loop, step by step; an operation object is known by its position in the proposal ----

  datatype Blocked = Blocked(index: nat, cause: BlockReason)

  datatype State = State(
    applied: seq<nat>, blocked: seq<Blocked>, winners: map<string, nat>, review: bool, role: Option<string>)

  function Drop(s: seq<nat>, x: nat): (r: seq<nat>)
    ensures forall y :: y in r <==> y in s && y != x
  {
    if s == [] then [] else (if s[0] == x then [] else [s[0]]) + Drop(s[1..], x)
  }

  function OrSteward(role: Option<string>): Option<string> {
    if role.Some? && role.value != "" then role else Some("steward")
  }

  predicate Indexed(ops: seq<Operation>, st: State) {
    forall p | p in st.winners :: st.winners[p] < |ops|
  }

  /** What the loop body decides for one operation, given the operation that holds its path, if any. */
  datatype Verdict = Block(cause: BlockReason) | Apply(holds: bool) | Oust | Repeat

  function Judge(o: Operation, g: Guard, holder: Option<Operation>): Verdict {
    if !Allowed(o, g.caps) then Block(Capability)
    else if Overruled(o, g.human) then Block(Human(g.human[o.path]))
    else if holder.None? then Apply(true)
    else if Conflict(o, holder.value) then
      if o.authority.Rank() > holder.value.authority.Rank() then Oust
      else if o.authority.Rank() < holder.value.authority.Rank() then Block(ConflictResolution)
      else Block(SameAuthorityConflict)
    else if !PyEq(o.value, holder.value.value) then Apply(o.authority.Rank() > holder.value.authority.Rank())
    else Repeat
  }

  /** Carry a verdict out on operation `k`, whose path is `path`. */
  function Advance(st: State, v: Verdict, k: nat, path: string): State
    requires v.Oust? ==> path in st.winners
  {
    match v
    case Block(cause) =>
      var st' := st.(blocked := st.blocked + [Blocked(k, cause)]);
      if cause == SameAuthorityConflict then st'.(review := true, role := OrSteward(st.role)) else st'
    case Apply(holds) =>
      st.(applied := st.applied + [k], winners := if holds then st.winners[path := k] else st.winners)
    case Oust =>
      var w := st.winners[path];
      st.(applied := Drop(st.applied, w) + [k],
          blocked := st.blocked + [Blocked(w, ConflictResolution)],
          winners := st.winners[path := k])
    case Repeat => st
  }

  function Holder(ops: seq<Operation>, st: State, path: string): (h: Option<Operation>)
    requires Indexed(ops, st)
    ensures h.Some? <==> path in st.winners
  {
    if path in st.winners then Some(ops[st.winners[path]]) else None
  }

  function Step(ops: seq<Operation>, g: Guard, st: State, k: nat): (r: State)
    requires k < |ops| && Indexed(ops, st)
    ensures Indexed(ops, r)
  {
    Advance(st, Judge(ops[k], g, Holder(ops, st, ops[k].path)), k, ops[k].path)
  }

  function Start(proposed: Patch): State {
    State([], [], map[], proposed.requireReview, proposed.reviewRole)
  }

  function Run(proposed: Patch, g: Guard, n: nat): (st: State)
    requires n <= |proposed.operations|
    ensures Indexed(proposed.operations, st)
  {
    if n == 0 then Start(proposed) else Step(proposed.operations, g, Run(proposed, g, n - 1), n - 1)
  }

  function Final(proposed: Patch, g: Guard): State {
    Run(proposed, g, |proposed.operations|)
  }

  // ---- Positions turned back into operations ----

  function Picked(ops: seq<Operation>, at: seq<nat>): (r: seq<Operation>)
    requires forall i | i in at :: i < |ops|
    ensures |r| == |at| && forall k :: 0 <= k < |at| ==> at[k] < |ops| && r[k] == ops[at[k]]
  {
    if at == [] then []
    else (assert at[0] in at; [ops[at[0]]]) + (assert forall i | i in at[1..] :: i in at; Picked(ops, at[1..]))
  }

  ghost predicate InRange(ops: seq<Operation>, st: State) {
    && (forall i | i in st.applied :: i < |ops|)
    && (forall b | b in st.blocked :: b.index < |ops|)
  }

  // ---- What one pass keeps ----

  ghost function BlockedSet(blocked: seq<Blocked>): set<nat> { set b | b in blocked :: b.index }

  lemma BlockedSetAppend(blocked: seq<Blocked>, b: Blocked)
    ensures BlockedSet(blocked + [b]) == BlockedSet(blocked) + {b.index}
  {
    forall x | x in BlockedSet(blocked) + {b.index} ensures x in BlockedSet(blocked + [b]) {
      if x == b.index { assert b in blocked + [b]; }
      else { var c :| c in blocked && c.index == x; assert c in blocked + [b]; }
    }
  }

  ghost predicate Increasing(s: seq<nat>) { forall i, j :: 0 <= i < j < |s| ==> s[i] < s[j] }

  lemma {:induction false} DropIncreasing(s: seq<nat>, x: nat)
    requires Increasing(s)
    ensures Increasing(Drop(s, x))
  {
    if s != [] {
      DropIncreasing(s[1..], x);
      var r := Drop(s[1..], x);
      forall k | 0 <= k < |r| ensures s[0] < r[k] { assert r[k] in s[1..]; }
    }
  }

  lemma IncreasingAppend(s: seq<nat>, n: nat)
    requires Increasing(s) && forall i | i in s :: i < n
    ensures Increasing(s + [n])
  {
    forall k | 0 <= k < |s| ensures s[k] < n { assert s[k] in s; }
  }

  /** The equal-value branch: `j` repeats the value of the operation that held its path when `j` was read. */
  ghost predicate Skipped(proposed: Patch, g: Guard, j: nat)
    requires j < |proposed.operations|
  {
    var ops, st := proposed.operations, Run(proposed, g, j);
    && Admissible(ops[j], g)
    && ops[j].path in st.winners
    && PyEq(ops[j].value, ops[st.winners[ops[j].path]].value)
  }

  /** The applied list: in proposal order, admissible only. */
  ghost predicate AppliedSound(admissible: set<nat>, n: nat, st: State) {
    && Increasing(st.applied)
    && (forall i | i in st.applied :: i < n && i in admissible)
  }

  /** Each path's holder is an applied operation on that path. */
  ghost predicate HoldersSound(ops: seq<Operation>, st: State) {
    forall p | p in st.winners ::
      st.winners[p] in st.applied && st.winners[p] < |ops| && ops[st.winners[p]].path == p
  }

  ghost predicate BlockedSound(n: nat, st: State) {
    && (forall i | i in BlockedSet(st.blocked) :: i < n && i !in st.applied)
    && (forall x, y :: 0 <= x < y < |st.blocked| ==> st.blocked[x].index != st.blocked[y].index)
  }

  /** Of the first `n` operations exactly the skipped ones are neither applied nor blocked. */
  ghost predicate Fates(n: nat, st: State, skipped: set<nat>) {
    forall j: nat | j < n :: j in skipped <==> j !in st.applied && j !in BlockedSet(st.blocked)
  }

  lemma JudgeFacts(o: Operation, g: Guard, holder: Option<Operation>)
    ensures var v := Judge(o, g, holder);
            && (v.Oust? ==> holder.Some? && Conflict(o, holder.value))
            && (v.Apply? || v.Oust? ==> Admissible(o, g))
            && (v.Repeat? <==> Admissible(o, g) && holder.Some? && PyEq(o.value, holder.value.value))
            && (holder.None? && Admissible(o, g) <==> holder.None? && v == Apply(true))
  {
  }

  lemma AppliedStep(admissible: set<nat>, n: nat, st: State, v: Verdict, path: string)
    requires AppliedSound(admissible, n, st)
    requires v.Oust? ==> path in st.winners
    requires v.Apply? || v.Oust? ==> n in admissible
    ensures AppliedSound(admissible, n + 1, Advance(st, v, n, path))
  {
    if v.Oust? {
      var w := st.winners[path];
      DropIncreasing(st.applied, w);
      IncreasingAppend(Drop(st.applied, w), n);
    } else if v.Apply? {
      IncreasingAppend(st.applied, n);
    }
  }

  lemma HoldersStep(ops: seq<Operation>, n: nat, st: State, v: Verdict)
    requires n < |ops| && HoldersSound(ops, st)
    requires v.Oust? ==> ops[n].path in st.winners
    ensures HoldersSound(ops, Advance(st, v, n, ops[n].path))
  {
  }

  /** Appending an entry for a position of its own, not applied any more, keeps the blocked list sound. */
  lemma BlockedAppendSound(n: nat, st: State, b: Blocked, st': State)
    requires BlockedSound(n, st) && b.index !in BlockedSet(st.blocked) && b.index <= n && b.index !in st'.applied
    requires st'.blocked == st.blocked + [b] && forall i | i in st'.applied :: i in st.applied || i == n
    ensures BlockedSound(n + 1, st')
  {
    forall x | 0 <= x < |st.blocked| ensures st.blocked[x].index in BlockedSet(st.blocked) {
      assert st.blocked[x] in st.blocked;
    }
    BlockedSetAppend(st.blocked, b);
  }

  lemma BlockedStep(admissible: set<nat>, ops: seq<Operation>, n: nat, st: State, v: Verdict)
    requires n < |ops| && AppliedSound(admissible, n, st) && HoldersSound(ops, st) && BlockedSound(n, st)
    requires v.Oust? ==> ops[n].path in st.winners
    ensures BlockedSound(n + 1, Advance(st, v, n, ops[n].path))
  {
    var st' := Advance(st, v, n, ops[n].path);
    if v.Block? || v.Oust? {
      BlockedAppendSound(n, st, st'.blocked[|st'.blocked| - 1], st');
    }
  }

  lemma FatesStep(admissible: set<nat>, ops: seq<Operation>, n: nat, st: State, v: Verdict, skipped: set<nat>)
    requires n < |ops| && AppliedSound(admissible, n, st) && HoldersSound(ops, st) && BlockedSound(n, st)
    requires v.Oust? ==> ops[n].path in st.winners
    requires Fates(n, st, skipped) && (n in skipped <==> v.Repeat?)
    ensures Fates(n + 1, Advance(st, v, n, ops[n].path), skipped)
  {
    var st' := Advance(st, v, n, ops[n].path);
    if v.Block? || v.Oust? {
      BlockedSetAppend(st.blocked, st'.blocked[|st'.blocked| - 1]);
    }
  }

  ghost function SkippedSet(proposed: Patch, g: Guard): set<nat> {
    set j: nat | j < |proposed.operations| && Skipped(proposed, g, j)
  }

  ghost function AdmissibleSet(ops: seq<Operation>, g: Guard): set<nat> {
    set j: nat | j < |ops| && Admissible(ops[j], g)
  }

  ghost predicate Sound(ops: seq<Operation>, admissible: set<nat>, skipped: set<nat>, n: nat, st: State) {
    && AppliedSound(admissible, n, st)
    && HoldersSound(ops, st)
    && BlockedSound(n, st)
    && Fates(n, st, skipped)
  }

  lemma SoundStep(ops: seq<Operation>, admissible: set<nat>, skipped: set<nat>, n: nat, st: State, v: Verdict)
    requires n < |ops| && Sound(ops, admissible, skipped, n, st)
    requires v.Oust? ==> ops[n].path in st.winners
    requires v.Apply? || v.Oust? ==> n in admissible
    requires n in skipped <==> v.Repeat?
    ensures Sound(ops, admissible, skipped, n + 1, Advance(st, v, n, ops[n].path))
  {
    AppliedStep(admissible, n, st, v, ops[n].path);
    HoldersStep(ops, n, st, v);
    BlockedStep(admissible, ops, n, st, v);
    FatesStep(admissible, ops, n, st, v, skipped);
  }

  function VerdictAt(proposed: Patch, g: Guard, n: nat): Verdict
    requires n < |proposed.operations|
  {
    var o, st := proposed.operations[n], Run(proposed, g, n);
    Judge(o, g, Holder(proposed.operations, st, o.path))
  }

  /** State `st` turns into `st'` by verdict `v` on operation `k`. */
  ghost predicate IsStep(
      ops: seq<Operation>, admissible: set<nat>, skipped: set<nat>, st: State, v: Verdict, k: nat, st': State)
    requires k < |ops|
  {
    && (v.Oust? ==> ops[k].path in st.winners)
    && (v.Apply? || v.Oust? ==> k in admissible)
    && (k in skipped <==> v.Repeat?)
    && st' == Advance(st, v, k, ops[k].path)
  }

  lemma VerdictFacts(proposed: Patch, g: Guard, n: nat)
    requires n < |proposed.operations|
    ensures IsStep(proposed.operations, AdmissibleSet(proposed.operations, g), SkippedSet(proposed, g),
                   Run(proposed, g, n), VerdictAt(proposed, g, n), n, Run(proposed, g, n + 1))
  {
    var o, st := proposed.operations[n], Run(proposed, g, n);
    JudgeFacts(o, g, Holder(proposed.operations, st, o.path));
  }

  lemma SoundStart(ops: seq<Operation>, admissible: set<nat>, skipped: set<nat>, st: State)
    requires st.applied == [] && st.blocked == [] && st.winners == map[]
    ensures Sound(ops, admissible, skipped, 0, st)
  {
  }

  /** A pass seen as its list of states and the verdicts between them. */
  ghost predicate IsPass(
      ops: seq<Operation>, admissible: set<nat>, skipped: set<nat>, states: seq<State>, verdicts: seq<Verdict>)
  {
    && |states| == |verdicts| + 1 <= |ops| + 1
    && states[0].applied == [] && states[0].blocked == [] && states[0].winners == map[]
    && forall k | 0 <= k < |verdicts| :: IsStep(ops, admissible, skipped, states[k], verdicts[k], k, states[k + 1])
  }

  lemma {:induction false} SoundPass(
      ops: seq<Operation>, admissible: set<nat>, skipped: set<nat>, states: seq<State>, verdicts: seq<Verdict>, n: nat)
    requires IsPass(ops, admissible, skipped, states, verdicts) && n <= |verdicts|
    ensures Sound(ops, admissible, skipped, n, states[n])
  {
    if n == 0 {
      SoundStart(ops, admissible, skipped, states[0]);
    } else {
      SoundPass(ops, admissible, skipped, states, verdicts, n - 1);
      assert IsStep(ops, admissible, skipped, states[n - 1], verdicts[n - 1], n - 1, states[n - 1 + 1]);
      SoundStep(ops, admissible, skipped, n - 1, states[n - 1], verdicts[n - 1]);
    }
  }

  ghost function States(proposed: Patch, g: Guard, n: nat): (r: seq<State>)
    requires n <= |proposed.operations|
    ensures |r| == n + 1 && forall k | 0 <= k <= n :: r[k] == Run(proposed, g, k)
  {
    if n == 0 then [Run(proposed, g, 0)] else States(proposed, g, n - 1) + [Run(proposed, g, n)]
  }

  /** What holds of the first state, and of each one if of the state before it, holds of the last. */
  lemma {:induction false} StatesHave(P: (State, nat) -> bool, states: seq<State>, n: nat)
    requires n < |states| && P(states[0], 0)
    requires forall k: nat, m: nat {:trigger P(states[k], k), P(states[m], m)} |
               k < m <= n && m == k + 1 && P(states[k], k) :: P(states[m], m)
    ensures P(states[n], n)
  {
    if n > 0 { StatesHave(P, states, n - 1); }
  }

  ghost function Verdicts(proposed: Patch, g: Guard, n: nat): (r: seq<Verdict>)
    requires n <= |proposed.operations|
    ensures |r| == n && forall k | 0 <= k < n :: r[k] == VerdictAt(proposed, g, k)
  {
    if n == 0 then [] else Verdicts(proposed, g, n - 1) + [VerdictAt(proposed, g, n - 1)]
  }

  lemma RunIsPass(proposed: Patch, g: Guard, n: nat)
    requires n <= |proposed.operations|
    ensures IsPass(proposed.operations, AdmissibleSet(proposed.operations, g), SkippedSet(proposed, g),
                   States(proposed, g, n), Verdicts(proposed, g, n))
  {
    var ops, states, verdicts := proposed.operations, States(proposed, g, n), Verdicts(proposed, g, n);
    var admissible, skipped := AdmissibleSet(ops, g), SkippedSet(proposed, g);
    assert Run(proposed, g, 0) == Start(proposed);
    forall k | 0 <= k < n ensures IsStep(ops, admissible, skipped, states[k], verdicts[k], k, states[k + 1]) {
      VerdictFacts(proposed, g, k);
    }
  }

  /** The loop invariant of the reduction, for every guard, patch and prefix. */
  lemma PassInvariant(proposed: Patch, g: Guard, n: nat)
    requires n <= |proposed.operations|
    ensures Sound(proposed.operations, AdmissibleSet(proposed.operations, g), SkippedSet(proposed, g), n,
                  Run(proposed, g, n))
  {
    RunIsPass(proposed, g, n);
    SoundPass(proposed.operations, AdmissibleSet(proposed.operations, g), SkippedSet(proposed, g),
              States(proposed, g, n), Verdicts(proposed, g, n), n);
  }

  // ---- Conservation ----

  ghost predicate BlockedOnce(st: State, j: nat) {
    exists x: nat :: x < |st.blocked| && st.blocked[x].index == j &&
      forall y: nat :: y < |st.blocked| && st.blocked[y].index == j ==> y == x
  }

  /** Every proposed operation is applied, or blocked exactly once, or skipped as a repeat; never two of these. */
  lemma EveryOperationAccounted(proposed: Patch, g: Guard, j: nat)
    requires j < |proposed.operations|
    ensures var st := Final(proposed, g);
            && (j in st.applied || BlockedOnce(st, j) || Skipped(proposed, g, j))
            && !(j in st.applied && BlockedOnce(st, j))
            && !(j in st.applied && Skipped(proposed, g, j))
            && !(BlockedOnce(st, j) && Skipped(proposed, g, j))
  {
    var st := Final(proposed, g);
    PassInvariant(proposed, g, |proposed.operations|);
    assert j in SkippedSet(proposed, g) <==> Skipped(proposed, g, j);
    if j in BlockedSet(st.blocked) {
      var b :| b in st.blocked && b.index == j;
      var x :| 0 <= x < |st.blocked| && st.blocked[x] == b;
      assert BlockedOnce(st, j);
    }
    if BlockedOnce(st, j) {
      var x: nat :| x < |st.blocked| && st.blocked[x].index == j;
      assert st.blocked[x] in st.blocked;
    }
  }

  // ---- Set-only patches: one holder per path, of the highest authority that was not skipped ----

  /** Every operation on `path` is a `set`. */
  ghost predicate SetOn(ops: seq<Operation>, path: string) {
    forall k | 0 <= k < |ops| && ops[k].path == path :: ops[k].op == "set"
  }

  ghost predicate SetOnly(ops: seq<Operation>) { forall path :: SetOn(ops, path) }

  ghost function RankAt(ops: seq<Operation>, i: nat): int
    requires i < |ops|
  {
    ops[i].authority.Rank()
  }

  /** What `Judge` can decide when every operation on the path is a `set`. */
  ghost predicate IsSetStep(ops: seq<Operation>, admissible: set<nat>, st: State, v: Verdict, k: nat)
    requires k < |ops|
  {
    var held := ops[k].path in st.winners && st.winners[ops[k].path] < |ops|;
    match v
    case Apply(holds) => holds && ops[k].path !in st.winners
    case Oust => held && RankAt(ops, k) > RankAt(ops, st.winners[ops[k].path])
    case Repeat => held
    case Block(cause) =>
      if cause == ConflictResolution then
        k in admissible && held && RankAt(ops, k) < RankAt(ops, st.winners[ops[k].path])
      else if cause == SameAuthorityConflict then
        k in admissible && held && RankAt(ops, k) == RankAt(ops, st.winners[ops[k].path])
      else k !in admissible
  }

  lemma SetVerdictFacts(proposed: Patch, g: Guard, n: nat)
    requires n < |proposed.operations| && SetOn(proposed.operations, proposed.operations[n].path)
    requires HoldersSound(proposed.operations, Run(proposed, g, n))
    ensures IsSetStep(proposed.operations, AdmissibleSet(proposed.operations, g), Run(proposed, g, n),
                      VerdictAt(proposed, g, n), n)
  {
    var ops, st := proposed.operations, Run(proposed, g, n);
    if ops[n].path in st.winners {
      var w := st.winners[ops[n].path];
      assert ops[n].op == "set" && ops[w].op == "set" && ops[w].path == ops[n].path;
    }
  }

  /** The path's holder is its only applied operation, and no admissible non-repeat outranks it. */
  ghost predicate Held(ops: seq<Operation>, admissible: set<nat>, skipped: set<nat>, n: nat, st: State, path: string) {
    && n <= |ops|
    && (forall i | i in st.applied && i < |ops| && ops[i].path == path ::
          i < n && path in st.winners && st.winners[path] == i)
    && (path in st.winners ==> st.winners[path] < n)
    && (forall j: nat | j < n && j in admissible && ops[j].path == path ::
          && path in st.winners
          && (j !in skipped ==> RankAt(ops, j) <= RankAt(ops, st.winners[path])))
  }

  /** Operation `n` takes over its path. */
  lemma HeldTaken(ops: seq<Operation>, admissible: set<nat>, skipped: set<nat>, n: nat, st: State, st': State)
    requires n < |ops| && Held(ops, admissible, skipped, n, st, ops[n].path)
    requires st'.winners == st.winners[ops[n].path := n]
    requires forall i | i in st'.applied && i < |ops| && ops[i].path == ops[n].path :: i == n
    requires ops[n].path in st.winners ==> RankAt(ops, st.winners[ops[n].path]) <= RankAt(ops, n)
    ensures Held(ops, admissible, skipped, n + 1, st', ops[n].path)
  {
  }

  /** Operation `n` leaves the holder and the applied operations of `path` alone. */
  lemma HeldStays(ops: seq<Operation>, admissible: set<nat>, skipped: set<nat>, n: nat, st: State, st': State,
        path: string)
    requires n < |ops| && Held(ops, admissible, skipped, n, st, path)
    requires path in st'.winners <==> path in st.winners
    requires path in st.winners ==> st'.winners[path] == st.winners[path]
    requires forall i | i in st'.applied && i < |ops| && ops[i].path == path :: i in st.applied
    requires n in admissible && ops[n].path == path ==> path in st.winners
    requires n in admissible && n !in skipped && ops[n].path == path ==>
               RankAt(ops, n) <= RankAt(ops, st.winners[path])
    ensures Held(ops, admissible, skipped, n + 1, st', path)
  {
  }

  lemma HeldStep(ops: seq<Operation>, admissible: set<nat>, skipped: set<nat>, n: nat, st: State, v: Verdict,
        path: string)
    requires n < |ops| && Held(ops, admissible, skipped, n, st, path) && HoldersSound(ops, st)
    requires v.Oust? ==> ops[n].path in st.winners
    requires ops[n].path == path ==> IsSetStep(ops, admissible, st, v, n) && (n in skipped <==> v.Repeat?)
    ensures Held(ops, admissible, skipped, n + 1, Advance(st, v, n, ops[n].path), path)
  {
    var st' := Advance(st, v, n, ops[n].path);
    if ops[n].path == path && (v.Apply? || v.Oust?) {
      HeldTaken(ops, admissible, skipped, n, st, st');
    } else {
      HeldStays(ops, admissible, skipped, n, st, st', path);
    }
  }

  lemma {:induction false} HeldPass(
      ops: seq<Operation>, admissible: set<nat>, skipped: set<nat>, states: seq<State>, verdicts: seq<Verdict>,
      n: nat, path: string)
    requires IsPass(ops, admissible, skipped, states, verdicts) && n <= |verdicts|
    requires forall k | 0 <= k < |verdicts| && ops[k].path == path ::
             IsSetStep(ops, admissible, states[k], verdicts[k], k)
    ensures Held(ops, admissible, skipped, n, states[n], path)
  {
    if n > 0 {
      HeldPass(ops, admissible, skipped, states, verdicts, n - 1, path);
      SoundPass(ops, admissible, skipped, states, verdicts, n - 1);
      assert IsStep(ops, admissible, skipped, states[n - 1], verdicts[n - 1], n - 1, states[n - 1 + 1]);
      HeldStep(ops, admissible, skipped, n - 1, states[n - 1], verdicts[n - 1], path);
    }
  }

  lemma SetSteps(proposed: Patch, g: Guard, n: nat, path: string)
    requires n <= |proposed.operations| && SetOn(proposed.operations, path)
    ensures forall k | 0 <= k < n && proposed.operations[k].path == path ::
      IsSetStep(proposed.operations, AdmissibleSet(proposed.operations, g), States(proposed, g, n)[k],
                Verdicts(proposed, g, n)[k], k)
  {
    var ops, states, verdicts := proposed.operations, States(proposed, g, n), Verdicts(proposed, g, n);
    var admissible, skipped := AdmissibleSet(ops, g), SkippedSet(proposed, g);
    RunIsPass(proposed, g, n);
    forall k | 0 <= k < n && ops[k].path == path ensures IsSetStep(ops, admissible, states[k], verdicts[k], k) {
      SoundPass(ops, admissible, skipped, states, verdicts, k);
      SetVerdictFacts(proposed, g, k);
    }
  }

  /** The invariant of a path whose operations are all `set`s, whatever the rest of the patch is. */
  lemma SetPassInvariant(proposed: Patch, g: Guard, n: nat, path: string)
    requires n <= |proposed.operations| && SetOn(proposed.operations, path)
    ensures Held(proposed.operations, AdmissibleSet(proposed.operations, g), SkippedSet(proposed, g), n,
                 Run(proposed, g, n), path)
  {
    var ops, states, verdicts := proposed.operations, States(proposed, g, n), Verdicts(proposed, g, n);
    var admissible, skipped := AdmissibleSet(ops, g), SkippedSet(proposed, g);
    RunIsPass(proposed, g, n);
    SetSteps(proposed, g, n, path);
    HeldPass(ops, admissible, skipped, states, verdicts, n, path);
  }

  ghost predicate AdmissibleOn(ops: seq<Operation>, g: Guard, path: string, j: nat) {
    j < |ops| && ops[j].path == path && Admissible(ops[j], g)
  }

  /** A path of `set`s that some admissible operation proposes ends with exactly one applied operation; one that none
      proposes has none. */
  lemma OneAppliedPerPath(proposed: Patch, g: Guard, path: string)
    requires SetOn(proposed.operations, path)
    ensures var ops, st := proposed.operations, Final(proposed, g);
            && (path in st.winners <==> exists j :: AdmissibleOn(ops, g, path, j))
            && (path in st.winners ==>
                  && st.winners[path] in st.applied
                  && AdmissibleOn(ops, g, path, st.winners[path])
                  && forall i | i in st.applied && AdmissibleOn(ops, g, path, i) :: i == st.winners[path])
  {
    var ops, st := proposed.operations, Final(proposed, g);
    PassInvariant(proposed, g, |ops|);
    SetPassInvariant(proposed, g, |ops|, path);
    forall j | AdmissibleOn(ops, g, path, j) ensures path in st.winners {
      assert j in AdmissibleSet(ops, g);
    }
    if path in st.winners {
      assert st.winners[path] in AdmissibleSet(ops, g);
      assert AdmissibleOn(ops, g, path, st.winners[path]);
    }
  }

  // ---- Any patch: when a path ends with exactly one applied operation ----

  /** Operation `k` is applied beside the holder of its path: its value differs, and the two are not both `set`s. */
  ghost predicate Beside(proposed: Patch, g: Guard, k: nat)
    requires k < |proposed.operations|
  {
    var o, st := proposed.operations[k], Run(proposed, g, k);
    && Admissible(o, g) && o.path in st.winners
    && !Conflict(o, proposed.operations[st.winners[o.path]])
    && !PyEq(o.value, proposed.operations[st.winners[o.path]].value)
  }

  ghost predicate AppliedOn(ops: seq<Operation>, st: State, path: string, i: nat) {
    i in st.applied && i < |ops| && ops[i].path == path
  }

  ghost predicate ExtraAt(ops: seq<Operation>, st: State, path: string, i: nat) {
    AppliedOn(ops, st, path, i) && !(path in st.winners && st.winners[path] == i)
  }

  /** An operation is applied on the path that is not the path's holder. */
  ghost predicate Extra(ops: seq<Operation>, st: State, path: string) { exists i: nat :: ExtraAt(ops, st, path, i) }

  ghost predicate AppliesBeside(ops: seq<Operation>, n: nat, st: State, v: Verdict, path: string)
    requires n < |ops|
  {
    ops[n].path == path && v.Apply? && path in st.winners
  }

  /** What holds of each step of a pass, for extras. */
  ghost predicate ExtraStepOk(ops: seq<Operation>, n: nat, st: State, v: Verdict) {
    && n < |ops| && HoldersSound(ops, st) && (forall i | i in st.applied :: i < n)
    && (v.Oust? ==> ops[n].path in st.winners)
    && (v.Apply? && ops[n].path !in st.winners ==> v.holds)
  }

  lemma ExtraStays(ops: seq<Operation>, n: nat, st: State, v: Verdict, path: string, i: nat)
    requires ExtraStepOk(ops, n, st, v) && ExtraAt(ops, st, path, i)
    ensures ExtraAt(ops, Advance(st, v, n, ops[n].path), path, i)
  {
  }

  lemma ExtraComes(ops: seq<Operation>, n: nat, st: State, v: Verdict, path: string)
    requires ExtraStepOk(ops, n, st, v) && AppliesBeside(ops, n, st, v, path)
    ensures Extra(ops, Advance(st, v, n, ops[n].path), path)
  {
    var st' := Advance(st, v, n, ops[n].path);
    assert ExtraAt(ops, st', path, if v.holds then st.winners[path] else n);
  }

  lemma ExtraSource(ops: seq<Operation>, n: nat, st: State, v: Verdict, path: string, i: nat)
    requires ExtraStepOk(ops, n, st, v) && ExtraAt(ops, Advance(st, v, n, ops[n].path), path, i)
    ensures ExtraAt(ops, st, path, i) || AppliesBeside(ops, n, st, v, path)
  {
  }

  /** Extras never go away, and come only from operations applied beside a holder. */
  lemma ExtraStep(ops: seq<Operation>, n: nat, st: State, v: Verdict, path: string)
    requires ExtraStepOk(ops, n, st, v)
    ensures Extra(ops, Advance(st, v, n, ops[n].path), path) <==>
            Extra(ops, st, path) || AppliesBeside(ops, n, st, v, path)
  {
    var st' := Advance(st, v, n, ops[n].path);
    if i: nat :| ExtraAt(ops, st, path, i) { ExtraStays(ops, n, st, v, path, i); }
    if AppliesBeside(ops, n, st, v, path) { ExtraComes(ops, n, st, v, path); }
    if i: nat :| ExtraAt(ops, st', path, i) { ExtraSource(ops, n, st, v, path, i); }
  }

  lemma BesideIsApply(proposed: Patch, g: Guard, n: nat, path: string)
    requires n < |proposed.operations|
    ensures var ops, st, v := proposed.operations, Run(proposed, g, n), VerdictAt(proposed, g, n);
            && ExtraStepOk(ops, n, st, v)
            && (AppliesBeside(ops, n, st, v, path) <==> ops[n].path == path && Beside(proposed, g, n))
  {
    PassInvariant(proposed, g, n);
    JudgeFacts(proposed.operations[n], g,
        Holder(proposed.operations, Run(proposed, g, n), proposed.operations[n].path));
  }

  ghost predicate EverBeside(proposed: Patch, g: Guard, n: nat, path: string)
    requires n <= |proposed.operations|
  {
    exists k: nat :: k < n && proposed.operations[k].path == path && Beside(proposed, g, k)
  }

  lemma ExtraNext(proposed: Patch, g: Guard, n: nat, path: string)
    requires n < |proposed.operations|
    ensures Extra(proposed.operations, Run(proposed, g, n + 1), path) <==>
            Extra(proposed.operations, Run(proposed, g, n), path) ||
            (proposed.operations[n].path == path && Beside(proposed, g, n))
  {
    BesideIsApply(proposed, g, n, path);
    ExtraStep(proposed.operations, n, Run(proposed, g, n), VerdictAt(proposed, g, n), path);
  }

  lemma EverBesideStep(proposed: Patch, g: Guard, n: nat, path: string)
    requires n < |proposed.operations|
    ensures EverBeside(proposed, g, n + 1, path) <==>
            EverBeside(proposed, g, n, path) || (proposed.operations[n].path == path && Beside(proposed, g, n))
  {
  }

  lemma {:induction false} ExtraRun(proposed: Patch, g: Guard, n: nat, path: string)
    requires n <= |proposed.operations|
    ensures Extra(proposed.operations, Run(proposed, g, n), path) <==> EverBeside(proposed, g, n, path)
  {
    if n == 0 {
      assert Run(proposed, g, 0).applied == [];
    } else {
      ExtraRun(proposed, g, n - 1, path);
      ExtraNext(proposed, g, n - 1, path);
      EverBesideStep(proposed, g, n - 1, path);
    }
  }

  lemma {:induction false} HolderRun(proposed: Patch, g: Guard, n: nat, path: string)
    requires n <= |proposed.operations|
    ensures path in Run(proposed, g, n).winners <==>
            exists j: nat :: j < n && AdmissibleOn(proposed.operations, g, path, j)
  {
    if n > 0 {
      var ops, st := proposed.operations, Run(proposed, g, n - 1);
      HolderRun(proposed, g, n - 1, path);
      JudgeFacts(ops[n - 1], g, Holder(ops, st, ops[n - 1].path));
      assert ops[n - 1].path == path && Admissible(ops[n - 1], g) <==> AdmissibleOn(ops, g, path, n - 1);
    }
  }

  ghost predicate AppliedOnce(ops: seq<Operation>, st: State, path: string) {
    exists i: nat :: AppliedOn(ops, st, path, i) && forall j: nat | AppliedOn(ops, st, path, j) :: j == i
  }

  /** For every patch: a path ends with exactly one applied operation iff some operation is admissible there and none is
      applied beside a holder. */
  lemma AppliedOnceIff(proposed: Patch, g: Guard, path: string)
    ensures var ops, st := proposed.operations, Final(proposed, g);
            AppliedOnce(ops, st, path) <==>
            (exists j: nat :: AdmissibleOn(ops, g, path, j)) && !EverBeside(proposed, g, |ops|, path)
  {
    var ops, st := proposed.operations, Final(proposed, g);
    PassInvariant(proposed, g, |ops|);
    ExtraRun(proposed, g, |ops|, path);
    HolderRun(proposed, g, |ops|, path);
    if path in st.winners { assert AppliedOn(ops, st, path, st.winners[path]); }
    forall i: nat | AppliedOn(ops, st, path, i) ensures AdmissibleOn(ops, g, path, i) {
      assert i in AdmissibleSet(ops, g);
    }
    assert forall i: nat :: AppliedOn(ops, st, path, i) <==>
             ExtraAt(ops, st, path, i) || (path in st.winners && st.winners[path] == i);
  }

  // ---- The condition read off the proposal, where the first admissible operation is no `set` or all values agree ----

  /** Every admissible operation on the path, among the first `n`, has the value of operation `f`. */
  ghost predicate AllValued(ops: seq<Operation>, g: Guard, path: string, f: nat, n: nat)
    requires f < |ops|
  {
    forall j: nat | j < n && AdmissibleOn(ops, g, path, j) :: PyEq(ops[j].value, ops[f].value)
  }

  lemma HolderStaysStep(proposed: Patch, g: Guard, f: nat, n: nat, path: string)
    requires f < n < |proposed.operations|
    requires path in Run(proposed, g, n).winners && Run(proposed, g, n).winners[path] == f
    requires AdmissibleOn(proposed.operations, g, path, n) ==>
               PyEq(proposed.operations[n].value, proposed.operations[f].value)
    ensures path in Run(proposed, g, n + 1).winners && Run(proposed, g, n + 1).winners[path] == f
  {
    var ops, st := proposed.operations, Run(proposed, g, n);
    JudgeFacts(ops[n], g, Holder(ops, st, ops[n].path));
  }

  lemma FirstTakesPath(proposed: Patch, g: Guard, f: nat, path: string)
    requires FirstOn(proposed.operations, g, path, f)
    ensures path in Run(proposed, g, f + 1).winners && Run(proposed, g, f + 1).winners[path] == f
  {
    HolderRun(proposed, g, f, path);
    JudgeFacts(proposed.operations[f], g, None);
  }

  /** While the admissible values on a path are equal, the first of these operations holds it. */
  lemma {:induction false} FirstKeepsHolding(proposed: Patch, g: Guard, f: nat, n: nat, path: string)
    requires f < n <= |proposed.operations| && FirstOn(proposed.operations, g, path, f)
    requires AllValued(proposed.operations, g, path, f, n)
    ensures path in Run(proposed, g, n).winners && Run(proposed, g, n).winners[path] == f
  {
    if n == f + 1 {
      FirstTakesPath(proposed, g, f, path);
    } else {
      FirstKeepsHolding(proposed, g, f, n - 1, path);
      HolderStaysStep(proposed, g, f, n - 1, path);
    }
  }

  lemma EqualNeverBeside(proposed: Patch, g: Guard, path: string, f: nat)
    requires FirstOn(proposed.operations, g, path, f)
    requires AllValued(proposed.operations, g, path, f, |proposed.operations|)
    ensures !EverBeside(proposed, g, |proposed.operations|, path)
  {
    var ops := proposed.operations;
    forall k: nat | k < |ops| && ops[k].path == path ensures !Beside(proposed, g, k) {
      if f < k && AdmissibleOn(ops, g, path, k) {
        FirstKeepsHolding(proposed, g, f, k, path);
      } else if k <= f {
        HolderRun(proposed, g, k, path);
      }
    }
  }

  /** The first value that differs from the one that holds the path is applied beside it. */
  lemma {:induction false} DifferentComesBeside(proposed: Patch, g: Guard, f: nat, n: nat, path: string)
    requires n <= |proposed.operations| && FirstOn(proposed.operations, g, path, f)
    requires proposed.operations[f].op != "set" && !AllValued(proposed.operations, g, path, f, n)
    ensures EverBeside(proposed, g, n, path)
  {
    var ops := proposed.operations;
    if !AllValued(ops, g, path, f, n - 1) {
      DifferentComesBeside(proposed, g, f, n - 1, path);
    } else if f < n - 1 {
      FirstKeepsHolding(proposed, g, f, n - 1, path);
      assert Beside(proposed, g, n - 1);
    }
  }

  /** A path whose first admissible operation is no `set` ends with exactly one applied operation iff all admissible
      values on it are equal. */
  lemma FirstNoSetOnceIff(proposed: Patch, g: Guard, path: string, f: nat)
    requires FirstOn(proposed.operations, g, path, f) && proposed.operations[f].op != "set"
    ensures AppliedOnce(proposed.operations, Final(proposed, g), path) <==>
            AllValued(proposed.operations, g, path, f, |proposed.operations|)
  {
    AppliedOnceIff(proposed, g, path);
    if AllValued(proposed.operations, g, path, f, |proposed.operations|) {
      EqualNeverBeside(proposed, g, path, f);
    } else {
      DifferentComesBeside(proposed, g, f, |proposed.operations|, path);
    }
  }

  /** Where all admissible values on a path are equal, the first operation alone is applied, whatever the authorities of
      the others are. */
  lemma EqualValuesKeepFirst(proposed: Patch, g: Guard, path: string, f: nat)
    requires FirstOn(proposed.operations, g, path, f)
    requires AllValued(proposed.operations, g, path, f, |proposed.operations|)
    ensures path in Final(proposed, g).winners && Final(proposed, g).winners[path] == f
    ensures AppliedOnce(proposed.operations, Final(proposed, g), path)
  {
    AppliedOnceIff(proposed, g, path);
    FirstKeepsHolding(proposed, g, f, |proposed.operations|, path);
    EqualNeverBeside(proposed, g, path, f);
  }

  // ---- Causes of blocking, and review ----

  predicate IsConflict(cause: BlockReason) { cause == ConflictResolution || cause == SameAuthorityConflict }

  ghost predicate Clashed(blocked: seq<Blocked>) { exists b | b in blocked :: b.cause == SameAuthorityConflict }

  ghost predicate CausesSound(admissible: set<nat>, review: bool, role: Option<string>, st: State) {
    && (forall b | b in st.blocked :: IsConflict(b.cause) <==> b.index in admissible)
    && (st.review <==> review || Clashed(st.blocked))
    && st.role == (if Clashed(st.blocked) then OrSteward(role) else role)
  }

  lemma ClashedAppend(blocked: seq<Blocked>, b: Blocked)
    ensures Clashed(blocked + [b]) <==> Clashed(blocked) || b.cause == SameAuthorityConflict
  {
    if Clashed(blocked) { var c :| c in blocked && c.cause == SameAuthorityConflict; assert c in blocked + [b]; }
    if b.cause == SameAuthorityConflict { assert b in blocked + [b]; }
  }

  /** A blocked operation is blocked by a conflict iff it was admissible. */
  ghost predicate BlocksSoundly(admissible: set<nat>, v: Verdict, n: nat) {
    v.Block? ==> (IsConflict(v.cause) <==> n in admissible)
  }

  lemma CausesStep(ops: seq<Operation>, admissible: set<nat>, review: bool, role: Option<string>,
                   n: nat, st: State, v: Verdict)
    requires n < |ops| && CausesSound(admissible, review, role, st) && BlocksSoundly(admissible, v, n)
    requires v.Oust? ==> ops[n].path in st.winners && st.winners[ops[n].path] in admissible
    ensures CausesSound(admissible, review, role, Advance(st, v, n, ops[n].path))
  {
    var st' := Advance(st, v, n, ops[n].path);
    if v.Block? || v.Oust? {
      ClashedAppend(st.blocked, st'.blocked[|st'.blocked| - 1]);
    }
  }

  lemma {:induction false} CausesPass(
      ops: seq<Operation>, admissible: set<nat>, skipped: set<nat>, review: bool, role: Option<string>,
      states: seq<State>, verdicts: seq<Verdict>, n: nat)
    requires IsPass(ops, admissible, skipped, states, verdicts) && n <= |verdicts|
    requires forall k: nat | k < |verdicts| :: BlocksSoundly(admissible, verdicts[k], k)
    requires states[0].review == review && states[0].role == role
    ensures CausesSound(admissible, review, role, states[n])
  {
    if n > 0 {
      CausesPass(ops, admissible, skipped, review, role, states, verdicts, n - 1);
      SoundPass(ops, admissible, skipped, states, verdicts, n - 1);
      assert IsStep(ops, admissible, skipped, states[n - 1], verdicts[n - 1], n - 1, states[n - 1 + 1]);
      CausesStep(ops, admissible, review, role, n - 1, states[n - 1], verdicts[n - 1]);
    }
  }

  /** For every patch: a conflict is what blocks an admissible operation, and review and role follow the clashes. */
  lemma CausesFinal(proposed: Patch, g: Guard)
    ensures CausesSound(AdmissibleSet(proposed.operations, g), proposed.requireReview, proposed.reviewRole,
                        Final(proposed, g))
  {
    var n := |proposed.operations|;
    RunIsPass(proposed, g, n);
    forall k: nat | k < n ensures BlocksSoundly(AdmissibleSet(proposed.operations, g), Verdicts(proposed, g, n)[k], k) {
      assert Verdicts(proposed, g, n)[k] == VerdictAt(proposed, g, k);
    }
    CausesPass(proposed.operations, AdmissibleSet(proposed.operations, g), SkippedSet(proposed, g),
               proposed.requireReview, proposed.reviewRole, States(proposed, g, n), Verdicts(proposed, g, n), n);
  }

  /** An operation lost to a conflict was admissible; on a path of `set`s the operation that ends up applied there is
      not outranked by it. */
  lemma ConflictLosersOutranked(proposed: Patch, g: Guard, b: Blocked)
    requires b in Final(proposed, g).blocked && IsConflict(b.cause)
    ensures var ops, st := proposed.operations, Final(proposed, g);
            && b.index < |ops| && Admissible(ops[b.index], g)
            && (SetOn(ops, ops[b.index].path) ==>
                  && ops[b.index].path in st.winners
                  && st.winners[ops[b.index].path] < |ops|
                  && RankAt(ops, b.index) <= RankAt(ops, st.winners[ops[b.index].path]))
  {
    var n := |proposed.operations|;
    CausesFinal(proposed, g);
    PassInvariant(proposed, g, n);
    assert b.index in BlockedSet(Final(proposed, g).blocked);
    var path := proposed.operations[b.index].path;
    if SetOn(proposed.operations, path) { SetPassInvariant(proposed, g, n, path); }
  }

  // ---- When the applied operation has the highest authority on its path ----

  /** `j` is admissible on `path` and no admissible operation there outranks it. */
  ghost predicate Top(ops: seq<Operation>, g: Guard, path: string, j: nat) {
    && AdmissibleOn(ops, g, path, j)
    && forall k | AdmissibleOn(ops, g, path, k) :: RankAt(ops, k) <= RankAt(ops, j)
  }

  /** The applied operation is a highest-authority one exactly when some highest-authority one escapes the equal-value
      branch. */
  lemma HighestAuthorityAppliedIff(proposed: Patch, g: Guard, path: string)
    requires SetOn(proposed.operations, path) && path in Final(proposed, g).winners
    ensures Top(proposed.operations, g, path, Final(proposed, g).winners[path]) <==>
            exists j :: Top(proposed.operations, g, path, j) && !Skipped(proposed, g, j)
  {
    var ops, st := proposed.operations, Final(proposed, g);
    OneAppliedPerPath(proposed, g, path);
    PassInvariant(proposed, g, |ops|);
    SetPassInvariant(proposed, g, |ops|, path);
    var w := st.winners[path];
    assert w !in SkippedSet(proposed, g);
    forall j | Top(ops, g, path, j) && !Skipped(proposed, g, j) ensures Top(ops, g, path, w) {
      assert j in AdmissibleSet(ops, g) && j !in SkippedSet(proposed, g);
    }
  }

  // ---- Independence of proposal order ----

  /** On `path`, equal values carry equal authority and different values different authority. */
  ghost predicate Coherent(ops: seq<Operation>, g: Guard, path: string) {
    forall i: nat, j: nat | AdmissibleOn(ops, g, path, i) && AdmissibleOn(ops, g, path, j) ::
      PyEq(ops[i].value, ops[j].value) <==> RankAt(ops, i) == RankAt(ops, j)
  }

  /** In a coherent proposal the applied operation on a path is one of highest authority. */
  lemma CoherentAppliesHighest(proposed: Patch, g: Guard, path: string)
    requires SetOn(proposed.operations, path) && Coherent(proposed.operations, g, path)
    requires path in Final(proposed, g).winners
    ensures Top(proposed.operations, g, path, Final(proposed, g).winners[path])
  {
    var ops, st := proposed.operations, Final(proposed, g);
    OneAppliedPerPath(proposed, g, path);
    PassInvariant(proposed, g, |ops|);
    SetPassInvariant(proposed, g, |ops|, path);
    var w := st.winners[path];
    forall k | AdmissibleOn(ops, g, path, k) ensures RankAt(ops, k) <= RankAt(ops, w) {
      assert k in AdmissibleSet(ops, g);
      if k in SkippedSet(proposed, g) {
        var h := HolderNotSkipped(proposed, g, k);
        assert AdmissibleOn(ops, g, path, h) && h in AdmissibleSet(ops, g);
        assert RankAt(ops, h) == RankAt(ops, k);
      }
    }
  }

  /** The operation a repeat repeats was itself applied when read, so it is no repeat. */
  lemma HolderNotSkipped(proposed: Patch, g: Guard, k: nat) returns (h: nat)
    requires k < |proposed.operations| && Skipped(proposed, g, k)
    ensures h < k && AdmissibleOn(proposed.operations, g, proposed.operations[k].path, h)
    ensures PyEq(proposed.operations[k].value, proposed.operations[h].value)
    ensures h !in SkippedSet(proposed, g)
  {
    PassInvariant(proposed, g, k);
    h := Run(proposed, g, k).winners[proposed.operations[k].path];
    assert h in AdmissibleSet(proposed.operations, g);
  }

  lemma FindIn(a: seq<Operation>, b: seq<Operation>, i: nat) returns (j: nat)
    requires multiset(a) == multiset(b) && i < |a|
    ensures j < |b| && b[j] == a[i]
  {
    assert a[i] in multiset(b);
    j :| 0 <= j < |b| && b[j] == a[i];
  }

  /** Rearranging a coherent proposal changes neither which paths are decided nor the values applied to them. */
  lemma OrderIndependent(p: Patch, q: Patch, g: Guard, path: string)
    requires SetOn(p.operations, path) && multiset(p.operations) == multiset(q.operations)
    requires Coherent(p.operations, g, path)
    ensures var P, Q := Final(p, g), Final(q, g);
            && (path in P.winners <==> path in Q.winners)
            && (path in P.winners ==>
                  && PyEq(p.operations[P.winners[path]].value, q.operations[Q.winners[path]].value)
                  && RankAt(p.operations, P.winners[path]) == RankAt(q.operations, Q.winners[path]))
  {
    var P, Q := Final(p, g), Final(q, g);
    forall k | 0 <= k < |q.operations| && q.operations[k].path == path ensures q.operations[k].op == "set" {
      var i := FindIn(q.operations, p.operations, k);
    }
    OneAppliedPerPath(p, g, path);
    OneAppliedPerPath(q, g, path);
    forall i | AdmissibleOn(p.operations, g, path, i) ensures path in Q.winners {
      var j := FindIn(p.operations, q.operations, i);
      assert AdmissibleOn(q.operations, g, path, j);
    }
    forall j | AdmissibleOn(q.operations, g, path, j) ensures path in P.winners {
      var i := FindIn(q.operations, p.operations, j);
      assert AdmissibleOn(p.operations, g, path, i);
    }
    if path in P.winners {
      CoherentCarriesOver(p.operations, q.operations, g, path);
      CoherentAppliesHighest(p, g, path);
      CoherentAppliesHighest(q, g, path);
      var i := FindIn(q.operations, p.operations, Q.winners[path]);
      var j := FindIn(p.operations, q.operations, P.winners[path]);
      assert AdmissibleOn(p.operations, g, path, i) && AdmissibleOn(q.operations, g, path, j);
    }
  }

  lemma CoherentCarriesOver(a: seq<Operation>, b: seq<Operation>, g: Guard, path: string)
    requires multiset(a) == multiset(b) && Coherent(a, g, path)
    ensures Coherent(b, g, path)
  {
    forall i: nat, j: nat | AdmissibleOn(b, g, path, i) && AdmissibleOn(b, g, path, j)
      ensures PyEq(b[i].value, b[j].value) <==> RankAt(b, i) == RankAt(b, j)
    {
      var i' := FindIn(b, a, i);
      var j' := FindIn(b, a, j);
      assert AdmissibleOn(a, g, path, i') && AdmissibleOn(a, g, path, j');
    }
  }

  // ---- The returned patches, and idempotence ----

  datatype Reduction = Reduction(applied: Patch, rejected: Patch, blocked: seq<BlockedOperation>)

  function BlockedOps(ops: seq<Operation>, blocked: seq<Blocked>): (r: seq<BlockedOperation>)
    requires forall b | b in blocked :: b.index < |ops|
    ensures |r| == |blocked|
    ensures forall k :: 0 <= k < |blocked| ==>
            blocked[k].index < |ops| && r[k] == BlockedOperation(ops[blocked[k].index], blocked[k].cause)
  {
    if blocked == [] then []
    else
      assert blocked[0] in blocked;
      assert forall b | b in blocked[1..] :: b in blocked;
      [BlockedOperation(ops[blocked[0].index], blocked[0].cause)] + BlockedOps(ops, blocked[1..])
  }

  function OperationsOf(blocked: seq<BlockedOperation>): seq<Operation> {
    seq(|blocked|, k requires 0 <= k < |blocked| => blocked[k].operation)
  }

  lemma FinalInRange(proposed: Patch, g: Guard, n: nat)
    requires n <= |proposed.operations|
    ensures InRange(proposed.operations, Run(proposed, g, n))
  {
    PassInvariant(proposed, g, n);
    var st := Run(proposed, g, n);
    forall b | b in st.blocked ensures b.index < |proposed.operations| {
      assert b.index in BlockedSet(st.blocked);
    }
  }

  function Reduce(proposed: Patch, g: Guard): Reduction {
    FinalInRange(proposed, g, |proposed.operations|);
    var st := Final(proposed, g);
    var blocked := BlockedOps(proposed.operations, st.blocked);
    Reduction(Patch(Picked(proposed.operations, st.applied), st.review, st.role, proposed.reasons),
              Patch(OperationsOf(blocked), false, None, []),
              blocked)
  }

  ghost function UpTo(n: nat): (r: seq<nat>)
    ensures |r| == n && forall k :: 0 <= k < n ==> r[k] == k
  {
    if n == 0 then [] else UpTo(n - 1) + [n - 1]
  }

  /** What a reduction applies was proposed and is admissible, for every patch. */
  lemma AppliedAdmissible(proposed: Patch, g: Guard, o: Operation)
    requires o in Reduce(proposed, g).applied.operations
    ensures o in proposed.operations && Admissible(o, g)
  {
    var all, st := proposed.operations, Final(proposed, g);
    FinalInRange(proposed, g, |all|);
    PassInvariant(proposed, g, |all|);
    var k :| 0 <= k < |Picked(all, st.applied)| && Picked(all, st.applied)[k] == o;
    assert st.applied[k] in st.applied;
    assert st.applied[k] in AdmissibleSet(all, g);
  }

  /** What a reduction of `set`s applies is admissible and mentions each path once. */
  lemma AppliedUncontested(proposed: Patch, g: Guard)
    requires SetOnly(proposed.operations)
    ensures var ops := Reduce(proposed, g).applied.operations;
            && (forall k | 0 <= k < |ops| :: Admissible(ops[k], g) && ops[k] in proposed.operations)
            && (forall j, k :: 0 <= j < k < |ops| ==> ops[j].path != ops[k].path)
  {
    var all, st := proposed.operations, Final(proposed, g);
    FinalInRange(proposed, g, |all|);
    PassInvariant(proposed, g, |all|);
    var ops := Reduce(proposed, g).applied.operations;
    assert ops == Picked(all, st.applied);
    forall k | 0 <= k < |ops|
      ensures Admissible(ops[k], g) && ops[k] in all && ops[k].path in st.winners
              && st.winners[ops[k].path] == st.applied[k]
    {
      AppliedAdmissible(proposed, g, ops[k]);
      assert st.applied[k] in st.applied;
      SetPassInvariant(proposed, g, |all|, ops[k].path);
    }
  }

  // ---- Reducing the applied patch again ----

  /** The first of the operations of highest authority on the path, among the first `n`. */
  ghost function Leader(ops: seq<Operation>, n: nat, path: string): (l: Option<nat>)
    requires n <= |ops|
    ensures l.Some? ==> l.value < n && ops[l.value].path == path
    ensures l.Some? ==> forall j: nat | j < n && ops[j].path == path :: RankAt(ops, j) <= RankAt(ops, l.value)
    ensures l.Some? ==> forall j: nat | j < l.value && ops[j].path == path :: RankAt(ops, j) < RankAt(ops, l.value)
    ensures l.None? ==> forall j: nat | j < n :: ops[j].path != path
  {
    if n == 0 then None
    else
      var l := Leader(ops, n - 1, path);
      if ops[n - 1].path == path && (l.None? || RankAt(ops, n - 1) > RankAt(ops, l.value)) then Some(n - 1) else l
  }

  /** Operation `k` neither repeats the value of its path's leader nor is in conflict with it. */
  ghost predicate Stands(ops: seq<Operation>, k: nat)
    requires k < |ops|
  {
    match Leader(ops, k, ops[k].path)
    case None => true
    case Some(l) => !PyEq(ops[k].value, ops[l].value) && !Conflict(ops[k], ops[l])
  }

  ghost predicate AllStand(ops: seq<Operation>, n: nat)
    requires n <= |ops|
  {
    forall k | 0 <= k < n :: Stands(ops, k)
  }

  ghost predicate AllAdmissible(ops: seq<Operation>, g: Guard) { forall k | 0 <= k < |ops| :: Admissible(ops[k], g) }

  /** All of the first `n` operations were applied, and each path's leader holds it. */
  ghost predicate TookAll(ops: seq<Operation>, p: Patch, n: nat, st: State)
    requires n <= |ops|
  {
    match st
    case State(applied, blocked, winners, review, role) =>
      && applied == UpTo(n) && blocked == [] && review == p.requireReview && role == p.reviewRole
      && forall path :: Leader(ops, n, path) == if path in winners then Some(winners[path]) else None
  }

  lemma JudgeAdmissible(o: Operation, g: Guard, holder: Option<Operation>)
    requires Admissible(o, g)
    ensures var v := Judge(o, g, holder);
            && (v.Apply? <==> holder.Some? ==> !PyEq(o.value, holder.value.value) && !Conflict(o, holder.value))
            && (v.Apply? ==> (v.holds <==> holder.Some? ==> o.authority.Rank() > holder.value.authority.Rank()))
  {
  }

  lemma TookOneMore(ops: seq<Operation>, p: Patch, n: nat, st: State, holds: bool)
    requires n < |ops| && TookAll(ops, p, n, st)
    requires holds <==> var l := Leader(ops, n, ops[n].path); l.Some? ==> RankAt(ops, n) > RankAt(ops, l.value)
    ensures TookAll(ops, p, n + 1, Advance(st, Apply(holds), n, ops[n].path))
  {
    var st' := Advance(st, Apply(holds), n, ops[n].path);
    forall path ensures Leader(ops, n + 1, path) == if path in st'.winners then Some(st'.winners[path]) else None {
      assert Leader(ops, n, path) == if path in st.winners then Some(st.winners[path]) else None;
    }
  }

  lemma StandsApplies(p: Patch, g: Guard, n: nat)
    requires n < |p.operations| && AllAdmissible(p.operations, g)
    requires TookAll(p.operations, p, n, Run(p, g, n))
    ensures VerdictAt(p, g, n).Apply? <==> Stands(p.operations, n)
    ensures VerdictAt(p, g, n).Apply? ==> TookAll(p.operations, p, n + 1, Run(p, g, n + 1))
  {
    var ops, st, v := p.operations, Run(p, g, n), VerdictAt(p, g, n);
    var path := ops[n].path;
    var l := Leader(ops, n, path);
    assert l == if path in st.winners then Some(st.winners[path]) else None;
    JudgeAdmissible(ops[n], g, Holder(ops, st, path));
    if v.Apply? { TookOneMore(ops, p, n, st, v.holds); }
  }

  ghost predicate TookRun(p: Patch, g: Guard, n: nat) {
    match p
    case Patch(ops, _, _, _) => n <= |ops| && TookAll(ops, p, n, Run(p, g, n))
  }

  lemma StandsNext(p: Patch, g: Guard, n: nat)
    requires n < |p.operations| && AllAdmissible(p.operations, g) && Stands(p.operations, n) && TookRun(p, g, n)
    ensures TookRun(p, g, n + 1)
  {
    StandsApplies(p, g, n);
  }

  lemma TookNone(p: Patch, g: Guard)
    ensures TookRun(p, g, 0)
  {
  }

  lemma StandsRun(p: Patch, g: Guard, n: nat)
    requires n <= |p.operations| && AllAdmissible(p.operations, g) && AllStand(p.operations, n)
    ensures TookRun(p, g, n)
  {
    var P := (k: nat) => TookRun(p, g, k);
    assert P(0) by { TookNone(p, g); }
    forall k: nat, m: nat | k < m <= n && m == k + 1 && P(k) ensures P(m) { StandsNext(p, g, k); }
    Inductively(P, n);
  }

  lemma {:induction false} DropShorter(s: seq<nat>, x: nat)
    ensures |Drop(s, x)| <= |s| && (x in s ==> |Drop(s, x)| < |s|)
  {
    if s != [] { DropShorter(s[1..], x); }
  }

  lemma GrowsByApplying(p: Patch, g: Guard, n: nat)
    requires n < |p.operations|
    ensures |Run(p, g, n + 1).applied| <= |Run(p, g, n).applied| + if VerdictAt(p, g, n).Apply? then 1 else 0
  {
    PassInvariant(p, g, n);
    VerdictFacts(p, g, n);
    var st := Run(p, g, n);
    if VerdictAt(p, g, n).Oust? { DropShorter(st.applied, st.winners[p.operations[n].path]); }
  }

  /** As many are applied as were read only if each was. */
  lemma {:induction false} AppliedCount(p: Patch, g: Guard, n: nat)
    requires n <= |p.operations|
    ensures CountedAt(p, g, n)
  {
    if n > 0 {
      AppliedCount(p, g, n - 1);
      CountedNext(p, g, n - 1);
    }
  }

  ghost predicate CountedAt(p: Patch, g: Guard, n: nat)
    requires n <= |p.operations|
  {
    match Run(p, g, n)
    case State(applied, _, _, _, _) =>
      |applied| <= n && (|applied| == n ==> forall k | 0 <= k < n :: VerdictAt(p, g, k).Apply?)
  }

  lemma CountedNext(p: Patch, g: Guard, n: nat)
    requires n < |p.operations| && CountedAt(p, g, n)
    ensures CountedAt(p, g, n + 1)
  {
    GrowsByApplying(p, g, n);
  }

  lemma {:induction false} AppliedStands(p: Patch, g: Guard, n: nat, k: nat)
    requires k < n <= |p.operations| && AllAdmissible(p.operations, g)
    requires forall j | 0 <= j < n :: VerdictAt(p, g, j).Apply?
    ensures Stands(p.operations, k)
    decreases k
  {
    forall j: nat | j < k ensures Stands(p.operations, j) { AppliedStands(p, g, n, j); }
    StandsRun(p, g, k);
    StandsApplies(p, g, k);
  }

  /** A patch of admissible operations is its own reduction, with nothing blocked, iff every operation stands. */
  lemma SelfReducedIff(p: Patch, g: Guard)
    requires AllAdmissible(p.operations, g)
    ensures Reduce(p, g) == Reduction(p, EMPTY_PATCH, []) <==>
            AllStand(p.operations, |p.operations|)
  {
    var n := |p.operations|;
    FinalInRange(p, g, n);
    assert OperationsOf([]) == [];
    if AllStand(p.operations, n) {
      StandsRun(p, g, n);
      assert Picked(p.operations, UpTo(n)) == p.operations;
    } else if Reduce(p, g) == Reduction(p, EMPTY_PATCH, []) {
      assert |Reduce(p, g).applied.operations| == |Final(p, g).applied|;
      AppliedCount(p, g, n);
      forall k: nat | k < n ensures Stands(p.operations, k) { AppliedStands(p, g, n, k); }
    }
  }

  /** For every patch: reducing the applied patch again returns it unchanged, with nothing blocked, iff each applied
      operation stands among the applied ones. */
  lemma ReduceIdempotentIff(proposed: Patch, g: Guard)
    ensures var a := Reduce(proposed, g).applied;
            Reduce(a, g) == Reduction(a, EMPTY_PATCH, []) <==>
            forall k | 0 <= k < |a.operations| :: Stands(a.operations, k)
  {
    var a := Reduce(proposed, g).applied;
    forall k | 0 <= k < |a.operations| ensures Admissible(a.operations[k], g) {
      AppliedAdmissible(proposed, g, a.operations[k]);
    }
    SelfReducedIff(a, g);
  }

  /** So it does for a patch of `set`s. */
  lemma ReduceIdempotent(proposed: Patch, g: Guard)
    requires SetOnly(proposed.operations)
    ensures var again := Reduce(Reduce(proposed, g).applied, g);
            again == Reduction(Reduce(proposed, g).applied, EMPTY_PATCH, [])
  {
    AppliedUncontested(proposed, g);
    ReduceIdempotentIff(proposed, g);
  }

  /** No applied operation leaves the allowed paths, touches an immutable one, breaks a bound, or overrides a stronger
      human decision. */
  lemma AppliedRespectsGuard(proposed: Patch, g: Guard, o: Operation)
    requires o in Reduce(proposed, g).applied.operations
    ensures o in proposed.operations
    ensures g.caps.allowed != {} ==> o.path in g.caps.allowed || HeadOf(o.path) + ".*" in g.caps.allowed
    ensures o.path !in g.caps.immutable
    ensures o.path in g.human ==> g.human[o.path].Rank() <= o.authority.Rank()
    ensures o.path in g.caps.constraints && Numeric(o.value).Some? ==>
              var v, b := Numeric(o.value).value, g.caps.constraints[o.path];
              (b.minimum.Some? ==> b.minimum.value <= v) && (b.maximum.Some? ==> v <= b.maximum.value)
  {
    AppliedAdmissible(proposed, g, o);
  }

  // ---- What becomes of each operation, in terms of the capabilities and the human decisions ----

  /** Strongest first. */
  lemma AuthorityOrder()
    ensures SafetyGuard.Rank() > AuthoritativeValidator.Rank() > HumanDecision.Rank() > ApprovedPolicy.Rank()
    ensures ApprovedPolicy.Rank() > EngineNative.Rank() > LlmProposal.Rank()
  {
  }

  /** The allow list names the path, or everything below what stands before the path's first dot. */
  ghost predicate Listed(path: string, allowed: set<string>) {
    path in allowed ||
    exists head: string, rest: string {:trigger head + rest} ::
      path == head + rest && '.' !in head && (rest == "" || rest[0] == '.') && head + ".*" in allowed
  }

  /** The capabilities forbid the operation: its path is immutable, or there is an allow list without it, or its number
      is strictly below the path's minimum or strictly above its maximum. */
  ghost predicate Forbidden(o: Operation, caps: Capabilities) {
    || o.path in caps.immutable
    || (caps.allowed != {} && !Listed(o.path, caps.allowed))
    || (o.path in caps.constraints &&
          exists x | IsNumber(o.value, x) ::
            || (caps.constraints[o.path].minimum.Some? && x < caps.constraints[o.path].minimum.value)
            || (caps.constraints[o.path].maximum.Some? && x > caps.constraints[o.path].maximum.value))
  }

  /** The human decision recorded for the operation's path is of authority `a` and strictly outranks the operation. */
  ghost predicate Withheld(o: Operation, human: map<string, Authority>, a: Authority) {
    o.path in human && human[o.path] == a && a.Rank() > o.authority.Rank()
  }

  /** Two `set`s of one path with different values, the other one of the given standing. */
  ghost predicate LosesTo(o: Operation, other: Operation, sameRank: bool) {
    && o.op == "set" && other.op == "set" && o.path == other.path && !PyEq(o.value, other.value)
    && if sameRank then other.authority.Rank() == o.authority.Rank() else other.authority.Rank() > o.authority.Rank()
  }

  lemma {:induction false} HeadSplits(path: string)
    ensures HeadOf(path) <= path && '.' !in HeadOf(path)
    ensures path[|HeadOf(path)|..] == "" || path[|HeadOf(path)|..][0] == '.'
  {
    if path != "" && path[0] != '.' {
      HeadSplits(path[1..]);
      assert path[|HeadOf(path)|..] == path[1..][|HeadOf(path[1..])|..];
    }
  }

  lemma {:induction false} HeadUnique(head: string, rest: string)
    requires '.' !in head && (rest == "" || rest[0] == '.')
    ensures HeadOf(head + rest) == head
  {
    if head == "" {
      assert head + rest == rest;
    } else {
      assert (head + rest)[1..] == head[1..] + rest;
      HeadUnique(head[1..], rest);
    }
  }

  lemma ListedIff(path: string, allowed: set<string>)
    ensures Listed(path, allowed) <==> path in allowed || HeadOf(path) + ".*" in allowed
  {
    HeadSplits(path);
    var head, rest := HeadOf(path), path[|HeadOf(path)|..];
    assert path == head + rest;
    forall h: string, r: string {:trigger h + r} | path == h + r && '.' !in h && (r == "" || r[0] == '.')
      ensures h == HeadOf(path)
    {
      HeadUnique(h, r);
    }
  }

  lemma NumericIff(v: Value)
    ensures forall x :: IsNumber(v, x) <==> Numeric(v) == Some(x)
  {
  }

  /** The source's admission test in these terms. */
  lemma ForbiddenIff(o: Operation, g: Guard)
    ensures Allowed(o, g.caps) <==> !Forbidden(o, g.caps)
    ensures Overruled(o, g.human) <==> exists a :: Withheld(o, g.human, a)
  {
    ListedIff(o.path, g.caps.allowed);
    NumericIff(o.value);
    if Numeric(o.value).Some? { assert IsNumber(o.value, Numeric(o.value).value); }
    if Overruled(o, g.human) { assert Withheld(o, g.human, g.human[o.path]); }
  }

  ghost predicate Has(blocked: seq<Blocked>, j: nat, cause: BlockReason) { Blocked(j, cause) in blocked }

  /** The cause, other than a conflict, for which the operation is blocked. */
  ghost function Cause(o: Operation, g: Guard): Option<BlockReason> {
    if Forbidden(o, g.caps) then Some(Capability)
    else if o.path in g.human && Withheld(o, g.human, g.human[o.path]) then Some(Human(g.human[o.path]))
    else None
  }

  ghost predicate Loses(ops: seq<Operation>, j: nat, n: nat, sameRank: bool)
    requires j < |ops| && n <= |ops|
  {
    exists i: nat :: i < n && LosesTo(ops[j], ops[i], sameRank)
  }

  /** What it means, of the first `n` operations, that `j` is recorded as blocked for `cause`, or is not. */
  ghost predicate Told(ops: seq<Operation>, g: Guard, n: nat, j: nat, cause: BlockReason, recorded: bool)
    requires n <= |ops|
  {
    if IsConflict(cause) then recorded ==> j < n && Loses(ops, j, n, cause == SameAuthorityConflict)
    else recorded <==> j < n && Cause(ops[j], g) == Some(cause)
  }

  ghost predicate CausesTold(ops: seq<Operation>, g: Guard, n: nat, st: State)
    requires n <= |ops|
  {
    match st
    case State(_, blocked, _, _, _) => forall j: nat, c :: Told(ops, g, n, j, c, Has(blocked, j, c))
  }

  lemma HasAppend(blocked: seq<Blocked>, b: Blocked, j: nat, c: BlockReason)
    ensures Has(blocked + [b], j, c) <==> Has(blocked, j, c) || b == Blocked(j, c)
  {
  }

  /** What the verdict says about the operation, in these terms. */
  lemma JudgeTells(o: Operation, g: Guard, holder: Option<Operation>)
    ensures var v := Judge(o, g, holder);
            && (Cause(o, g).Some? <==> v.Block? && !IsConflict(v.cause))
            && (Cause(o, g).Some? ==> v == Block(Cause(o, g).value))
            && (v == Block(ConflictResolution) ==> holder.Some? && LosesTo(o, holder.value, false))
            && (v == Block(SameAuthorityConflict) ==> holder.Some? && LosesTo(o, holder.value, true))
            && (v.Oust? ==> holder.Some? && LosesTo(holder.value, o, false))
  {
    ForbiddenIff(o, g);
  }

  lemma ToldNext(ops: seq<Operation>, g: Guard, n: nat, j: nat, c: BlockReason, before: bool, b: Option<Blocked>)
    requires n < |ops| && Told(ops, g, n, j, c, before)
    requires Cause(ops[n], g).Some? ==> b == Some(Blocked(n, Cause(ops[n], g).value))
    requires Cause(ops[n], g).None? && b.Some? ==>
               && IsConflict(b.value.cause) && b.value.index <= n
               && Loses(ops, b.value.index, n + 1, b.value.cause == SameAuthorityConflict)
    ensures Told(ops, g, n + 1, j, c, before || b == Some(Blocked(j, c)))
  {
    if IsConflict(c) && before { assert Loses(ops, j, n + 1, c == SameAuthorityConflict); }
  }

  lemma CausesNext(proposed: Patch, g: Guard, n: nat)
    requires n < |proposed.operations| && CausesTold(proposed.operations, g, n, Run(proposed, g, n))
    ensures CausesTold(proposed.operations, g, n + 1, Run(proposed, g, n + 1))
  {
    var ops, st, st' := proposed.operations, Run(proposed, g, n), Run(proposed, g, n + 1);
    var b := NewlyBlocked(proposed, g, n);
    forall j: nat, c ensures Told(ops, g, n + 1, j, c, Has(st'.blocked, j, c)) {
      ToldNext(ops, g, n, j, c, Has(st.blocked, j, c), b);
      if b.Some? { HasAppend(st.blocked, b.value, j, c); }
    }
  }

  /** What operation `n` adds to the blocked list. */
  lemma NewlyBlocked(proposed: Patch, g: Guard, n: nat) returns (b: Option<Blocked>)
    requires n < |proposed.operations|
    ensures var ops := proposed.operations;
            && Run(proposed, g, n + 1).blocked == Run(proposed, g, n).blocked + (if b.Some? then [b.value] else [])
            && (b.None? ==> Run(proposed, g, n + 1).blocked == Run(proposed, g, n).blocked)
            && (Cause(ops[n], g).Some? ==> b == Some(Blocked(n, Cause(ops[n], g).value)))
            && (Cause(ops[n], g).None? && b.Some? ==>
                  && IsConflict(b.value.cause) && b.value.index <= n
                  && Loses(ops, b.value.index, n + 1, b.value.cause == SameAuthorityConflict))
  {
    var ops, st, v, path := proposed.operations, Run(proposed, g, n), VerdictAt(proposed, g, n),
                            proposed.operations[n].path;
    JudgeTells(ops[n], g, Holder(ops, st, path));
    HolderBefore(proposed, g, n, path);
    b := if v.Block? then Some(Blocked(n, v.cause))
         else if v.Oust? then Some(Blocked(st.winners[path], ConflictResolution)) else None;
    if b.Some? && IsConflict(b.value.cause) {
      var other := if v.Oust? then n else st.winners[path];
      assert LosesTo(ops[b.value.index], ops[other], b.value.cause == SameAuthorityConflict);
    }
  }

  lemma HolderBefore(proposed: Patch, g: Guard, n: nat, path: string)
    requires n <= |proposed.operations|
    ensures path in Run(proposed, g, n).winners ==> Run(proposed, g, n).winners[path] < n
  {
    PassInvariant(proposed, g, n);
  }

  lemma CausesAll(proposed: Patch, g: Guard)
    ensures CausesTold(proposed.operations, g, |proposed.operations|, Final(proposed, g))
  {
    var ops, n := proposed.operations, |proposed.operations|;
    var states := States(proposed, g, n);
    var P := (st: State, k: nat) => k <= |ops| && CausesTold(ops, g, k, st);
    assert P(states[0], 0) by { NothingTold(ops, g, states[0]); }
    forall k: nat, m: nat | k < m <= n && m == k + 1 && P(states[k], k) ensures P(states[m], m) {
      assert states[k] == Run(proposed, g, k) && states[m] == Run(proposed, g, m);
      CausesNext(proposed, g, k);
    }
    StatesHave(P, states, n);
  }

  lemma NothingTold(ops: seq<Operation>, g: Guard, st: State)
    requires st.blocked == []
    ensures CausesTold(ops, g, 0, st)
  {
    forall j: nat, c ensures Told(ops, g, 0, j, c, Has(st.blocked, j, c)) { assert !Has(st.blocked, j, c); }
  }

  /** Operation `n` is neither forbidden nor withheld. */
  ghost predicate Quiet(o: Operation, g: Guard) {
    !Forbidden(o, g.caps) && forall a :: !Withheld(o, g.human, a)
  }

  /** An earlier operation that is neither forbidden nor withheld has the same path and value. */
  ghost predicate RepeatsAt(ops: seq<Operation>, g: Guard, j: nat) {
    j < |ops| && exists i: nat :: i < j && ops[i].path == ops[j].path && PyEq(ops[i].value, ops[j].value)
                                  && Quiet(ops[i], g)
  }

  ghost predicate BlockedBy(r: Reduction, o: Operation, cause: BlockReason) { BlockedOperation(o, cause) in r.blocked }

  ghost predicate LosesAmong(ops: seq<Operation>, o: Operation, sameRank: bool) {
    exists other | other in ops :: LosesTo(o, other, sameRank)
  }

  /** What the reducer promises of its result: what the capabilities forbid is blocked by them, what a human decision
      withholds by that decision, and only these; every other operation is applied, repeats an earlier one, or lost
      against a `set` of its path with another value: a stronger one, or one of its own authority; of the latter kind
      there are some iff review is asked for on their account, by the steward unless a role is named. */
  ghost predicate Promised(proposed: Patch, g: Guard, r: Reduction) {
    match proposed
    case Patch(ops, review, role, reasons) =>
      && (forall o :: BlockedBy(r, o, Capability) <==> o in ops && Forbidden(o, g.caps))
      && (forall o, a :: BlockedBy(r, o, Human(a)) <==> o in ops && !Forbidden(o, g.caps) && Withheld(o, g.human, a))
      && (forall o | BlockedBy(r, o, ConflictResolution) :: o in ops && Quiet(o, g) && LosesAmong(ops, o, false))
      && (forall o | BlockedBy(r, o, SameAuthorityConflict) :: o in ops && Quiet(o, g) && LosesAmong(ops, o, true))
      && (forall o | o in r.applied.operations :: o in ops && Quiet(o, g))
      && (forall j: nat | j < |ops| && Quiet(ops[j], g) :: Survives(ops, g, j, r))
      && r.rejected.operations == OperationsOf(r.blocked) && r.applied.reasons == reasons
      && (r.applied.requireReview <==> review || Clashes(r))
      && r.applied.reviewRole == if Clashes(r) && (role.None? || role.value == "") then Some("steward") else role
  }

  ghost predicate Survives(ops: seq<Operation>, g: Guard, j: nat, r: Reduction)
    requires j < |ops|
  {
    || ops[j] in r.applied.operations || RepeatsAt(ops, g, j)
    || BlockedBy(r, ops[j], ConflictResolution) || BlockedBy(r, ops[j], SameAuthorityConflict)
  }

  ghost predicate Clashes(r: Reduction) { exists o :: BlockedBy(r, o, SameAuthorityConflict) }

  lemma BlockedOpsHas(ops: seq<Operation>, blocked: seq<Blocked>, o: Operation, cause: BlockReason)
    requires forall b | b in blocked :: b.index < |ops|
    ensures BlockedOperation(o, cause) in BlockedOps(ops, blocked) <==>
            exists j: nat :: j < |ops| && ops[j] == o && Has(blocked, j, cause)
  {
    var r := BlockedOps(ops, blocked);
    if BlockedOperation(o, cause) in r {
      var x :| 0 <= x < |r| && r[x] == BlockedOperation(o, cause);
      assert blocked[x] == Blocked(blocked[x].index, cause);
      assert Has(blocked, blocked[x].index, cause);
    }
    if j: nat :| j < |ops| && ops[j] == o && Has(blocked, j, cause) {
      var x :| 0 <= x < |blocked| && blocked[x] == Blocked(j, cause);
      assert r[x] == BlockedOperation(o, cause);
    }
  }

  lemma BlockedByIff(proposed: Patch, g: Guard, o: Operation, cause: BlockReason)
    ensures BlockedBy(Reduce(proposed, g), o, cause) <==>
            exists j: nat :: j < |proposed.operations| && proposed.operations[j] == o
                             && Has(Final(proposed, g).blocked, j, cause)
  {
    FinalInRange(proposed, g, |proposed.operations|);
    BlockedOpsHas(proposed.operations, Final(proposed, g).blocked, o, cause);
  }

  lemma QuietIff(o: Operation, g: Guard)
    ensures Quiet(o, g) <==> Admissible(o, g)
  {
    ForbiddenIff(o, g);
  }

  /** The causes. */
  lemma PromisedCauses(proposed: Patch, g: Guard)
    ensures var ops, r := proposed.operations, Reduce(proposed, g);
            && (forall o :: BlockedBy(r, o, Capability) <==> o in ops && Forbidden(o, g.caps))
            && (forall o, a :: BlockedBy(r, o, Human(a)) <==>
                                 o in ops && !Forbidden(o, g.caps) && Withheld(o, g.human, a))
  {
    var ops, r := proposed.operations, Reduce(proposed, g);
    forall o ensures BlockedBy(r, o, Capability) <==> o in ops && Forbidden(o, g.caps) {
      BlockedCause(proposed, g, o, Capability);
    }
    forall o, a ensures BlockedBy(r, o, Human(a)) <==> o in ops && !Forbidden(o, g.caps) && Withheld(o, g.human, a) {
      BlockedCause(proposed, g, o, Human(a));
    }
  }

  lemma BlockedCause(proposed: Patch, g: Guard, o: Operation, cause: BlockReason)
    requires !IsConflict(cause)
    ensures BlockedBy(Reduce(proposed, g), o, cause) <==> o in proposed.operations && Cause(o, g) == Some(cause)
  {
    var ops, blocked := proposed.operations, Final(proposed, g).blocked;
    CausesAll(proposed, g);
    BlockedByIff(proposed, g, o, cause);
    forall j: nat ensures Has(blocked, j, cause) <==> j < |ops| && Cause(ops[j], g) == Some(cause) {
      assert Told(ops, g, |ops|, j, cause, Has(blocked, j, cause));
    }
  }

  lemma PromisedConflict(proposed: Patch, g: Guard, o: Operation, sameRank: bool)
    requires BlockedBy(Reduce(proposed, g), o, if sameRank then SameAuthorityConflict else ConflictResolution)
    ensures o in proposed.operations && Quiet(o, g) && LosesAmong(proposed.operations, o, sameRank)
  {
    var cause := if sameRank then SameAuthorityConflict else ConflictResolution;
    var ops, st := proposed.operations, Final(proposed, g);
    CausesAll(proposed, g);
    BlockedByIff(proposed, g, o, cause);
    var j: nat :| j < |ops| && ops[j] == o && Has(st.blocked, j, cause);
    assert Told(ops, g, |ops|, j, cause, Has(st.blocked, j, cause));
    CausesFinal(proposed, g);
    assert Blocked(j, cause) in st.blocked;
    assert j in AdmissibleSet(ops, g);
    QuietIff(o, g);
  }

  lemma PromisedFate(proposed: Patch, g: Guard, j: nat)
    requires j < |proposed.operations| && Quiet(proposed.operations[j], g)
    ensures Survives(proposed.operations, g, j, Reduce(proposed, g))
  {
    var ops, st := proposed.operations, Final(proposed, g);
    FinalInRange(proposed, g, |ops|);
    QuietIff(ops[j], g);
    EveryOperationAccounted(proposed, g, j);
    if j in st.applied {
      var x :| 0 <= x < |st.applied| && st.applied[x] == j;
      assert Reduce(proposed, g).applied.operations[x] == ops[j];
    } else if Skipped(proposed, g, j) {
      var h := HolderNotSkipped(proposed, g, j);
      QuietIff(ops[h], g);
    } else {
      var x: nat :| x < |st.blocked| && st.blocked[x].index == j;
      CausesFinal(proposed, g);
      assert st.blocked[x] in st.blocked && j in AdmissibleSet(ops, g);
      assert Has(st.blocked, j, st.blocked[x].cause);
      BlockedByIff(proposed, g, ops[j], st.blocked[x].cause);
    }
  }

  lemma ClashedHas(blocked: seq<Blocked>)
    ensures Clashed(blocked) <==> exists j: nat :: Has(blocked, j, SameAuthorityConflict)
  {
    if b :| b in blocked && b.cause == SameAuthorityConflict { assert Has(blocked, b.index, SameAuthorityConflict); }
    if j: nat :| Has(blocked, j, SameAuthorityConflict) { assert Blocked(j, SameAuthorityConflict) in blocked; }
  }

  lemma ClashIff(proposed: Patch, g: Guard)
    ensures Clashed(Final(proposed, g).blocked) <==> Clashes(Reduce(proposed, g))
  {
    var ops, blocked, r := proposed.operations, Final(proposed, g).blocked, Reduce(proposed, g);
    CausesAll(proposed, g);
    ClashedHas(blocked);
    if j: nat :| Has(blocked, j, SameAuthorityConflict) {
      assert Told(ops, g, |ops|, j, SameAuthorityConflict, true);
      BlockedByIff(proposed, g, ops[j], SameAuthorityConflict);
    }
    if o :| BlockedBy(r, o, SameAuthorityConflict) { BlockedByIff(proposed, g, o, SameAuthorityConflict); }
  }

  lemma ReductionPromised(proposed: Patch, g: Guard)
    ensures Promised(proposed, g, Reduce(proposed, g))
  {
    var ops, r := proposed.operations, Reduce(proposed, g);
    PromisedCauses(proposed, g);
    forall o | BlockedBy(r, o, ConflictResolution) ensures o in ops && Quiet(o, g) && LosesAmong(ops, o, false) {
      PromisedConflict(proposed, g, o, false);
    }
    forall o | BlockedBy(r, o, SameAuthorityConflict) ensures o in ops && Quiet(o, g) && LosesAmong(ops, o, true) {
      PromisedConflict(proposed, g, o, true);
    }
    forall o | o in r.applied.operations ensures o in ops && Quiet(o, g) {
      AppliedAdmissible(proposed, g, o);
      QuietIff(o, g);
    }
    forall j: nat | j < |ops| && Quiet(ops[j], g) ensures Survives(ops, g, j, r) { PromisedFate(proposed, g, j); }
    CausesFinal(proposed, g);
    ClashIff(proposed, g);
  }

  // ---- The loop itself ----

  /** `PatchReducer.reduce`: operation objects are referred to by their position in the proposal. */
  method ReducePatch(proposed: Patch, g: Guard) returns (r: Reduction)
    ensures r == Reduce(proposed, g)
    ensures Promised(proposed, g, r)
  {
    var ops := proposed.operations;
    var applied: seq<nat>, blocked: seq<Blocked> := [], [];
    var pathHolder: map<string, nat> := map[];
    var review, role := proposed.requireReview, proposed.reviewRole;
    for k := 0 to |ops|
      invariant State(applied, blocked, pathHolder, review, role) == Run(proposed, g, k)
    {
      var o := ops[k];
      if !Allowed(o, g.caps) {
        blocked := blocked + [Blocked(k, Capability)];
        continue;
      }
      if o.path in g.human && g.human[o.path].Rank() > o.authority.Rank() {
        blocked := blocked + [Blocked(k, Human(g.human[o.path]))];
        continue;
      }
      if o.path in pathHolder {
        var w := pathHolder[o.path];
        if Conflict(o, ops[w]) {
          if o.authority.Rank() > ops[w].authority.Rank() {
            applied := Drop(applied, w);
            blocked := blocked + [Blocked(w, ConflictResolution)];
            applied := applied + [k];
            pathHolder := pathHolder[o.path := k];
          } else if o.authority.Rank() < ops[w].authority.Rank() {
            blocked := blocked + [Blocked(k, ConflictResolution)];
          } else {
            blocked := blocked + [Blocked(k, SameAuthorityConflict)];
            review, role := true, OrSteward(role);
          }
        } else if !PyEq(o.value, ops[w].value) {
          applied := applied + [k];
          if o.authority.Rank() > ops[w].authority.Rank() {
            pathHolder := pathHolder[o.path := k];
          }
        }
      } else {
        applied := applied + [k];
        pathHolder := pathHolder[o.path := k];
      }
    }
    FinalInRange(proposed, g, |ops|);
    var blockedOps := BlockedOps(ops, blocked);
    r := Reduction(Patch(Picked(ops, applied), review, role, proposed.reasons),
                   Patch(OperationsOf(blockedOps), false, None, []), blockedOps);
    ReductionPromised(proposed, g);
  }

  // ---- Proposals of one authority ----

  ghost predicate OneRank(ops: seq<Operation>, rank: int) {
    forall k | 0 <= k < |ops| :: RankAt(ops, k) == rank
  }

  ghost predicate FirstOn(ops: seq<Operation>, g: Guard, path: string, j: nat) {
    AdmissibleOn(ops, g, path, j) && forall i: nat | AdmissibleOn(ops, g, path, i) :: j <= i
  }

  /** Two admissible operations on one path, among the first `n`, ask for different values. */
  ghost predicate Disagreement(ops: seq<Operation>, g: Guard, n: nat) {
    exists i: nat, j: nat, path ::
      i < j < n && AdmissibleOn(ops, g, path, i) && AdmissibleOn(ops, g, path, j) && !PyEq(ops[i].value, ops[j].value)
  }

  /** One step: the holder stays, and a clash is recorded exactly for a value that differs from the holder's. */
  lemma OneRankStep(proposed: Patch, g: Guard, n: nat, rank: int)
    requires n < |proposed.operations| && SetOnly(proposed.operations) && OneRank(proposed.operations, rank)
    ensures var ops, st, st' := proposed.operations, Run(proposed, g, n), Run(proposed, g, n + 1);
            var p := ops[n].path;
            && (forall q | q in st.winners :: q in st'.winners && st'.winners[q] == st.winners[q])
            && (forall q | q in st'.winners && q !in st.winners ::
                  q == p && Admissible(ops[n], g) && st'.winners[q] == n)
            && (Clashed(st'.blocked) <==>
                  (Clashed(st.blocked) ||
                   (Admissible(ops[n], g) && p in st.winners && !PyEq(ops[n].value, ops[st.winners[p]].value))))
  {
    var ops, st := proposed.operations, Run(proposed, g, n);
    var v := VerdictAt(proposed, g, n);
    VerdictFacts(proposed, g, n);
    PassInvariant(proposed, g, n);
    SetVerdictFacts(proposed, g, n);
    var st' := Run(proposed, g, n + 1);
    if v.Block? { ClashedAppend(st.blocked, st'.blocked[|st'.blocked| - 1]); }
  }

  /** A disagreement that operation `n` brings is one with the first admissible value of its path. */
  lemma NewDisagreement(ops: seq<Operation>, g: Guard, n: nat, first: map<string, nat>)
    requires n < |ops|
    requires forall p | p in first :: first[p] < n && FirstOn(ops, g, p, first[p])
    requires forall p, i: nat | i < n && AdmissibleOn(ops, g, p, i) :: p in first
    requires Disagreement(ops, g, n + 1) && !Disagreement(ops, g, n)
    ensures Admissible(ops[n], g) && ops[n].path in first && !PyEq(ops[n].value, ops[first[ops[n].path]].value)
  {
    var i: nat, j: nat, q :| i < j < n + 1 && AdmissibleOn(ops, g, q, i) && AdmissibleOn(ops, g, q, j)
      && !PyEq(ops[i].value, ops[j].value);
    assert j == n && q in first;
    var w := first[q];
    assert w <= i && AdmissibleOn(ops, g, q, w);
    assert PyEq(ops[w].value, ops[i].value);
  }

  /** Given the first admissible operation of every path so far, one more operation adds a disagreement iff it differs
      from it. */
  lemma DisagreementStep(ops: seq<Operation>, g: Guard, n: nat, first: map<string, nat>)
    requires n < |ops|
    requires forall p | p in first :: first[p] < n && FirstOn(ops, g, p, first[p])
    requires forall p, i: nat | i < n && AdmissibleOn(ops, g, p, i) :: p in first
    ensures Disagreement(ops, g, n + 1) <==>
              (Disagreement(ops, g, n) ||
                (Admissible(ops[n], g) && ops[n].path in first && !PyEq(ops[n].value, ops[first[ops[n].path]].value)))
  {
    var p := ops[n].path;
    if Admissible(ops[n], g) && p in first && !PyEq(ops[n].value, ops[first[p]].value) {
      assert AdmissibleOn(ops, g, p, n) && AdmissibleOn(ops, g, p, first[p]);
    }
    if Disagreement(ops, g, n + 1) && !Disagreement(ops, g, n) { NewDisagreement(ops, g, n, first); }
  }

  lemma AdmissibleMeansHeld(proposed: Patch, g: Guard, n: nat)
    requires n <= |proposed.operations| && SetOnly(proposed.operations)
    ensures forall p, i: nat | i < n && AdmissibleOn(proposed.operations, g, p, i) :: p in Run(proposed, g, n).winners
  {
    forall p, i: nat | i < n && AdmissibleOn(proposed.operations, g, p, i) ensures p in Run(proposed, g, n).winners {
      SetPassInvariant(proposed, g, n, p);
      assert i in AdmissibleSet(proposed.operations, g);
    }
  }

  /** The holder of a path is its first admissible operation, and a clash means exactly that two of them disagree. */
  ghost predicate FirstHolds(ops: seq<Operation>, g: Guard, n: nat, st: State) {
    match st
    case State(_, blocked, winners, _, _) =>
      && (forall p | p in winners :: winners[p] < n && FirstOn(ops, g, p, winners[p]))
      && (Clashed(blocked) <==> Disagreement(ops, g, n))
  }

  lemma FirstHoldsNext(proposed: Patch, g: Guard, n: nat, rank: int)
    requires n < |proposed.operations| && SetOnly(proposed.operations) && OneRank(proposed.operations, rank)
    requires FirstHolds(proposed.operations, g, n, Run(proposed, g, n))
    ensures FirstHolds(proposed.operations, g, n + 1, Run(proposed, g, n + 1))
  {
    AdmissibleMeansHeld(proposed, g, n);
    DisagreementStep(proposed.operations, g, n, Run(proposed, g, n).winners);
    FirstHoldsStep(proposed, g, n, rank);
  }

  lemma NoneHolds(ops: seq<Operation>, g: Guard, st: State)
    requires st.winners == map[] && st.blocked == []
    ensures FirstHolds(ops, g, 0, st)
  {
  }

  lemma OneRankRun(proposed: Patch, g: Guard, n: nat, rank: int)
    requires n <= |proposed.operations| && SetOnly(proposed.operations) && OneRank(proposed.operations, rank)
    ensures FirstHolds(proposed.operations, g, n, Run(proposed, g, n))
  {
    var ops, states := proposed.operations, States(proposed, g, n);
    var P := (st: State, k: nat) => FirstHolds(ops, g, k, st);
    NoneHolds(ops, g, states[0]);
    forall k: nat, m: nat | k < m <= n && m == k + 1 && P(states[k], k) ensures P(states[m], m) {
      FirstHoldsNext(proposed, g, k, rank);
    }
    StatesHave(P, states, n);
  }

  lemma FirstHoldsStep(proposed: Patch, g: Guard, n: nat, rank: int)
    requires n < |proposed.operations| && SetOnly(proposed.operations) && OneRank(proposed.operations, rank)
    requires forall p, i: nat | i < n && AdmissibleOn(proposed.operations, g, p, i) :: p in Run(proposed, g, n).winners
    requires FirstHolds(proposed.operations, g, n, Run(proposed, g, n))
    requires var ops, first := proposed.operations, Run(proposed, g, n).winners;
      (Disagreement(ops, g, n + 1) <==>
        (Disagreement(ops, g, n) ||
          (Admissible(ops[n], g) && ops[n].path in first && !PyEq(ops[n].value, ops[first[ops[n].path]].value))))
    ensures FirstHolds(proposed.operations, g, n + 1, Run(proposed, g, n + 1))
  {
    OneRankStep(proposed, g, n, rank);
    var ops, st, st' := proposed.operations, Run(proposed, g, n), Run(proposed, g, n + 1);
    forall p | p in st'.winners ensures st'.winners[p] < n + 1 && FirstOn(ops, g, p, st'.winners[p]) {
      if p !in st.winners { assert AdmissibleOn(ops, g, p, n); }
    }
  }

  /** With one authority throughout, the first admissible value of each path is applied, and review is asked iff it was
      already asked or two admissible values of one path differ. */
  lemma OneAuthorityReduction(proposed: Patch, g: Guard, rank: int)
    requires SetOnly(proposed.operations) && OneRank(proposed.operations, rank)
    ensures var ops, st := proposed.operations, Final(proposed, g);
            && (forall p :: p in st.winners <==> exists j :: AdmissibleOn(ops, g, p, j))
            && (forall p | p in st.winners :: FirstOn(ops, g, p, st.winners[p]))
            && (forall i | i in st.applied :: i < |ops| && ops[i].path in st.winners && st.winners[ops[i].path] == i)
            && (forall p | p in st.winners :: st.winners[p] in st.applied)
            && (Reduce(proposed, g).applied.requireReview <==> (proposed.requireReview || Disagreement(ops, g, |ops|)))
  {
    var n := |proposed.operations|;
    OneRankRun(proposed, g, n, rank);
    CausesFinal(proposed, g);
    PassInvariant(proposed, g, n);
    forall i | i in Final(proposed, g).applied
      ensures i < n && proposed.operations[i].path in Final(proposed, g).winners
      ensures Final(proposed, g).winners[proposed.operations[i].path] == i
    {
      SetPassInvariant(proposed, g, n, proposed.operations[i].path);
    }
    forall p ensures p in Final(proposed, g).winners <==> exists j :: AdmissibleOn(proposed.operations, g, p, j) {
      OneAppliedPerPath(proposed, g, p);
    }
  }

  // ---- The applied operations of one authority, as a list ----

  ghost predicate Admits(ops: seq<Operation>, g: Guard, path: string) { exists j: nat :: AdmissibleOn(ops, g, path, j) }

  /** The admissible operations that no admissible one on their path comes before. */
  ghost function Firsts(ops: seq<Operation>, g: Guard): (r: seq<Operation>)
    ensures forall o | o in r :: o in ops && Admissible(o, g)
  {
    if ops == [] then []
    else
      var front, last := ops[..|ops| - 1], ops[|ops| - 1];
      Firsts(front, g) + if Admissible(last, g) && !Admits(front, g, last.path) then [last] else []
  }

  lemma OneRankApplies(proposed: Patch, g: Guard, n: nat, rank: int)
    requires n < |proposed.operations| && SetOnly(proposed.operations) && OneRank(proposed.operations, rank)
    ensures var o, st := proposed.operations[n], Run(proposed, g, n);
            Run(proposed, g, n + 1).applied ==
            if Admissible(o, g) && o.path !in st.winners then st.applied + [n] else st.applied
  {
    PassInvariant(proposed, g, n);
    SetVerdictFacts(proposed, g, n);
    JudgeFacts(proposed.operations[n], g,
        Holder(proposed.operations, Run(proposed, g, n), proposed.operations[n].path));
    assert n in AdmissibleSet(proposed.operations, g) <==> Admissible(proposed.operations[n], g);
  }

  lemma AdmitsPrefix(proposed: Patch, g: Guard, n: nat, path: string)
    requires n <= |proposed.operations|
    ensures Admits(proposed.operations[..n], g, path) <==> path in Run(proposed, g, n).winners
  {
    HolderRun(proposed, g, n, path);
    var ops := proposed.operations;
    assert forall j: nat :: AdmissibleOn(ops[..n], g, path, j) <==> j < n && AdmissibleOn(ops, g, path, j);
  }

  lemma PickedAppend(ops: seq<Operation>, at: seq<nat>, k: nat)
    requires k < |ops| && forall i | i in at :: i < |ops|
    ensures Picked(ops, at + [k]) == Picked(ops, at) + [ops[k]]
  {
  }

  /** One more operation extends the applied list as it extends the firsts. */
  lemma FirstsStep(proposed: Patch, g: Guard, n: nat, rank: int)
    requires n < |proposed.operations| && SetOnly(proposed.operations) && OneRank(proposed.operations, rank)
    ensures var first := Admissible(proposed.operations[n], g) &&
                         proposed.operations[n].path !in Run(proposed, g, n).winners;
            && Run(proposed, g, n + 1).applied == Run(proposed, g, n).applied + (if first then [n] else [])
            && Firsts(proposed.operations[..n + 1], g) ==
               Firsts(proposed.operations[..n], g) + if first then [proposed.operations[n]] else []
  {
    OneRankApplies(proposed, g, n, rank);
    AdmitsPrefix(proposed, g, n, proposed.operations[n].path);
    TakeStep(proposed.operations, n);
  }

  /** The applied operations are the firsts of the first `n`. */
  ghost predicate AppliesFirsts(ops: seq<Operation>, g: Guard, n: nat, st: State)
    requires n <= |ops|
  {
    match st
    case State(applied, _, _, _, _) =>
      (forall i | i in applied :: i < |ops|) && Picked(ops, applied) == Firsts(ops[..n], g)
  }

  lemma FirstsNext(proposed: Patch, g: Guard, n: nat, rank: int)
    requires n < |proposed.operations| && SetOnly(proposed.operations) && OneRank(proposed.operations, rank)
    requires AppliesFirsts(proposed.operations, g, n, Run(proposed, g, n))
    ensures AppliesFirsts(proposed.operations, g, n + 1, Run(proposed, g, n + 1))
  {
    var before := Run(proposed, g, n).applied;
    FirstsStep(proposed, g, n, rank);
    PickedAppend(proposed.operations, before, n);
    assert before + [] == before;
  }

  lemma NoFirstsYet(ops: seq<Operation>, g: Guard, st: State)
    requires st.applied == []
    ensures AppliesFirsts(ops, g, 0, st)
  {
  }

  lemma OneRankFirsts(proposed: Patch, g: Guard, n: nat, rank: int)
    requires n <= |proposed.operations| && SetOnly(proposed.operations) && OneRank(proposed.operations, rank)
    ensures AppliesFirsts(proposed.operations, g, n, Run(proposed, g, n))
  {
    var ops, states := proposed.operations, States(proposed, g, n);
    var P := (st: State, k: nat) => k <= |ops| && AppliesFirsts(ops, g, k, st);
    NoFirstsYet(ops, g, states[0]);
    forall k: nat, m: nat | k < m <= n && m == k + 1 && P(states[k], k) ensures P(states[m], m) {
      FirstsNext(proposed, g, k, rank);
    }
    StatesHave(P, states, n);
  }

  /** With one authority throughout, the applied operations are the first admissible ones of their paths, in order. */
  lemma AppliedAreFirsts(proposed: Patch, g: Guard, rank: int)
    requires SetOnly(proposed.operations) && OneRank(proposed.operations, rank)
    ensures Reduce(proposed, g).applied.operations == Firsts(proposed.operations, g)
  {
    OneRankFirsts(proposed, g, |proposed.operations|, rank);
    assert proposed.operations[..|proposed.operations|] == proposed.operations;
  }

  ghost predicate NoneAdmissible(ops: seq<Operation>, g: Guard) { forall o | o in ops :: !Admissible(o, g) }

  lemma {:induction false} NoFirsts(a: seq<Operation>, g: Guard)
    requires NoneAdmissible(a, g)
    ensures Firsts(a, g) == []
  {
    if a != [] {
      assert a[|a| - 1] in a;
      NoFirsts(a[..|a| - 1], g);
    }
  }

  lemma {:induction false} FirstsSkip(a: seq<Operation>, b: seq<Operation>, g: Guard)
    requires NoneAdmissible(a, g)
    ensures Firsts(a + b, g) == Firsts(b, g)
  {
    if b == [] {
      assert a + b == a;
      NoFirsts(a, g);
    } else {
      var n := |b| - 1;
      assert (a + b)[..|a + b| - 1] == a + b[..n] && (a + b)[|a + b| - 1] == b[n];
      FirstsSkip(a, b[..n], g);
      AdmitsSkip(a, b[..n], g, b[n].path);
    }
  }

  lemma AdmitsSkip(a: seq<Operation>, b: seq<Operation>, g: Guard, path: string)
    requires NoneAdmissible(a, g)
    ensures Admits(a + b, g, path) <==> Admits(b, g, path)
  {
    forall i: nat | i < |a| ensures !Admissible(a[i], g) { assert a[i] in a; }
    if j: nat :| AdmissibleOn(a + b, g, path, j) { assert AdmissibleOn(b, g, path, j - |a|); }
    if j: nat :| AdmissibleOn(b, g, path, j) { assert AdmissibleOn(a + b, g, path, |a| + j); }
  }

  /** An admissible operation in front leaves its mark: some operation of `a` is among the firsts. */
  lemma {:induction false} FirstsFromFront(a: seq<Operation>, b: seq<Operation>, g: Guard) returns (o: Operation)
    requires !NoneAdmissible(a, g)
    ensures o in a && o in Firsts(a + b, g)
  {
    if b != [] {
      var n := |b| - 1;
      assert (a + b)[..|a + b| - 1] == a + b[..n];
      o := FirstsFromFront(a, b[..n], g);
    } else {
      assert a + b == a;
      var front, last := a[..|a| - 1], a[|a| - 1];
      if NoneAdmissible(front, g) {
        assert forall j: nat | j < |front| :: front[j] in front;
        o := last;
      } else {
        o := FirstsFromFront(front, [], g);
        assert front + [] == front;
      }
    }
  }

  lemma FirstsEmptyIff(ops: seq<Operation>, g: Guard)
    ensures Firsts(ops, g) == [] <==> NoneAdmissible(ops, g)
  {
    if NoneAdmissible(ops, g) {
      NoFirsts(ops, g);
    } else {
      var o := FirstsFromFront(ops, [], g);
      assert ops + [] == ops;
    }
  }

  /** Every admissible operation of `b` is on a path that `a` has an admissible operation for. */
  ghost predicate Covered(b: seq<Operation>, a: seq<Operation>, g: Guard) {
    forall o | o in b && Admissible(o, g) :: Admits(a, g, o.path)
  }

  lemma AdmitsCovered(a: seq<Operation>, b: seq<Operation>, g: Guard, path: string)
    requires Covered(b, a, g)
    ensures Admits(a + b, g, path) <==> Admits(a, g, path)
  {
    if j: nat :| AdmissibleOn(a, g, path, j) { assert AdmissibleOn(a + b, g, path, j); }
    if j: nat :| AdmissibleOn(a + b, g, path, j) {
      if j < |a| { assert AdmissibleOn(a, g, path, j); } else { assert (a + b)[j] == b[j - |a|]; }
    }
  }

  lemma CoveredStep(b: seq<Operation>, n: nat, a: seq<Operation>, g: Guard)
    requires n < |b|
    ensures Covered(b[..n + 1], a, g) <==>
            Covered(b[..n], a, g) && (Admissible(b[n], g) ==> Admits(a, g, b[n].path))
  {
    TakeStep(b, n);
    assert forall o :: o in b[..n + 1] <==> o in b[..n] || o == b[n];
  }

  lemma FirstsBehind(a: seq<Operation>, b: seq<Operation>, g: Guard)
    requires b != []
    ensures var n := |b| - 1;
            Firsts(a + b, g) == Firsts(a + b[..n], g) +
            if Admissible(b[n], g) && !Admits(a + b[..n], g, b[n].path) then [b[n]] else []
  {
    var n := |b| - 1;
    assert (a + b)[..|a + b| - 1] == a + b[..n] && (a + b)[|a + b| - 1] == b[n];
  }

  /** Operations behind others add nothing to the firsts iff each admissible one is on a path already admitted. */
  lemma {:induction false} FirstsCoveredIff(a: seq<Operation>, b: seq<Operation>, g: Guard)
    ensures Firsts(a, g) <= Firsts(a + b, g)
    ensures Firsts(a + b, g) == Firsts(a, g) <==> Covered(b, a, g)
  {
    if b == [] {
      assert a + b == a;
    } else {
      var n := |b| - 1;
      FirstsCoveredIff(a, b[..n], g);
      FirstsBehind(a, b, g);
      CoveredStep(b, n, a, g);
      assert b[..n + 1] == b;
      if Covered(b[..n], a, g) { AdmitsCovered(a, b[..n], g, b[n].path); }
    }
  }

  // ---- Three limits of the reduction, by example ----

  const OPEN_GUARD := Guard(Capabilities({}, {}, map[]), map[])

  function Proposal(op: string, value: Value, authority: Authority): Operation {
    Operation(op, "verdict.entity", value, authority, "", "", "")
  }

  predicate OnEntity(ops: seq<Operation>) { forall k | 0 <= k < |ops| :: ops[k].path == "verdict.entity" }

  /** One step of a pass that admits every operation, on a single path held by operation `w`. */
  lemma OpenStep(p: Patch, n: nat, st: State, w: nat)
    requires n < |p.operations| && w < |p.operations| && OnEntity(p.operations)
    requires Run(p, OPEN_GUARD, n) == st && st.winners == map["verdict.entity" := w]
    ensures Run(p, OPEN_GUARD, n + 1) ==
            Advance(st, OpenVerdict(p.operations[n], p.operations[w]), n, "verdict.entity")
    ensures VerdictAt(p, OPEN_GUARD, n) == OpenVerdict(p.operations[n], p.operations[w])
  {
    JudgeFacts(p.operations[n], OPEN_GUARD, Some(p.operations[w]));
  }

  function OpenVerdict(o: Operation, holder: Operation): Verdict {
    if Conflict(o, holder) then
      if o.authority.Rank() > holder.authority.Rank() then Oust
      else if o.authority.Rank() < holder.authority.Rank() then Block(ConflictResolution)
      else Block(SameAuthorityConflict)
    else if !PyEq(o.value, holder.value) then Apply(o.authority.Rank() > holder.authority.Rank())
    else Repeat
  }

  lemma OpenStart(p: Patch)
    requires p.operations != [] && OnEntity(p.operations)
    ensures Run(p, OPEN_GUARD, 1) == State([0], [], map["verdict.entity" := 0], p.requireReview, p.reviewRole)
  {
    assert Run(p, OPEN_GUARD, 0) == Start(p);
    JudgeFacts(p.operations[0], OPEN_GUARD, None);
  }

  /** An equal value is skipped without raising the recorded authority, so a weaker later value can overtake it. */
  lemma EqualValueHidesAuthority()
    ensures var ops := [Proposal("set", Int(1), LlmProposal), Proposal("set", Int(1), HumanDecision),
                        Proposal("set", Int(2), ApprovedPolicy)];
            var p := Patch(ops, false, None, []);
            && SetOnly(ops)
            && Final(p, OPEN_GUARD).winners == map["verdict.entity" := 2]
            && RankAt(ops, 2) < RankAt(ops, 1)
            && Skipped(p, OPEN_GUARD, 1)
  {
    var ops := [Proposal("set", Int(1), LlmProposal), Proposal("set", Int(1), HumanDecision),
                Proposal("set", Int(2), ApprovedPolicy)];
    var p := Patch(ops, false, None, []);
    var first := State([0], [], map["verdict.entity" := 0], false, None);
    OpenStart(p);
    OpenStep(p, 1, first, 0);
    assert OpenVerdict(ops[1], ops[0]) == Repeat;
    OpenStep(p, 2, first, 0);
  }

  /** The holder of the first pass need not hold in the second: here the `set` that lost was all that told the two
      `add`s from repeats. */
  lemma SecondReductionDropsAdd()
    ensures var ops := [Proposal("set", Int(1), EngineNative), Proposal("add", Int(2), LlmProposal),
                        Proposal("add", Int(2), LlmProposal), Proposal("set", Int(3), HumanDecision)];
            var a := Reduce(Patch(ops, false, None, []), OPEN_GUARD).applied;
            a.operations == ops[1..] && Reduce(a, OPEN_GUARD).applied != a
  {
    var ops := [Proposal("set", Int(1), EngineNative), Proposal("add", Int(2), LlmProposal),
                Proposal("add", Int(2), LlmProposal), Proposal("set", Int(3), HumanDecision)];
    OustedFirst(Patch(ops, false, None, []));
  }

  lemma OustedFirst(p: Patch)
    requires |p.operations| == 4 && OnEntity(p.operations) && p.operations[1] == p.operations[2]
    requires OpenVerdict(p.operations[1], p.operations[0]) == Apply(false)
    requires OpenVerdict(p.operations[3], p.operations[0]) == Oust
    ensures var a := Reduce(p, OPEN_GUARD).applied;
            a.operations == p.operations[1..] && Reduce(a, OPEN_GUARD).applied != a
  {
    var a := Reduce(p, OPEN_GUARD).applied;
    BesideThenOust(p);
    FinalInRange(p, OPEN_GUARD, 4);
    assert a.operations == Picked(p.operations, [1, 2, 3]);
    RepeatDropped(a);
  }

  lemma BesideThenOust(p: Patch)
    requires |p.operations| == 4 && OnEntity(p.operations)
    requires OpenVerdict(p.operations[1], p.operations[0]) == Apply(false)
    requires OpenVerdict(p.operations[2], p.operations[0]) == Apply(false)
    requires OpenVerdict(p.operations[3], p.operations[0]) == Oust
    ensures Final(p, OPEN_GUARD).applied == [1, 2, 3]
  {
    var held := map["verdict.entity" := 0];
    OpenStart(p);
    OpenStep(p, 1, State([0], [], held, p.requireReview, p.reviewRole), 0);
    OpenStep(p, 2, State([0, 1], [], held, p.requireReview, p.reviewRole), 0);
    OpenStep(p, 3, State([0, 1, 2], [], held, p.requireReview, p.reviewRole), 0);
    DropFront();
  }

  lemma DropFront()
    ensures Drop([0, 1, 2], 0) == [1, 2]
  {
    assert Drop([2], 0) == [2];
    assert Drop([1, 2], 0) == [1, 2];
  }

  /** Behind an operation that repeats the first one, the pass applies fewer than it reads. */
  lemma RepeatDropped(a: Patch)
    requires |a.operations| == 3 && a.operations[0] == a.operations[1]
    requires OnEntity(a.operations)
    ensures Reduce(a, OPEN_GUARD).applied != a
  {
    FinalInRange(a, OPEN_GUARD, 3);
    OpenStart(a);
    OpenStep(a, 1, State([0], [], map["verdict.entity" := 0], a.requireReview, a.reviewRole), 0);
    AppliedCount(a, OPEN_GUARD, 3);
    assert |Reduce(a, OPEN_GUARD).applied.operations| == |Final(a, OPEN_GUARD).applied|;
  }

  /** Conflicts are only seen between two `set`s, so an `add` in between lets two different `set` values through. */
  lemma MixedPatchAppliesTwoValues()
    ensures var ops := [Proposal("set", Int(1), LlmProposal), Proposal("add", Int(2), ApprovedPolicy),
                        Proposal("set", Int(3), HumanDecision)];
            var st := Final(Patch(ops, false, None, []), OPEN_GUARD);
            && st.applied == [0, 1, 2] && st.blocked == []
            && Conflict(ops[0], ops[2])
  {
    var ops := [Proposal("set", Int(1), LlmProposal), Proposal("add", Int(2), ApprovedPolicy),
                Proposal("set", Int(3), HumanDecision)];
    var p := Patch(ops, false, None, []);
    OpenStart(p);
    OpenStep(p, 1, State([0], [], map["verdict.entity" := 0], false, None), 0);
    OpenStep(p, 2, State([0, 1], [], map["verdict.entity" := 1], false, None), 1);
  }
}
