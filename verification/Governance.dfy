/** The auditable governance state and its transition log (redibis/agents/governance_state.py). */
module Governance {
  import opened Sequences
  import opened Conditions

  // ---- Model ----

  /** The data fields of the state. */
  datatype Field =
    | Version | RunId | AgentRunId | Table | NodeIndex | Status | ErrorText | Steps
    | ContractVersion | DetVersion | PromptHash | PriorVersion

  /** In the order from_graph_state and record_contract_lineage go through them. */
  const GRAPH_FIELDS := [Table, NodeIndex, Steps, Status, ErrorText]
  const LINEAGE_FIELDS := [ContractVersion, DetVersion, PriorVersion, PromptHash]

  datatype Transition = Transition(field: Field, oldHash: string, newHash: string, actor: string, node: string)

  datatype State = State(values: map<Field, Value>, transitions: seq<Transition>)

  /** The hash and the conversions the state takes from the Python runtime. */
  datatype Runtime = Runtime(
    hash: Value -> string, text: Value -> string, toInt: Value -> int, toList: Value -> seq<Value>)

  /** The hash tells these two values apart, if they differ. */
  ghost predicate NoCollision(a: Value, b: Value, rt: Runtime) { rt.hash(a) == rt.hash(b) ==> a == b }

  /** `str` of a truthy value is never empty. */
  ghost predicate TextNonEmpty(rt: Runtime) { forall v :: Truthy(v) ==> rt.text(v) != "" }

  // ---- What from_dict makes of a field ----

  function AsText(v: Value, default: string, rt: Runtime): Value {
    if !Truthy(v) then Str(default) else if v.Str? then v else Str(rt.text(v))
  }

  function AsInt(v: Value, default: int, rt: Runtime): Value {
    if !Truthy(v) then Int(default) else if v.Int? then v else Int(rt.toInt(v))
  }

  function AsList(v: Value, rt: Runtime): Value {
    if !Truthy(v) then List([]) else if v.List? then v else List(rt.toList(v))
  }

  function Coerce(field: Field, v: Value, rt: Runtime): Value {
    match field
    case Version => AsInt(v, 1, rt)
    case NodeIndex => AsInt(v, 0, rt)
    case Steps => AsList(v, rt)
    case Status => AsText(v, "pending", rt)
    case _ => AsText(v, "", rt)
  }

  /** A value from_dict leaves alone: of the field's type, and not an empty status or a zero version. */
  predicate WellFormed(field: Field, v: Value, rt: Runtime) { Coerce(field, v, rt) == v }

  predicate IsText(field: Field) { field != Version && field != NodeIndex && field != Steps }

  /** Left alone are exactly the values of the field's type, but for a version of zero and an empty status. */
  lemma WellFormedIff(field: Field, v: Value, rt: Runtime)
    ensures WellFormed(field, v, rt) <==>
            if field == Version then v.Int? && v != Int(0)
            else if field == NodeIndex then v.Int?
            else if field == Steps then v.List?
            else if field == Status then v.Str? && v != Str("")
            else v.Str?
  {
  }

  /** An empty value gives way to the field's default; any other is left alone or converted to the field's type. */
  lemma CoercedTo(field: Field, v: Value, rt: Runtime)
    ensures !Truthy(v) ==>
              Coerce(field, v, rt) == if field == Version then Int(1)
                                      else if field == NodeIndex then Int(0)
                                      else if field == Steps then List([])
                                      else Str(if field == Status then "pending" else "")
    ensures Truthy(v) && WellFormed(field, v, rt) ==> Coerce(field, v, rt) == v
    ensures Truthy(v) && !WellFormed(field, v, rt) ==>
              Coerce(field, v, rt) == if field == Steps then List(rt.toList(v))
                                      else if IsText(field) then Str(rt.text(v))
                                      else Int(rt.toInt(v))
  {
  }

  function OrAgent(actor: string): string { if actor == "" then "agent" else actor }

  function Renamed(ts: seq<Transition>): (r: seq<Transition>)
    ensures |r| == |ts| && forall k :: 0 <= k < |ts| ==> r[k] == ts[k].(actor := OrAgent(ts[k].actor))
  {
    seq(|ts|, k requires 0 <= k < |ts| => ts[k].(actor := OrAgent(ts[k].actor)))
  }

  function FromDict(values: map<Field, Value>, ts: seq<Transition>, rt: Runtime): State {
    State(map f | f in values :: Coerce(f, values[f], rt), Renamed(ts))
  }

  ghost predicate Complete(s: State) { forall f: Field :: f in s.values }

  /** A state as from_dict builds it: the fields are there, well formed, and every log entry names an actor. */
  ghost predicate Normal(s: State, rt: Runtime) {
    && Complete(s)
    && (forall f | f in s.values :: WellFormed(f, s.values[f], rt))
    && (forall k | 0 <= k < |s.transitions| :: s.transitions[k].actor != "")
  }

  function Initial(runId: string, agentRunId: string): State {
    State(map[Version := Int(1), RunId := Str(runId), AgentRunId := Str(agentRunId), Table := Str(""),
              NodeIndex := Int(0), Status := Str("pending"), ErrorText := Str(""), Steps := List([]),
              ContractVersion := Str(""), DetVersion := Str(""), PromptHash := Str(""), PriorVersion := Str("")],
          [])
  }

  lemma InitialField(runId: string, agentRunId: string, f: Field, rt: Runtime)
    ensures f in Initial(runId, agentRunId).values && WellFormed(f, Initial(runId, agentRunId).values[f], rt)
  {
    match f
    case Version => case RunId => case AgentRunId => case Table => case NodeIndex => case Status =>
    case ErrorText => case Steps => case ContractVersion => case DetVersion => case PromptHash => case PriorVersion =>
  }

  lemma InitialNormal(runId: string, agentRunId: string, rt: Runtime)
    ensures Normal(Initial(runId, agentRunId), rt)
  {
    var s := Initial(runId, agentRunId);
    forall f: Field ensures f in s.values && WellFormed(f, s.values[f], rt) { InitialField(runId, agentRunId, f, rt); }
  }

  // ---- One transition ----

  function To(s: State, field: Field, value: Value, actor: string, node: string, rt: Runtime): State
    requires field in s.values
  {
    var before, after := rt.hash(s.values[field]), rt.hash(value);
    if before == after then s
    else FromDict(s.values[field := value], s.transitions + [Transition(field, before, after, actor, node)], rt)
  }

  function Entry(s: State, field: Field, value: Value, actor: string, node: string, rt: Runtime): Transition
    requires field in s.values
  {
    Transition(field, rt.hash(s.values[field]), rt.hash(value), if actor == "" then "agent" else actor, node)
  }

  /** A transition touches one field, stores the coerced value, and appends one log entry unless the hashes agree. */
  lemma TransitionEffect(s: State, field: Field, value: Value, actor: string, node: string, rt: Runtime)
    requires Normal(s, rt)
    ensures var r := To(s, field, value, actor, node, rt);
            && (rt.hash(s.values[field]) == rt.hash(value) ==> r == s)
            && (rt.hash(s.values[field]) != rt.hash(value) ==>
                  && r.values == s.values[field := Coerce(field, value, rt)]
                  && r.transitions == s.transitions + [Entry(s, field, value, actor, node, rt)])
            && (WellFormed(field, Coerce(field, value, rt), rt) ==> Normal(r, rt))
  {
    var r := To(s, field, value, actor, node, rt);
    if rt.hash(s.values[field]) != rt.hash(value) {
      assert r.transitions == s.transitions + [Entry(s, field, value, actor, node, rt)];
      assert r.values == s.values[field := Coerce(field, value, rt)];
    }
  }

  /** The log has grown at its end only, by entries of this actor and node. */
  ghost predicate LoggedBy(from: seq<Transition>, to: seq<Transition>, actor: string, node: string) {
    && from <= to
    && forall k | |from| <= k < |to| :: to[k].actor == (if actor == "" then "agent" else actor) && to[k].node == node
  }

  lemma LoggedStep(
      from: seq<Transition>, s: State, field: Field, value: Value, actor: string, node: string, rt: Runtime)
    requires Normal(s, rt) && LoggedBy(from, s.transitions, actor, node)
    ensures LoggedBy(from, To(s, field, value, actor, node, rt).transitions, actor, node)
  {
    TransitionEffect(s, field, value, actor, node, rt);
  }

  // ---- The log as a chain of hashes, field by field ----

  /** The entries for `field` lead without a break from hash `start` to hash `end`. */
  ghost predicate Linked(log: seq<Transition>, field: Field, start: string, end: string) {
    if log == [] then start == end
    else
      var front, last := log[..|log| - 1], log[|log| - 1];
      if last.field == field then last.newHash == end && Linked(front, field, start, last.oldHash)
      else Linked(front, field, start, end)
  }

  /** The entries of one field, from one state to a later one, are an unbroken chain. */
  ghost predicate FieldChained(from: State, to: State, field: Field, rt: Runtime)
    requires Complete(from) && Complete(to)
  {
    && from.transitions <= to.transitions
    && Linked(to.transitions[|from.transitions|..], field, rt.hash(from.values[field]), rt.hash(to.values[field]))
  }

  ghost predicate Chained(from: State, to: State, rt: Runtime)
    requires Complete(from) && Complete(to)
  {
    forall f: Field :: FieldChained(from, to, f, rt)
  }

  lemma LinkedAppend(log: seq<Transition>, e: Transition, field: Field, start: string, end: string)
    ensures Linked(log + [e], field, start, end) <==>
            if e.field == field then e.newHash == end && Linked(log, field, start, e.oldHash)
            else Linked(log, field, start, end)
  {
    assert (log + [e])[..|log|] == log;
  }

  lemma ChainedRefl(s: State, rt: Runtime)
    requires Complete(s)
    ensures Chained(s, s, rt)
  {
  }

  /** Writing `value` over `before` leaves the field's last logged hash equal to the stored one. */
  predicate LogsTruly(field: Field, before: Value, value: Value, rt: Runtime) {
    rt.hash(before) == rt.hash(value) || rt.hash(Coerce(field, value, rt)) == rt.hash(value)
  }

  /** One more entry touches only its own field's chain, and keeps that one iff it ends in the stored value's hash. */
  lemma FieldChainedAppend(from: State, s: State, to: State, e: Transition, f: Field, rt: Runtime)
    requires Complete(from) && Complete(s) && Complete(to) && from.transitions <= s.transitions
    requires to.transitions == s.transitions + [e] && e.oldHash == rt.hash(s.values[e.field])
    requires f != e.field ==> to.values[f] == s.values[f]
    ensures f != e.field ==> (FieldChained(from, to, f, rt) <==> FieldChained(from, s, f, rt))
    ensures f == e.field && FieldChained(from, s, f, rt) ==>
              (FieldChained(from, to, f, rt) <==> e.newHash == rt.hash(to.values[f]))
  {
    var n := |from.transitions|;
    assert to.transitions[n..] == s.transitions[n..] + [e];
    LinkedAppend(s.transitions[n..], e, f, rt.hash(from.values[f]), rt.hash(to.values[f]));
  }

  /** A transition touches only its own field's chain, and keeps that one iff it logs truly. */
  lemma FieldChainedStep(
      from: State, s: State, field: Field, value: Value, actor: string, node: string, f: Field, rt: Runtime)
    requires Complete(from) && Normal(s, rt) && from.transitions <= s.transitions
    ensures var to := To(s, field, value, actor, node, rt);
            && Complete(to) && from.transitions <= to.transitions
            && (f != field ==> (FieldChained(from, to, f, rt) <==> FieldChained(from, s, f, rt)))
            && (f == field && FieldChained(from, s, f, rt) ==>
                  (FieldChained(from, to, f, rt) <==> LogsTruly(field, s.values[field], value, rt)))
  {
    TransitionEffect(s, field, value, actor, node, rt);
    var to, entry := To(s, field, value, actor, node, rt), Entry(s, field, value, actor, node, rt);
    FieldChainedWrite(from, s, to, entry, value, f, rt);
  }

  /** The same for any state that is written as a transition writes it. */
  lemma FieldChainedWrite(from: State, s: State, to: State, e: Transition, value: Value, f: Field, rt: Runtime)
    requires Complete(from) && Complete(s) && from.transitions <= s.transitions
    requires e.oldHash == rt.hash(s.values[e.field]) && e.newHash == rt.hash(value)
    requires e.oldHash == e.newHash ==> to == s
    requires e.oldHash != e.newHash ==>
               to.values == s.values[e.field := Coerce(e.field, value, rt)] && to.transitions == s.transitions + [e]
    ensures Complete(to) && from.transitions <= to.transitions
    ensures f != e.field ==> (FieldChained(from, to, f, rt) <==> FieldChained(from, s, f, rt))
    ensures f == e.field && FieldChained(from, s, f, rt) ==>
              (FieldChained(from, to, f, rt) <==> LogsTruly(e.field, s.values[e.field], value, rt))
  {
    if e.oldHash != e.newHash { FieldChainedAppend(from, s, to, e, f, rt); }
  }

  /** One well-formed update extends the chain of every field. */
  lemma ChainedStep(from: State, s: State, field: Field, value: Value, actor: string, node: string, rt: Runtime)
    requires Complete(from) && Normal(s, rt) && Chained(from, s, rt) && WellFormed(field, value, rt)
    ensures Normal(To(s, field, value, actor, node, rt), rt)
    ensures Chained(from, To(s, field, value, actor, node, rt), rt)
  {
    TransitionEffect(s, field, value, actor, node, rt);
    var to := To(s, field, value, actor, node, rt);
    forall f: Field ensures FieldChained(from, to, f, rt) {
      assert FieldChained(from, s, f, rt);
      FieldChainedStep(from, s, field, value, actor, node, f, rt);
    }
  }

  /** From a normal state an update keeps the log a chain iff it logs truly; for an update that is logged and does not
      collide with its own conversion, iff its value is well formed. */
  lemma ChainKeptIff(s: State, field: Field, value: Value, actor: string, node: string, rt: Runtime)
    requires Normal(s, rt)
    ensures Complete(To(s, field, value, actor, node, rt))
    ensures Chained(s, To(s, field, value, actor, node, rt), rt) <==> LogsTruly(field, s.values[field], value, rt)
    ensures rt.hash(s.values[field]) != rt.hash(value) && NoCollision(Coerce(field, value, rt), value, rt) ==>
              (Chained(s, To(s, field, value, actor, node, rt), rt) <==> WellFormed(field, value, rt))
  {
    var to := To(s, field, value, actor, node, rt);
    ChainedRefl(s, rt);
    FieldChainedStep(s, s, field, value, actor, node, field, rt);
    forall f: Field
      ensures FieldChained(s, to, f, rt) <==> (f == field ==> LogsTruly(field, s.values[field], value, rt))
    {
      assert FieldChained(s, s, f, rt);
      FieldChainedStep(s, s, field, value, actor, node, f, rt);
    }
  }

  // ---- Any number of updates ----

  datatype Update = Update(field: Field, value: Value, actor: string, node: string)

  ghost predicate AllWellFormed(us: seq<Update>, rt: Runtime) { forall u | u in us :: WellFormed(u.field, u.value, rt) }

  ghost function Replay(s: State, us: seq<Update>, rt: Runtime): (r: State)
    requires Normal(s, rt) && AllWellFormed(us, rt)
    ensures Normal(r, rt)
  {
    if us == [] then s
    else
      var before, u := Replay(s, us[..|us| - 1], rt), us[|us| - 1];
      assert u in us;
      TransitionEffect(before, u.field, u.value, u.actor, u.node, rt);
      To(before, u.field, u.value, u.actor, u.node, rt)
  }

  /** Along any sequence of well-formed updates the log only grows at its end and stays an unbroken chain for every
      field. */
  lemma {:induction false} ReplayChained(s: State, us: seq<Update>, rt: Runtime)
    requires Normal(s, rt) && AllWellFormed(us, rt)
    ensures Chained(s, Replay(s, us, rt), rt)
  {
    if us == [] {
      ChainedRefl(s, rt);
    } else {
      var u := us[|us| - 1];
      assert u in us;
      ReplayChained(s, us[..|us| - 1], rt);
      ChainedStep(s, Replay(s, us[..|us| - 1], rt), u.field, u.value, u.actor, u.node, rt);
    }
  }

  // ---- The bridge to the graph state ----

  type Graph = map<Field, Value>

  function GraphGet(g: Graph, field: Field): Value {
    if field in g then g[field] else if field == Table then Str("") else Null
  }

  /** What from_graph_state reads: the table as it stands, the other fields converted. */
  function GraphValue(g: Graph, field: Field, rt: Runtime): Value {
    if field == Table then GraphGet(g, field) else Coerce(field, GraphGet(g, field), rt)
  }

  function ToGraphState(s: State): Graph
    requires forall f | f in GRAPH_FIELDS :: f in s.values
  {
    map f | f in GRAPH_FIELDS :: s.values[f]
  }

  /** One round of from_graph_state's loop. */
  function Sync(s: State, g: Graph, field: Field, rt: Runtime): State
    requires field in s.values
  {
    var value := GraphValue(g, field, rt);
    if PyEq(s.values[field], value) then s else To(s, field, value, "agent", "", rt)
  }

  predicate IsGraphField(field: Field) {
    field == Table || field == NodeIndex || field == Steps || field == Status || field == ErrorText
  }

  lemma CoerceStable(field: Field, v: Value, rt: Runtime)
    requires IsGraphField(field) && TextNonEmpty(rt)
    ensures WellFormed(field, Coerce(field, v, rt), rt)
  {
  }

  /** What is read is well formed, except possibly the table; and converting it again gives the converted graph
      value. */
  lemma GraphValueFits(g: Graph, field: Field, rt: Runtime)
    requires IsGraphField(field) && TextNonEmpty(rt)
    ensures Coerce(field, GraphValue(g, field, rt), rt) == Coerce(field, GraphGet(g, field), rt)
    ensures field != Table || WellFormed(Table, GraphGet(g, Table), rt) ==>
            WellFormed(field, GraphValue(g, field, rt), rt)
  {
    CoerceStable(field, GraphGet(g, field), rt);
  }

  /** A normal value equal to the one read is already the converted one. */
  lemma EqualMeansConverted(field: Field, mine: Value, value: Value, rt: Runtime)
    requires IsGraphField(field) && WellFormed(field, mine, rt) && PyEq(mine, value)
    requires field != Table ==> WellFormed(field, value, rt)
    ensures PyEq(mine, Coerce(field, value, rt))
  {
    if field == Table { assert mine.Str? && value == mine; }
  }

  /** What a round leaves in the field: the old value when it equals the one read or hashes alike, else the converted
      one. */
  function SyncedValue(before: Value, g: Graph, field: Field, rt: Runtime): Value {
    var value := GraphValue(g, field, rt);
    if PyEq(before, value) || rt.hash(before) == rt.hash(value) then before else Coerce(field, value, rt)
  }

  lemma SyncEffect(s: State, g: Graph, field: Field, rt: Runtime)
    requires Normal(s, rt) && TextNonEmpty(rt) && IsGraphField(field)
    ensures Normal(Sync(s, g, field, rt), rt)
    ensures Sync(s, g, field, rt).values == s.values[field := SyncedValue(s.values[field], g, field, rt)]
  {
    var value := GraphValue(g, field, rt);
    GraphValueFits(g, field, rt);
    CoerceStable(field, value, rt);
    TransitionEffect(s, field, value, "agent", "", rt);
    if PyEq(s.values[field], value) || rt.hash(s.values[field]) == rt.hash(value) {
      assert s.values == s.values[field := s.values[field]];
    }
  }

  /** If the hash does not tell the graph's value from the one before, it hides no difference from the converted one. */
  ghost predicate HidesNothing(before: Value, g: Graph, field: Field, rt: Runtime) {
    rt.hash(before) == rt.hash(GraphValue(g, field, rt)) ==> PyEq(before, Coerce(field, GraphGet(g, field), rt))
  }

  /** A synced field equals the graph's value, converted, iff the hash did not hide a difference. */
  lemma GraphArrivesIff(before: Value, g: Graph, field: Field, rt: Runtime)
    requires IsGraphField(field) && WellFormed(field, before, rt) && TextNonEmpty(rt)
    ensures PyEq(SyncedValue(before, g, field, rt), Coerce(field, GraphGet(g, field), rt)) <==>
            HidesNothing(before, g, field, rt)
  {
    GraphValueFits(g, field, rt);
    if PyEq(before, GraphValue(g, field, rt)) { EqualMeansConverted(field, before, GraphValue(g, field, rt), rt); }
  }

  /** The value of `f` once the first `k` graph fields are synced. */
  ghost function SyncedUpTo(base: State, g: Graph, k: nat, f: Field, rt: Runtime): Value
    requires k <= 5 && Complete(base)
  {
    if k == 0 then base.values[f]
    else if f == GRAPH_FIELDS[k - 1] then SyncedValue(base.values[f], g, f, rt)
    else SyncedUpTo(base, g, k - 1, f, rt)
  }

  lemma {:induction false} NotYetSynced(base: State, g: Graph, k: nat, f: Field, rt: Runtime)
    requires k <= 5 && Complete(base) && forall j | 0 <= j < k :: GRAPH_FIELDS[j] != f
    ensures SyncedUpTo(base, g, k, f, rt) == base.values[f]
  {
    if k > 0 { NotYetSynced(base, g, k - 1, f, rt); }
  }

  lemma {:induction false} SyncedStays(base: State, g: Graph, j: nat, k: nat, rt: Runtime)
    requires j < k <= 5 && Complete(base)
    ensures SyncedUpTo(base, g, k, GRAPH_FIELDS[j], rt) ==
            SyncedValue(base.values[GRAPH_FIELDS[j]], g, GRAPH_FIELDS[j], rt)
  {
    if j < k - 1 { SyncedStays(base, g, j, k - 1, rt); }
  }

  /** The table is the one field read unconverted, so the one that may log untruly. */
  predicate TableLogsTruly(base: State, g: Graph, rt: Runtime)
    requires Table in base.values
  {
    var value := GraphGet(g, Table);
    PyEq(base.values[Table], value) || LogsTruly(Table, base.values[Table], value, rt)
  }

  /** The loop of from_graph_state has settled the first `k` fields and touched no others. */
  ghost predicate Synced(base: State, s: State, g: Graph, k: nat, rt: Runtime)
    requires k <= 5 && Complete(base)
  {
    match s
    case State(values, transitions) =>
      && Normal(s, rt) && base.transitions <= transitions
      && (forall f: Field :: values[f] == SyncedUpTo(base, g, k, f, rt))
      && (forall f: Field :: FieldChained(base, s, f, rt) <==> (f == Table && k > 0 ==> TableLogsTruly(base, g, rt)))
  }

  /** What a round does to the chain of field `f`. */
  lemma SyncChains(base: State, s: State, g: Graph, k: nat, f: Field, rt: Runtime)
    requires k < 5 && Normal(base, rt) && Synced(base, s, g, k, rt) && TextNonEmpty(rt)
    ensures var to := Sync(s, g, GRAPH_FIELDS[k], rt);
            && Complete(to) && base.transitions <= to.transitions
            && (FieldChained(base, to, f, rt) <==> (f == Table ==> TableLogsTruly(base, g, rt)))
  {
    var field := GRAPH_FIELDS[k];
    var value := GraphValue(g, field, rt);
    assert s.values[field] == base.values[field] by { NotYetSynced(base, g, k, field, rt); }
    FieldChainedStep(base, s, field, value, "agent", "", f, rt);
    GraphValueFits(g, field, rt);
    assert field != Table ==> WellFormed(field, value, rt);
  }

  lemma SyncedExtends(base: State, s: State, to: State, g: Graph, k: nat, rt: Runtime)
    requires k < 5 && Complete(base) && Synced(base, s, g, k, rt) && Normal(to, rt)
             && base.transitions <= to.transitions
    requires to.values == s.values[GRAPH_FIELDS[k] := SyncedValue(base.values[GRAPH_FIELDS[k]], g, GRAPH_FIELDS[k], rt)]
    requires forall f: Field :: FieldChained(base, to, f, rt) <==> (f == Table ==> TableLogsTruly(base, g, rt))
    ensures Synced(base, to, g, k + 1, rt)
  {
  }

  lemma SyncedStep(base: State, s: State, g: Graph, k: nat, rt: Runtime)
    requires k < 5 && Normal(base, rt) && Synced(base, s, g, k, rt) && TextNonEmpty(rt)
    ensures Synced(base, Sync(s, g, GRAPH_FIELDS[k], rt), g, k + 1, rt)
  {
    var field := GRAPH_FIELDS[k];
    var to := Sync(s, g, field, rt);
    NotYetSynced(base, g, k, field, rt);
    SyncEffect(s, g, field, rt);
    SyncChains(base, s, g, k, field, rt);
    forall f: Field ensures FieldChained(base, to, f, rt) <==> (f == Table ==> TableLogsTruly(base, g, rt)) {
      SyncChains(base, s, g, k, f, rt);
    }
    SyncedExtends(base, s, to, g, k, rt);
  }

  /** `from_graph_state` on a base state: the graph's fields are synced, nothing else changes, and the log stays a chain
      iff the table logs truly, as every string does. */
  method FromGraphState(g: Graph, base: State, rt: Runtime) returns (s: State)
    requires Normal(base, rt) && TextNonEmpty(rt)
    ensures Normal(s, rt)
    ensures forall f: Field | IsGraphField(f) :: ToGraphState(s)[f] == SyncedValue(base.values[f], g, f, rt)
    ensures forall f: Field | IsGraphField(f) ::
              PyEq(ToGraphState(s)[f], Coerce(f, GraphGet(g, f), rt)) <==> HidesNothing(base.values[f], g, f, rt)
    ensures forall f: Field | !IsGraphField(f) :: s.values[f] == base.values[f]
    ensures Chained(base, s, rt) <==> TableLogsTruly(base, g, rt)
    ensures GraphGet(g, Table).Str? ==> Chained(base, s, rt)
    ensures LoggedBy(base.transitions, s.transitions, "agent", "")
  {
    s := base;
    ChainedRefl(base, rt);
    for k := 0 to 5
      invariant Synced(base, s, g, k, rt) && LoggedBy(base.transitions, s.transitions, "agent", "")
    {
      var field := GRAPH_FIELDS[k];
      LoggedStep(base.transitions, s, field, GraphValue(g, field, rt), "agent", "", rt);
      SyncedStep(base, s, g, k, rt);
      var value := GraphValue(g, field, rt);
      if !PyEq(s.values[field], value) { s := To(s, field, value, "agent", "", rt); }
    }
    AllSynced(base, s, g, rt);
    AllArrive(base, s, g, rt);
    assert GraphGet(g, Table).Str? ==> TableLogsTruly(base, g, rt);
  }

  lemma AllArrive(base: State, s: State, g: Graph, rt: Runtime)
    requires Normal(base, rt) && TextNonEmpty(rt) && Complete(s)
    requires forall f: Field | IsGraphField(f) :: ToGraphState(s)[f] == SyncedValue(base.values[f], g, f, rt)
    ensures forall f: Field | IsGraphField(f) ::
              PyEq(ToGraphState(s)[f], Coerce(f, GraphGet(g, f), rt)) <==> HidesNothing(base.values[f], g, f, rt)
  {
    forall f: Field | IsGraphField(f)
      ensures PyEq(ToGraphState(s)[f], Coerce(f, GraphGet(g, f), rt)) <==> HidesNothing(base.values[f], g, f, rt)
    {
      GraphArrivesIff(base.values[f], g, f, rt);
    }
  }

  lemma AllSynced(base: State, s: State, g: Graph, rt: Runtime)
    requires Complete(base) && Synced(base, s, g, 5, rt)
    ensures forall f: Field | IsGraphField(f) :: ToGraphState(s)[f] == SyncedValue(base.values[f], g, f, rt)
    ensures forall f: Field | !IsGraphField(f) :: s.values[f] == base.values[f]
    ensures Chained(base, s, rt) <==> TableLogsTruly(base, g, rt)
  {
    forall f: Field
      ensures s.values[f] == if IsGraphField(f) then SyncedValue(base.values[f], g, f, rt) else base.values[f]
    {
      SyncedAll(base, g, f, rt);
    }
    forall f: Field | IsGraphField(f) ensures f in ToGraphState(s) { GraphFieldListed(f); }
    assert FieldChained(base, s, Table, rt) <==> TableLogsTruly(base, g, rt);
  }

  lemma SyncedAll(base: State, g: Graph, f: Field, rt: Runtime)
    requires Complete(base)
    ensures SyncedUpTo(base, g, 5, f, rt) ==
            if IsGraphField(f) then SyncedValue(base.values[f], g, f, rt) else base.values[f]
  {
    if IsGraphField(f) {
      GraphFieldListed(f);
      var j :| 0 <= j < 5 && GRAPH_FIELDS[j] == f;
      SyncedStays(base, g, j, 5, rt);
    } else {
      NotYetSynced(base, g, 5, f, rt);
    }
  }

  lemma GraphFieldListed(f: Field)
    requires IsGraphField(f)
    ensures f in GRAPH_FIELDS
  {
    assert GRAPH_FIELDS[0] == Table && GRAPH_FIELDS[1] == NodeIndex && GRAPH_FIELDS[2] == Steps
        && GRAPH_FIELDS[3] == Status && GRAPH_FIELDS[4] == ErrorText;
  }

  /** A graph without a usable table: null is logged but an empty string stored, so the chain breaks whenever the hash
      tells null from the string before it and from the empty one. */
  lemma NullTableBreaksChain(base: State, g: Graph, rt: Runtime)
    requires Normal(base, rt) && GraphGet(g, Table) == Null
    requires rt.hash(base.values[Table]) != rt.hash(Null) && rt.hash(Str("")) != rt.hash(Null)
    ensures !TableLogsTruly(base, g, rt)
  {
    assert WellFormed(Table, base.values[Table], rt);
    assert base.values[Table].Str?;
  }

  // ---- Contract lineage ----

  predicate IsLineageField(field: Field) {
    field == ContractVersion || field == DetVersion || field == PriorVersion || field == PromptHash
  }

  /** What is recorded: nothing for an empty value or one that hashes like the old one, else the given value. */
  function Recorded(given: string, before: Value, rt: Runtime): Value {
    if given == "" || rt.hash(before) == rt.hash(Str(given)) then before else Str(given)
  }

  function LineageValue(s0: State, given: seq<string>, k: nat): Value
    requires |given| == 4 && k < 4 && LINEAGE_FIELDS[k] in s0.values
  {
    if given[k] == "" && k != 0 then s0.values[LINEAGE_FIELDS[k]] else Str(given[k])
  }

  /** The value of `f` once the first `k` lineage fields are recorded. */
  ghost function RecordedUpTo(s0: State, given: seq<string>, k: nat, f: Field, rt: Runtime): Value
    requires |given| == 4 && k <= 4 && Complete(s0)
  {
    if k == 0 then s0.values[f]
    else if f == LINEAGE_FIELDS[k - 1] then Recorded(given[k - 1], s0.values[f], rt)
    else RecordedUpTo(s0, given, k - 1, f, rt)
  }

  lemma {:induction false} NotYetRecorded(s0: State, given: seq<string>, k: nat, f: Field, rt: Runtime)
    requires |given| == 4 && k <= 4 && Complete(s0) && (forall j | 0 <= j < k :: LINEAGE_FIELDS[j] != f)
    ensures RecordedUpTo(s0, given, k, f, rt) == s0.values[f]
  {
    if k > 0 { NotYetRecorded(s0, given, k - 1, f, rt); }
  }

  /** The loop has recorded the first `k` lineage fields and touched no others. */
  ghost predicate LineageUpTo(s0: State, s: State, given: seq<string>, k: nat, rt: Runtime)
    requires |given| == 4 && k <= 4 && Complete(s0)
  {
    && Normal(s, rt) && Chained(s0, s, rt)
    && forall f: Field :: s.values[f] == RecordedUpTo(s0, given, k, f, rt)
  }

  /** Storing a well-formed value changes its field, unless the hashes agree, and no other field. */
  lemma WellFormedStored(s: State, field: Field, value: Value, actor: string, node: string, rt: Runtime)
    requires Normal(s, rt) && WellFormed(field, value, rt)
    ensures To(s, field, value, actor, node, rt).values ==
            s.values[field := if rt.hash(s.values[field]) == rt.hash(value) then s.values[field] else value]
  {
    TransitionEffect(s, field, value, actor, node, rt);
    if rt.hash(s.values[field]) == rt.hash(value) {
      assert s.values == s.values[field := s.values[field]];
    }
  }

  lemma LineageStep(s0: State, s: State, given: seq<string>, k: nat, actor: string, node: string, rt: Runtime)
    requires |given| == 4 && k < 4 && Normal(s0, rt) && LineageUpTo(s0, s, given, k, rt)
    ensures var value := LineageValue(s0, given, k);
            var next := if Truthy(value) then To(s, LINEAGE_FIELDS[k], value, actor, node, rt) else s;
            LineageUpTo(s0, next, given, k + 1, rt)
  {
    var field, value := LINEAGE_FIELDS[k], LineageValue(s0, given, k);
    LineageFieldText(s0, field, rt);
    assert RecordedUpTo(s0, given, k, field, rt) == s0.values[field] by { NotYetRecorded(s0, given, k, field, rt); }
    if Truthy(value) {
      assert WellFormed(field, value, rt);
      ChainedStep(s0, s, field, value, actor, node, rt);
      WellFormedStored(s, field, value, actor, node, rt);
    }
  }

  lemma LineageFieldText(s0: State, field: Field, rt: Runtime)
    requires Normal(s0, rt) && field in LINEAGE_FIELDS
    ensures s0.values[field].Str? && forall t: string :: WellFormed(field, Str(t), rt)
  {
    assert WellFormed(field, s0.values[field], rt);
  }

  /** The given value is recorded unless it is empty or hashes like the one before. */
  ghost predicate RecordDue(before: Value, after: Value, given: string, rt: Runtime) {
    if given != "" && rt.hash(before) != rt.hash(Str(given)) then after == Str(given) else after == before
  }

  /** `record_contract_lineage`: empty values are skipped, an absent one falls back on the recorded one, the log stays
      chained, and the graph fields keep their values. */
  method RecordContractLineage(s0: State, contractVersion: string, detVersion: string, priorVersion: string,
                               promptHash: string, actor: string, node: string, rt: Runtime) returns (s: State)
    requires Normal(s0, rt)
    ensures Normal(s, rt) && Chained(s0, s, rt)
    ensures RecordDue(s0.values[ContractVersion], s.values[ContractVersion], contractVersion, rt)
    ensures RecordDue(s0.values[DetVersion], s.values[DetVersion], detVersion, rt)
    ensures RecordDue(s0.values[PriorVersion], s.values[PriorVersion], priorVersion, rt)
    ensures RecordDue(s0.values[PromptHash], s.values[PromptHash], promptHash, rt)
    ensures forall f: Field | !IsLineageField(f) :: s.values[f] == s0.values[f]
    ensures LoggedBy(s0.transitions, s.transitions, actor, node)
  {
    s := s0;
    ChainedRefl(s0, rt);
    var given := [contractVersion, detVersion, priorVersion, promptHash];
    for k := 0 to 4
      invariant LineageUpTo(s0, s, given, k, rt) && LoggedBy(s0.transitions, s.transitions, actor, node)
    {
      LineageStep(s0, s, given, k, actor, node, rt);
      var value := LineageValue(s0, given, k);
      LoggedStep(s0.transitions, s, LINEAGE_FIELDS[k], value, actor, node, rt);
      if Truthy(value) { s := To(s, LINEAGE_FIELDS[k], value, actor, node, rt); }
    }
    LineageFinal(s0, s, given, rt);
  }

  lemma LineageFinal(s0: State, s: State, given: seq<string>, rt: Runtime)
    requires |given| == 4 && Complete(s0) && LineageUpTo(s0, s, given, 4, rt)
    ensures s.values[ContractVersion] == Recorded(given[0], s0.values[ContractVersion], rt)
    ensures s.values[DetVersion] == Recorded(given[1], s0.values[DetVersion], rt)
    ensures s.values[PriorVersion] == Recorded(given[2], s0.values[PriorVersion], rt)
    ensures s.values[PromptHash] == Recorded(given[3], s0.values[PromptHash], rt)
    ensures forall f: Field | !IsLineageField(f) :: s.values[f] == s0.values[f]
  {
    forall f: Field | !IsLineageField(f) ensures s.values[f] == s0.values[f] {
      NotYetRecorded(s0, given, 4, f, rt);
    }
    LineageAt(s0, given, 0, rt);
    LineageAt(s0, given, 1, rt);
    LineageAt(s0, given, 2, rt);
    LineageAt(s0, given, 3, rt);
  }

  lemma LineageAt(s0: State, given: seq<string>, k: nat, rt: Runtime)
    requires |given| == 4 && k < 4 && Complete(s0)
    ensures RecordedUpTo(s0, given, 4, LINEAGE_FIELDS[k], rt) == Recorded(given[k], s0.values[LINEAGE_FIELDS[k]], rt)
  {
    RecordedStays(s0, given, k, 4, rt);
  }

  lemma {:induction false} RecordedStays(s0: State, given: seq<string>, k: nat, n: nat, rt: Runtime)
    requires |given| == 4 && k < n <= 4 && Complete(s0)
    ensures RecordedUpTo(s0, given, n, LINEAGE_FIELDS[k], rt) == Recorded(given[k], s0.values[LINEAGE_FIELDS[k]], rt)
  {
    if n - 1 > k { RecordedStays(s0, given, k, n - 1, rt); }
  }
}
