/** Typed ports and structural validation of a pipeline (redibis/agents/registry.py), and what it means for the run
    order. */
module NodeRegistry {
  import opened Sequences
  import opened Conditions
  import opened TopologicalOrder

  // ---- Model ----

  datatype Port = Port(name: string, portType: string, required: bool)

  datatype ConfigField = ConfigField(
    name: string, fieldType: string, default: Value, required: bool, choices: seq<string>,
    minimum: Option<real>, maximum: Option<real>)

  datatype Entry = Entry(config: seq<ConfigField>, inputs: seq<Port>, outputs: seq<Port>)

  type Registry = map<string, Entry>

  datatype Node = Node(id: string, kind: string, params: map<string, Value>)

  datatype Spec = Spec(nodes: seq<Node>, edges: seq<Edge>)

  datatype ConfigError =
    | MissingParam(name: string) | NotAChoice(name: string) | NotNumeric(name: string)
    | TooSmall(name: string) | TooLarge(name: string)

  datatype Problem =
    | UnknownKind | BadConfig(error: ConfigError) | MissingInput(port: string) | SourceNotFound(source: string)
    | TargetNotFound(target: string) | NoOutputs | IncompatibleWiring | EmptyContract

  datatype ValidationError = ValidationError(nodeId: string, problem: Problem)

  const KIND_ALIASES: map<string, string> := map[
    "source_table" := "source", "profile_scan" := "profile", "quality_scan" := "contract", "pii_scan" := "contract",
    "classify" := "contract", "enrich" := "contract", "catalog_push" := "publish", "contract_write" := "publish",
    "approval_gate" := "gate", "batch_loop" := "batch"]

  const CONTRACT_FLAGS := ["pii", "classify", "mask_rules", "quality"]

  function ResolveNodeType(kind: string): string { if kind in KIND_ALIASES then KIND_ALIASES[kind] else kind }

  function GetNode(reg: Registry, kind: string): Option<Entry> {
    var canonical := ResolveNodeType(kind);
    if canonical in reg then Some(reg[canonical]) else None
  }

  // ---- Per-node configuration ----

  /** Non-null defaults by field name, a later field of the same name overriding. */
  function DefaultConfig(config: seq<ConfigField>): map<string, Value> {
    if config == [] then map[]
    else
      var f := config[|config| - 1];
      var rest := DefaultConfig(config[..|config| - 1]);
      if f.default == Null then rest else rest[f.name := f.default]
  }

  predicate FieldOk(f: ConfigField, merged: map<string, Value>, py: Primitives) {
    if f.name !in merged then !f.required
    else
      var v := merged[f.name];
      v != Null ==>
        && (f.choices != [] ==> py.render(v) in f.choices)
        && (f.fieldType in ["int", "float"] && f.minimum.Some? ==>
              var n := ToFloat(v, py);
              && n.Some?
              && f.minimum.value <= n.value
              && (f.maximum.Some? ==> n.value <= f.maximum.value))
  }

  predicate ConfigOk(e: Entry, params: map<string, Value>, py: Primitives) {
    forall f | f in e.config :: FieldOk(f, DefaultConfig(e.config) + params, py)
  }

  function RangeErrors(f: ConfigField, v: Value, py: Primitives): seq<ConfigError> {
    if f.fieldType !in ["int", "float"] || f.minimum.None? then []
    else
      var n := ToFloat(v, py);
      if n.None? then [NotNumeric(f.name)]
      else (if n.value < f.minimum.value then [TooSmall(f.name)] else []) +
           (if f.maximum.Some? && n.value > f.maximum.value then [TooLarge(f.name)] else [])
  }

  function FieldErrors(f: ConfigField, merged: map<string, Value>, py: Primitives): seq<ConfigError> {
    if f.name !in merged then if f.required then [MissingParam(f.name)] else []
    else if merged[f.name] == Null then []
    else (if f.choices != [] && py.render(merged[f.name]) !in f.choices then [NotAChoice(f.name)] else []) +
         RangeErrors(f, merged[f.name], py)
  }

  function ConfigErrors(config: seq<ConfigField>, merged: map<string, Value>, py: Primitives): seq<ConfigError> {
    if config == [] then []
    else ConfigErrors(config[..|config| - 1], merged, py) + FieldErrors(config[|config| - 1], merged, py)
  }

  method ValidateConfig(e: Entry, params: map<string, Value>, py: Primitives) returns (errors: seq<ConfigError>)
    ensures errors == ConfigErrors(e.config, DefaultConfig(e.config) + params, py)
    ensures errors == [] <==> ConfigOk(e, params, py)
  {
    errors := [];
    var merged := DefaultConfig(e.config) + params;
    for k := 0 to |e.config|
      invariant errors == ConfigErrors(e.config[..k], merged, py)
    {
      TakeStep(e.config, k);
      var f := e.config[k];
      if f.required && f.name !in merged {
        errors := errors + [MissingParam(f.name)];
        continue;
      }
      if f.name !in merged || merged[f.name] == Null { continue; }
      var found := CheckValue(f, merged[f.name], py);
      errors := errors + found;
    }
    assert e.config[..|e.config|] == e.config;
    NoConfigErrorsIff(e.config, merged, py);
  }

  method CheckValue(f: ConfigField, v: Value, py: Primitives) returns (errors: seq<ConfigError>)
    ensures errors == (if f.choices != [] && py.render(v) !in f.choices then [NotAChoice(f.name)] else []) +
            RangeErrors(f, v, py)
  {
    errors := [];
    if f.choices != [] && py.render(v) !in f.choices { errors := errors + [NotAChoice(f.name)]; }
    if f.fieldType in ["int", "float"] && f.minimum.Some? {
      var n := ToFloat(v, py);
      if n.None? { return errors + [NotNumeric(f.name)]; }
      if n.value < f.minimum.value { errors := errors + [TooSmall(f.name)]; }
      if f.maximum.Some? && n.value > f.maximum.value { errors := errors + [TooLarge(f.name)]; }
    }
  }

  lemma {:induction false} NoConfigErrorsIff(config: seq<ConfigField>, merged: map<string, Value>, py: Primitives)
    ensures ConfigErrors(config, merged, py) == [] <==> forall f | f in config :: FieldOk(f, merged, py)
  {
    if config != [] {
      var front, last := config[..|config| - 1], config[|config| - 1];
      NoConfigErrorsIff(front, merged, py);
      assert FieldErrors(last, merged, py) == [] <==> FieldOk(last, merged, py);
      assert forall f :: f in config <==> f in front || f == last;
    }
  }

  // ---- Lookups over a specification ----

  /** `node_by_id`: the last node with that id. */
  function NodeById(nodes: seq<Node>, id: string): Option<Node> {
    if nodes == [] then None
    else if nodes[|nodes| - 1].id == id then Some(nodes[|nodes| - 1])
    else NodeById(nodes[..|nodes| - 1], id)
  }

  function Ids(nodes: seq<Node>): (r: seq<string>)
    ensures |r| == |nodes| && forall k :: 0 <= k < |nodes| ==> r[k] == nodes[k].id
  {
    if nodes == [] then [] else Ids(nodes[..|nodes| - 1]) + [nodes[|nodes| - 1].id]
  }

  predicate Emits(e: Entry, portType: string) { exists p | p in e.outputs :: p.portType == portType }

  function EntryOf(spec: Spec, reg: Registry, id: string): Option<Entry> {
    var n := NodeById(spec.nodes, id);
    if n.None? then None else GetNode(reg, n.value.kind)
  }

  /** Some direct predecessor emits the type. */
  predicate Fed(spec: Spec, reg: Registry, id: string, portType: string) {
    exists e | e in spec.edges ::
      e.target == id && EntryOf(spec, reg, e.source).Some? && Emits(EntryOf(spec, reg, e.source).value, portType)
  }

  predicate Compatible(src: Entry, tgt: Entry) {
    exists o, i | o in src.outputs && i in tgt.inputs :: i.required && o.portType == i.portType
  }

  function FlagValue(n: Node, reg: Registry, flag: string): Value {
    if flag in n.params then n.params[flag]
    else
      var e := GetNode(reg, n.kind);
      if e.None? then Bool(false) else DefaultOf(e.value.config, flag)
  }

  /** `entry_default`: the default of the first field of that name. */
  function DefaultOf(config: seq<ConfigField>, name: string): Value {
    if config == [] then Bool(false)
    else if config[0].name == name then config[0].default
    else DefaultOf(config[1..], name)
  }

  // ---- What "no error" means ----

  predicate NodeSound(reg: Registry, n: Node, py: Primitives) {
    GetNode(reg, n.kind).Some? && ConfigOk(GetNode(reg, n.kind).value, n.params, py)
  }

  predicate InputsSound(spec: Spec, reg: Registry, n: Node) {
    GetNode(reg, n.kind).Some? ==>
      forall p | p in GetNode(reg, n.kind).value.inputs :: p.required ==> Fed(spec, reg, n.id, p.portType)
  }

  predicate EdgeSound(spec: Spec, reg: Registry, e: Edge) {
    && NodeById(spec.nodes, e.source).Some?
    && NodeById(spec.nodes, e.target).Some?
    && var src, tgt := EntryOf(spec, reg, e.source), EntryOf(spec, reg, e.target);
       src.Some? && tgt.Some? ==>
         && src.value.outputs != []
         && ((exists i | i in tgt.value.inputs :: i.required) ==> Compatible(src.value, tgt.value))
  }

  predicate ContractSound(reg: Registry, n: Node) {
    ResolveNodeType(n.kind) == "contract" ==> exists f | f in CONTRACT_FLAGS :: Truthy(FlagValue(n, reg, f))
  }

  predicate Sound(spec: Spec, reg: Registry, py: Primitives) {
    && (forall n | n in spec.nodes :: NodeSound(reg, n, py))
    && (forall n | n in spec.nodes :: InputsSound(spec, reg, n))
    && (forall e | e in spec.edges :: EdgeSound(spec, reg, e))
    && (forall n | n in spec.nodes :: ContractSound(reg, n))
  }

  // ---- Which errors are reported, in order ----

  function Tagged(id: string, errors: seq<ConfigError>): seq<ValidationError> {
    seq(|errors|, k requires 0 <= k < |errors| => ValidationError(id, BadConfig(errors[k])))
  }

  function NodeErrors(reg: Registry, n: Node, py: Primitives): seq<ValidationError> {
    var entry := GetNode(reg, n.kind);
    if entry.None? then [ValidationError(n.id, UnknownKind)]
    else Tagged(n.id, ConfigErrors(entry.value.config, DefaultConfig(entry.value.config) + n.params, py))
  }

  function AllNodeErrors(reg: Registry, nodes: seq<Node>, py: Primitives): seq<ValidationError> {
    if nodes == [] then [] else AllNodeErrors(reg, nodes[..|nodes| - 1], py) + NodeErrors(reg, nodes[|nodes| - 1], py)
  }

  function PortErrors(spec: Spec, reg: Registry, id: string, inputs: seq<Port>): seq<ValidationError> {
    if inputs == [] then []
    else
      var p := inputs[|inputs| - 1];
      PortErrors(spec, reg, id, inputs[..|inputs| - 1]) +
      if p.required && !Fed(spec, reg, id, p.portType) then [ValidationError(id, MissingInput(p.name))] else []
  }

  function InputErrors(spec: Spec, reg: Registry, n: Node): seq<ValidationError> {
    var entry := GetNode(reg, n.kind);
    if entry.None? then [] else PortErrors(spec, reg, n.id, entry.value.inputs)
  }

  function AllInputErrors(spec: Spec, reg: Registry, nodes: seq<Node>): seq<ValidationError> {
    if nodes == [] then []
    else AllInputErrors(spec, reg, nodes[..|nodes| - 1]) + InputErrors(spec, reg, nodes[|nodes| - 1])
  }

  function EdgeErrors(spec: Spec, reg: Registry, e: Edge): seq<ValidationError> {
    if NodeById(spec.nodes, e.source).None? then [ValidationError(e.target, SourceNotFound(e.source))]
    else if NodeById(spec.nodes, e.target).None? then [ValidationError(e.source, TargetNotFound(e.target))]
    else
      var src, tgt := EntryOf(spec, reg, e.source), EntryOf(spec, reg, e.target);
      if src.None? || tgt.None? then []
      else if src.value.outputs == [] then [ValidationError(e.source, NoOutputs)]
      else if (exists i | i in tgt.value.inputs :: i.required) && !Compatible(src.value, tgt.value)
      then [ValidationError(e.target, IncompatibleWiring)]
      else []
  }

  function AllEdgeErrors(spec: Spec, reg: Registry, edges: seq<Edge>): seq<ValidationError> {
    if edges == [] then []
    else AllEdgeErrors(spec, reg, edges[..|edges| - 1]) + EdgeErrors(spec, reg, edges[|edges| - 1])
  }

  function ContractErrors(reg: Registry, n: Node): seq<ValidationError> {
    if ContractSound(reg, n) then [] else [ValidationError(n.id, EmptyContract)]
  }

  function AllContractErrors(reg: Registry, nodes: seq<Node>): seq<ValidationError> {
    if nodes == [] then [] else AllContractErrors(reg, nodes[..|nodes| - 1]) + ContractErrors(reg, nodes[|nodes| - 1])
  }

  function SpecErrors(spec: Spec, reg: Registry, py: Primitives): seq<ValidationError> {
    AllNodeErrors(reg, spec.nodes, py) + AllInputErrors(spec, reg, spec.nodes)
    + AllEdgeErrors(spec, reg, spec.edges) + AllContractErrors(reg, spec.nodes)
  }

  lemma {:induction false} NoPortErrorsIff(spec: Spec, reg: Registry, id: string, inputs: seq<Port>)
    ensures PortErrors(spec, reg, id, inputs) == [] <==>
            forall p | p in inputs :: p.required ==> Fed(spec, reg, id, p.portType)
  {
    if inputs != [] {
      var front, last := inputs[..|inputs| - 1], inputs[|inputs| - 1];
      NoPortErrorsIff(spec, reg, id, front);
      assert forall p :: p in inputs <==> p in front || p == last;
    }
  }

  lemma NodeErrorsIff(reg: Registry, n: Node, py: Primitives)
    ensures NodeErrors(reg, n, py) == [] <==> NodeSound(reg, n, py)
  {
    var entry := GetNode(reg, n.kind);
    if entry.Some? {
      var merged := DefaultConfig(entry.value.config) + n.params;
      NoConfigErrorsIff(entry.value.config, merged, py);
      assert |Tagged(n.id, ConfigErrors(entry.value.config, merged, py))| ==
             |ConfigErrors(entry.value.config, merged, py)|;
    }
  }

  lemma {:induction false} NoNodeErrorsIff(reg: Registry, nodes: seq<Node>, py: Primitives)
    ensures AllNodeErrors(reg, nodes, py) == [] <==> forall n | n in nodes :: NodeSound(reg, n, py)
  {
    if nodes != [] {
      var front, last := nodes[..|nodes| - 1], nodes[|nodes| - 1];
      NoNodeErrorsIff(reg, front, py);
      NodeErrorsIff(reg, last, py);
      assert forall n :: n in nodes <==> n in front || n == last;
    }
  }

  lemma InputErrorsIff(spec: Spec, reg: Registry, n: Node)
    ensures InputErrors(spec, reg, n) == [] <==> InputsSound(spec, reg, n)
  {
    var entry := GetNode(reg, n.kind);
    if entry.Some? { NoPortErrorsIff(spec, reg, n.id, entry.value.inputs); }
  }

  lemma {:induction false} NoInputErrorsIff(spec: Spec, reg: Registry, nodes: seq<Node>)
    ensures AllInputErrors(spec, reg, nodes) == [] <==> forall n | n in nodes :: InputsSound(spec, reg, n)
  {
    if nodes != [] {
      var front, last := nodes[..|nodes| - 1], nodes[|nodes| - 1];
      NoInputErrorsIff(spec, reg, front);
      InputErrorsIff(spec, reg, last);
      assert forall n :: n in nodes <==> n in front || n == last;
    }
  }

  lemma {:induction false} NoEdgeErrorsIff(spec: Spec, reg: Registry, edges: seq<Edge>)
    ensures AllEdgeErrors(spec, reg, edges) == [] <==> forall e | e in edges :: EdgeSound(spec, reg, e)
  {
    if edges != [] {
      var front, last := edges[..|edges| - 1], edges[|edges| - 1];
      NoEdgeErrorsIff(spec, reg, front);
      assert EdgeErrors(spec, reg, last) == [] <==> EdgeSound(spec, reg, last);
      assert forall e :: e in edges <==> e in front || e == last;
    }
  }

  lemma {:induction false} NoContractErrorsIff(reg: Registry, nodes: seq<Node>)
    ensures AllContractErrors(reg, nodes) == [] <==> forall n | n in nodes :: ContractSound(reg, n)
  {
    if nodes != [] {
      var front, last := nodes[..|nodes| - 1], nodes[|nodes| - 1];
      NoContractErrorsIff(reg, front);
      assert forall n :: n in nodes <==> n in front || n == last;
    }
  }

  /** The list of errors is empty exactly on sound specifications. */
  lemma NoErrorsIffSound(spec: Spec, reg: Registry, py: Primitives)
    ensures SpecErrors(spec, reg, py) == [] <==> Sound(spec, reg, py)
  {
    NoNodeErrorsIff(reg, spec.nodes, py);
    NoInputErrorsIff(spec, reg, spec.nodes);
    NoEdgeErrorsIff(spec, reg, spec.edges);
    NoContractErrorsIff(reg, spec.nodes);
  }

  // ---- Validation ----

  method CheckNodes(spec: Spec, reg: Registry, py: Primitives) returns (errors: seq<ValidationError>)
    ensures errors == AllNodeErrors(reg, spec.nodes, py)
  {
    errors := [];
    for k := 0 to |spec.nodes|
      invariant errors == AllNodeErrors(reg, spec.nodes[..k], py)
    {
      TakeStep(spec.nodes, k);
      var n := spec.nodes[k];
      var entry := GetNode(reg, n.kind);
      if entry.None? {
        errors := errors + [ValidationError(n.id, UnknownKind)];
        continue;
      }
      var bad := ValidateConfig(entry.value, n.params, py);
      errors := TagErrors(errors, n.id, bad);
    }
    assert spec.nodes[..|spec.nodes|] == spec.nodes;
  }

  method TagErrors(before: seq<ValidationError>, id: string, bad: seq<ConfigError>)
      returns (errors: seq<ValidationError>)
    ensures errors == before + Tagged(id, bad)
  {
    errors := before;
    for b := 0 to |bad|
      invariant errors == before + Tagged(id, bad[..b])
    {
      errors := errors + [ValidationError(id, BadConfig(bad[b]))];
      assert Tagged(id, bad[..b + 1]) == Tagged(id, bad[..b]) + [ValidationError(id, BadConfig(bad[b]))];
    }
    assert bad[..|bad|] == bad;
  }

  /** Direct predecessors by target. */
  method ParentsByTarget(edges: seq<Edge>) returns (parents: map<string, seq<string>>)
    ensures forall t, s :: (t in parents && s in parents[t]) <==> Edge(s, t) in edges
  {
    parents := map[];
    for k := 0 to |edges|
      invariant forall t, s :: (t in parents && s in parents[t]) <==> Edge(s, t) in edges[..k]
    {
      TakeStep(edges, k);
      var e := edges[k];
      parents := parents[e.target := (if e.target in parents then parents[e.target] else []) + [e.source]];
      forall t, s ensures (t in parents && s in parents[t]) <==> Edge(s, t) in edges[..k + 1] {
        assert Edge(s, t) in edges[..k + 1] <==> Edge(s, t) in edges[..k] || Edge(s, t) == e;
      }
    }
    assert edges[..|edges|] == edges;
  }

  /** Port types the parents of one node emit. */
  method UpstreamTypes(spec: Spec, reg: Registry, id: string, parents: map<string, seq<string>>)
      returns (types: set<string>)
    requires forall t, s :: (t in parents && s in parents[t]) <==> Edge(s, t) in spec.edges
    ensures forall t :: t in types <==> Fed(spec, reg, id, t)
  {
    types := {};
    var mine := if id in parents then parents[id] else [];
    for k := 0 to |mine|
      invariant forall t :: t in types <==>
        exists j | 0 <= j < k :: EntryOf(spec, reg, mine[j]).Some? && Emits(EntryOf(spec, reg, mine[j]).value, t)
    {
      var entry := EntryOf(spec, reg, mine[k]);
      if entry.Some? {
        types := types + set p | p in entry.value.outputs :: p.portType;
      }
    }
    forall t ensures t in types <==> Fed(spec, reg, id, t) {
      if t in types {
        var j :| 0 <= j < |mine| && EntryOf(spec, reg, mine[j]).Some? && Emits(EntryOf(spec, reg, mine[j]).value, t);
        assert mine[j] in mine && Edge(mine[j], id) in spec.edges;
      }
      if Fed(spec, reg, id, t) {
        var e :| e in spec.edges && e.target == id && EntryOf(spec, reg, e.source).Some?
            && Emits(EntryOf(spec, reg, e.source).value, t);
        assert Edge(e.source, id) in spec.edges;
        var j :| 0 <= j < |mine| && mine[j] == e.source;
      }
    }
  }

  method CheckInputs(spec: Spec, reg: Registry) returns (errors: seq<ValidationError>)
    ensures errors == AllInputErrors(spec, reg, spec.nodes)
  {
    errors := [];
    var parents := ParentsByTarget(spec.edges);
    for k := 0 to |spec.nodes|
      invariant errors == AllInputErrors(spec, reg, spec.nodes[..k])
    {
      TakeStep(spec.nodes, k);
      var n := spec.nodes[k];
      var entry := GetNode(reg, n.kind);
      if entry.None? { continue; }
      var types := UpstreamTypes(spec, reg, n.id, parents);
      var missing := CheckPorts(spec, reg, n.id, entry.value.inputs, types);
      errors := errors + missing;
    }
    assert spec.nodes[..|spec.nodes|] == spec.nodes;
  }

  /** One node's required inputs against the types its parents emit. */
  method CheckPorts(spec: Spec, reg: Registry, id: string, inputs: seq<Port>, types: set<string>)
      returns (errors: seq<ValidationError>)
    requires forall t :: t in types <==> Fed(spec, reg, id, t)
    ensures errors == PortErrors(spec, reg, id, inputs)
  {
    errors := [];
    for i := 0 to |inputs|
      invariant errors == PortErrors(spec, reg, id, inputs[..i])
    {
      TakeStep(inputs, i);
      if !inputs[i].required { continue; }
      if inputs[i].portType !in types { errors := errors + [ValidationError(id, MissingInput(inputs[i].name))]; }
    }
    assert inputs[..|inputs|] == inputs;
  }

  method CheckEdge(spec: Spec, reg: Registry, e: Edge) returns (errors: seq<ValidationError>)
    ensures errors == EdgeErrors(spec, reg, e)
  {
    var src, tgt := NodeById(spec.nodes, e.source), NodeById(spec.nodes, e.target);
    NodeByIdFound(spec.nodes, e.source);
    NodeByIdFound(spec.nodes, e.target);
    if src.None? { return [ValidationError(e.target, SourceNotFound(e.source))]; }
    if tgt.None? { return [ValidationError(e.source, TargetNotFound(e.target))]; }
    var srcEntry, tgtEntry := GetNode(reg, src.value.kind), GetNode(reg, tgt.value.kind);
    if srcEntry.None? || tgtEntry.None? { return []; }
    if srcEntry.value.outputs == [] { return [ValidationError(src.value.id, NoOutputs)]; }
    if !exists i | i in tgtEntry.value.inputs :: i.required { return []; }
    if !Compatible(srcEntry.value, tgtEntry.value) { return [ValidationError(tgt.value.id, IncompatibleWiring)]; }
    return [];
  }

  method CheckEdges(spec: Spec, reg: Registry) returns (errors: seq<ValidationError>)
    ensures errors == AllEdgeErrors(spec, reg, spec.edges)
  {
    errors := [];
    for k := 0 to |spec.edges|
      invariant errors == AllEdgeErrors(spec, reg, spec.edges[..k])
    {
      TakeStep(spec.edges, k);
      var found := CheckEdge(spec, reg, spec.edges[k]);
      errors := errors + found;
    }
    assert spec.edges[..|spec.edges|] == spec.edges;
  }

  method CheckContracts(spec: Spec, reg: Registry) returns (errors: seq<ValidationError>)
    ensures errors == AllContractErrors(reg, spec.nodes)
  {
    errors := [];
    for k := 0 to |spec.nodes|
      invariant errors == AllContractErrors(reg, spec.nodes[..k])
    {
      TakeStep(spec.nodes, k);
      var n := spec.nodes[k];
      if ResolveNodeType(n.kind) != "contract" { continue; }
      if !exists f | f in CONTRACT_FLAGS :: Truthy(FlagValue(n, reg, f)) {
        errors := errors + [ValidationError(n.id, EmptyContract)];
      }
    }
    assert spec.nodes[..|spec.nodes|] == spec.nodes;
  }

  /** `validate_spec`: exactly the errors of the specification, in order; none exactly when it is sound. */
  method ValidateSpec(spec: Spec, reg: Registry, py: Primitives) returns (errors: seq<ValidationError>)
    ensures errors == SpecErrors(spec, reg, py)
    ensures errors == [] <==> Sound(spec, reg, py)
  {
    NoErrorsIffSound(spec, reg, py);
    var nodeErrors := CheckNodes(spec, reg, py);
    var inputErrors := CheckInputs(spec, reg);
    var edgeErrors := CheckEdges(spec, reg);
    var contractErrors := CheckContracts(spec, reg);
    errors := nodeErrors + inputErrors + edgeErrors + contractErrors;
  }

  // ---- A validated pipeline in run order ----

  lemma {:induction false} NodeByIdFound(nodes: seq<Node>, id: string)
    ensures NodeById(nodes, id).Some? ==> NodeById(nodes, id).value in nodes && NodeById(nodes, id).value.id == id
    ensures NodeById(nodes, id).Some? <==> id in Ids(nodes)
  {
    if nodes != [] { NodeByIdFound(nodes[..|nodes| - 1], id); }
  }

  /** Validation closes the graph: with unique ids a sound specification is well formed. */
  lemma SoundIsWellFormed(spec: Spec, reg: Registry, py: Primitives)
    requires Sound(spec, reg, py) && NoDup(Ids(spec.nodes))
    ensures WellFormed(Ids(spec.nodes), spec.edges)
  {
    forall e | e in spec.edges ensures e.source in Ids(spec.nodes) && e.target in Ids(spec.nodes) {
      assert EdgeSound(spec, reg, e);
      NodeByIdFound(spec.nodes, e.source);
      NodeByIdFound(spec.nodes, e.target);
    }
  }

  /** Position `i` of the run order has an input of this type from an earlier position. */
  ghost predicate FedEarlier(spec: Spec, reg: Registry, order: seq<string>, i: nat, portType: string)
    requires i < |order|
  {
    exists j :: 0 <= j < i && EntryOf(spec, reg, order[j]).Some? && Emits(EntryOf(spec, reg, order[j]).value, portType)
  }

  /** An edge that brings the type to position `i` of the run order comes from an earlier position. */
  lemma FedByPredecessor(spec: Spec, reg: Registry, kahn: seq<string>, i: nat, portType: string)
    requires PredecessorsFirst(spec.edges, kahn) && i < |kahn| && Fed(spec, reg, kahn[i], portType)
    ensures FedEarlier(spec, reg, kahn, i, portType)
  {
    var e :| e in spec.edges && e.target == kahn[i] && EntryOf(spec, reg, e.source).Some?
        && Emits(EntryOf(spec, reg, e.source).value, portType);
    assert e.source in kahn[..i];
    var j :| 0 <= j < i && kahn[j] == e.source;
  }

  lemma OffCycleIsInKahn(ids: seq<string>, edges: seq<Edge>, kahn: seq<string>, order: seq<string>, i: nat)
    requires WellFormed(ids, edges) && IsKahnOrder(ids, edges, kahn)
    requires order == WithFallback(ids, kahn)
    requires i < |order| && !ReachedFromCycle(edges, order[i])
    ensures i < |kahn| && order[i] in ids
  {
    OrderIsPermutation(ids, edges, kahn);
    assert order[i] in order;
    KahnOrderIsOffCycle(ids, edges, kahn, order[i]);
    var k :| 0 <= k < |kahn| && kahn[k] == order[i];
    assert order[k] == kahn[k];
  }

  /** In a sound specification every node not reachable from a cycle has all required inputs produced before it runs. */
  lemma ValidatedNodeIsFed(spec: Spec, reg: Registry, py: Primitives, kahn: seq<string>, order: seq<string>, i: nat,
        p: Port)
    requires Sound(spec, reg, py) && NoDup(Ids(spec.nodes))
    requires IsKahnOrder(Ids(spec.nodes), spec.edges, kahn)
    requires order == WithFallback(Ids(spec.nodes), kahn)
    requires i < |order| && !ReachedFromCycle(spec.edges, order[i])
    requires EntryOf(spec, reg, order[i]).Some? && p in EntryOf(spec, reg, order[i]).value.inputs && p.required
    ensures FedEarlier(spec, reg, order, i, p.portType)
  {
    SoundIsWellFormed(spec, reg, py);
    OffCycleIsInKahn(Ids(spec.nodes), spec.edges, kahn, order, i);
    NodeByIdFound(spec.nodes, order[i]);
    assert InputsSound(spec, reg, NodeById(spec.nodes, order[i]).value);
    assert order[i] == kahn[i];
    FedByPredecessor(spec, reg, kahn, i, p.portType);
    var j :| 0 <= j < i && EntryOf(spec, reg, kahn[j]).Some? && Emits(EntryOf(spec, reg, kahn[j]).value, p.portType);
    assert order[j] == kahn[j];
  }

  /** In particular a sound acyclic pipeline, run in topological order, feeds every node. */
  lemma ValidatedPipelineIsFed(spec: Spec, reg: Registry, py: Primitives, kahn: seq<string>, i: nat, p: Port)
    requires Sound(spec, reg, py) && NoDup(Ids(spec.nodes)) && Acyclic(spec.edges)
    requires IsKahnOrder(Ids(spec.nodes), spec.edges, kahn)
    requires i < |kahn| && EntryOf(spec, reg, kahn[i]).Some? && p in EntryOf(spec, reg, kahn[i]).value.inputs
             && p.required
    ensures |kahn| == |spec.nodes| && FedEarlier(spec, reg, kahn, i, p.portType)
  {
    SoundIsWellFormed(spec, reg, py);
    FallbackEmptyIffAcyclic(Ids(spec.nodes), spec.edges, kahn);
    assert kahn + [] == kahn;
    ValidatedNodeIsFed(spec, reg, py, kahn, kahn, i, p);
  }

  // ---- Nodes reachable from a cycle: placed by the fallback, in specification order ----

  lemma IndexWithLast(ids: seq<string>, x: string)
    requires NoDup(ids) && ids != [] && x in ids
    ensures var front := ids[..|ids| - 1];
            IndexOf(ids, x) == if x in front then IndexOf(front, x) else |front|
  {
    var front := ids[..|ids| - 1];
    if x in front { IndexUnique(ids, IndexOf(front, x)); } else { IndexUnique(ids, |front|); }
  }

  lemma {:induction false} MissingPrefix(ids: seq<string>, order: seq<string>, n: nat, x: string)
    requires NoDup(ids) && n < |Missing(ids, order)|
    ensures Missing(ids, order)[n] in ids
    ensures x in Missing(ids, order)[..n] <==>
            x in ids && x !in order && IndexOf(ids, x) < IndexOf(ids, Missing(ids, order)[n])
  {
    var front, last := ids[..|ids| - 1], ids[|ids| - 1];
    var m, all := Missing(front, order), Missing(ids, order);
    assert last !in front && (x in ids <==> x in front || x == last);
    if x in ids { IndexWithLast(ids, x); }
    if n < |m| {
      assert all[..n] == m[..n] && all[n] == m[n];
      MissingPrefix(front, order, n, x);
    } else {
      assert all[..n] == m && all[n] == last;
    }
    IndexWithLast(ids, all[n]);
  }

  /** A node reachable from a cycle is placed by the fallback. */
  lemma FallbackPosition(ids: seq<string>, edges: seq<Edge>, kahn: seq<string>, i: nat)
    requires WellFormed(ids, edges) && IsKahnOrder(ids, edges, kahn)
    requires i < |WithFallback(ids, kahn)| && ReachedFromCycle(edges, WithFallback(ids, kahn)[i])
    ensures |kahn| <= i < |kahn| + |Missing(ids, kahn)| && |kahn| != |ids|
  {
    if i < |kahn| {
      assert kahn[i] in kahn;
      KahnOrderIsOffCycle(ids, edges, kahn, kahn[i]);
    }
  }

  lemma FallbackSlice(ids: seq<string>, kahn: seq<string>, i: nat, u: string)
    requires NoDup(ids) && |kahn| != |ids| && |kahn| <= i < |kahn| + |Missing(ids, kahn)|
    ensures var order := WithFallback(ids, kahn);
            && order[i] in ids
            && (u in order[..i] <==> u in kahn || (u in ids && IndexOf(ids, u) < IndexOf(ids, order[i])))
  {
    var order, n := WithFallback(ids, kahn), i - |kahn|;
    assert order[..i] == kahn + Missing(ids, kahn)[..n];
    MissingPrefix(ids, kahn, n, u);
  }

  /** In the run order a node reachable from a cycle follows exactly the nodes no cycle reaches and those before it in
      the specification. */
  lemma FallbackPredecessors(ids: seq<string>, edges: seq<Edge>, kahn: seq<string>, i: nat, u: string)
    requires WellFormed(ids, edges) && IsKahnOrder(ids, edges, kahn)
    requires var order := WithFallback(ids, kahn); i < |order| && ReachedFromCycle(edges, order[i])
    ensures var order := WithFallback(ids, kahn);
            && order[i] in ids
            && (u in order[..i] <==>
                  u in ids && (!ReachedFromCycle(edges, u) || IndexOf(ids, u) < IndexOf(ids, order[i])))
  {
    FallbackPosition(ids, edges, kahn, i);
    FallbackSlice(ids, kahn, i, u);
    KahnOrderIsOffCycle(ids, edges, kahn, u);
  }

  /** Some node of the specification that emits the type is reachable from no cycle, or stands before `v`. */
  ghost predicate FedInOrder(spec: Spec, reg: Registry, v: string, portType: string)
    requires v in Ids(spec.nodes)
  {
    exists u | u in Ids(spec.nodes) &&
               (!ReachedFromCycle(spec.edges, u) || IndexOf(Ids(spec.nodes), u) < IndexOf(Ids(spec.nodes), v)) ::
      EntryOf(spec, reg, u).Some? && Emits(EntryOf(spec, reg, u).value, portType)
  }

  /** A node reachable from a cycle is fed a type by an earlier node exactly when some node emitting it is reachable
      from no cycle or stands before it in the specification. */
  lemma CyclicNodeIsFedIff(spec: Spec, reg: Registry, kahn: seq<string>, i: nat, portType: string)
    requires WellFormed(Ids(spec.nodes), spec.edges) && IsKahnOrder(Ids(spec.nodes), spec.edges, kahn)
    requires var order := WithFallback(Ids(spec.nodes), kahn); i < |order| && ReachedFromCycle(spec.edges, order[i])
    ensures var order := WithFallback(Ids(spec.nodes), kahn);
            && order[i] in Ids(spec.nodes)
            && (FedEarlier(spec, reg, order, i, portType) <==> FedInOrder(spec, reg, order[i], portType))
  {
    var ids := Ids(spec.nodes);
    var order := WithFallback(ids, kahn);
    FallbackPredecessors(ids, spec.edges, kahn, i, "");
    if FedEarlier(spec, reg, order, i, portType) {
      var j :| 0 <= j < i && EntryOf(spec, reg, order[j]).Some? && Emits(EntryOf(spec, reg, order[j]).value, portType);
      assert order[j] in order[..i];
      FallbackPredecessors(ids, spec.edges, kahn, i, order[j]);
    }
    if FedInOrder(spec, reg, order[i], portType) {
      var u :| u in ids && (!ReachedFromCycle(spec.edges, u) || IndexOf(ids, u) < IndexOf(ids, order[i]))
        && EntryOf(spec, reg, u).Some? && Emits(EntryOf(spec, reg, u).value, portType);
      FallbackPredecessors(ids, spec.edges, kahn, i, u);
      var j :| 0 <= j < i && order[j] == u;
    }
  }

  /** The node at `i` has all its required input types from earlier nodes. */
  ghost predicate AllFed(spec: Spec, reg: Registry, order: seq<string>, i: nat)
    requires i < |order|
  {
    EntryOf(spec, reg, order[i]).Some? ==>
      forall p | p in EntryOf(spec, reg, order[i]).value.inputs && p.required ::
        FedEarlier(spec, reg, order, i, p.portType)
  }

  ghost predicate AllFedInOrder(spec: Spec, reg: Registry, v: string)
    requires v in Ids(spec.nodes)
  {
    EntryOf(spec, reg, v).Some? ==>
      forall p | p in EntryOf(spec, reg, v).value.inputs && p.required :: FedInOrder(spec, reg, v, p.portType)
  }

  lemma NodeIsFedIff(spec: Spec, reg: Registry, py: Primitives, kahn: seq<string>, i: nat)
    requires Sound(spec, reg, py) && NoDup(Ids(spec.nodes)) && IsKahnOrder(Ids(spec.nodes), spec.edges, kahn)
    requires i < |WithFallback(Ids(spec.nodes), kahn)|
    ensures var order := WithFallback(Ids(spec.nodes), kahn);
            && order[i] in Ids(spec.nodes)
            && (AllFed(spec, reg, order, i) <==>
                (ReachedFromCycle(spec.edges, order[i]) ==> AllFedInOrder(spec, reg, order[i])))
  {
    var order := WithFallback(Ids(spec.nodes), kahn);
    SoundIsWellFormed(spec, reg, py);
    OrderIsPermutation(Ids(spec.nodes), spec.edges, kahn);
    assert order[i] in order;
    if EntryOf(spec, reg, order[i]).Some? {
      forall p | p in EntryOf(spec, reg, order[i]).value.inputs && p.required
        ensures FedEarlier(spec, reg, order, i, p.portType) <==>
                (ReachedFromCycle(spec.edges, order[i]) ==> FedInOrder(spec, reg, order[i], p.portType))
      {
        if ReachedFromCycle(spec.edges, order[i]) {
          CyclicNodeIsFedIff(spec, reg, kahn, i, p.portType);
        } else {
          ValidatedNodeIsFed(spec, reg, py, kahn, order, i, p);
        }
      }
    }
  }

  /** A validated pipeline, cyclic or not, feeds every node in run order iff each node reachable from a cycle finds a
      source for every required type among the nodes no cycle reaches and those before it in the specification. */
  lemma PipelineIsFedIff(spec: Spec, reg: Registry, py: Primitives, kahn: seq<string>)
    requires Sound(spec, reg, py) && NoDup(Ids(spec.nodes)) && IsKahnOrder(Ids(spec.nodes), spec.edges, kahn)
    ensures var order := WithFallback(Ids(spec.nodes), kahn);
            (forall i: nat | i < |order| :: AllFed(spec, reg, order, i)) <==>
            (forall v | v in Ids(spec.nodes) && ReachedFromCycle(spec.edges, v) :: AllFedInOrder(spec, reg, v))
  {
    var ids := Ids(spec.nodes);
    var order := WithFallback(ids, kahn);
    SoundIsWellFormed(spec, reg, py);
    OrderIsPermutation(ids, spec.edges, kahn);
    forall i: nat | i < |order|
      ensures order[i] in ids
      ensures AllFed(spec, reg, order, i) <==>
              (ReachedFromCycle(spec.edges, order[i]) ==> AllFedInOrder(spec, reg, order[i]))
    {
      NodeIsFedIff(spec, reg, py, kahn, i);
    }
    forall v | v in ids ensures exists i: nat :: i < |order| && order[i] == v { assert v in order; }
  }

  /** Validation does not look for cycles: a node wired only to itself passes, though nothing before it feeds it. */
  lemma SelfLoopValidatesUnfed(py: Primitives)
    ensures var data := Port("data", "DataRef", true);
            var reg: Registry := map["sample" := Entry([], [data], [data])];
            var spec := Spec([Node.Node("a", "sample", map[])], [Edge("a", "a")]);
            && Sound(spec, reg, py)
            && EntryOf(spec, reg, "a") == Some(Entry([], [data], [data]))
            && IsKahnOrder(["a"], spec.edges, [])
            && Missing(["a"], []) == ["a"]
            && !FedEarlier(spec, reg, ["a"], 0, "DataRef")
  {
    var data := Port("data", "DataRef", true);
    var entry := Entry([], [data], [data]);
    var reg: Registry := map["sample" := entry];
    var n := Node.Node("a", "sample", map[]);
    var loop := Edge("a", "a");
    var spec := Spec([n], [loop]);
    assert NodeById(spec.nodes, "a") == Some(n);
    assert EntryOf(spec, reg, "a") == Some(entry);
    assert data in entry.outputs && data in entry.inputs;
    assert Emits(entry, "DataRef") && Compatible(entry, entry);
    assert loop in spec.edges && Fed(spec, reg, "a", "DataRef");
    assert forall x | x in spec.nodes :: x == n;
    assert forall x | x in spec.edges :: x == loop;
    assert ["a"][..0] == [];
    assert Missing([], []) == [];
  }
}
