/** Which errors the validation of a pipeline reports (redibis/agents/registry.py), each in terms of the nodes, edges
    and registry entries it is about. */
module ValidationLaws {
  import opened Sequences
  import opened Conditions
  import opened ConditionLaws
  import opened TopologicalOrder
  import opened NodeRegistry

  // ---- Kinds ----

  /** A board kind stands for the registry type of its tool; any other kind for itself. */
  lemma KindsStandFor(kind: string)
    ensures var t := ResolveNodeType(kind);
            && (t == "source" <==> kind in ["source", "source_table"])
            && (t == "profile" <==> kind in ["profile", "profile_scan"])
            && (t == "contract" <==> kind in ["contract", "quality_scan", "pii_scan", "classify", "enrich"])
            && (t == "publish" <==> kind in ["publish", "catalog_push", "contract_write"])
            && (t == "gate" <==> kind in ["gate", "approval_gate"])
            && (t == "batch" <==> kind in ["batch", "batch_loop"])
            && (t !in ["source", "profile", "contract", "publish", "gate", "batch"] ==> t == kind)
  {
  }

  // ---- Configuration ----

  /** The default a parameter has: that of the last field of its name that has one. */
  ghost predicate Defaults(config: seq<ConfigField>, name: string, v: Value) {
    v != Null && exists k: nat :: LastDefault(config, k, name, v)
  }

  ghost predicate LastDefault(config: seq<ConfigField>, k: nat, name: string, v: Value) {
    && k < |config| && config[k].name == name && config[k].default == v
    && forall j | k < j < |config| && config[j].name == name :: config[j].default == Null
  }

  /** The value a parameter is validated with: the node's own, or else the default. */
  ghost predicate SetTo(config: seq<ConfigField>, params: map<string, Value>, name: string, v: Value) {
    if name in params then params[name] == v else Defaults(config, name, v)
  }

  lemma {:induction false} DefaultsIff(config: seq<ConfigField>, name: string, v: Value)
    ensures Defaults(config, name, v) <==> name in DefaultConfig(config) && DefaultConfig(config)[name] == v
  {
    if config != [] {
      var n := |config| - 1;
      DefaultsIff(config[..n], name, v);
      if config[n].name == name && config[n].default != Null {
        if v == config[n].default { assert LastDefault(config, n, name, v); }
      } else {
        DefaultsBehind(config, name, v);
      }
    }
  }

  lemma DefaultsBehind(config: seq<ConfigField>, name: string, v: Value)
    requires config != []
    requires var last := config[|config| - 1]; last.name != name || last.default == Null
    ensures Defaults(config, name, v) <==> Defaults(config[..|config| - 1], name, v)
  {
    var n := |config| - 1;
    if Defaults(config, name, v) {
      var k: nat :| LastDefault(config, k, name, v);
      assert LastDefault(config[..n], k, name, v);
    }
    if Defaults(config[..n], name, v) {
      var k: nat :| LastDefault(config[..n], k, name, v);
      assert LastDefault(config, k, name, v);
    }
  }

  lemma SetToIff(config: seq<ConfigField>, params: map<string, Value>, name: string, v: Value)
    ensures var merged := DefaultConfig(config) + params;
            SetTo(config, params, name, v) <==> name in merged && merged[name] == v
  {
    DefaultsIff(config, name, v);
  }

  /** A field with a lower bound on numbers. */
  ghost predicate Ranged(f: ConfigField) { (f.fieldType == "int" || f.fieldType == "float") && f.minimum.Some? }

  /** The field is wrong in the way the error says. */
  ghost predicate Wrong(
      f: ConfigField, config: seq<ConfigField>, params: map<string, Value>, err: ConfigError, py: Primitives)
  {
    err.name == f.name &&
    match err
    case MissingParam(_) => f.required && forall v :: !SetTo(config, params, f.name, v)
    case NotAChoice(_) =>
      f.choices != [] && exists v | SetTo(config, params, f.name, v) :: v != Null && py.render(v) !in f.choices
    case NotNumeric(_) =>
      Ranged(f) && exists v | SetTo(config, params, f.name, v) :: v != Null && forall x :: !ReadsAs(v, x, py)
    case TooSmall(_) =>
      Ranged(f) && exists v, x | SetTo(config, params, f.name, v) && ReadsAs(v, x, py) :: x < f.minimum.value
    case TooLarge(_) =>
      Ranged(f) && f.maximum.Some? &&
      exists v, x | SetTo(config, params, f.name, v) && ReadsAs(v, x, py) :: x > f.maximum.value
  }

  lemma ReadsIff(v: Value, py: Primitives)
    ensures forall x :: ReadsAs(v, x, py) <==> ToFloat(v, py) == Some(x)
  {
  }

  lemma RangeErrorsHas(f: ConfigField, v: Value, err: ConfigError, py: Primitives)
    ensures err in RangeErrors(f, v, py) <==>
            && Ranged(f) && err.name == f.name
            && match err
               case NotNumeric(_) => forall x :: !ReadsAs(v, x, py)
               case TooSmall(_) => exists x :: ReadsAs(v, x, py) && x < f.minimum.value
               case TooLarge(_) => f.maximum.Some? && exists x :: ReadsAs(v, x, py) && x > f.maximum.value
               case _ => false
  {
    ReadsIff(v, py);
    if ToFloat(v, py).Some? { assert ReadsAs(v, ToFloat(v, py).value, py); }
  }

  lemma FieldErrorsHas(f: ConfigField, config: seq<ConfigField>, params: map<string, Value>, err: ConfigError,
        py: Primitives)
    ensures err in FieldErrors(f, DefaultConfig(config) + params, py) <==> Wrong(f, config, params, err, py)
  {
    var merged := DefaultConfig(config) + params;
    forall v ensures SetTo(config, params, f.name, v) <==> f.name in merged && merged[f.name] == v {
      SetToIff(config, params, f.name, v);
    }
    if f.name in merged {
      var v := merged[f.name];
      assert SetTo(config, params, f.name, v);
      RangeErrorsHas(f, v, err, py);
      ReadsIff(v, py);
    }
  }

  lemma {:induction false} ConfigErrorsHas(fields: seq<ConfigField>, config: seq<ConfigField>,
        params: map<string, Value>, err: ConfigError, py: Primitives)
    ensures err in ConfigErrors(fields, DefaultConfig(config) + params, py) <==>
            exists f | f in fields :: Wrong(f, config, params, err, py)
  {
    if fields != [] {
      var front, last := fields[..|fields| - 1], fields[|fields| - 1];
      ConfigErrorsHas(front, config, params, err, py);
      FieldErrorsHas(last, config, params, err, py);
      assert fields == front + [last];
    }
  }

  /** A configuration error is reported iff some field is wrong in that way. */
  lemma ConfigErrorIff(e: Entry, params: map<string, Value>, err: ConfigError, py: Primitives)
    ensures err in ConfigErrors(e.config, DefaultConfig(e.config) + params, py) <==>
            exists f | f in e.config :: Wrong(f, e.config, params, err, py)
  {
    ConfigErrorsHas(e.config, e.config, params, err, py);
  }

  // ---- The graph ----

  /** The registry's entry for a kind. */
  ghost predicate EntryFor(reg: Registry, kind: string, e: Entry) {
    ResolveNodeType(kind) in reg && reg[ResolveNodeType(kind)] == e
  }

  /** The node an id stands for: the last one of that id. */
  ghost predicate Names(nodes: seq<Node>, id: string, n: Node) {
    exists k :: 0 <= k < |nodes| && nodes[k] == n && n.id == id && forall j | k < j < |nodes| :: nodes[j].id != id
  }

  /** The entry of the node an id stands for. */
  ghost predicate EntryNamed(spec: Spec, reg: Registry, id: string, e: Entry) {
    exists n :: Names(spec.nodes, id, n) && EntryFor(reg, n.kind, e)
  }

  ghost predicate Known(spec: Spec, id: string) { exists n | n in spec.nodes :: n.id == id }

  /** Some direct predecessor has an output of the type. */
  ghost predicate Supplied(spec: Spec, reg: Registry, id: string, portType: string) {
    exists edge, e | edge in spec.edges && edge.target == id && EntryNamed(spec, reg, edge.source, e) ::
      exists o | o in e.outputs :: o.portType == portType
  }

  lemma {:induction false} NamesIff(nodes: seq<Node>, id: string, n: Node)
    ensures Names(nodes, id, n) <==> NodeById(nodes, id) == Some(n)
    ensures NodeById(nodes, id).Some? <==> exists x | x in nodes :: x.id == id
  {
    if nodes != [] {
      var k := |nodes| - 1;
      NamesIff(nodes[..k], id, n);
      assert nodes == nodes[..k] + [nodes[k]];
      if nodes[k].id == id {
        assert nodes[k] in nodes;
        if n == nodes[k] { assert Names(nodes, id, n); }
      } else {
        NamesBehind(nodes, id, n);
      }
    }
  }

  lemma NamesBehind(nodes: seq<Node>, id: string, n: Node)
    requires nodes != [] && nodes[|nodes| - 1].id != id
    ensures Names(nodes, id, n) <==> Names(nodes[..|nodes| - 1], id, n)
  {
    var m := |nodes| - 1;
    forall k | 0 <= k < m ensures nodes[..m][k] == nodes[k] {}
    if Names(nodes[..m], id, n) {
      var k :| 0 <= k < m && nodes[..m][k] == n && n.id == id && forall j | k < j < m :: nodes[..m][j].id != id;
      assert nodes[k] == n;
    }
    if Names(nodes, id, n) {
      var k :| 0 <= k < |nodes| && nodes[k] == n && n.id == id && forall j | k < j < |nodes| :: nodes[j].id != id;
      assert nodes[..m][k] == n;
    }
  }

  lemma EntryNamedIff(spec: Spec, reg: Registry, id: string, e: Entry)
    ensures EntryNamed(spec, reg, id, e) <==> EntryOf(spec, reg, id) == Some(e)
    ensures Known(spec, id) <==> NodeById(spec.nodes, id).Some?
  {
    forall n ensures Names(spec.nodes, id, n) <==> NodeById(spec.nodes, id) == Some(n) { NamesIff(spec.nodes, id, n); }
    NamesIff(spec.nodes, id, NodeRegistry.Node.Node("", "", map[]));
  }

  lemma SuppliedIff(spec: Spec, reg: Registry, id: string, portType: string)
    ensures Supplied(spec, reg, id, portType) <==> Fed(spec, reg, id, portType)
  {
    forall source, e ensures EntryNamed(spec, reg, source, e) <==> EntryOf(spec, reg, source) == Some(e) {
      EntryNamedIff(spec, reg, source, e);
    }
    if Fed(spec, reg, id, portType) {
      var edge :| edge in spec.edges && edge.target == id && EntryOf(spec, reg, edge.source).Some?
        && Emits(EntryOf(spec, reg, edge.source).value, portType);
      var e := EntryOf(spec, reg, edge.source).value;
      assert EntryNamed(spec, reg, edge.source, e);
    }
  }

  /** What each problem says about the specification. */
  ghost predicate Due(spec: Spec, reg: Registry, id: string, problem: Problem, py: Primitives) {
    match problem
    case UnknownKind => exists n | n in spec.nodes && n.id == id :: forall e :: !EntryFor(reg, n.kind, e)
    case BadConfig(err) =>
      exists n, e | n in spec.nodes && n.id == id && EntryFor(reg, n.kind, e) ::
        exists f | f in e.config :: Wrong(f, e.config, n.params, err, py)
    case MissingInput(port) =>
      exists n, e, p | n in spec.nodes && n.id == id && EntryFor(reg, n.kind, e) && p in e.inputs ::
        p.name == port && p.required && !Supplied(spec, reg, id, p.portType)
    case EmptyContract =>
      exists n | n in spec.nodes && n.id == id :: ResolveNodeType(n.kind) == "contract" && !DoesSomething(reg, n)
    case _ => exists edge | edge in spec.edges :: DueOn(spec, reg, edge, id, problem)
  }

  /** A contract node has one of its four parts switched on, by itself or by default. */
  ghost predicate DoesSomething(reg: Registry, n: Node) {
    On(reg, n, "pii") || On(reg, n, "classify") || On(reg, n, "mask_rules") || On(reg, n, "quality")
  }

  /** The flag's value is truthy: the node's own, or else the default of the first field of that name. */
  ghost predicate On(reg: Registry, n: Node, flag: string) {
    if flag in n.params then Truthy(n.params[flag])
    else
      exists e, k | EntryFor(reg, n.kind, e) && 0 <= k < |e.config| && e.config[k].name == flag ::
        (forall j | 0 <= j < k :: e.config[j].name != flag) && Truthy(e.config[k].default)
  }

  lemma {:induction false} DefaultOfIs(config: seq<ConfigField>, name: string)
    ensures Truthy(DefaultOf(config, name)) <==>
            exists k :: 0 <= k < |config| && config[k].name == name
                        && (forall j | 0 <= j < k :: config[j].name != name) && Truthy(config[k].default)
  {
    if config != [] && config[0].name != name {
      DefaultOfIs(config[1..], name);
      if k :| 0 <= k < |config[1..]| && config[1..][k].name == name
              && (forall j | 0 <= j < k :: config[1..][j].name != name) && Truthy(config[1..][k].default) {
        forall j | 0 <= j < k + 1 ensures config[j].name != name {
          if j > 0 { assert config[1..][j - 1] == config[j]; }
        }
        assert config[k + 1].name == name;
      }
      if k :| 0 <= k < |config| && config[k].name == name
              && (forall j | 0 <= j < k :: config[j].name != name) && Truthy(config[k].default) {
        assert config[1..][k - 1] == config[k];
        forall j | 0 <= j < k - 1 ensures config[1..][j].name != name { assert config[1..][j] == config[j + 1]; }
      }
    }
  }

  lemma OnIff(reg: Registry, n: Node, flag: string)
    ensures On(reg, n, flag) <==> Truthy(FlagValue(n, reg, flag))
  {
    var e := GetNode(reg, n.kind);
    if e.Some? {
      DefaultOfIs(e.value.config, flag);
      assert EntryFor(reg, n.kind, e.value);
    }
  }

  lemma ContractIff(reg: Registry, n: Node)
    ensures ContractSound(reg, n) <==> ResolveNodeType(n.kind) == "contract" ==> DoesSomething(reg, n)
  {
    OnIff(reg, n, "pii");
    OnIff(reg, n, "classify");
    OnIff(reg, n, "mask_rules");
    OnIff(reg, n, "quality");
    assert CONTRACT_FLAGS == ["pii", "classify", "mask_rules", "quality"];
    forall f ensures f in CONTRACT_FLAGS <==> f == "pii" || f == "classify" || f == "mask_rules" || f == "quality" {}
  }

  // ---- The reported errors ----

  lemma NodeErrorsHas(reg: Registry, n: NodeRegistry.Node, id: string, problem: Problem, py: Primitives)
    ensures ValidationError(id, problem) in NodeErrors(reg, n, py) <==>
            && n.id == id
            && match problem
               case UnknownKind => forall e :: !EntryFor(reg, n.kind, e)
               case BadConfig(err) =>
                 exists e | EntryFor(reg, n.kind, e) ::
                   exists f | f in e.config :: Wrong(f, e.config, n.params, err, py)
               case _ => false
  {
    var entry := GetNode(reg, n.kind);
    if entry.Some? {
      assert EntryFor(reg, n.kind, entry.value);
      if problem.BadConfig? { ConfigErrorIff(entry.value, n.params, problem.error, py); }
      TaggedHas(n.id, ConfigErrors(entry.value.config, DefaultConfig(entry.value.config) + n.params, py), id, problem);
    }
  }

  lemma TaggedHas(nodeId: string, errors: seq<ConfigError>, id: string, problem: Problem)
    ensures ValidationError(id, problem) in Tagged(nodeId, errors) <==>
            nodeId == id && problem.BadConfig? && problem.error in errors
  {
    var tagged := Tagged(nodeId, errors);
    if ValidationError(id, problem) in tagged {
      var k :| 0 <= k < |tagged| && tagged[k] == ValidationError(id, problem);
      assert errors[k] in errors;
    }
    if nodeId == id && problem.BadConfig? && problem.error in errors {
      var k :| 0 <= k < |errors| && errors[k] == problem.error;
      assert tagged[k] == ValidationError(id, problem);
    }
  }

  lemma {:induction false} AllNodeErrorsHas(reg: Registry, nodes: seq<NodeRegistry.Node>, py: Primitives,
        v: ValidationError)
    ensures v in AllNodeErrors(reg, nodes, py) <==> exists n | n in nodes :: v in NodeErrors(reg, n, py)
  {
    if nodes != [] {
      AllNodeErrorsHas(reg, nodes[..|nodes| - 1], py, v);
      assert nodes == nodes[..|nodes| - 1] + [nodes[|nodes| - 1]];
    }
  }

  lemma {:induction false} PortErrorsHas(spec: Spec, reg: Registry, at: string, inputs: seq<Port>, id: string,
        problem: Problem)
    ensures ValidationError(id, problem) in PortErrors(spec, reg, at, inputs) <==>
            && at == id && problem.MissingInput?
            && exists p | p in inputs :: p.name == problem.port && p.required && !Fed(spec, reg, at, p.portType)
  {
    if inputs != [] {
      PortErrorsHas(spec, reg, at, inputs[..|inputs| - 1], id, problem);
      assert inputs == inputs[..|inputs| - 1] + [inputs[|inputs| - 1]];
    }
  }

  lemma {:induction false} AllInputErrorsHas(spec: Spec, reg: Registry, nodes: seq<NodeRegistry.Node>,
        v: ValidationError)
    ensures v in AllInputErrors(spec, reg, nodes) <==> exists n | n in nodes :: v in InputErrors(spec, reg, n)
  {
    if nodes != [] {
      AllInputErrorsHas(spec, reg, nodes[..|nodes| - 1], v);
      assert nodes == nodes[..|nodes| - 1] + [nodes[|nodes| - 1]];
    }
  }

  lemma {:induction false} AllEdgeErrorsHas(spec: Spec, reg: Registry, edges: seq<Edge>, v: ValidationError)
    ensures v in AllEdgeErrors(spec, reg, edges) <==> exists e | e in edges :: v in EdgeErrors(spec, reg, e)
  {
    if edges != [] {
      AllEdgeErrorsHas(spec, reg, edges[..|edges| - 1], v);
      assert edges == edges[..|edges| - 1] + [edges[|edges| - 1]];
    }
  }

  lemma {:induction false} AllContractErrorsHas(reg: Registry, nodes: seq<NodeRegistry.Node>, v: ValidationError)
    ensures v in AllContractErrors(reg, nodes) <==> exists n | n in nodes :: v in ContractErrors(reg, n)
  {
    if nodes != [] {
      AllContractErrorsHas(reg, nodes[..|nodes| - 1], v);
      assert nodes == nodes[..|nodes| - 1] + [nodes[|nodes| - 1]];
    }
  }

  /** The problems of nodes by themselves. */
  lemma NodeProblems(spec: Spec, reg: Registry, id: string, problem: Problem, py: Primitives)
    ensures ValidationError(id, problem) in AllNodeErrors(reg, spec.nodes, py) <==>
            (problem.UnknownKind? || problem.BadConfig?) && Due(spec, reg, id, problem, py)
  {
    AllNodeErrorsHas(reg, spec.nodes, py, ValidationError(id, problem));
    forall n { NodeErrorsHas(reg, n, id, problem, py); }
    if (problem.UnknownKind? || problem.BadConfig?) && Due(spec, reg, id, problem, py) {
      var n :| n in spec.nodes && n.id == id && ValidationError(id, problem) in NodeErrors(reg, n, py);
    }
  }

  lemma InputProblems(spec: Spec, reg: Registry, id: string, problem: Problem, py: Primitives)
    ensures ValidationError(id, problem) in AllInputErrors(spec, reg, spec.nodes) <==>
            problem.MissingInput? && Due(spec, reg, id, problem, py)
  {
    AllInputErrorsHas(spec, reg, spec.nodes, ValidationError(id, problem));
    forall t { SuppliedIff(spec, reg, id, t); }
    forall n: NodeRegistry.Node, e | EntryFor(reg, n.kind, e)
      ensures ValidationError(id, problem) in InputErrors(spec, reg, n) <==>
              && n.id == id && problem.MissingInput?
              && exists p | p in e.inputs :: p.name == problem.port && p.required && !Fed(spec, reg, id, p.portType)
    {
      PortErrorsHas(spec, reg, n.id, e.inputs, id, problem);
    }
    forall n: NodeRegistry.Node | n in spec.nodes && ValidationError(id, problem) in InputErrors(spec, reg, n)
      ensures EntryFor(reg, n.kind, GetNode(reg, n.kind).value)
    {
    }
  }

  lemma EdgeEntries(spec: Spec, reg: Registry, edge: Edge, a: Entry, b: Entry)
    ensures EntryNamed(spec, reg, edge.source, a) && EntryNamed(spec, reg, edge.target, b) <==>
            EntryOf(spec, reg, edge.source) == Some(a) && EntryOf(spec, reg, edge.target) == Some(b)
    ensures Known(spec, edge.source) <==> NodeById(spec.nodes, edge.source).Some?
    ensures Known(spec, edge.target) <==> NodeById(spec.nodes, edge.target).Some?
  {
    EntryNamedIff(spec, reg, edge.source, a);
    EntryNamedIff(spec, reg, edge.target, b);
  }

  /** Both ends of the edge have entries, and these are so. */
  ghost predicate EndsAre(spec: Spec, reg: Registry, edge: Edge, P: (Entry, Entry) -> bool) {
    exists a, b | EntryNamed(spec, reg, edge.source, a) && EntryNamed(spec, reg, edge.target, b) :: P(a, b)
  }

  lemma EndsAreIff(spec: Spec, reg: Registry, edge: Edge, P: (Entry, Entry) -> bool)
    ensures EndsAre(spec, reg, edge, P) <==>
            && EntryOf(spec, reg, edge.source).Some? && EntryOf(spec, reg, edge.target).Some?
            && P(EntryOf(spec, reg, edge.source).value, EntryOf(spec, reg, edge.target).value)
  {
    var src, tgt := EntryOf(spec, reg, edge.source), EntryOf(spec, reg, edge.target);
    if EndsAre(spec, reg, edge, P) {
      var a, b :| EntryNamed(spec, reg, edge.source, a) && EntryNamed(spec, reg, edge.target, b) && P(a, b);
      EdgeEntries(spec, reg, edge, a, b);
    }
    if src.Some? && tgt.Some? { EdgeEntries(spec, reg, edge, src.value, tgt.value); }
  }

  lemma MisfitIff(a: Entry, b: Entry)
    ensures Misfit(a, b) <==>
            a.outputs != [] && (exists i | i in b.inputs :: i.required) && !Compatible(a, b)
  {
  }

  lemma EdgeErrorsHas(spec: Spec, reg: Registry, edge: Edge, id: string, problem: Problem)
    ensures ValidationError(id, problem) in EdgeErrors(spec, reg, edge) <==> DueOn(spec, reg, edge, id, problem)
  {
    EdgeEntries(spec, reg, edge, NodeRegistry.Entry.Entry([], [], []), NodeRegistry.Entry.Entry([], [], []));
    EndsAreIff(spec, reg, edge, NoOutputsLeft);
    EndsAreIff(spec, reg, edge, Misfit);
    if EntryOf(spec, reg, edge.source).Some? && EntryOf(spec, reg, edge.target).Some? {
      MisfitIff(EntryOf(spec, reg, edge.source).value, EntryOf(spec, reg, edge.target).value);
    }
  }

  ghost predicate NoOutputsLeft(a: Entry, b: Entry) { a.outputs == [] }

  /** What a problem of one edge says. */
  ghost predicate DueOn(spec: Spec, reg: Registry, edge: Edge, id: string, problem: Problem) {
    match problem
    case SourceNotFound(source) => edge.target == id && edge.source == source && !Known(spec, source)
    case TargetNotFound(target) =>
      edge.source == id && edge.target == target && Known(spec, id) && !Known(spec, target)
    case NoOutputs => edge.source == id && EndsAre(spec, reg, edge, NoOutputsLeft)
    case IncompatibleWiring => edge.target == id && EndsAre(spec, reg, edge, Misfit)
    case _ => false
  }

  /** The target needs some input, and no output of the source is of a type it needs. */
  ghost predicate Misfit(a: Entry, b: Entry) {
    && a.outputs != [] && (exists i | i in b.inputs :: i.required)
    && forall o, i | o in a.outputs && i in b.inputs && i.required :: o.portType != i.portType
  }

  lemma EdgeProblems(spec: Spec, reg: Registry, id: string, problem: Problem, py: Primitives)
    ensures ValidationError(id, problem) in AllEdgeErrors(spec, reg, spec.edges) <==>
            exists edge | edge in spec.edges :: DueOn(spec, reg, edge, id, problem)
  {
    AllEdgeErrorsHas(spec, reg, spec.edges, ValidationError(id, problem));
    forall edge { EdgeErrorsHas(spec, reg, edge, id, problem); }
  }

  lemma ContractProblems(spec: Spec, reg: Registry, id: string, problem: Problem, py: Primitives)
    ensures ValidationError(id, problem) in AllContractErrors(reg, spec.nodes) <==>
            problem.EmptyContract? && Due(spec, reg, id, problem, py)
  {
    AllContractErrorsHas(reg, spec.nodes, ValidationError(id, problem));
    forall n { ContractIff(reg, n); }
  }

  /** Validation reports a problem at a node iff it is due there. */
  lemma ReportedIff(spec: Spec, reg: Registry, id: string, problem: Problem, py: Primitives)
    ensures ValidationError(id, problem) in SpecErrors(spec, reg, py) <==> Due(spec, reg, id, problem, py)
  {
    NodeProblems(spec, reg, id, problem, py);
    InputProblems(spec, reg, id, problem, py);
    EdgeProblems(spec, reg, id, problem, py);
    ContractProblems(spec, reg, id, problem, py);
  }
}
