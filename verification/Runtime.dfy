/** The rule-at-a-time column loop and fact providers (redibis/behavior/runtime.py), compared with batch simulation
    (agent_tools.py). */
module Runtime {
  import opened Sequences
  import opened Conditions
  import opened Reducer
  import opened Evaluator
  import opened PolicyDecision

  // ---- Fact providers ----

  datatype Provided = Failed(message: string) | Gave(value: Value)

  /** A registered fact; `call` is absent when no provider was registered for it. */
  datatype Provider = Provider(factId: string, call: Option<Context -> Provided>)

  function EnrichOne(ctx: Context, p: Provider): Context {
    if p.factId in ctx.facts || p.call.None? then ctx
    else
      match p.call.value(ctx)
      case Failed(_) => ctx
      case Gave(value) => if value == Null then ctx else ctx.(facts := ctx.facts[p.factId := value])
  }

  function Enriched(ctx: Context, providers: seq<Provider>): Context {
    if providers == [] then ctx else EnrichOne(Enriched(ctx, providers[..|providers| - 1]), providers[|providers| - 1])
  }

  /** `_enrich_facts_from_providers`: existing facts stay; what is added is non-null and belongs to a provider. */
  method EnrichFactsFromProviders(ctx: Context, providers: seq<Provider>) returns (r: Context)
    ensures r == Enriched(ctx, providers)
    ensures Extends(ctx.facts, r.facts) && r == ctx.(facts := r.facts)
    ensures forall f | f in r.facts && f !in ctx.facts ::
              r.facts[f] != Null && exists p | p in providers :: p.factId == f
  {
    var facts, changed := ctx.facts, false;
    for k := 0 to |providers|
      invariant ctx.(facts := facts) == Enriched(ctx, providers[..k])
      invariant !changed ==> facts == ctx.facts
      invariant Extends(ctx.facts, facts)
      invariant forall f | f in facts && f !in ctx.facts ::
                  facts[f] != Null && exists p | p in providers :: p.factId == f
    {
      TakeStep(providers, k);
      var p := providers[k];
      if p.factId in facts || p.call.None? { continue; }
      match p.call.value(if changed then ctx.(facts := facts) else ctx) {
        case Failed(_) =>
        case Gave(value) =>
          if value != Null {
            facts := facts[p.factId := value];
            changed := true;
          }
      }
    }
    assert providers[..|providers|] == providers;
    r := if changed then ctx.(facts := facts) else ctx;
  }

  lemma {:induction false} EnrichedExtends(ctx: Context, providers: seq<Provider>)
    ensures Extends(ctx.facts, Enriched(ctx, providers).facts)
  {
    if providers != [] { EnrichedExtends(ctx, providers[..|providers| - 1]); }
  }

  /** Provider `k` supplies fact `f` with value `v`: the facts so far lack it, and its call there gives a value. */
  ghost predicate Supplies(ctx: Context, providers: seq<Provider>, k: nat, f: string, v: Value)
    requires k < |providers|
  {
    var facts := Enriched(ctx, providers[..k]);
    && f !in facts.facts && providers[k].factId == f && providers[k].call.Some?
    && providers[k].call.value(facts) == Gave(v) && v != Null
  }

  /** A fact is there afterwards with a value iff it was before, or some provider supplies it. */
  lemma {:induction false} EnrichedIff(ctx: Context, providers: seq<Provider>, f: string, v: Value)
    ensures var facts := Enriched(ctx, providers).facts;
            (f in facts && facts[f] == v) <==>
            || (f in ctx.facts && ctx.facts[f] == v)
            || exists k :: 0 <= k < |providers| && Supplies(ctx, providers, k, f, v)
  {
    if providers != [] {
      var n := |providers| - 1;
      EnrichedIff(ctx, providers[..n], f, v);
      forall k | 0 <= k < n ensures Supplies(ctx, providers, k, f, v) <==> Supplies(ctx, providers[..n], k, f, v) {
        assert providers[..n][..k] == providers[..k];
      }
      assert Supplies(ctx, providers, n, f, v) <==>
             f in EnrichOne(Enriched(ctx, providers[..n]), providers[n]).facts &&
             f !in Enriched(ctx, providers[..n]).facts &&
             EnrichOne(Enriched(ctx, providers[..n]), providers[n]).facts[f] == v;
    }
  }

  /** Provider enrichment never flips a TRUE or a FALSE verdict, as long as it supplies no fact that the condition tests
      for absence. */
  lemma EnrichmentKeepsDefiniteVerdicts(c: Condition, ctx: Context, providers: seq<Provider>, py: Primitives)
    requires AbsenceSettled(c, ctx.facts, Enriched(ctx, providers).facts) && Eval(c, ctx.facts, py) != Unknown
    ensures Eval(c, Enriched(ctx, providers).facts, py) == Eval(c, ctx.facts, py)
  {
    EnrichedExtends(ctx, providers);
    MoreFactsOnlySettle(c, ctx.facts, Enriched(ctx, providers).facts, py);
  }

  /** With an absence test it can: `is_null(f)` turns from TRUE to FALSE when a provider supplies `f`. */
  lemma EnrichmentCanFlipAbsenceTest(ctx: Context, fact: string, py: Primitives)
    requires fact !in ctx.facts
    ensures var c := Pred(fact, "is_null", Null);
            var providers := [Provider(fact, Some((x: Context) => Gave(Bool(true))))];
            Eval(c, ctx.facts, py) == True && Eval(c, Enriched(ctx, providers).facts, py) == False
  {
    var providers := [Provider(fact, Some((x: Context) => Gave(Bool(true))))];
    assert providers[..0] == [];
    assert Enriched(ctx, []) == ctx;
  }

  // ---- The column loop ----

  /** A detection as far as the loop looks at it, and the adapter functions it calls. */
  datatype Detection = Detection(entity: Option<string>, fields: map<string, Value>)

  datatype Adapter = Adapter(
    context: Detection -> Context,                     // build_pii_context followed by enrichment
    apply: (Detection, Patch, Rule) -> Detection,   // apply_patch_to_detection
    canonical: string -> string,                          // canonical_entity
    human: map<string, Authority>)                        // human decisions for this column

  const CHECKSUM_FACTS := ["validators.luhn.status", "validators.iccid.status", "validators.nid.status"]

  predicate ChecksumBacked(ctx: Context) {
    exists f | f in CHECKSUM_FACTS :: PyEq(Lookup(ctx.facts, f), Str("pass"))
  }

  predicate BlocksEntity(d: Detection, o: Operation, a: Adapter, py: Primitives) {
    o.path == "verdict.entity" &&
    if o.value == Null then d.entity.Some? && d.entity.value != ""
    else a.canonical(py.render(o.value)) != a.canonical(d.entity.GetOr(""))
  }

  predicate ChecksumBlocksPatch(d: Detection, p: Patch, backed: bool, a: Adapter, py: Primitives) {
    backed && exists k | 0 <= k < |p.operations| :: BlocksEntity(d, p.operations[k], a, py)
  }

  datatype ColumnState = ColumnState(current: Detection, ctx: Context, applied: Patch, stopped: bool)

  /** What one rule does to the loop's variables. */
  ghost function ColumnStep(
      rule: Rule, st: ColumnState, backed: bool, g: Guard, stage: Stage, a: Adapter, w: World): ColumnState
  {
    var s := Alone(rule, st.ctx, stage, w);
    if st.stopped || s.status != Matched then st
    else
      var reduced := Reduce(s.patch, g).applied;
      if ChecksumBlocksPatch(st.current, reduced, backed, a, w.py) then st
      else
        var current := a.apply(st.current, reduced, rule);
        ColumnState(current, if rule.terminal then st.ctx else a.context(current), reduced, rule.terminal)
  }

  /** The trace the rule leaves: its own, or TERMINATED once a terminal rule has been applied. */
  ghost function StepTrace(rule: Rule, st: ColumnState, stage: Stage, w: World): Trace {
    if st.stopped then Trace(rule.id, rule.policyId, rule.priority, Terminated, rule.reason, None, None)
    else TraceOf(Alone(rule, st.ctx, stage, w), false)
  }

  type Stepper = (Rule, ColumnState) -> ColumnState

  /** `step` is the loop body; named so that proofs about the loop need not look inside the body. */
  ghost predicate IsStepper(step: Stepper, backed: bool, g: Guard, stage: Stage, a: Adapter, w: World) {
    forall r, st {:trigger ColumnStep(r, st, backed, g, stage, a, w)} ::
      step(r, st) == ColumnStep(r, st, backed, g, stage, a, w)
  }

  ghost function StepperOf(backed: bool, g: Guard, stage: Stage, a: Adapter, w: World): (step: Stepper)
    ensures IsStepper(step, backed, g, stage, a, w)
  {
    (r, st) => ColumnStep(r, st, backed, g, stage, a, w)
  }

  ghost function Fold(rules: seq<Rule>, st: ColumnState, step: Stepper): ColumnState {
    if rules == [] then st else step(rules[|rules| - 1], Fold(rules[..|rules| - 1], st, step))
  }

  ghost function ColumnRun(
      rules: seq<Rule>, st: ColumnState, backed: bool, g: Guard, stage: Stage, a: Adapter, w: World): ColumnState
  {
    Fold(rules, st, StepperOf(backed, g, stage, a, w))
  }

  ghost function StartColumn(d: Detection, a: Adapter): ColumnState {
    ColumnState(d, a.context(d), EMPTY_PATCH, false)
  }

  ghost function ColumnGuard(d: Detection, a: Adapter): Guard { Guard(a.context(d).caps, a.human) }

  ghost function Stepwise(rules: seq<Rule>, d: Detection, stage: Stage, a: Adapter, w: World): ColumnState {
    ColumnRun(rules, StartColumn(d, a), ChecksumBacked(a.context(d)), ColumnGuard(d, a), stage, a, w)
  }

  /** `_evaluate_column`: one rule at a time, refreshing the context after each non-terminal match. */
  method EvaluateColumn(d: Detection, rules: seq<Rule>, stage: Stage, a: Adapter, w: World)
    returns (detection: Detection, patch: Patch, traces: seq<Trace>)
    ensures detection == Stepwise(rules, d, stage, a, w).current
    ensures patch == Stepwise(rules, d, stage, a, w).applied
    ensures |traces| == |rules|
    ensures forall i :: 0 <= i < |rules| ==>
            traces[i] == StepTrace(rules[i], Stepwise(rules[..i], d, stage, a, w), stage, w)
    ensures forall i :: 0 <= i < |rules| ==>
            ColumnTraceDue(rules[i], traces[i], Stepwise(rules[..i], d, stage, a, w), stage, w)
  {
    var ctx := a.context(d);
    var backed, g := ChecksumBacked(ctx), Guard(ctx.caps, a.human);
    detection, patch, traces := ColumnLoop(d, ctx, rules, backed, g, stage, a, w, StepperOf(backed, g, stage, a, w));
    forall i | 0 <= i < |rules|
      ensures ColumnTraceDue(rules[i], traces[i], Stepwise(rules[..i], d, stage, a, w), stage, w)
    {
      StepTraceDue(rules[i], Stepwise(rules[..i], d, stage, a, w), stage, w);
    }
  }

  /** Once a terminal rule was applied a rule is traced TERMINATED, whatever its scope; before, as its own evaluation in
      the context of that moment says. */
  ghost predicate ColumnTraceDue(r: Rule, t: Trace, st: ColumnState, stage: Stage, w: World) {
    if st.stopped then
      && t.status == Terminated && t.ruleId == r.id && t.policyId == r.policyId && t.priority == r.priority
      && t.reason == r.reason && t.patch.None? && t.error.None?
    else TraceDue(r, t, false, st.ctx, stage, w)
  }

  lemma StepTraceDue(r: Rule, st: ColumnState, stage: Stage, w: World)
    ensures ColumnTraceDue(r, StepTrace(r, st, stage, w), st, stage, w)
  {
    AloneDue(r, st.ctx, stage, w, false);
  }

  method ColumnLoop(d: Detection, context: Context, rules: seq<Rule>, backed: bool, g: Guard,
                    stage: Stage, a: Adapter, w: World, ghost step: Stepper)
    returns (detection: Detection, patch: Patch, traces: seq<Trace>)
    requires IsStepper(step, backed, g, stage, a, w)
    ensures var end := Fold(rules, ColumnState(d, context, EMPTY_PATCH, false), step);
            detection == end.current && patch == end.applied
    ensures TracesOf(traces, rules, |rules|, ColumnState(d, context, EMPTY_PATCH, false), step, stage, w)
  {
    var ctx := context;
    traces, detection, patch := [], d, EMPTY_PATCH;
    ghost var start := ColumnState(d, context, EMPTY_PATCH, false);
    var i := 0;
    while i < |rules|
      invariant 0 <= i <= |rules|
      invariant ColumnState(detection, ctx, patch, false) == Fold(rules[..i], start, step)
      invariant TracesOf(traces, rules, i, start, step, stage, w)
    {
      var rule := rules[i];
      TakeStep(rules, i);
      i := i + 1;
      var stopped, trace;
      detection, ctx, patch, stopped, trace := TryRule(rule, detection, ctx, patch, backed, g, stage, a, w, step);
      TracesExtend(traces, rules, i - 1, trace, start, step, stage, w);
      traces := traces + [trace];
      if stopped {
        StoppedFold(rules, i, start, backed, g, stage, a, w, step);
        traces := MarkLeftovers(rules, i, traces, start, backed, g, stage, a, w, step);
        return;
      }
    }
    assert rules[..|rules|] == rules;
  }

  /** The first `n` traces are those of the first `n` rules, each in the state the rules before it left. */
  ghost predicate TracesOf(
      traces: seq<Trace>, rules: seq<Rule>, n: nat, start: ColumnState, step: Stepper, stage: Stage, w: World)
  {
    && n <= |rules| && |traces| == n
    && forall k :: 0 <= k < n ==> traces[k] == StepTrace(rules[k], Fold(rules[..k], start, step), stage, w)
  }

  lemma TracesExtend(traces: seq<Trace>, rules: seq<Rule>, n: nat, trace: Trace, start: ColumnState, step: Stepper,
        stage: Stage, w: World)
    requires TracesOf(traces, rules, n, start, step, stage, w) && n < |rules|
    requires trace == StepTrace(rules[n], Fold(rules[..n], start, step), stage, w)
    ensures TracesOf(traces + [trace], rules, n + 1, start, step, stage, w)
  {
  }

  /** The body of the loop for the rule at the front. */
  method TryRule(rule: Rule, before: Detection, ctx: Context, soFar: Patch, backed: bool, g: Guard,
                 stage: Stage, a: Adapter, w: World, ghost step: Stepper)
    returns (current: Detection, next: Context, applied: Patch, stopped: bool, trace: Trace)
    requires IsStepper(step, backed, g, stage, a, w)
    ensures ColumnState(current, next, applied, stopped) == step(rule, ColumnState(before, ctx, soFar, false))
    ensures trace == StepTrace(rule, ColumnState(before, ctx, soFar, false), stage, w)
  {
    ghost var st := ColumnState(before, ctx, soFar, false);
    assert step(rule, st) == ColumnStep(rule, st, backed, g, stage, a, w);
    current, next, applied, stopped := before, ctx, soFar, false;
    var traces, proposed := Evaluate([rule], ctx, stage, w);
    LoneRule(rule, ctx, stage, w);
    trace := traces[0];
    if trace.status != Matched { return; }
    var reduction := ReducePatch(proposed, g);
    if ChecksumBlocksPatch(current, reduction.applied, backed, a, w.py) { return; }
    current := a.apply(current, reduction.applied, rule);
    applied := reduction.applied;
    if rule.terminal { stopped := true; } else { next := a.context(current); }
  }

  /** After a terminal match every remaining rule is traced TERMINATED. */
  method MarkLeftovers(
      rules: seq<Rule>, from: nat, traces: seq<Trace>, ghost start: ColumnState, ghost backed: bool, ghost g: Guard,
      ghost stage: Stage, ghost a: Adapter, ghost w: World, ghost step: Stepper)
    returns (all: seq<Trace>)
    requires IsStepper(step, backed, g, stage, a, w)
    requires TracesOf(traces, rules, from, start, step, stage, w) && Fold(rules[..from], start, step).stopped
    ensures TracesOf(all, rules, |rules|, start, step, stage, w)
    ensures forall k :: from <= k < |rules| ==> all[k].status == Terminated
  {
    all := traces;
    for i := from to |rules|
      invariant TracesOf(all, rules, i, start, step, stage, w)
      invariant forall k :: from <= k < i ==> all[k].status == Terminated
    {
      var left := rules[i];
      assert rules[..i][..from] == rules[..from];
      StoppedFold(rules[..i], from, start, backed, g, stage, a, w, step);
      var trace := Trace(left.id, left.policyId, left.priority, Terminated, left.reason, None, None);
      TracesExtend(all, rules, i, trace, start, step, stage, w);
      all := all + [trace];
    }
  }

  lemma LoneRule(rule: Rule, ctx: Context, stage: Stage, w: World)
    ensures var js := Judged([rule], ctx, stage, w);
            && js[0] == Alone(rule, ctx, stage, w)
            && Proposed(js) == Alone(rule, ctx, stage, w).patch
            && TraceOf(js[0], Stopped(js, 0)) == TraceOf(js[0], false)
  {
    var js := Judged([rule], ctx, stage, w);
    JudgedAt([rule], 0, ctx, stage, w);
    assert js == [js[0]];
    ProposedAlone(js[0]);
  }

  lemma StoppedStays(rule: Rule, st: ColumnState, backed: bool, g: Guard, stage: Stage, a: Adapter, w: World,
        step: Stepper)
    requires IsStepper(step, backed, g, stage, a, w) && st.stopped
    ensures step(rule, st) == st
  {
    assert step(rule, st) == ColumnStep(rule, st, backed, g, stage, a, w);
  }

  lemma {:induction false} StoppedFold(
      rules: seq<Rule>, n: nat, st: ColumnState, backed: bool, g: Guard, stage: Stage, a: Adapter, w: World,
      step: Stepper)
    requires IsStepper(step, backed, g, stage, a, w)
    requires n <= |rules| && Fold(rules[..n], st, step).stopped
    ensures Fold(rules, st, step) == Fold(rules[..n], st, step)
    decreases |rules|
  {
    if n == |rules| {
      assert rules[..n] == rules;
    } else {
      assert rules[..|rules| - 1][..n] == rules[..n];
      StoppedFold(rules[..|rules| - 1], n, st, backed, g, stage, a, w, step);
      StoppedStays(rules[|rules| - 1], Fold(rules[..n], st, step), backed, g, stage, a, w, step);
    }
  }

  // ---- What the column loop promises, rule by rule ----

  lemma StepwiseStep(rules: seq<Rule>, n: nat, d: Detection, stage: Stage, a: Adapter, w: World)
    requires n < |rules|
    ensures Stepwise(rules[..n + 1], d, stage, a, w) ==
            ColumnStep(rules[n], Stepwise(rules[..n], d, stage, a, w), ChecksumBacked(a.context(d)), ColumnGuard(d, a),
                       stage, a, w)
  {
    var backed, g := ChecksumBacked(a.context(d)), ColumnGuard(d, a);
    var step, before := StepperOf(backed, g, stage, a, w), Stepwise(rules[..n], d, stage, a, w);
    TakeStep(rules, n);
    assert step(rules[n], before) == ColumnStep(rules[n], before, backed, g, stage, a, w);
  }

  /** One of the column's checksum facts passed. */
  ghost predicate Passed(ctx: Context) {
    exists f | f in ["validators.luhn.status", "validators.iccid.status", "validators.nid.status"] ::
      f in ctx.facts && ctx.facts[f] == Str("pass")
  }

  /** The entity a detection has, or the empty name. */
  function EntityOf(d: Detection): string { if d.entity.Some? then d.entity.value else "" }

  /** Wherever the patch touches the entity it leaves it the same, canonically; it clears none. */
  ghost predicate LeavesEntity(d: Detection, p: Patch, a: Adapter, py: Primitives) {
    forall o | o in p.operations && o.path == "verdict.entity" ::
      if o.value == Null then EntityOf(d) == ""
      else a.canonical(py.render(o.value)) == a.canonical(EntityOf(d))
  }

  /** Rule `i` is applied to what the rules before it left: its reduced patch is, the context is refreshed unless the
      rule is terminal, and a terminal one stops the loop. */
  ghost predicate Applies(rules: seq<Rule>, i: nat, p: Patch, d: Detection, stage: Stage, a: Adapter, w: World)
    requires i < |rules|
  {
    var before, after := Stepwise(rules[..i], d, stage, a, w), Stepwise(rules[..i + 1], d, stage, a, w);
    && after.current == a.apply(before.current, p, rules[i]) && after.applied == p
    && after.stopped == rules[i].terminal
    && after.ctx == if rules[i].terminal then before.ctx else a.context(after.current)
  }

  /** The rule alone matches the context. */
  ghost predicate MatchesIn(r: Rule, ctx: Context, stage: Stage, w: World) {
    && Reaches(r, ctx, stage, w.py) && Eval(r.condition, ctx.facts, w.py) == True && !SomeRaises(r.effects, ctx, w)
  }

  lemma AloneMatches(r: Rule, ctx: Context, stage: Stage, w: World)
    ensures Alone(r, ctx, stage, w).status == Matched <==> MatchesIn(r, ctx, stage, w)
    ensures Alone(r, ctx, stage, w).status == Matched ==>
              PatchDue(Alone(r, ctx, stage, w).patch, r.effects, r, ctx, w)
  {
    AloneDue(r, ctx, stage, w, false);
  }

  lemma PassedIff(ctx: Context)
    ensures Passed(ctx) <==> ChecksumBacked(ctx)
  {
    forall v: Value ensures PyEq(v, Str("pass")) <==> v == Str("pass") {}
  }

  lemma LeavesEntityIff(d: Detection, p: Patch, a: Adapter, py: Primitives)
    ensures LeavesEntity(d, p, a, py) <==> !ChecksumBlocksPatch(d, p, true, a, py)
  {
    if k :| 0 <= k < |p.operations| && BlocksEntity(d, p.operations[k], a, py) {
      assert p.operations[k] in p.operations;
    }
    if !LeavesEntity(d, p, a, py) {
      var o :| o in p.operations && o.path == "verdict.entity" && BlocksEntity(d, o, a, py);
    }
  }

  /** Every rule the loop reaches unstopped is applied iff it matches and, where a checksum of the first context passed,
      its reduced patch leaves the entity; otherwise the rule changes nothing and the next one follows. */
  lemma LoopAppliesIff(rules: seq<Rule>, i: nat, d: Detection, stage: Stage, a: Adapter, w: World) returns (p: Patch)
    requires i < |rules|
    ensures var st := Stepwise(rules[..i], d, stage, a, w);
            && (MatchesIn(rules[i], st.ctx, stage, w) ==>
                  exists proposed :: PatchDue(proposed, rules[i].effects, rules[i], st.ctx, w) &&
                                     p == Reduce(proposed, ColumnGuard(d, a)).applied)
            && if !st.stopped && MatchesIn(rules[i], st.ctx, stage, w)
                  && (Passed(a.context(d)) ==> LeavesEntity(st.current, p, a, w.py))
               then Applies(rules, i, p, d, stage, a, w)
               else Stepwise(rules[..i + 1], d, stage, a, w) == st
  {
    var st := Stepwise(rules[..i], d, stage, a, w);
    p := Reduce(Alone(rules[i], st.ctx, stage, w).patch, ColumnGuard(d, a)).applied;
    StepwiseStep(rules, i, d, stage, a, w);
    AloneMatches(rules[i], st.ctx, stage, w);
    PassedIff(a.context(d));
    LeavesEntityIff(st.current, p, a, w.py);
  }

  /** An adapter that applies a patch leaving the entity by leaving it, canonically. */
  ghost predicate FaithfulToEntity(a: Adapter, py: Primitives) {
    forall d, p, r | LeavesEntity(d, p, a, py) ::
      a.canonical(EntityOf(a.apply(d, p, r))) == a.canonical(EntityOf(d))
  }

  /** So on a column with a passing checksum no list of rules moves the entity. */
  lemma {:induction false} PassedEntityStays(
      rules: seq<Rule>, n: nat, d: Detection, stage: Stage, a: Adapter, w: World)
    requires n <= |rules| && Passed(a.context(d)) && FaithfulToEntity(a, w.py)
    ensures a.canonical(EntityOf(Stepwise(rules[..n], d, stage, a, w).current)) == a.canonical(EntityOf(d))
  {
    if n > 0 {
      PassedEntityStays(rules, n - 1, d, stage, a, w);
      EntityStaysNext(rules, n - 1, d, stage, a, w);
    }
  }

  lemma EntityStaysNext(rules: seq<Rule>, k: nat, d: Detection, stage: Stage, a: Adapter, w: World)
    requires k < |rules| && Passed(a.context(d)) && FaithfulToEntity(a, w.py)
    ensures a.canonical(EntityOf(Stepwise(rules[..k + 1], d, stage, a, w).current)) ==
            a.canonical(EntityOf(Stepwise(rules[..k], d, stage, a, w).current))
  {
    var p := LoopAppliesIff(rules, k, d, stage, a, w);
  }

  // ---- Against evaluating the whole list at once ----

  ghost predicate FirstMatch(js: seq<Solo>, i: nat) {
    i < |js| && js[i].status == Matched && forall k :: 0 <= k < i ==> js[k].status != Matched
  }

  lemma UnmatchedStep(rules: seq<Rule>, k: nat, st: ColumnState, backed: bool, g: Guard, stage: Stage, a: Adapter,
        w: World)
    requires k < |rules| && Judged(rules, st.ctx, stage, w)[k].status != Matched
    ensures ColumnStep(rules[k], st, backed, g, stage, a, w) == st
  {
    JudgedAt(rules, k, st.ctx, stage, w);
  }

  /** A match that no checksum protects against replaces the applied patch. */
  lemma MatchedStep(rules: seq<Rule>, k: nat, st: ColumnState, g: Guard, stage: Stage, a: Adapter, w: World)
    requires k < |rules| && Judged(rules, st.ctx, stage, w)[k].status == Matched && !st.stopped
    ensures var applied := Reduce(Judged(rules, st.ctx, stage, w)[k].patch, g).applied;
            var current := a.apply(st.current, applied, rules[k]);
            ColumnStep(rules[k], st, false, g, stage, a, w) ==
            ColumnState(current, if rules[k].terminal then st.ctx else a.context(current), applied, rules[k].terminal)
  {
    JudgedAt(rules, k, st.ctx, stage, w);
  }

  /** Rules whose steps leave the state alone, leave it alone together. */
  lemma {:induction false} IdleRun(rules: seq<Rule>, n: nat, st: ColumnState, step: Stepper)
    requires n <= |rules| && forall k :: 0 <= k < n ==> step(rules[k], st) == st
    ensures Fold(rules[..n], st, step) == st
  {
    if n > 0 {
      IdleRun(rules, n - 1, st, step);
      TakeStep(rules, n - 1);
    }
  }

  lemma NoMatchRun(
      rules: seq<Rule>, n: nat, st: ColumnState, backed: bool, g: Guard, stage: Stage, a: Adapter, w: World,
      step: Stepper)
    requires IsStepper(step, backed, g, stage, a, w)
    requires n <= |rules|
    requires forall k :: 0 <= k < n ==> Judged(rules, st.ctx, stage, w)[k].status != Matched
    ensures Fold(rules[..n], st, step) == st
  {
    forall k | 0 <= k < n ensures step(rules[k], st) == st {
      UnmatchedStep(rules, k, st, backed, g, stage, a, w);
    }
    IdleRun(rules, n, st, step);
  }

  lemma {:induction false} NoMatchLive(js: seq<Solo>, n: nat)
    requires n <= |js| && forall k :: 0 <= k < n ==> js[k].status != Matched
    ensures LivePatches(js, n) == []
  {
    if n > 0 { NoMatchLive(js, n - 1); }
  }

  lemma ReduceEmpty(g: Guard)
    ensures Reduce(EMPTY_PATCH, g).applied == EMPTY_PATCH
  {
    FinalInRange(EMPTY_PATCH, g, 0);
  }

  lemma FirstMatchRun(rules: seq<Rule>, i: nat, d: Detection, stage: Stage, a: Adapter, w: World)
    requires FirstMatch(Judged(rules, a.context(d), stage, w), i) && rules[i].terminal && !ChecksumBacked(a.context(d))
    ensures Stepwise(rules, d, stage, a, w).applied ==
            Reduce(Judged(rules, a.context(d), stage, w)[i].patch, ColumnGuard(d, a)).applied
  {
    var st, g := StartColumn(d, a), ColumnGuard(d, a);
    var step := StepperOf(false, g, stage, a, w);
    NoMatchRun(rules, i, st, false, g, stage, a, w, step);
    StepwiseStep(rules, i, d, stage, a, w);
    MatchedStep(rules, i, st, g, stage, a, w);
    StoppedFold(rules, i + 1, st, false, g, stage, a, w, step);
  }

  lemma FirstMatchProposal(js: seq<Solo>, i: nat)
    requires FirstMatch(js, i) && js[i].rule.terminal && Settled(js[i])
    ensures Proposed(js) == js[i].patch
  {
    NoMatchLive(js, i);
    assert Live(js, i);
    assert LivePatches(js, i + 1) == [js[i].patch];
    assert Stopped(js, i + 1);
    NothingAfterStop(js, i + 1, |js|);
    MergeAppend([], js[i].patch);
  }

  /** Without a passing checksum, if the first matching rule (if any) is terminal, the stepwise loop and the batch
      simulation reduce to the same applied patch. */
  lemma StepwiseAgreesWithBatch(rules: seq<Rule>, d: Detection, stage: Stage, a: Adapter, w: World)
    requires !ChecksumBacked(a.context(d))
    requires forall i: nat | FirstMatch(Judged(rules, a.context(d), stage, w), i) :: rules[i].terminal
    ensures Stepwise(rules, d, stage, a, w).applied ==
            Reduce(Proposed(Judged(rules, a.context(d), stage, w)), ColumnGuard(d, a)).applied
  {
    var js := Judged(rules, a.context(d), stage, w);
    if i: nat :| FirstMatch(js, i) {
      assert js[i] in js;
      FirstMatchRun(rules, i, d, stage, a, w);
      FirstMatchProposal(js, i);
    } else {
      NoFirstMatch(js, |js|);
      NoMatchRun(rules, |rules|, StartColumn(d, a), false, ColumnGuard(d, a), stage, a, w,
                 StepperOf(false, ColumnGuard(d, a), stage, a, w));
      assert rules[..|rules|] == rules;
      NoMatchLive(js, |js|);
      ReduceEmpty(ColumnGuard(d, a));
    }
  }

  lemma {:induction false} NoFirstMatch(js: seq<Solo>, n: nat)
    requires n <= |js| && forall i: nat :: !FirstMatch(js, i)
    ensures forall k :: 0 <= k < n ==> js[k].status != Matched
  {
    if n > 0 {
      NoFirstMatch(js, n - 1);
      assert !FirstMatch(js, n - 1);
    }
  }

  /** In particular when every rule is terminal. */
  lemma AllTerminalAgree(rules: seq<Rule>, d: Detection, stage: Stage, a: Adapter, w: World)
    requires !ChecksumBacked(a.context(d)) && forall r | r in rules :: r.terminal
    ensures Stepwise(rules, d, stage, a, w).applied ==
            Reduce(Proposed(Judged(rules, a.context(d), stage, w)), ColumnGuard(d, a)).applied
  {
    StepwiseAgreesWithBatch(rules, d, stage, a, w);
  }

  // ---- For every adapter: exactly when loop and batch agree ----

  /** The loop applies the rule: nothing has stopped it, the rule matches in the context of that moment, and no checksum
      protects against its patch. */
  ghost predicate Takes(rule: Rule, st: ColumnState, backed: bool, g: Guard, stage: Stage, a: Adapter, w: World) {
    var s := Alone(rule, st.ctx, stage, w);
    && !st.stopped && s.status == Matched
    && !ChecksumBlocksPatch(st.current, Reduce(s.patch, g).applied, backed, a, w.py)
  }

  lemma TakesIff(rule: Rule, st: ColumnState, backed: bool, g: Guard, stage: Stage, a: Adapter, w: World)
    ensures var next := ColumnStep(rule, st, backed, g, stage, a, w);
            if Takes(rule, st, backed, g, stage, a, w) then
              next.applied == Reduce(Alone(rule, st.ctx, stage, w).patch, g).applied
            else next == st
  {
  }

  /** The loop over `rules` applies rule `i`. */
  ghost predicate TakenAt(rules: seq<Rule>, i: nat, d: Detection, stage: Stage, a: Adapter, w: World)
    requires i < |rules|
  {
    Takes(rules[i], Stepwise(rules[..i], d, stage, a, w), ChecksumBacked(a.context(d)), ColumnGuard(d, a), stage, a, w)
  }

  ghost function Taken(rules: seq<Rule>, d: Detection, stage: Stage, a: Adapter, w: World): seq<bool> {
    seq(|rules|, i requires 0 <= i < |rules| => TakenAt(rules, i, d, stage, a, w))
  }

  /** The last rule that the loop applies. */
  ghost function LastTaken(rules: seq<Rule>, d: Detection, stage: Stage, a: Adapter, w: World): (k: Option<nat>)
    ensures k.Some? ==> k.value < |rules|
  {
    LastTrue(Taken(rules, d, stage, a, w))
  }

  /** The patch that rule proposes in the context it meets, or the empty one if there is no such rule. */
  ghost function PatchTaken(rules: seq<Rule>, k: Option<nat>, d: Detection, stage: Stage, a: Adapter, w: World): Patch
    requires k.Some? ==> k.value < |rules|
  {
    if k.None? then EMPTY_PATCH
    else Alone(rules[k.value], Stepwise(rules[..k.value], d, stage, a, w).ctx, stage, w).patch
  }

  /** What the loop has applied is the reduced patch of rule `k`. */
  ghost predicate Keeps(
      rules: seq<Rule>, n: nat, k: Option<nat>, d: Detection, stage: Stage, a: Adapter, w: World)
    requires n <= |rules| && (k.Some? ==> k.value < |rules|)
  {
    match Stepwise(rules[..n], d, stage, a, w)
    case ColumnState(_, _, applied, _) =>
      applied == Reduce(PatchTaken(rules, k, d, stage, a, w), ColumnGuard(d, a)).applied
  }

  lemma KeepsStep(rules: seq<Rule>, n: nat, k: Option<nat>, d: Detection, stage: Stage, a: Adapter, w: World)
    requires n < |rules| && (k.Some? ==> k.value < |rules|) && Keeps(rules, n, k, d, stage, a, w)
    ensures Keeps(rules, n + 1, if TakenAt(rules, n, d, stage, a, w) then Some(n) else k, d, stage, a, w)
  {
    StepwiseStep(rules, n, d, stage, a, w);
    TakesIff(rules[n], Stepwise(rules[..n], d, stage, a, w), ChecksumBacked(a.context(d)), ColumnGuard(d, a), stage,
             a, w);
  }

  lemma {:induction false} KeepsLastTaken(
      rules: seq<Rule>, n: nat, taken: seq<bool>, d: Detection, stage: Stage, a: Adapter, w: World)
    requires n <= |rules| && taken == Taken(rules, d, stage, a, w)
    ensures Keeps(rules, n, LastTrue(taken[..n]), d, stage, a, w)
  {
    if n == 0 {
      KeepsNone(rules, d, stage, a, w);
    } else {
      KeepsLastTaken(rules, n - 1, taken, d, stage, a, w);
      KeepsLastNext(rules, n - 1, taken, d, stage, a, w);
    }
  }

  lemma KeepsNone(rules: seq<Rule>, d: Detection, stage: Stage, a: Adapter, w: World)
    ensures Keeps(rules, 0, None, d, stage, a, w)
  {
    ReduceEmpty(ColumnGuard(d, a));
  }

  lemma KeepsLastNext(rules: seq<Rule>, n: nat, taken: seq<bool>, d: Detection, stage: Stage, a: Adapter, w: World)
    requires n < |rules| && taken == Taken(rules, d, stage, a, w)
    requires Keeps(rules, n, LastTrue(taken[..n]), d, stage, a, w)
    ensures Keeps(rules, n + 1, LastTrue(taken[..n + 1]), d, stage, a, w)
  {
    KeepsStep(rules, n, LastTrue(taken[..n]), d, stage, a, w);
    LastTrueStep(taken, n);
  }

  /** The loop ends with the patch of the last rule it applies alone, reduced, whatever the adapter, effects and
      checksums do. */
  lemma LoopKeepsLastMatch(rules: seq<Rule>, d: Detection, stage: Stage, a: Adapter, w: World)
    ensures Stepwise(rules, d, stage, a, w).applied ==
            Reduce(PatchTaken(rules, LastTaken(rules, d, stage, a, w), d, stage, a, w),
                   ColumnGuard(d, a)).applied
  {
    var taken := Taken(rules, d, stage, a, w);
    KeepsLastTaken(rules, |rules|, taken, d, stage, a, w);
    assert rules[..|rules|] == rules && taken[..|rules|] == taken;
  }

  /** The batch's rules have operations of their own, and the loop's last rule proposes the patch the batch sees. */
  lemma TakenPatch(rules: seq<Rule>, d: Detection, stage: Stage, a: Adapter, w: World)
    requires UniqueIds(rules) && BuiltinOnly(rules, w)
    ensures var js, k := Judged(rules, a.context(d), stage, w), LastTaken(rules, d, stage, a, w);
            OwnOperations(js) && PatchOf(js, k, PatchTaken(rules, k, d, stage, a, w))
  {
    var ctx, k := a.context(d), LastTaken(rules, d, stage, a, w);
    JudgedOwn(rules, ctx, stage, w);
    if k.Some? {
      var rule, met := rules[k.value], Stepwise(rules[..k.value], d, stage, a, w).ctx;
      assert forall e | e in rule.effects :: e.effect !in w.handlers;
      JudgedAt(rules, k.value, ctx, stage, w);
      AlonePlain(rule, met, stage, w);
      AloneTagged(rule, met, stage, w);
      AloneAnywhere(rule, met, ctx, stage, w);
    }
  }

  /** Loop and batch apply the same operations iff the last rule the loop applies decides the batch's operations: it is
      live there, no live rule before it has an admissible operation, and those behind it have them on its paths only;
      for any adapter, and any list of rules with unique ids and built-in effects. */
  lemma OperationsAgreeIff(rules: seq<Rule>, d: Detection, stage: Stage, a: Adapter, w: World)
    requires UniqueIds(rules) && BuiltinOnly(rules, w)
    ensures var js, g := Judged(rules, a.context(d), stage, w), ColumnGuard(d, a);
            var k := LastTaken(rules, d, stage, a, w);
            Stepwise(rules, d, stage, a, w).applied.operations == Reduce(Proposed(js), g).applied.operations <==>
            DecidesOperations(js, k, PatchTaken(rules, k, d, stage, a, w), g)
  {
    var k := LastTaken(rules, d, stage, a, w);
    LoopKeepsLastMatch(rules, d, stage, a, w);
    TakenPatch(rules, d, stage, a, w);
    OneDecidesOperationsIff(Judged(rules, a.context(d), stage, w), k, PatchTaken(rules, k, d, stage, a, w),
                            ColumnGuard(d, a));
  }

  /** They apply the same patch, review, role and reasons included, iff the live rules' requests agree with that rule's
      too. */
  lemma PatchesAgreeIff(rules: seq<Rule>, d: Detection, stage: Stage, a: Adapter, w: World)
    requires UniqueIds(rules) && BuiltinOnly(rules, w)
    ensures var js, g := Judged(rules, a.context(d), stage, w), ColumnGuard(d, a);
            var k := LastTaken(rules, d, stage, a, w);
            Stepwise(rules, d, stage, a, w).applied == Reduce(Proposed(js), g).applied <==>
            DecidesAll(js, k, PatchTaken(rules, k, d, stage, a, w), g)
  {
    var k := LastTaken(rules, d, stage, a, w);
    LoopKeepsLastMatch(rules, d, stage, a, w);
    TakenPatch(rules, d, stage, a, w);
    OneDecidesAllIff(Judged(rules, a.context(d), stage, w), k, PatchTaken(rules, k, d, stage, a, w),
                     ColumnGuard(d, a));
  }

  // ---- Where no applied rule changes the context, the last rule applied is the last live one ----

  ghost function LastLive(js: seq<Solo>): (k: Option<nat>)
    ensures k.Some? ==> k.value < |js| && Live(js, k.value) && forall i | k.value < i < |js| :: !Live(js, i)
    ensures k.None? ==> forall i | 0 <= i < |js| :: !Live(js, i)
  {
    var live := seq(|js|, i requires 0 <= i < |js| => Live(js, i));
    assert forall i | 0 <= i < |js| :: live[i] == Live(js, i);
    LastTrue(live)
  }

  lemma SteadyStep(rules: seq<Rule>, n: nat, d: Detection, stage: Stage, a: Adapter, w: World)
    requires n < |rules| && !ChecksumBacked(a.context(d))
    requires var st := Stepwise(rules[..n], d, stage, a, w);
             st.ctx == a.context(d) && st.stopped == Stopped(Judged(rules, a.context(d), stage, w), n)
    ensures var js := Judged(rules, a.context(d), stage, w);
            && (TakenAt(rules, n, d, stage, a, w) <==> Live(js, n))
            && Stepwise(rules[..n + 1], d, stage, a, w).stopped == Stopped(js, n + 1)
  {
    JudgedAt(rules, n, a.context(d), stage, w);
    StepwiseStep(rules, n, d, stage, a, w);
  }

  /** The context before each of the first `n` rules, and behind them, is the one at the start. */
  ghost predicate Steady(rules: seq<Rule>, n: nat, d: Detection, stage: Stage, a: Adapter, w: World)
    requires n <= |rules|
  {
    forall i | 0 <= i <= n :: Stepwise(rules[..i], d, stage, a, w).ctx == a.context(d)
  }

  /** Of the first `n` rules the loop takes exactly the live ones. */
  ghost predicate TakesLive(taken: seq<bool>, js: seq<Solo>, n: nat, stopped: bool)
    requires n <= |taken| == |js|
  {
    stopped == Stopped(js, n) && forall i | 0 <= i < n :: taken[i] <==> Live(js, i)
  }

  lemma TakesLiveStep(taken: seq<bool>, js: seq<Solo>, n: nat, stopped: bool, next: bool)
    requires n < |taken| == |js| && TakesLive(taken, js, n, stopped)
    requires taken[n] <==> Live(js, n)
    requires next == Stopped(js, n + 1)
    ensures TakesLive(taken, js, n + 1, next)
  {
  }

  lemma {:induction false} SteadyTakesLive(rules: seq<Rule>, js: seq<Solo>, taken: seq<bool>, n: nat, d: Detection,
        stage: Stage, a: Adapter, w: World)
    requires n <= |rules| && !ChecksumBacked(a.context(d)) && Steady(rules, n, d, stage, a, w)
    requires js == Judged(rules, a.context(d), stage, w) && taken == Taken(rules, d, stage, a, w)
    ensures TakesLive(taken, js, n, Stepwise(rules[..n], d, stage, a, w).stopped)
  {
    if n > 0 {
      assert Steady(rules, n - 1, d, stage, a, w);
      SteadyTakesLive(rules, js, taken, n - 1, d, stage, a, w);
      SteadyStep(rules, n - 1, d, stage, a, w);
      TakesLiveStep(taken, js, n - 1, Stepwise(rules[..n - 1], d, stage, a, w).stopped,
                    Stepwise(rules[..n], d, stage, a, w).stopped);
    }
  }

  lemma LastOfLive(taken: seq<bool>, js: seq<Solo>)
    requires |taken| == |js| && forall i | 0 <= i < |js| :: taken[i] <==> Live(js, i)
    ensures LastTrue(taken) == LastLive(js)
  {
    var k, l := LastTrue(taken), LastLive(js);
    if k.Some? && l.Some? { assert k.value == l.value; }
  }

  /** While the context stays as it was, and no checksum passes, loop and batch apply the same operations iff no live
      rule before the last one has an admissible operation. */
  lemma SteadyOperationsAgreeIff(rules: seq<Rule>, d: Detection, stage: Stage, a: Adapter, w: World)
    requires UniqueIds(rules) && BuiltinOnly(rules, w)
    requires !ChecksumBacked(a.context(d)) && Steady(rules, |rules|, d, stage, a, w)
    ensures var js, g := Judged(rules, a.context(d), stage, w), ColumnGuard(d, a);
            Stepwise(rules, d, stage, a, w).applied.operations == Reduce(Proposed(js), g).applied.operations <==>
            NothingBefore(js, LastLive(js), g)
  {
    var js := Judged(rules, a.context(d), stage, w);
    var taken := Taken(rules, d, stage, a, w);
    SteadyTakesLive(rules, js, taken, |rules|, d, stage, a, w);
    LastOfLive(taken, js);
    OperationsAgreeIff(rules, d, stage, a, w);
    TakenPatch(rules, d, stage, a, w);
    LastDecidesIff(js, LastLive(js), PatchTaken(rules, LastLive(js), d, stage, a, w), ColumnGuard(d, a));
  }
}
