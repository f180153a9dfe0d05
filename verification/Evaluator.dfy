/** Priority-ordered rule evaluation (redibis/behavior/evaluator.py). */
module Evaluator {
  import opened Sequences
  import opened Conditions
  import opened Reducer

  // ---- Model ----

  datatype Stage = PreEvidence | PostEvidence | PreVerdict | PostVerdict | PreAction | PostAction

  datatype Scope = Scope(
    engines: seq<string>, tables: seq<string>, columns: seq<string>, environments: seq<string>,
    jurisdictions: seq<string>, tenant: Option<string>)

  type Params = map<string, Value>

  datatype EffectCall = EffectCall(effect: string, params: Params)

  datatype Rule = Rule(
    id: string, policyId: string, stage: Stage, priority: int, scope: Scope, condition: Condition,
    effects: seq<EffectCall>, reason: string, terminal: bool)

  datatype Context = Context(
    engine: string, environment: Option<string>, table: string, column: Option<string>,
    jurisdiction: Option<string>, tenant: Option<string>, facts: Facts, caps: Capabilities)

  datatype HandlerOutcome = Raised(message: string) | Returned(patch: Patch)

  /** The Python runtime plus the effect handlers a registry may hold. */
  datatype World = World(py: Primitives, handlers: map<string, (Context, Params) -> HandlerOutcome>)

  datatype Status = OutOfScope | ConditionFalse | UnknownNoMatch | Matched | EffectError | Terminated

  datatype Trace = Trace(
    ruleId: string, policyId: string, priority: int, status: Status, reason: string,
    patch: Option<Patch>, error: Option<string>)

  // ---- Scope ----

  predicate ListAllows(allowed: seq<string>, actual: Option<string>) {
    allowed == [] || (actual.Some? && actual.value in allowed)
  }

  predicate GlobAllows(patterns: seq<string>, name: string, py: Primitives) {
    patterns == [] || exists p | p in patterns :: py.glob(name, p)
  }

  predicate MatchesScope(s: Scope, ctx: Context, py: Primitives) {
    && ListAllows(s.engines, Some(ctx.engine))
    && ListAllows(s.environments, ctx.environment)
    && GlobAllows(s.tables, ctx.table, py)
    && GlobAllows(s.columns, ctx.column.GetOr(""), py)
    && ListAllows(s.jurisdictions, ctx.jurisdiction)
    && (s.tenant.Some? ==> ctx.tenant == s.tenant)
  }

  // ---- Effects ----

  function Param(params: Params, key: string): Value { if key in params then params[key] else Null }

  function SetPatch(path: string, value: Value): Patch {
    Patch([Operation("set", path, value, ApprovedPolicy, "", "", "")], false, None, [])
  }

  function BuiltinEffect(e: EffectCall, py: Primitives): Patch {
    if e.effect == "core.verdict.set_entity" then SetPatch("verdict.entity", Param(e.params, "entity"))
    else if e.effect == "core.verdict.set_detected" then SetPatch("verdict.detected", Param(e.params, "detected"))
    else if e.effect == "core.verdict.set_confidence" then SetPatch("verdict.confidence", Param(e.params, "confidence"))
    else if e.effect == "core.review.require" then
      var role := Param(e.params, "role");
      Patch([], true, Some(if Truthy(role) then py.render(role) else "steward"), [])
    else if e.effect == "core.review.add_reason" then
      var reason := Param(e.params, "reason");
      var text := if Truthy(reason) then py.render(reason) else "";
      Patch([], false, None, if text != "" then [text] else [])
    else if e.effect == "core.threshold.set_for_run" then
      var name := if "threshold" in e.params then py.render(e.params["threshold"]) else "unknown";
      SetPatch("threshold." + name, Param(e.params, "value"))
    else SetPatch("effect." + e.effect, Dict(e.params))
  }

  function ApplyEffect(e: EffectCall, ctx: Context, w: World): Result<Patch, string> {
    if e.effect in w.handlers then
      match w.handlers[e.effect](ctx, e.params)
      case Raised(message) => Err("Effect handler " + e.effect + " raised: " + message)
      case Returned(patch) => Ok(patch)
    else Ok(BuiltinEffect(e, w.py))
  }

  function OrElse(s: string, default: string): string { if s != "" then s else default }

  function AnnotateOp(o: Operation, rule: Rule): Operation {
    o.(reason := OrElse(o.reason, rule.reason),
       ruleId := OrElse(o.ruleId, rule.id),
       policyId := OrElse(o.policyId, rule.policyId))
  }

  function Annotate(patch: Patch, rule: Rule): Patch {
    patch.(operations := seq(|patch.operations|, k requires 0 <= k < |patch.operations| =>
                               AnnotateOp(patch.operations[k], rule)))
  }

  /** Patches of the effects in order, or the first error. */
  function RunEffects(effects: seq<EffectCall>, rule: Rule, ctx: Context, w: World): Result<seq<Patch>, string> {
    if effects == [] then Ok([])
    else
      var n := |effects| - 1;
      match RunEffects(effects[..n], rule, ctx, w)
      case Err(e) => Err(e)
      case Ok(done) =>
        match ApplyEffect(effects[n], ctx, w)
        case Err(e) => Err(e)
        case Ok(patch) => Ok(done + [Annotate(patch, rule)])
  }

  // ---- Merging ----

  predicate HasRole(role: Option<string>) { role.Some? && role.value != "" }

  function Combine(a: Patch, b: Patch): Patch {
    Patch(a.operations + b.operations,
          a.requireReview || b.requireReview,
          if HasRole(b.reviewRole) && !HasRole(a.reviewRole) then b.reviewRole else a.reviewRole,
          a.reasons + b.reasons)
  }

  function Merge(ps: seq<Patch>): Patch {
    if ps == [] then EMPTY_PATCH else Combine(Merge(ps[..|ps| - 1]), ps[|ps| - 1])
  }

  method MergePatches(ps: seq<Patch>) returns (r: Patch)
    ensures r == Merge(ps)
  {
    var ops: seq<Operation>, review, role, reasons: seq<string> := [], false, None, [];
    for k := 0 to |ps|
      invariant Patch(ops, review, role, reasons) == Merge(ps[..k])
      invariant role.Some? ==> role.value != ""
    {
      TakeStep(ps, k);
      var p := ps[k];
      ops := ops + p.operations;
      if p.requireReview { review := true; }
      if HasRole(p.reviewRole) { role := if HasRole(role) then role else p.reviewRole; }
      reasons := reasons + p.reasons;
    }
    assert ps[..|ps|] == ps;
    r := Patch(ops, review, role, reasons);
  }

  // ---- One rule on its own ----

  /** What a rule does in a context when nothing has stopped it. */
  datatype Solo = Solo(rule: Rule, status: Status, patch: Patch, error: Option<string>)

  ghost function Alone(rule: Rule, ctx: Context, stage: Stage, w: World): (r: Solo)
    ensures r.rule == rule && Settled(r)
  {
    if rule.stage != stage || !MatchesScope(rule.scope, ctx, w.py) then Solo(rule, OutOfScope, EMPTY_PATCH, None)
    else
      match Eval(rule.condition, ctx.facts, w.py)
      case Unknown => Solo(rule, UnknownNoMatch, EMPTY_PATCH, None)
      case False => Solo(rule, ConditionFalse, EMPTY_PATCH, None)
      case True =>
        match RunEffects(rule.effects, rule, ctx, w)
        case Err(e) => Solo(rule, EffectError, EMPTY_PATCH, Some(e))
        case Ok(patches) => MergeNormal(patches); Solo(rule, Matched, Merge(patches), None)
  }

  /** A merged patch never carries an empty role. */
  ghost predicate Normal(p: Patch) { p.reviewRole.Some? ==> p.reviewRole.value != "" }

  ghost predicate Settled(s: Solo) {
    Normal(s.patch) && (s.status != Matched ==> s.patch == EMPTY_PATCH) && s.status != Terminated
  }

  lemma {:induction false} MergeNormal(ps: seq<Patch>)
    ensures Normal(Merge(ps))
  {
    if ps != [] { MergeNormal(ps[..|ps| - 1]); }
  }

  ghost function Judged(rules: seq<Rule>, ctx: Context, stage: Stage, w: World): (r: seq<Solo>)
    ensures |r| == |rules|
    ensures forall s | s in r :: Settled(s)
    ensures forall i :: 0 <= i < |r| ==> r[i].rule == rules[i]
  {
    if rules == [] then [] else Judged(rules[..|rules| - 1], ctx, stage, w) + [Alone(rules[|rules| - 1], ctx, stage, w)]
  }

  lemma {:induction false} JudgedAt(rules: seq<Rule>, i: nat, ctx: Context, stage: Stage, w: World)
    requires i < |rules|
    ensures Judged(rules, ctx, stage, w)[i] == Alone(rules[i], ctx, stage, w)
  {
    if i < |rules| - 1 { JudgedAt(rules[..|rules| - 1], i, ctx, stage, w); }
  }

  predicate InScope(rule: Rule, ctx: Context, stage: Stage, py: Primitives) {
    rule.stage == stage && MatchesScope(rule.scope, ctx, py)
  }

  lemma JudgedScope(rules: seq<Rule>, i: nat, ctx: Context, stage: Stage, w: World)
    requires i < |rules|
    ensures Judged(rules, ctx, stage, w)[i].status == OutOfScope <==> !InScope(rules[i], ctx, stage, w.py)
  {
    JudgedAt(rules, i, ctx, stage, w);
  }

  // ---- A list of rules, given what each does alone ----

  ghost predicate Ends(s: Solo) { s.status == Matched && s.rule.terminal }

  /** Some rule before position `i` matched and was terminal. */
  ghost predicate Stopped(js: seq<Solo>, i: nat)
    requires i <= |js|
  {
    exists j :: 0 <= j < i && Ends(js[j])
  }

  ghost predicate Live(js: seq<Solo>, i: nat)
    requires i < |js|
  {
    js[i].status == Matched && !Stopped(js, i)
  }

  /** The trace of one rule, given whether a terminal match came before it. */
  ghost function TraceOf(s: Solo, stopped: bool): Trace {
    var r := s.rule;
    if s.status == OutOfScope || !stopped then
      var patch := if s.status == Matched then Some(s.patch) else None;
      Trace(r.id, r.policyId, r.priority, s.status, r.reason, patch, s.error)
    else Trace(r.id, r.policyId, r.priority, Terminated, r.reason, None, None)
  }

  /** The patches of the live rules among the first `n`. */
  ghost function LivePatches(js: seq<Solo>, n: nat): seq<Patch>
    requires n <= |js|
  {
    if n == 0 then [] else LivePatches(js, n - 1) + if Live(js, n - 1) then [js[n - 1].patch] else []
  }

  ghost function Proposed(js: seq<Solo>): Patch { Merge(LivePatches(js, |js|)) }

  ghost function TracesUpTo(js: seq<Solo>, n: nat): (r: seq<Trace>)
    requires n <= |js|
    ensures |r| == n
  {
    if n == 0 then [] else TracesUpTo(js, n - 1) + [TraceOf(js[n - 1], Stopped(js, n - 1))]
  }

  lemma {:induction false} TracesAt(js: seq<Solo>, n: nat, k: nat)
    requires k < n <= |js|
    ensures TracesUpTo(js, n)[k] == TraceOf(js[k], Stopped(js, k))
  {
    if k < n - 1 { TracesAt(js, n - 1, k); }
  }

  /** What a matched trace adds to the patches, and when it stops the rules after it. */
  lemma LivePatchStep(js: seq<Solo>, i: nat, trace: Trace, rule: Rule)
    requires i < |js| && js[i].rule == rule && trace == TraceOf(js[i], Stopped(js, i))
    ensures trace.status == Matched ==> trace.patch == Some(js[i].patch)
    ensures LivePatches(js, i + 1) == LivePatches(js, i) + if trace.status == Matched then [js[i].patch] else []
    ensures Stopped(js, i + 1) <==> Stopped(js, i) || (trace.status == Matched && rule.terminal)
  {
    if Ends(js[i]) && !Stopped(js, i) { assert Live(js, i); }
  }

  /** `PolicyEvaluator.evaluate`: every trace and the proposed patch, in terms of what each rule does alone. */
  method Evaluate(rules: seq<Rule>, ctx: Context, stage: Stage, w: World) returns (traces: seq<Trace>, proposed: Patch)
    ensures var js := Judged(rules, ctx, stage, w);
            && |traces| == |rules|
            && (forall i :: 0 <= i < |rules| ==> traces[i] == TraceOf(js[i], Stopped(js, i)))
            && proposed == Proposed(js)
    ensures TracesDue(rules, traces, ctx, stage, w) && ProposalDue(proposed, traces)
  {
    traces := [];
    var patches: seq<Patch> := [];
    var terminated := false;
    ghost var js := Judged(rules, ctx, stage, w);
    for i := 0 to |rules|
      invariant traces == TracesUpTo(js, i)
      invariant terminated == Stopped(js, i)
      invariant patches == LivePatches(js, i)
    {
      var trace := EvaluateRule(rules, i, js, terminated, ctx, stage, w);
      LivePatchStep(js, i, trace, rules[i]);
      traces := traces + [trace];
      if trace.status == Matched {
        patches := patches + [trace.patch.value];
        if rules[i].terminal { terminated := true; }
      }
    }
    forall k | 0 <= k < |js| ensures traces[k] == TraceOf(js[k], Stopped(js, k)) { TracesAt(js, |js|, k); }
    proposed := MergePatches(patches);
    EvaluationDue(rules, traces, ctx, stage, w);
    ProposedDue(js, traces);
  }

  /** The body of the rule loop. */
  method EvaluateRule(rules: seq<Rule>, i: nat, ghost js: seq<Solo>, terminated: bool,
                      ctx: Context, stage: Stage, w: World) returns (trace: Trace)
    requires i < |rules| && js == Judged(rules, ctx, stage, w)
    ensures trace == TraceOf(js[i], terminated)
    ensures TraceDue(rules[i], trace, terminated, ctx, stage, w)
  {
    JudgedAt(rules, i, ctx, stage, w);
    var r := rules[i];
    AloneDue(r, ctx, stage, w, terminated);
    trace := Trace(r.id, r.policyId, r.priority, OutOfScope, r.reason, None, None);
    if r.stage != stage || !MatchesScope(r.scope, ctx, w.py) { return; }
    if terminated { return trace.(status := Terminated); }
    var verdict := EvaluateCondition(r.condition, ctx.facts, w.py);
    if verdict == Unknown { return trace.(status := UnknownNoMatch); }
    if verdict == False { return trace.(status := ConditionFalse); }
    var outcome := ExecuteEffects(r, ctx, w);
    match outcome {
      case Err(e) => trace := trace.(status := EffectError, error := Some(e));
      case Ok(effectPatches) =>
        var rulePatch := MergePatches(effectPatches);
        trace := trace.(status := Matched, patch := Some(rulePatch));
    }
  }

  method ExecuteEffects(rule: Rule, ctx: Context, w: World) returns (outcome: Result<seq<Patch>, string>)
    ensures outcome == RunEffects(rule.effects, rule, ctx, w)
  {
    var patches: seq<Patch> := [];
    for k := 0 to |rule.effects|
      invariant RunEffects(rule.effects[..k], rule, ctx, w) == Ok(patches)
    {
      TakeStep(rule.effects, k);
      var applied := ApplyEffect(rule.effects[k], ctx, w);
      match applied {
        case Err(e) =>
          ErrorPersists(rule.effects, k + 1, rule, ctx, w);
          return Err(e);
        case Ok(patch) => patches := patches + [Annotate(patch, rule)];
      }
    }
    assert rule.effects[..|rule.effects|] == rule.effects;
    outcome := Ok(patches);
  }

  lemma {:induction false} ErrorPersists(effects: seq<EffectCall>, k: nat, rule: Rule, ctx: Context, w: World)
    requires k <= |effects| && RunEffects(effects[..k], rule, ctx, w).Err?
    ensures RunEffects(effects, rule, ctx, w) == RunEffects(effects[..k], rule, ctx, w)
    decreases |effects|
  {
    if k == |effects| {
      assert effects[..k] == effects;
    } else {
      assert effects[..|effects| - 1][..k] == effects[..k];
      ErrorPersists(effects[..|effects| - 1], k, rule, ctx, w);
    }
  }

  // ---- What an evaluation promises, in terms of each rule's own fields and its condition's verdict ----

  /** The context is at the rule's stage and within its scope, where an empty list restricts nothing. */
  ghost predicate Reaches(r: Rule, ctx: Context, stage: Stage, py: Primitives) {
    && r.stage == stage
    && (r.scope.engines != [] ==> ctx.engine in r.scope.engines)
    && (r.scope.environments != [] ==> exists e | e in r.scope.environments :: ctx.environment == Some(e))
    && (r.scope.tables != [] ==> exists p | p in r.scope.tables :: py.glob(ctx.table, p))
    && (r.scope.columns != [] ==>
          exists p | p in r.scope.columns :: py.glob(if ctx.column.Some? then ctx.column.value else "", p))
    && (r.scope.jurisdictions != [] ==> exists j | j in r.scope.jurisdictions :: ctx.jurisdiction == Some(j))
    && (r.scope.tenant == None || ctx.tenant == r.scope.tenant)
  }

  /** A terminal rule before position `i` has matched. */
  ghost predicate Halted(rules: seq<Rule>, traces: seq<Trace>, i: nat)
    requires i <= |rules| == |traces|
  {
    exists j :: 0 <= j < i && traces[j].status == Matched && rules[j].terminal
  }

  ghost predicate Raises(e: EffectCall, ctx: Context, w: World) {
    e.effect in w.handlers && w.handlers[e.effect](ctx, e.params).Raised?
  }

  /** What an effect that does not raise gives: what its handler returns, or the built-in patch. */
  ghost function Gives(e: EffectCall, ctx: Context, w: World): Patch
    requires !Raises(e, ctx, w)
  {
    if e.effect in w.handlers then w.handlers[e.effect](ctx, e.params).patch else BuiltinEffect(e, w.py)
  }

  /** `o` is `x` with the rule's reason and ids where `x` has none. */
  ghost predicate Stamped(o: Operation, x: Operation, r: Rule) {
    && o.op == x.op && o.path == x.path && o.value == x.value && o.authority == x.authority
    && o.reason == (if x.reason == "" then r.reason else x.reason)
    && o.ruleId == (if x.ruleId == "" then r.id else x.ruleId)
    && o.policyId == (if x.policyId == "" then r.policyId else x.policyId)
  }

  ghost predicate FromEffect(o: Operation, e: EffectCall, r: Rule, ctx: Context, w: World) {
    !Raises(e, ctx, w) && exists x | x in Gives(e, ctx, w).operations :: Stamped(o, x, r)
  }

  /** The patch of effects none of which raises: their operations, stamped; a review if one asks for it; their
      reasons. */
  ghost predicate PatchDue(p: Patch, effects: seq<EffectCall>, r: Rule, ctx: Context, w: World) {
    match p
    case Patch(operations, review, _, reasons) =>
      && (forall o :: o in operations <==> exists e | e in effects :: FromEffect(o, e, r, ctx, w))
      && (review <==> exists e | e in effects :: AsksIn(e, ctx, w))
      && (forall s :: s in reasons <==> exists e | e in effects :: ReasonIn(s, e, ctx, w))
  }

  ghost predicate AsksIn(e: EffectCall, ctx: Context, w: World) {
    !Raises(e, ctx, w) && Gives(e, ctx, w).requireReview
  }

  ghost predicate ReasonIn(s: string, e: EffectCall, ctx: Context, w: World) {
    !Raises(e, ctx, w) && s in Gives(e, ctx, w).reasons
  }

  ghost predicate SomeRaises(effects: seq<EffectCall>, ctx: Context, w: World) {
    exists e | e in effects :: Raises(e, ctx, w)
  }

  /** The trace of one rule: whether it is out of scope, behind a terminal match, or what its condition says. A rule
      matches only if its condition is TRUE; UNKNOWN never matches. */
  ghost predicate TraceDue(r: Rule, t: Trace, halted: bool, ctx: Context, stage: Stage, w: World) {
    var reached, verdict := Reaches(r, ctx, stage, w.py), Eval(r.condition, ctx.facts, w.py);
    match t
    case Trace(ruleId, policyId, priority, status, reason, patch, error) =>
      && ruleId == r.id && policyId == r.policyId && priority == r.priority && reason == r.reason
      && (status == OutOfScope <==> !reached)
      && (status == Terminated <==> reached && halted)
      && (status == UnknownNoMatch <==> reached && !halted && verdict == Unknown)
      && (status == ConditionFalse <==> reached && !halted && verdict == False)
      && (status == EffectError <==> reached && !halted && verdict == True && SomeRaises(r.effects, ctx, w))
      && (status == Matched <==> reached && !halted && verdict == True && !SomeRaises(r.effects, ctx, w))
      && (patch.Some? <==> status == Matched) && (error.Some? <==> status == EffectError)
      && (patch.Some? ==> PatchDue(patch.value, r.effects, r, ctx, w))
  }

  ghost predicate TracesDue(rules: seq<Rule>, traces: seq<Trace>, ctx: Context, stage: Stage, w: World) {
    |traces| == |rules| &&
    forall i | 0 <= i < |rules| :: TraceDue(rules[i], traces[i], Halted(rules, traces, i), ctx, stage, w)
  }

  /** What is proposed is what the matched rules' patches hold. */
  ghost predicate ProposalDue(p: Patch, traces: seq<Trace>) {
    && (forall o :: o in p.operations <==> exists t | t in traces && t.patch.Some? :: o in t.patch.value.operations)
    && (p.requireReview <==> exists t | t in traces && t.patch.Some? :: t.patch.value.requireReview)
    && (forall s :: s in p.reasons <==> exists t | t in traces && t.patch.Some? :: s in t.patch.value.reasons)
  }

  lemma ReachesIff(r: Rule, ctx: Context, stage: Stage, py: Primitives)
    ensures Reaches(r, ctx, stage, py) <==> InScope(r, ctx, stage, py)
  {
  }

  lemma ApplyErr(e: EffectCall, ctx: Context, w: World)
    ensures ApplyEffect(e, ctx, w).Err? <==> Raises(e, ctx, w)
    ensures !Raises(e, ctx, w) ==> ApplyEffect(e, ctx, w) == Ok(Gives(e, ctx, w))
  {
  }

  lemma {:induction false} RunEffectsErr(effects: seq<EffectCall>, rule: Rule, ctx: Context, w: World)
    ensures RunEffects(effects, rule, ctx, w).Err? <==> SomeRaises(effects, ctx, w)
  {
    if effects != [] {
      var front, last := effects[..|effects| - 1], effects[|effects| - 1];
      RunEffectsErr(front, rule, ctx, w);
      ApplyErr(last, ctx, w);
      assert effects == front + [last];
      assert forall e :: e in effects <==> e in front || e == last;
    }
  }

  lemma AnnotateStamps(p: Patch, r: Rule)
    ensures forall o :: o in Annotate(p, r).operations <==> exists x | x in p.operations :: Stamped(o, x, r)
  {
    var q := Annotate(p, r).operations;
    forall o ensures o in q <==> exists x | x in p.operations :: Stamped(o, x, r) {
      if o in q {
        var k :| 0 <= k < |q| && q[k] == o;
        assert Stamped(o, p.operations[k], r);
      }
      if x :| x in p.operations && Stamped(o, x, r) {
        var k :| 0 <= k < |p.operations| && p.operations[k] == x;
        assert q[k] == o;
      }
    }
  }

  /** The merged patches of the first effects are due for them. */
  lemma {:induction false} RunEffectsDue(effects: seq<EffectCall>, r: Rule, ctx: Context, w: World)
    requires RunEffects(effects, r, ctx, w).Ok?
    ensures PatchDue(Merge(RunEffects(effects, r, ctx, w).value), effects, r, ctx, w)
  {
    if effects == [] {
      NothingDue(r, ctx, w);
    } else {
      var front, last := effects[..|effects| - 1], effects[|effects| - 1];
      assert effects == front + [last];
      RunEffectsStep(front, last, r, ctx, w);
      RunEffectsDue(front, r, ctx, w);
      MergedDue(RunEffects(front, r, ctx, w).value, front, last, r, ctx, w);
    }
  }

  lemma RunEffectsStep(front: seq<EffectCall>, last: EffectCall, r: Rule, ctx: Context, w: World)
    requires RunEffects(front + [last], r, ctx, w).Ok?
    ensures RunEffects(front, r, ctx, w).Ok? && !Raises(last, ctx, w)
    ensures RunEffects(front + [last], r, ctx, w).value ==
            RunEffects(front, r, ctx, w).value + [Annotate(Gives(last, ctx, w), r)]
  {
    assert (front + [last])[..|front|] == front;
    ApplyErr(last, ctx, w);
  }

  lemma MergedDue(
      ps: seq<Patch>, front: seq<EffectCall>, last: EffectCall, r: Rule, ctx: Context, w: World)
    requires PatchDue(Merge(ps), front, r, ctx, w) && !Raises(last, ctx, w)
    ensures PatchDue(Merge(ps + [Annotate(Gives(last, ctx, w), r)]), front + [last], r, ctx, w)
  {
    MergeAppend(ps, Annotate(Gives(last, ctx, w), r));
    EffectDue(Merge(ps), front, last, r, ctx, w);
  }

  lemma NothingDue(r: Rule, ctx: Context, w: World)
    ensures PatchDue(EMPTY_PATCH, [], r, ctx, w)
  {
  }

  lemma EffectDue(p: Patch, front: seq<EffectCall>, last: EffectCall, r: Rule, ctx: Context, w: World)
    requires PatchDue(p, front, r, ctx, w) && !Raises(last, ctx, w)
    ensures PatchDue(Combine(p, Annotate(Gives(last, ctx, w), r)), front + [last], r, ctx, w)
  {
    var effects, given := front + [last], Gives(last, ctx, w);
    var all := Combine(p, Annotate(given, r));
    AnnotateStamps(given, r);
    forall o ensures o in all.operations <==> exists e | e in effects :: FromEffect(o, e, r, ctx, w) {
      SomeAppended(front, last, e => FromEffect(o, e, r, ctx, w));
    }
    SomeAppended(front, last, e => AsksIn(e, ctx, w));
    forall s ensures s in all.reasons <==> exists e | e in effects :: ReasonIn(s, e, ctx, w) {
      SomeAppended(front, last, e => ReasonIn(s, e, ctx, w));
    }
  }

  lemma SomeAppended(front: seq<EffectCall>, last: EffectCall, P: EffectCall -> bool)
    ensures (exists e | e in front + [last] :: P(e)) <==> (exists e | e in front :: P(e)) || P(last)
  {
    if e :| e in front && P(e) { assert e in front + [last]; }
    if P(last) { assert last in front + [last]; }
  }

  lemma AloneDue(r: Rule, ctx: Context, stage: Stage, w: World, halted: bool)
    ensures TraceDue(r, TraceOf(Alone(r, ctx, stage, w), halted), halted, ctx, stage, w)
  {
    ReachesIff(r, ctx, stage, w.py);
    RunEffectsErr(r.effects, r, ctx, w);
    if RunEffects(r.effects, r, ctx, w).Ok? { RunEffectsDue(r.effects, r, ctx, w); }
  }

  /** A rule ends the evaluation exactly when its trace shows a terminal match. */
  lemma HaltedIff(rules: seq<Rule>, js: seq<Solo>, traces: seq<Trace>, i: nat)
    requires |js| == |rules| == |traces| && i <= |rules|
    requires forall k | 0 <= k < |js| :: js[k].rule == rules[k] && traces[k] == TraceOf(js[k], Stopped(js, k))
    ensures Halted(rules, traces, i) <==> Stopped(js, i)
  {
    if j :| 0 <= j < i && Ends(js[j]) {
      var first := FirstEnd(js, j);
      assert traces[first].status == Matched && rules[first].terminal;
    }
  }

  lemma {:induction false} FirstEnd(js: seq<Solo>, j: nat) returns (first: nat)
    requires j < |js| && Ends(js[j])
    ensures first <= j && Ends(js[first]) && !Stopped(js, first)
  {
    if k: nat :| k < j && Ends(js[k]) { first := FirstEnd(js, k); } else { first := j; }
  }

  /** Every trace is the one due. */
  lemma EvaluationDue(rules: seq<Rule>, traces: seq<Trace>, ctx: Context, stage: Stage, w: World)
    requires var js := Judged(rules, ctx, stage, w);
      |traces| == |rules| && forall i | 0 <= i < |rules| :: traces[i] == TraceOf(js[i], Stopped(js, i))
    ensures TracesDue(rules, traces, ctx, stage, w)
  {
    var js := Judged(rules, ctx, stage, w);
    forall i | 0 <= i < |rules| ensures TraceDue(rules[i], traces[i], Halted(rules, traces, i), ctx, stage, w) {
      HaltedIff(rules, js, traces, i);
      JudgedAt(rules, i, ctx, stage, w);
      AloneDue(rules[i], ctx, stage, w, Stopped(js, i));
    }
  }

  /** What the first `n` traces hold. */
  ghost predicate DueUpTo(p: Patch, traces: seq<Trace>, n: nat)
    requires n <= |traces|
  {
    match p
    case Patch(operations, review, _, reasons) =>
      && (forall o :: o in operations <==>
            exists i :: 0 <= i < n && traces[i].patch.Some? && o in traces[i].patch.value.operations)
      && (review <==> exists i :: 0 <= i < n && traces[i].patch.Some? && traces[i].patch.value.requireReview)
      && (forall s :: s in reasons <==>
            exists i :: 0 <= i < n && traces[i].patch.Some? && s in traces[i].patch.value.reasons)
  }

  lemma DueNext(js: seq<Solo>, traces: seq<Trace>, n: nat)
    requires n < |js| == |traces| && traces[n] == TraceOf(js[n], Stopped(js, n)) && Settled(js[n])
    requires DueUpTo(Merge(LivePatches(js, n)), traces, n)
    ensures DueUpTo(Merge(LivePatches(js, n + 1)), traces, n + 1)
  {
    LivePatchStep(js, n, traces[n], js[n].rule);
    if traces[n].status == Matched {
      MergeAppend(LivePatches(js, n), js[n].patch);
      DueTakes(Merge(LivePatches(js, n)), traces, n);
    } else {
      assert LivePatches(js, n) + [] == LivePatches(js, n);
      DueSkips(Merge(LivePatches(js, n)), traces, n);
    }
  }

  lemma {:induction false} ProposalDueUpTo(js: seq<Solo>, traces: seq<Trace>, n: nat)
    requires n <= |js| == |traces|
    requires forall i | 0 <= i < |js| :: traces[i] == TraceOf(js[i], Stopped(js, i)) && Settled(js[i])
    ensures DueUpTo(Merge(LivePatches(js, n)), traces, n)
  {
    if n == 0 {
      NothingDueYet(traces);
    } else {
      ProposalDueUpTo(js, traces, n - 1);
      DueNext(js, traces, n - 1);
    }
  }

  lemma NothingDueYet(traces: seq<Trace>)
    ensures DueUpTo(EMPTY_PATCH, traces, 0)
  {
  }

  lemma ProposedDue(js: seq<Solo>, traces: seq<Trace>)
    requires |js| == |traces| && forall s | s in js :: Settled(s)
    requires forall i | 0 <= i < |js| :: traces[i] == TraceOf(js[i], Stopped(js, i))
    ensures ProposalDue(Proposed(js), traces)
  {
    forall i | 0 <= i < |js| ensures Settled(js[i]) { assert js[i] in js; }
    ProposalDueUpTo(js, traces, |js|);
    AllDue(Proposed(js), traces);
  }

  lemma DueTakes(p: Patch, traces: seq<Trace>, n: nat)
    requires n < |traces| && DueUpTo(p, traces, n) && traces[n].patch.Some?
    ensures DueUpTo(Combine(p, traces[n].patch.value), traces, n + 1)
  {
    var all := Combine(p, traces[n].patch.value);
    assert forall o :: o in all.operations <==> o in p.operations || o in traces[n].patch.value.operations;
    assert forall s :: s in all.reasons <==> s in p.reasons || s in traces[n].patch.value.reasons;
  }

  lemma DueSkips(p: Patch, traces: seq<Trace>, n: nat)
    requires n < |traces| && DueUpTo(p, traces, n) && traces[n].patch.None?
    ensures DueUpTo(p, traces, n + 1)
  {
  }

  lemma AllDue(p: Patch, traces: seq<Trace>)
    requires DueUpTo(p, traces, |traces|)
    ensures ProposalDue(p, traces)
  {
  }

  /** So every proposed operation comes from a rule that reaches the context and whose condition is TRUE there. */
  lemma ProposedIsTrue(rules: seq<Rule>, traces: seq<Trace>, p: Patch, ctx: Context, stage: Stage, w: World,
        o: Operation) returns (r: Rule)
    requires TracesDue(rules, traces, ctx, stage, w) && ProposalDue(p, traces) && o in p.operations
    ensures r in rules && Reaches(r, ctx, stage, w.py) && Eval(r.condition, ctx.facts, w.py) == True
    ensures exists e | e in r.effects :: FromEffect(o, e, r, ctx, w)
  {
    var t :| t in traces && t.patch.Some? && o in t.patch.value.operations;
    var i :| 0 <= i < |traces| && traces[i] == t;
    r := rules[i];
  }

  /** A verdict effect sets its field to its parameter of that name, or to null. */
  lemma VerdictEffects(e: EffectCall, py: Primitives)
    ensures e.effect == "core.verdict.set_entity" ==> Sets(BuiltinEffect(e, py), "verdict.entity", Given(e, "entity"))
    ensures e.effect == "core.verdict.set_detected" ==>
              Sets(BuiltinEffect(e, py), "verdict.detected", Given(e, "detected"))
    ensures e.effect == "core.verdict.set_confidence" ==>
              Sets(BuiltinEffect(e, py), "verdict.confidence", Given(e, "confidence"))
  {
  }

  /** A threshold effect sets the named threshold of the run. */
  lemma ThresholdEffect(e: EffectCall, py: Primitives)
    requires e.effect == "core.threshold.set_for_run"
    ensures var name := if "threshold" in e.params then py.render(e.params["threshold"]) else "unknown";
            Sets(BuiltinEffect(e, py), "threshold." + name, Given(e, "value"))
  {
  }

  /** A review effect asks for a review by its role, or the steward; a reason effect gives its reason, if it has one. */
  lemma ReviewEffects(e: EffectCall, py: Primitives)
    ensures var p := BuiltinEffect(e, py);
            && (p.requireReview <==> e.effect == "core.review.require")
            && (p.requireReview ==>
                  && p.operations == [] && p.reasons == []
                  && p.reviewRole == Some(if Truthy(Given(e, "role")) then py.render(Given(e, "role")) else "steward"))
            && (e.effect == "core.review.add_reason" ==>
                  && p.operations == [] && p.reviewRole == None
                  && forall s :: s in p.reasons <==>
                       Truthy(Given(e, "reason")) && s == py.render(Given(e, "reason")) && s != "")
            && (p.reasons != [] ==> e.effect == "core.review.add_reason")
  {
  }

  /** Any other effect passes its parameters through under its own name. */
  lemma OtherEffects(e: EffectCall, py: Primitives)
    requires e.effect !in ["core.verdict.set_entity", "core.verdict.set_detected", "core.verdict.set_confidence",
                           "core.review.require", "core.review.add_reason", "core.threshold.set_for_run"]
    ensures Sets(BuiltinEffect(e, py), "effect." + e.effect, Dict(e.params))
  {
  }

  ghost function Given(e: EffectCall, name: string): Value { if name in e.params then e.params[name] else Null }

  /** The patch sets this one path, as approved policy, and asks for nothing else. */
  ghost predicate Sets(p: Patch, path: string, value: Value) {
    && |p.operations| == 1 && p.operations[0].op == "set" && p.operations[0].authority == ApprovedPolicy
    && p.operations[0].path == path && p.operations[0].value == value
    && !p.requireReview && p.reviewRole == None && p.reasons == []
  }

  // ---- Merging is associative, and one rule at a time proposes what the whole list does ----

  lemma CombineAssociative(a: Patch, b: Patch, c: Patch)
    ensures Combine(Combine(a, b), c) == Combine(a, Combine(b, c))
  {
  }

  lemma {:induction false} MergeConcat(ps: seq<Patch>, qs: seq<Patch>)
    ensures Merge(ps + qs) == Combine(Merge(ps), Merge(qs))
  {
    if qs == [] {
      assert ps + qs == ps;
    } else {
      var n := |qs| - 1;
      assert (ps + qs)[..|ps + qs| - 1] == ps + qs[..n] && (ps + qs)[|ps + qs| - 1] == qs[n];
      MergeConcat(ps, qs[..n]);
      CombineAssociative(Merge(ps), Merge(qs[..n]), qs[n]);
    }
  }

  /** A merge holds the patches' operations and reasons in their order, and the first role named. */
  lemma MergedInOrder(ps: seq<Patch>, qs: seq<Patch>, p: Patch)
    ensures Merge(ps).operations + p.operations <= Merge(ps + [p] + qs).operations
    ensures Merge(ps).reasons + p.reasons <= Merge(ps + [p] + qs).reasons
    ensures (forall x | x in ps :: x.reviewRole.None? || x.reviewRole.value == "") &&
            p.reviewRole.Some? && p.reviewRole.value != "" ==>
              Merge(ps + [p] + qs).reviewRole == p.reviewRole
    ensures (forall x | x in ps :: x.reviewRole.None? || x.reviewRole.value == "") ==> Merge(ps).reviewRole == None
  {
    MergeAppend(ps, p);
    MergeConcat(ps + [p], qs);
    if forall x | x in ps :: x.reviewRole.None? || x.reviewRole.value == "" { NoRoleMerged(ps); }
  }

  lemma {:induction false} NoRoleMerged(ps: seq<Patch>)
    requires forall x | x in ps :: x.reviewRole.None? || x.reviewRole.value == ""
    ensures Merge(ps).reviewRole == None
  {
    if ps != [] {
      assert ps[|ps| - 1] in ps;
      NoRoleMerged(ps[..|ps| - 1]);
    }
  }

  lemma MergeAppend(ps: seq<Patch>, p: Patch)
    ensures Merge(ps + [p]) == Combine(Merge(ps), p)
    ensures Normal(p) ==> Merge([p]) == p
    ensures Normal(Merge(ps)) && Combine(Merge(ps), EMPTY_PATCH) == Merge(ps)
  {
    assert (ps + [p])[..|ps|] == ps;
    assert [p][..0] == [];
    MergeNormal(ps);
  }

  /** A rule evaluated as a list of its own proposes its own patch. */
  lemma ProposedAlone(s: Solo)
    requires Settled(s)
    ensures Proposed([s]) == s.patch
  {
    assert LivePatches([s], 0) == [];
    if s.status == Matched {
      assert Live([s], 0);
      assert LivePatches([s], 1) == [s.patch];
      MergeAppend([], s.patch);
    } else {
      assert LivePatches([s], 1) == [];
    }
  }

  ghost function Singles(js: seq<Solo>, n: nat): seq<Patch>
    requires n <= |js|
  {
    if n == 0 then [] else Singles(js, n - 1) + [Proposed([js[n - 1]])]
  }

  /** One past the first terminal match, or the length of the list. */
  ghost predicate IsCut(js: seq<Solo>, cut: nat) {
    && cut <= |js|
    && (cut < |js| ==> Stopped(js, cut))
    && (cut > 0 ==> !Stopped(js, cut - 1))
  }

  lemma LiveMergesStep(js: seq<Solo>, n: nat)
    requires n < |js| && !Stopped(js, n) && Settled(js[n])
    ensures Merge(LivePatches(js, n + 1)) == Combine(Merge(LivePatches(js, n)), js[n].patch)
    ensures Merge(Singles(js, n + 1)) == Combine(Merge(Singles(js, n)), js[n].patch)
  {
    ProposedAlone(js[n]);
    MergeAppend(LivePatches(js, n), js[n].patch);
    MergeAppend(Singles(js, n), js[n].patch);
    if js[n].status == Matched {
      assert LivePatches(js, n + 1) == LivePatches(js, n) + [js[n].patch];
    } else {
      assert LivePatches(js, n + 1) == LivePatches(js, n) + [] == LivePatches(js, n);
    }
  }

  lemma {:induction false} LiveMergesSingles(js: seq<Solo>, n: nat)
    requires n <= |js| && (n > 0 ==> !Stopped(js, n - 1))
    requires forall s | s in js :: Settled(s)
    ensures Merge(LivePatches(js, n)) == Merge(Singles(js, n))
  {
    if n > 0 {
      LiveMergesSingles(js, n - 1);
      LiveMergesStep(js, n - 1);
    }
  }

  lemma {:induction false} NothingAfterStop(js: seq<Solo>, cut: nat, n: nat)
    requires cut <= n <= |js| && (cut < |js| ==> Stopped(js, cut))
    ensures LivePatches(js, n) == LivePatches(js, cut)
  {
    if cut < n {
      NothingAfterStop(js, cut, n - 1);
      assert Stopped(js, n - 1);
    }
  }

  /** Evaluating the whole list proposes the merge of one-rule evaluations up to and including the first terminal
      match. */
  lemma WholeListIsPrefixMerge(rules: seq<Rule>, cut: nat, ctx: Context, stage: Stage, w: World)
    requires IsCut(Judged(rules, ctx, stage, w), cut)
    ensures var js := Judged(rules, ctx, stage, w);
            Proposed(js) == Merge(Singles(js, cut))
    ensures forall i :: 0 <= i < |rules| ==>
              Judged([rules[i]], ctx, stage, w) == [Judged(rules, ctx, stage, w)[i]]
  {
    var js := Judged(rules, ctx, stage, w);
    NothingAfterStop(js, cut, |js|);
    LiveMergesSingles(js, cut);
    forall i | 0 <= i < |rules| ensures Judged([rules[i]], ctx, stage, w) == [js[i]] {
      JudgedAt(rules, i, ctx, stage, w);
      JudgedAt([rules[i]], 0, ctx, stage, w);
    }
  }
}
