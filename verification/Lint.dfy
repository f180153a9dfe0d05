/** The terminal-shadow check of the policy linter (redibis/behavior/lint.py) against the evaluator it predicts. */
module Lint {
  import opened Sequences
  import opened Conditions
  import opened Evaluator
  import opened PolicyDecision

  datatype AuthoredRule = AuthoredRule(
    id: string, condition: Condition, effects: seq<EffectCall>, reason: string, priority: int, terminal: bool)

  datatype Policy = Policy(id: string, stage: Stage, scope: Scope, rules: seq<AuthoredRule>)

  /** Every compiled rule inherits the policy's id, stage and scope. */
  function Compile(policy: Policy, r: AuthoredRule): Rule {
    Rule(r.id, policy.id, policy.stage, r.priority, policy.scope, r.condition, r.effects, r.reason, r.terminal)
  }

  function CompileRules(policy: Policy, rules: seq<AuthoredRule>): (c: seq<Rule>)
    ensures |c| == |rules| && forall i :: 0 <= i < |rules| ==> c[i] == Compile(policy, rules[i])
  {
    if rules == [] then [] else CompileRules(policy, rules[..|rules| - 1]) + [Compile(policy, rules[|rules| - 1])]
  }

  predicate AuthoredLess(a: AuthoredRule, b: AuthoredRule) {
    a.priority > b.priority || (a.priority == b.priority && StrLess(a.id, b.id))
  }

  /** "Rule `ruleId` may never execute because terminal rule `terminalId` evaluates first." */
  datatype ShadowFinding = ShadowFinding(policyId: string, ruleId: string, terminalId: string)

  ghost predicate Shadows(sorted: seq<AuthoredRule>, t: int, i: int) {
    0 <= t < i < |sorted| && sorted[t].terminal
  }

  function FindingAt(policy: Policy, sorted: seq<AuthoredRule>, t: int, i: int): ShadowFinding
    requires 0 <= t < |sorted| && 0 <= i < |sorted|
  {
    ShadowFinding(policy.id, sorted[i].id, sorted[t].id)
  }

  ghost predicate IsShadowFinding(policy: Policy, f: ShadowFinding) {
    var sorted := Sort(AuthoredLess, policy.rules);
    exists i: nat :: i < |sorted| && FoundAgainst(policy, sorted, i, f)
  }

  ghost predicate FoundAgainst(policy: Policy, sorted: seq<AuthoredRule>, i: nat, f: ShadowFinding)
    requires i < |sorted|
  {
    exists t :: Shadows(sorted, t, i) && f == FindingAt(policy, sorted, t, i)
  }

  /** The positions of the terminal rules among the first `i`. */
  ghost function Terminals(sorted: seq<AuthoredRule>, i: nat): (ts: seq<nat>)
    requires i <= |sorted|
    ensures forall t :: t in ts <==> 0 <= t < i && sorted[t].terminal
    ensures forall y | 0 <= y < |ts| :: ts[y] < i
  {
    if i == 0 then [] else Terminals(sorted, i - 1) + if sorted[i - 1].terminal then [i - 1] else []
  }

  /** One finding against the rule at `i` for each of the terminal rules at `ts`. */
  ghost function Against(policy: Policy, sorted: seq<AuthoredRule>, i: nat, ts: seq<nat>): (fs: seq<ShadowFinding>)
    requires i < |sorted| && forall y | 0 <= y < |ts| :: ts[y] < |sorted|
    ensures |fs| == |ts| && forall y | 0 <= y < |ts| :: fs[y] == FindingAt(policy, sorted, ts[y], i)
  {
    seq(|ts|, y requires 0 <= y < |ts| => FindingAt(policy, sorted, ts[y], i))
  }

  /** The findings against the first `i` rules, rule by rule in sorted order. */
  ghost function ShadowFindings(policy: Policy, sorted: seq<AuthoredRule>, i: nat): seq<ShadowFinding>
    requires i <= |sorted|
  {
    if i == 0 then []
    else ShadowFindings(policy, sorted, i - 1) + Against(policy, sorted, i - 1, Terminals(sorted, i - 1))
  }

  lemma ShadowFindingsHas(policy: Policy, sorted: seq<AuthoredRule>, i: nat, f: ShadowFinding)
    requires i <= |sorted|
    ensures f in ShadowFindings(policy, sorted, i) <==> FoundBefore(policy, sorted, i, f)
  {
    var P := (k: nat) => k <= i ==> (f in ShadowFindings(policy, sorted, k) <==> FoundBefore(policy, sorted, k, f));
    forall k: nat, m: nat | k < m <= i && m == k + 1 && P(k) ensures P(m) { ShadowFindingsStep(policy, sorted, k, f); }
    Inductively(P, i);
    assert P(i);
  }

  ghost predicate FoundBefore(policy: Policy, sorted: seq<AuthoredRule>, i: nat, f: ShadowFinding)
    requires i <= |sorted|
  {
    exists k: nat :: k < i && FoundAgainst(policy, sorted, k, f)
  }

  lemma ShadowFindingsStep(policy: Policy, sorted: seq<AuthoredRule>, i: nat, f: ShadowFinding)
    requires i < |sorted|
    ensures f in ShadowFindings(policy, sorted, i + 1) <==>
            f in ShadowFindings(policy, sorted, i) || FoundAgainst(policy, sorted, i, f)
    ensures FoundBefore(policy, sorted, i + 1, f) <==>
            FoundBefore(policy, sorted, i, f) || FoundAgainst(policy, sorted, i, f)
  {
    AgainstHas(policy, sorted, i, f);
    assert f in ShadowFindings(policy, sorted, i + 1) <==>
           f in ShadowFindings(policy, sorted, i) || f in Against(policy, sorted, i, Terminals(sorted, i));
  }

  lemma AgainstHas(policy: Policy, sorted: seq<AuthoredRule>, i: nat, f: ShadowFinding)
    requires i < |sorted|
    ensures f in Against(policy, sorted, i, Terminals(sorted, i)) <==> FoundAgainst(policy, sorted, i, f)
  {
    var ts := Terminals(sorted, i);
    var fs := Against(policy, sorted, i, ts);
    if f in fs {
      var y :| 0 <= y < |fs| && fs[y] == f;
      assert ts[y] in ts;
      assert Shadows(sorted, ts[y], i);
    }
    if t :| Shadows(sorted, t, i) && f == FindingAt(policy, sorted, t, i) {
      assert t in ts;
      var y :| 0 <= y < |ts| && ts[y] == t;
      assert fs[y] == f;
    }
  }

  /** The check reports, for each rule in sorted order, every terminal rule before it, and nothing else. */
  method CheckTerminalShadows(policy: Policy) returns (findings: seq<ShadowFinding>)
    ensures findings == ShadowFindings(policy, Sort(AuthoredLess, policy.rules), |policy.rules|)
    ensures forall f :: f in findings <==> IsShadowFinding(policy, f)
  {
    findings := [];
    var sorted := Sort(AuthoredLess, policy.rules);
    var terminals: seq<nat> := [];
    for i := 0 to |sorted|
      invariant terminals == Terminals(sorted, i) && findings == ShadowFindings(policy, sorted, i)
    {
      findings := ReportAgainst(policy, sorted, i, terminals, findings);
      if sorted[i].terminal { terminals := terminals + [i]; }
    }
    ShadowFindingsAre(policy);
  }

  /** The inner loop, over the terminal rules sorted before rule `i`. */
  method ReportAgainst(
      policy: Policy, sorted: seq<AuthoredRule>, i: nat, terminals: seq<nat>, before: seq<ShadowFinding>)
    returns (findings: seq<ShadowFinding>)
    requires i < |sorted| && forall y | 0 <= y < |terminals| :: terminals[y] < |sorted|
    ensures findings == before + Against(policy, sorted, i, terminals)
  {
    findings := before;
    for x := 0 to |terminals|
      invariant findings == before + Against(policy, sorted, i, terminals[..x])
    {
      AgainstNext(policy, sorted, i, terminals, x);
      findings := findings + [ShadowFinding(policy.id, sorted[i].id, sorted[terminals[x]].id)];
    }
    assert terminals[..|terminals|] == terminals;
  }

  lemma ShadowFindingsAre(policy: Policy)
    ensures forall f :: f in ShadowFindings(policy, Sort(AuthoredLess, policy.rules), |policy.rules|) <==>
                        IsShadowFinding(policy, f)
  {
    var sorted := Sort(AuthoredLess, policy.rules);
    forall f ensures f in ShadowFindings(policy, sorted, |sorted|) <==> IsShadowFinding(policy, f) {
      ShadowFindingsHas(policy, sorted, |sorted|, f);
    }
  }

  lemma AgainstNext(policy: Policy, sorted: seq<AuthoredRule>, i: nat, ts: seq<nat>, x: nat)
    requires i < |sorted| && x < |ts| && forall y | 0 <= y < |ts| :: ts[y] < |sorted|
    ensures Against(policy, sorted, i, ts[..x + 1]) ==
            Against(policy, sorted, i, ts[..x]) + [FindingAt(policy, sorted, ts[x], i)]
  {
  }

  // ---- The linter sorts as the evaluator does ----

  ghost predicate UniqueRuleIds(policy: Policy) {
    forall i, j :: 0 <= i < j < |policy.rules| ==> policy.rules[i].id != policy.rules[j].id
  }

  lemma AuthoredLessIsStrictOrder()
    ensures StrictOrder(AuthoredLess)
  {
    forall x: AuthoredRule ensures !AuthoredLess(x, x) { StrLessIrreflexive(x.id); }
    forall x: AuthoredRule, y: AuthoredRule, z: AuthoredRule | AuthoredLess(x, y) && AuthoredLess(y, z)
      ensures AuthoredLess(x, z)
    {
      if StrLess(x.id, y.id) && StrLess(y.id, z.id) { StrLessTransitive(x.id, y.id, z.id); }
    }
  }

  lemma UniqueRuleIdsTotal(policy: Policy)
    requires UniqueRuleIds(policy)
    ensures TotalOn(AuthoredLess, policy.rules)
  {
    var rules := policy.rules;
    forall x, y | x in rules && y in rules ensures x == y || AuthoredLess(x, y) || AuthoredLess(y, x) {
      var i :| 0 <= i < |rules| && rules[i] == x;
      var j :| 0 <= j < |rules| && rules[j] == y;
      StrLessTotal(x.id, y.id);
    }
  }

  lemma CompiledUnique(policy: Policy)
    requires UniqueRuleIds(policy)
    ensures UniqueIds(CompileRules(policy, policy.rules))
  {
  }

  lemma CompiledSorted(policy: Policy, rules: seq<AuthoredRule>)
    requires SortedBy(AuthoredLess, rules)
    ensures SortedBy(RuleLess, CompileRules(policy, rules))
  {
    StrLessIrreflexive(policy.id);
  }

  lemma LintSortSorted(policy: Policy)
    requires UniqueRuleIds(policy)
    ensures SortedBy(AuthoredLess, Sort(AuthoredLess, policy.rules))
  {
    AuthoredLessIsStrictOrder();
    UniqueRuleIdsTotal(policy);
    SortSorted(AuthoredLess, policy.rules);
  }

  lemma EvaluatorSortSorted(rules: seq<Rule>)
    requires UniqueIds(rules)
    ensures SortedBy(RuleLess, SortRules(rules))
    ensures StrictOrder(RuleLess) && TotalOn(RuleLess, SortRules(rules))
  {
    RuleLessIsStrictOrder();
    UniqueIdsTotal(rules);
    SortSorted(RuleLess, rules);
    TotalOnPart(RuleLess, rules, SortRules(rules));
  }

  /** Sorting the authored rules and then compiling them is compiling and then sorting. */
  lemma CompiledSortAgrees(policy: Policy)
    requires UniqueRuleIds(policy)
    ensures CompileRules(policy, Sort(AuthoredLess, policy.rules)) == SortRules(CompileRules(policy, policy.rules))
  {
    var sorted, compiled := Sort(AuthoredLess, policy.rules), CompileRules(policy, policy.rules);
    var mine := CompileRules(policy, sorted);
    assert multiset(mine) == multiset(SortRules(compiled)) by { Transport(sorted, mine, policy.rules, compiled); }
    assert SortedBy(RuleLess, mine) by { LintSortSorted(policy); CompiledSorted(policy, sorted); }
    CompiledUnique(policy);
    EvaluatorSortSorted(compiled);
    SortedUnique(RuleLess, SortRules(compiled), mine);
  }

  // ---- Lint against evaluation ----

  lemma SameIdSameRule(rules: seq<AuthoredRule>, sorted: seq<AuthoredRule>, a: nat, b: nat)
    requires forall i, j :: 0 <= i < j < |rules| ==> rules[i].id != rules[j].id
    requires multiset(sorted) == multiset(rules) && a < |sorted| && b < |sorted| && sorted[a].id == sorted[b].id
    ensures sorted[a] == sorted[b]
  {
    assert sorted[a] in multiset(rules) && sorted[b] in multiset(rules);
    var i :| 0 <= i < |rules| && rules[i] == sorted[a];
    var j :| 0 <= j < |rules| && rules[j] == sorted[b];
  }

  lemma SortedPositionById(policy: Policy, a: nat, b: nat)
    requires UniqueRuleIds(policy) && a < |policy.rules| && b < |policy.rules|
    requires var sorted := Sort(AuthoredLess, policy.rules); sorted[a].id == sorted[b].id
    ensures a == b
  {
    var rules := SortRules(CompileRules(policy, policy.rules));
    assert rules[a] == rules[b] by {
      CompiledSortAgrees(policy);
      SameIdSameRule(policy.rules, Sort(AuthoredLess, policy.rules), a, b);
    }
    assert forall i, j :: 0 <= i < j < |rules| ==> RuleLess(rules[i], rules[j]) by {
      CompiledUnique(policy);
      SortedStrictly(CompileRules(policy, policy.rules));
    }
    StrLessIrreflexive(rules[a].policyId);
    StrLessIrreflexive(rules[a].id);
  }

  lemma FindingPositions(policy: Policy, t: nat, i: nat)
    requires UniqueRuleIds(policy) && t < |policy.rules| && i < |policy.rules|
    requires var sorted := Sort(AuthoredLess, policy.rules); IsShadowFinding(policy, FindingAt(policy, sorted, t, i))
    ensures Shadows(Sort(AuthoredLess, policy.rules), t, i)
  {
    var sorted := Sort(AuthoredLess, policy.rules);
    var i': nat :| i' < |sorted| && FoundAgainst(policy, sorted, i', FindingAt(policy, sorted, t, i));
    var t' :| Shadows(sorted, t', i') && FindingAt(policy, sorted, t, i) == FindingAt(policy, sorted, t', i');
    SortedPositionById(policy, t, t');
    SortedPositionById(policy, i, i');
  }

  lemma SameScopeAt(rules: seq<Rule>, ctx: Context, stage: Stage, w: World, t: nat, i: nat)
    requires t < |rules| && i < |rules| && rules[t].stage == rules[i].stage && rules[t].scope == rules[i].scope
    requires Judged(rules, ctx, stage, w)[t].status == Matched
    ensures Judged(rules, ctx, stage, w)[i].status != OutOfScope
  {
    JudgedScope(rules, t, ctx, stage, w);
    JudgedScope(rules, i, ctx, stage, w);
  }

  lemma SameScope(policy: Policy, ctx: Context, stage: Stage, w: World, t: nat, i: nat)
    requires UniqueRuleIds(policy) && t < |policy.rules| && i < |policy.rules|
    requires Judged(SortRules(CompileRules(policy, policy.rules)), ctx, stage, w)[t].status == Matched
    ensures Judged(SortRules(CompileRules(policy, policy.rules)), ctx, stage, w)[i].status != OutOfScope
  {
    CompiledSortAgrees(policy);
    SameScopeAt(SortRules(CompileRules(policy, policy.rules)), ctx, stage, w, t, i);
  }

  lemma ShadowReported(policy: Policy, t: nat, i: nat)
    requires Shadows(Sort(AuthoredLess, policy.rules), t, i)
    ensures IsShadowFinding(policy, FindingAt(policy, Sort(AuthoredLess, policy.rules), t, i))
  {
    var sorted := Sort(AuthoredLess, policy.rules);
    assert FoundAgainst(policy, sorted, i, FindingAt(policy, sorted, t, i));
  }

  /** `js` lists what each rule of the sorted policy did, whatever that was. */
  ghost predicate Outcomes(policy: Policy, js: seq<Solo>) {
    var sorted := Sort(AuthoredLess, policy.rules);
    && |js| == |sorted|
    && (forall k :: 0 <= k < |js| ==> js[k].rule == Compile(policy, sorted[k]))
    && (forall s | s in js :: Settled(s))
  }

  /** What evaluating the policy does, rule by rule, in evaluation order. */
  ghost function PolicyOutcomes(policy: Policy, ctx: Context, stage: Stage, w: World): seq<Solo> {
    Judged(SortRules(CompileRules(policy, policy.rules)), ctx, stage, w)
  }

  lemma PolicyOutcomesAre(policy: Policy, ctx: Context, stage: Stage, w: World)
    requires UniqueRuleIds(policy)
    ensures Outcomes(policy, PolicyOutcomes(policy, ctx, stage, w))
  {
    var sorted := Sort(AuthoredLess, policy.rules);
    CompiledSortAgrees(policy);
    JudgedCompiled(policy, sorted, ctx, stage, w);
  }

  lemma JudgedCompiled(policy: Policy, sorted: seq<AuthoredRule>, ctx: Context, stage: Stage, w: World)
    ensures var js := Judged(CompileRules(policy, sorted), ctx, stage, w);
            && |js| == |sorted|
            && (forall k :: 0 <= k < |js| ==> js[k].rule == Compile(policy, sorted[k]))
            && (forall s | s in js :: Settled(s))
  {
  }

  /** A finding against the rule at `i` that names the rule at `t`. */
  ghost predicate Reported(policy: Policy, js: seq<Solo>, t: nat, i: nat)
    requires t < |js| && i < |js|
  {
    IsShadowFinding(policy, ShadowFinding(policy.id, js[i].rule.id, js[t].rule.id))
  }

  /** Completeness: a rule traced TERMINATED has a finding that names the terminal rule which stopped it. */
  lemma TerminatedIsReported(policy: Policy, js: seq<Solo>, i: nat) returns (t: nat)
    requires Outcomes(policy, js) && i < |js| && TraceOf(js[i], Stopped(js, i)).status == Terminated
    ensures t < i && Ends(js[t]) && !Stopped(js, t) && Reported(policy, js, t, i)
  {
    assert js[i] in js;
    t := FirstEnd(js, i);
    ShadowReported(policy, t, i);
  }

  lemma {:induction false} FirstEnd(js: seq<Solo>, i: nat) returns (t: nat)
    requires i <= |js| && Stopped(js, i)
    ensures t < i && Ends(js[t]) && !Stopped(js, t)
  {
    if Stopped(js, i - 1) { t := FirstEnd(js, i - 1); } else { t := i - 1; }
  }

  /** Soundness: if a finding against a rule names a rule that matches, the evaluation traces the first rule
      TERMINATED. */
  lemma ReportedIsTerminated(policy: Policy, ctx: Context, stage: Stage, w: World, t: nat, i: nat)
    requires UniqueRuleIds(policy) && t < |policy.rules| && i < |policy.rules|
    requires var js := PolicyOutcomes(policy, ctx, stage, w); Reported(policy, js, t, i) && js[t].status == Matched
    ensures var js := PolicyOutcomes(policy, ctx, stage, w);
            TraceOf(js[i], Stopped(js, i)).status == Terminated
  {
    var js := PolicyOutcomes(policy, ctx, stage, w);
    PolicyOutcomesAre(policy, ctx, stage, w);
    FindingPositions(policy, t, i);
    assert Ends(js[t]);
    SameScope(policy, ctx, stage, w, t, i);
  }

  /** In any evaluation of a policy, a rule is traced TERMINATED exactly when some finding against it names a rule that
      matches. */
  lemma TerminatedIffReported(policy: Policy, ctx: Context, stage: Stage, w: World, i: nat)
    requires UniqueRuleIds(policy) && i < |policy.rules|
    ensures var js := PolicyOutcomes(policy, ctx, stage, w);
            TraceOf(js[i], Stopped(js, i)).status == Terminated <==>
              exists t: nat :: t < |js| && js[t].status == Matched && Reported(policy, js, t, i)
  {
    var js := PolicyOutcomes(policy, ctx, stage, w);
    PolicyOutcomesAre(policy, ctx, stage, w);
    if TraceOf(js[i], Stopped(js, i)).status == Terminated {
      var t := TerminatedIsReported(policy, js, i);
    }
    forall t: nat | t < |js| && js[t].status == Matched && Reported(policy, js, t, i)
      ensures TraceOf(js[i], Stopped(js, i)).status == Terminated
    {
      ReportedIsTerminated(policy, ctx, stage, w, t, i);
    }
  }
}
