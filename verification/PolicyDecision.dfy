/** What sorting, evaluating and reducing decide together (redibis/behavior/evaluator.py, reducer.py). */
module PolicyDecision {
  import opened Sequences
  import opened Conditions
  import opened Reducer
  import opened Evaluator

  // ---- Rule order ----

  predicate RuleLess(a: Rule, b: Rule) {
    || a.priority > b.priority
    || (a.priority == b.priority && StrLess(a.policyId, b.policyId))
    || (a.priority == b.priority && a.policyId == b.policyId && StrLess(a.id, b.id))
  }

  function SortRules(rules: seq<Rule>): seq<Rule> { Sort(RuleLess, rules) }

  /** No two rules share both policy id and rule id. */
  ghost predicate UniqueIds(rules: seq<Rule>) {
    forall i, j :: 0 <= i < j < |rules| ==> rules[i].policyId != rules[j].policyId || rules[i].id != rules[j].id
  }

  lemma RuleLessIsStrictOrder()
    ensures StrictOrder(RuleLess)
  {
    forall x: Rule ensures !RuleLess(x, x) {
      StrLessIrreflexive(x.policyId);
      StrLessIrreflexive(x.id);
    }
    forall x: Rule, y: Rule, z: Rule | RuleLess(x, y) && RuleLess(y, z) ensures RuleLess(x, z) {
      if StrLess(x.policyId, y.policyId) && StrLess(y.policyId, z.policyId) {
        StrLessTransitive(x.policyId, y.policyId, z.policyId);
      }
      if StrLess(x.id, y.id) && StrLess(y.id, z.id) { StrLessTransitive(x.id, y.id, z.id); }
    }
  }

  lemma UniqueIdsTotal(rules: seq<Rule>)
    requires UniqueIds(rules)
    ensures TotalOn(RuleLess, rules)
  {
    forall x, y | x in rules && y in rules ensures x == y || RuleLess(x, y) || RuleLess(y, x) {
      var i :| 0 <= i < |rules| && rules[i] == x;
      var j :| 0 <= j < |rules| && rules[j] == y;
      StrLessTotal(x.policyId, y.policyId);
      StrLessTotal(x.id, y.id);
    }
  }

  /** With unique ids the sorted list, hence every trace and the decision, does not depend on arrival order. */
  lemma ArrivalOrderIrrelevant(rules: seq<Rule>, arrived: seq<Rule>)
    requires UniqueIds(rules) && multiset(rules) == multiset(arrived)
    ensures SortRules(rules) == SortRules(arrived)
  {
    RuleLessIsStrictOrder();
    UniqueIdsTotal(rules);
    SortPermutation(RuleLess, rules, arrived);
  }

  /** Sorted rules are strictly ordered from first to last. */
  lemma SortedStrictly(rules: seq<Rule>)
    requires UniqueIds(rules)
    ensures var s := SortRules(rules); forall i, j :: 0 <= i < j < |s| ==> RuleLess(s[i], s[j])
    ensures forall r :: r in SortRules(rules) <==> r in rules
  {
    var s := SortRules(rules);
    RuleLessIsStrictOrder();
    UniqueIdsTotal(rules);
    SortSorted(RuleLess, rules);
    SameElements(s, rules);
    forall i, j | 0 <= i < j < |s| ensures RuleLess(s[i], s[j]) {
      assert s[i] in rules && s[j] in rules;
      if s[i] == s[j] {
        CountTwice(s, i, j);
        OnceEach(rules, s[i]);
      }
    }
  }

  /** Higher priorities come first; of one priority the policy ids decide, of one policy the rule ids. */
  lemma SortedByPriority(rules: seq<Rule>, i: nat, j: nat)
    requires UniqueIds(rules) && i < j < |rules|
    ensures |SortRules(rules)| == |rules|
    ensures var (a, b) := (SortRules(rules)[i], SortRules(rules)[j]);
            && a.priority >= b.priority
            && (a.priority == b.priority ==> a.policyId == b.policyId || Precedes(a.policyId, b.policyId))
            && (a.priority == b.priority && a.policyId == b.policyId ==> Precedes(a.id, b.id))
  {
    SortedStrictly(rules);
    var (a, b) := (SortRules(rules)[i], SortRules(rules)[j]);
    PrecedesIff(a.policyId, b.policyId);
    PrecedesIff(a.id, b.id);
  }

  lemma CountTwice(s: seq<Rule>, i: nat, j: nat)
    requires i < j < |s| && s[i] == s[j]
    ensures multiset(s)[s[i]] >= 2
  {
    assert s == s[..j] + s[j..];
    assert s[..j][i] == s[i] && s[j..][0] == s[j];
    assert s[i] in multiset(s[..j]) && s[j] in multiset(s[j..]);
  }

  lemma OnceEach(rules: seq<Rule>, r: Rule)
    requires UniqueIds(rules) && r in rules
    ensures multiset(rules)[r] == 1
  {
    var i :| 0 <= i < |rules| && rules[i] == r;
    assert rules == rules[..i] + [r] + rules[i + 1..];
    assert r !in rules[..i];
    assert r !in rules[i + 1..];
    assert multiset(rules) == multiset(rules[..i]) + multiset{r} + multiset(rules[i + 1..]);
    assert multiset(rules[..i])[r] == 0 && multiset(rules[i + 1..])[r] == 0;
  }

  // ---- Built-in effects only set, all with one authority ----

  ghost predicate Plain(ops: seq<Operation>) {
    forall o | o in ops :: o.op == "set" && o.authority == ApprovedPolicy
  }

  ghost predicate BuiltinOnly(rules: seq<Rule>, w: World) {
    forall r, e | r in rules && e in r.effects :: e.effect !in w.handlers
  }

  predicate AsksReview(r: Rule) { exists e | e in r.effects :: e.effect == "core.review.require" }

  lemma BuiltinPlain(e: EffectCall, rule: Rule, py: Primitives)
    ensures var p := Annotate(BuiltinEffect(e, py), rule);
            Plain(p.operations) && (p.requireReview <==> e.effect == "core.review.require")
  {
    var p := BuiltinEffect(e, py);
    assert |p.operations| <= 1;
    if |p.operations| == 1 {
      assert Annotate(p, rule).operations == [AnnotateOp(p.operations[0], rule)];
    } else {
      assert Annotate(p, rule).operations == [];
    }
  }

  ghost predicate PlainMerge(ps: seq<Patch>, effects: seq<EffectCall>) {
    && Plain(Merge(ps).operations)
    && (Merge(ps).requireReview <==> exists e | e in effects :: e.effect == "core.review.require")
  }

  lemma PlainMergeStep(ps: seq<Patch>, effects: seq<EffectCall>, n: nat, p: Patch)
    requires n < |effects| && PlainMerge(ps, effects[..n]) && Plain(p.operations)
    requires p.requireReview <==> effects[n].effect == "core.review.require"
    ensures PlainMerge(ps + [p], effects[..n + 1])
  {
    MergeAppend(ps, p);
    TakeStep(effects, n);
  }

  lemma {:induction false} RunEffectsPlain(effects: seq<EffectCall>, rule: Rule, ctx: Context, w: World)
    requires forall e | e in effects :: e.effect !in w.handlers
    ensures RunEffects(effects, rule, ctx, w).Ok? && PlainMerge(RunEffects(effects, rule, ctx, w).value, effects)
  {
    if effects != [] {
      var n := |effects| - 1;
      RunEffectsPlain(effects[..n], rule, ctx, w);
      assert effects[n] in effects && effects[..n + 1] == effects;
      BuiltinPlain(effects[n], rule, w.py);
      PlainMergeStep(RunEffects(effects[..n], rule, ctx, w).value, effects, n,
                     Annotate(BuiltinEffect(effects[n], w.py), rule));
    }
  }

  /** A matching rule with built-in effects proposes plain operations, and asks for review iff one of its effects
      does. */
  lemma AlonePlain(rule: Rule, ctx: Context, stage: Stage, w: World)
    requires forall e | e in rule.effects :: e.effect !in w.handlers
    ensures var s := Alone(rule, ctx, stage, w);
            Plain(s.patch.operations) && (s.status == Matched ==> (s.patch.requireReview <==> AsksReview(rule)))
  {
    RunEffectsPlain(rule.effects, rule, ctx, w);
  }

  /** Every operation names the rule it comes from. */
  ghost predicate Tagged(ops: seq<Operation>, rule: Rule) {
    forall o | o in ops :: o.ruleId == rule.id && o.policyId == rule.policyId
  }

  lemma BuiltinTagged(e: EffectCall, rule: Rule, py: Primitives)
    ensures Tagged(Annotate(BuiltinEffect(e, py), rule).operations, rule)
  {
    var p := BuiltinEffect(e, py);
    assert |p.operations| <= 1 && forall o | o in p.operations :: o.ruleId == "" && o.policyId == "";
  }

  lemma {:induction false} RunEffectsTagged(effects: seq<EffectCall>, rule: Rule, ctx: Context, w: World)
    requires forall e | e in effects :: e.effect !in w.handlers
    ensures RunEffects(effects, rule, ctx, w).Ok?
            && Tagged(Merge(RunEffects(effects, rule, ctx, w).value).operations, rule)
  {
    if effects != [] {
      var n := |effects| - 1;
      RunEffectsTagged(effects[..n], rule, ctx, w);
      assert effects[n] in effects;
      BuiltinTagged(effects[n], rule, w.py);
      MergeAppend(RunEffects(effects[..n], rule, ctx, w).value, Annotate(BuiltinEffect(effects[n], w.py), rule));
    }
  }

  /** With built-in effects a rule's operations carry its ids. */
  lemma AloneTagged(rule: Rule, ctx: Context, stage: Stage, w: World)
    requires forall e | e in rule.effects :: e.effect !in w.handlers
    ensures Tagged(Alone(rule, ctx, stage, w).patch.operations, rule)
  {
    RunEffectsTagged(rule.effects, rule, ctx, w);
  }

  /** A built-in effect does not look at the context. */
  lemma {:induction false} RunEffectsAnywhere(effects: seq<EffectCall>, rule: Rule, c1: Context, c2: Context, w: World)
    requires forall e | e in effects :: e.effect !in w.handlers
    ensures RunEffects(effects, rule, c1, w) == RunEffects(effects, rule, c2, w)
  {
    if effects != [] {
      assert effects[|effects| - 1] in effects;
      RunEffectsAnywhere(effects[..|effects| - 1], rule, c1, c2, w);
    }
  }

  /** So a rule proposes the same patch wherever it matches. */
  lemma AloneAnywhere(rule: Rule, c1: Context, c2: Context, stage: Stage, w: World)
    requires forall e | e in rule.effects :: e.effect !in w.handlers
    ensures Alone(rule, c1, stage, w).status == Matched && Alone(rule, c2, stage, w).status == Matched ==>
              Alone(rule, c1, stage, w).patch == Alone(rule, c2, stage, w).patch
  {
    RunEffectsAnywhere(rule.effects, rule, c1, c2, w);
  }

  ghost predicate PlainSolos(js: seq<Solo>) {
    forall s | s in js ::
      Plain(s.patch.operations) && (s.status == Matched ==> (s.patch.requireReview <==> AsksReview(s.rule)))
  }

  lemma JudgedPlain(rules: seq<Rule>, ctx: Context, stage: Stage, w: World)
    requires BuiltinOnly(rules, w)
    ensures PlainSolos(Judged(rules, ctx, stage, w))
  {
    var js := Judged(rules, ctx, stage, w);
    forall s | s in js
      ensures Plain(s.patch.operations) && (s.status == Matched ==> (s.patch.requireReview <==> AsksReview(s.rule)))
    {
      var i :| 0 <= i < |js| && js[i] == s;
      JudgedAt(rules, i, ctx, stage, w);
      AlonePlain(rules[i], ctx, stage, w);
    }
  }

  // ---- The proposal, operation by operation ----

  /** The first operation in `ops` that the guard admits on `path`. */
  ghost function FirstAdmissible(ops: seq<Operation>, g: Guard, path: string): Option<Operation> {
    if ops == [] then None
    else if ops[0].path == path && Admissible(ops[0], g) then Some(ops[0])
    else FirstAdmissible(ops[1..], g, path)
  }

  lemma {:induction false} FirstAdmissibleConcat(a: seq<Operation>, b: seq<Operation>, g: Guard, path: string)
    ensures FirstAdmissible(a + b, g, path) ==
            (if FirstAdmissible(a, g, path).Some? then FirstAdmissible(a, g, path) else FirstAdmissible(b, g, path))
  {
    if a == [] {
      assert a + b == b;
    } else {
      assert (a + b)[1..] == a[1..] + b;
      FirstAdmissibleConcat(a[1..], b, g, path);
    }
  }

  lemma TailAdmissible(ops: seq<Operation>, g: Guard, path: string)
    requires ops != []
    ensures forall j: nat :: AdmissibleOn(ops[1..], g, path, j) <==> AdmissibleOn(ops, g, path, j + 1)
  {
  }

  lemma {:induction false} FirstAdmissibleSome(ops: seq<Operation>, g: Guard, path: string, j: nat)
    requires FirstOn(ops, g, path, j)
    ensures FirstAdmissible(ops, g, path) == Some(ops[j])
  {
    if j > 0 {
      TailAdmissible(ops, g, path);
      forall i: nat | AdmissibleOn(ops[1..], g, path, i) ensures j - 1 <= i {
        assert AdmissibleOn(ops, g, path, i + 1);
      }
      FirstAdmissibleSome(ops[1..], g, path, j - 1);
      assert !AdmissibleOn(ops, g, path, 0);
    }
  }

  lemma {:induction false} FirstAdmissibleMember(ops: seq<Operation>, g: Guard, path: string) returns (j: nat)
    requires FirstAdmissible(ops, g, path).Some?
    ensures AdmissibleOn(ops, g, path, j) && ops[j] == FirstAdmissible(ops, g, path).value
  {
    if ops[0].path == path && Admissible(ops[0], g) {
      j := 0;
    } else {
      var k := FirstAdmissibleMember(ops[1..], g, path);
      TailAdmissible(ops, g, path);
      j := k + 1;
    }
  }

  ghost predicate Proposes(s: Solo, g: Guard, path: string) {
    FirstAdmissible(s.patch.operations, g, path).Some?
  }

  /** The reference decision for one path: the first live rule with an admissible operation there, and its first such
      operation. */
  ghost function Choice(js: seq<Solo>, n: nat, g: Guard, path: string): Option<Operation>
    requires n <= |js|
  {
    if n == 0 then None
    else if Choice(js, n - 1, g, path).Some? then Choice(js, n - 1, g, path)
    else if Live(js, n - 1) then FirstAdmissible(js[n - 1].patch.operations, g, path)
    else None
  }

  lemma LiveStep(js: seq<Solo>, n: nat)
    requires n < |js|
    ensures Merge(LivePatches(js, n + 1)) ==
            if Live(js, n) then Combine(Merge(LivePatches(js, n)), js[n].patch) else Merge(LivePatches(js, n))
  {
    var live := LivePatches(js, n);
    if Live(js, n) {
      assert LivePatches(js, n + 1) == live + [js[n].patch];
      MergeAppend(live, js[n].patch);
    } else {
      assert LivePatches(js, n + 1) == live + [] == live;
    }
  }

  lemma FirstAdmissibleCombined(m: Patch, p: Patch, g: Guard, path: string)
    ensures FirstAdmissible(Combine(m, p).operations, g, path) ==
            (if FirstAdmissible(m.operations, g, path).Some? then FirstAdmissible(m.operations, g, path)
             else FirstAdmissible(p.operations, g, path))
  {
    FirstAdmissibleConcat(m.operations, p.operations, g, path);
  }

  lemma {:induction false} ProposalChoice(js: seq<Solo>, n: nat, g: Guard, path: string)
    requires n <= |js|
    ensures FirstAdmissible(Merge(LivePatches(js, n)).operations, g, path) == Choice(js, n, g, path)
  {
    if n > 0 {
      ProposalChoice(js, n - 1, g, path);
      LiveStep(js, n - 1);
      if Live(js, n - 1) { FirstAdmissibleCombined(Merge(LivePatches(js, n - 1)), js[n - 1].patch, g, path); }
    }
  }

  lemma {:induction false} ChoiceSource(js: seq<Solo>, n: nat, g: Guard, path: string) returns (i: nat)
    requires n <= |js| && Choice(js, n, g, path).Some?
    ensures i < n && Live(js, i) && FirstAdmissible(js[i].patch.operations, g, path) == Choice(js, n, g, path)
    ensures forall k: nat | k < i && Live(js, k) :: !Proposes(js[k], g, path)
  {
    if Choice(js, n - 1, g, path).Some? {
      i := ChoiceSource(js, n - 1, g, path);
    } else {
      i := n - 1;
      forall k: nat | k < i && Live(js, k) ensures !Proposes(js[k], g, path) {
        ChoiceMissing(js, n - 1, k, g, path);
      }
    }
  }

  lemma {:induction false} ChoiceMissing(js: seq<Solo>, n: nat, k: nat, g: Guard, path: string)
    requires k < n <= |js| && Live(js, k) && Choice(js, n, g, path).None?
    ensures !Proposes(js[k], g, path)
  {
    if k < n - 1 { ChoiceMissing(js, n - 1, k, g, path); }
  }

  ghost predicate FromLive(js: seq<Solo>, n: nat, o: Operation)
    requires n <= |js|
  {
    exists i: nat :: i < n && Live(js, i) && o in js[i].patch.operations
  }

  lemma FromLiveStep(js: seq<Solo>, n: nat, o: Operation)
    requires n < |js|
    ensures FromLive(js, n + 1, o) <==> (FromLive(js, n, o) || (Live(js, n) && o in js[n].patch.operations))
  {
  }

  /** Operations of the merged live patches are exactly the operations of live rules. */
  lemma {:induction false} ProposalMembers(js: seq<Solo>, n: nat, o: Operation)
    requires n <= |js|
    ensures o in Merge(LivePatches(js, n)).operations <==> FromLive(js, n, o)
  {
    if n > 0 {
      ProposalMembers(js, n - 1, o);
      FromLiveStep(js, n - 1, o);
      var before := Merge(LivePatches(js, n - 1));
      var after := Merge(LivePatches(js, n));
      assert after == if Live(js, n - 1) then Combine(before, js[n - 1].patch) else before by { LiveStep(js, n - 1); }
    }
  }

  lemma {:induction false} ProposalReview(js: seq<Solo>, n: nat)
    requires n <= |js|
    ensures Merge(LivePatches(js, n)).requireReview <==>
            exists i: nat :: i < n && Live(js, i) && js[i].patch.requireReview
  {
    if n > 0 {
      ProposalReview(js, n - 1);
      var before, after := Merge(LivePatches(js, n - 1)), Merge(LivePatches(js, n));
      assert after == if Live(js, n - 1) then Combine(before, js[n - 1].patch) else before by { LiveStep(js, n - 1); }
    }
  }

  // ---- The decision, with positions gone ----

  /** The rule matched and no terminal match orders before it. */
  ghost predicate LiveIn(js: seq<Solo>, s: Solo) {
    && s in js && s.status == Matched
    && forall t | t in js && Ends(t) :: !RuleLess(t.rule, s.rule)
  }

  ghost predicate StrictlyOrdered(js: seq<Solo>) {
    forall i, j :: 0 <= i < j < |js| ==> RuleLess(js[i].rule, js[j].rule)
  }

  lemma LivePositions(js: seq<Solo>, i: nat)
    requires StrictlyOrdered(js) && i < |js|
    ensures Live(js, i) <==> LiveIn(js, js[i])
  {
    RuleLessIsStrictOrder();
    if Live(js, i) {
      forall t | t in js && Ends(t) ensures !RuleLess(t.rule, js[i].rule) {
        var k :| 0 <= k < |js| && js[k] == t;
        if k > i { assert RuleLess(js[i].rule, t.rule); }
      }
    }
    if LiveIn(js, js[i]) {
      forall j | 0 <= j < i ensures !Ends(js[j]) { assert js[j] in js && RuleLess(js[j].rule, js[i].rule); }
    }
  }

  /** `o` is the first admissible operation on its path of the first live rule, in rule order, that has one. */
  ghost predicate DecidedBy(js: seq<Solo>, g: Guard, o: Operation, s: Solo) {
    && LiveIn(js, s)
    && FirstAdmissible(s.patch.operations, g, o.path) == Some(o)
    && forall t | LiveIn(js, t) && t != s && Proposes(t, g, o.path) :: RuleLess(s.rule, t.rule)
  }

  predicate Differ(a: Operation, b: Operation, g: Guard) {
    a.path == b.path && Admissible(a, g) && Admissible(b, g) && !PyEq(a.value, b.value)
  }

  ghost predicate LiveOperation(js: seq<Solo>, o: Operation) {
    exists s | LiveIn(js, s) :: o in s.patch.operations
  }

  /** Live rules propose admissible operations on one path with different values. */
  ghost predicate LiveDisagreement(js: seq<Solo>, g: Guard) {
    exists a, b :: LiveOperation(js, a) && LiveOperation(js, b) && Differ(a, b, g)
  }

  lemma LiveInPosition(js: seq<Solo>, s: Solo) returns (i: nat)
    requires StrictlyOrdered(js) && LiveIn(js, s)
    ensures i < |js| && js[i] == s && Live(js, i)
  {
    i :| 0 <= i < |js| && js[i] == s;
    LivePositions(js, i);
  }

  lemma ProposalPlain(js: seq<Solo>)
    requires PlainSolos(js)
    ensures SetOnly(Proposed(js).operations) && OneRank(Proposed(js).operations, ApprovedPolicy.Rank())
  {
    var ops := Proposed(js).operations;
    forall k | 0 <= k < |ops| ensures ops[k].op == "set" && ops[k].authority == ApprovedPolicy {
      ProposalMembers(js, |js|, ops[k]);
      var i: nat :| i < |js| && Live(js, i) && ops[k] in js[i].patch.operations;
      assert js[i] in js;
    }
  }

  /** A proposed operation belongs to a live rule, and conversely. */
  lemma ProposalFromLive(js: seq<Solo>, o: Operation)
    requires StrictlyOrdered(js)
    ensures o in Proposed(js).operations <==> LiveOperation(js, o)
  {
    ProposalMembers(js, |js|, o);
    if FromLive(js, |js|, o) {
      var i: nat :| i < |js| && Live(js, i) && o in js[i].patch.operations;
      LivePositions(js, i);
    }
    if LiveOperation(js, o) {
      var s :| LiveIn(js, s) && o in s.patch.operations;
      var i := LiveInPosition(js, s);
    }
  }

  lemma ChoiceDecided(js: seq<Solo>, g: Guard, path: string) returns (s: Solo)
    requires StrictlyOrdered(js) && Choice(js, |js|, g, path).Some?
    requires Choice(js, |js|, g, path).value.path == path
    ensures DecidedBy(js, g, Choice(js, |js|, g, path).value, s)
  {
    var i := ChoiceSource(js, |js|, g, path);
    s := js[i];
    LivePositions(js, i);
    forall t | LiveIn(js, t) && t != s && Proposes(t, g, path) ensures RuleLess(s.rule, t.rule) {
      var k := LiveInPosition(js, t);
      assert k >= i;
    }
  }

  /** Part one: what is applied is what the reference choice says, path by path. */
  lemma AppliedIsChoice(js: seq<Solo>, g: Guard, o: Operation)
    requires PlainSolos(js) && StrictlyOrdered(js)
    requires o in Reduce(Proposed(js), g).applied.operations
    ensures Choice(js, |js|, g, o.path) == Some(o)
    ensures exists s :: DecidedBy(js, g, o, s)
  {
    var p := Proposed(js);
    ProposalPlain(js);
    OneAuthorityReduction(p, g, ApprovedPolicy.Rank());
    FinalInRange(p, g, |p.operations|);
    var st := Final(p, g);
    var k :| 0 <= k < |st.applied| && Reduce(p, g).applied.operations[k] == o;
    var i := st.applied[k];
    assert i in st.applied && p.operations[i] == o;
    FirstAdmissibleSome(p.operations, g, o.path, i);
    ProposalChoice(js, |js|, g, o.path);
    var s := ChoiceDecided(js, g, o.path);
  }

  /** Part two: a path some live rule has an admissible operation for is decided. */
  lemma ProposedPathDecided(js: seq<Solo>, g: Guard, s: Solo, path: string) returns (o: Operation)
    requires PlainSolos(js) && StrictlyOrdered(js)
    requires LiveIn(js, s) && Proposes(s, g, path)
    ensures o in Reduce(Proposed(js), g).applied.operations && o.path == path
  {
    var p := Proposed(js);
    ProposalPlain(js);
    OneAuthorityReduction(p, g, ApprovedPolicy.Rank());
    FinalInRange(p, g, |p.operations|);
    var k := FirstAdmissibleMember(s.patch.operations, g, path);
    var a := s.patch.operations[k];
    ProposalFromLive(js, a);
    var j :| 0 <= j < |p.operations| && p.operations[j] == a;
    assert AdmissibleOn(p.operations, g, path, j);
    var st := Final(p, g);
    var w := st.winners[path];
    assert w in st.applied && FirstOn(p.operations, g, path, w);
    var x :| 0 <= x < |st.applied| && st.applied[x] == w;
    o := Reduce(p, g).applied.operations[x];
  }

  /** Part three: review is asked iff a live rule asks for it or two live admissible values of one path differ. */
  lemma ReviewIff(js: seq<Solo>, g: Guard)
    requires PlainSolos(js) && StrictlyOrdered(js)
    ensures Reduce(Proposed(js), g).applied.requireReview <==>
            ((exists s :: LiveIn(js, s) && AsksReview(s.rule)) || LiveDisagreement(js, g))
  {
    var p := Proposed(js);
    ProposalPlain(js);
    OneAuthorityReduction(p, g, ApprovedPolicy.Rank());
    AskedIff(js);
    DisagreementIff(js, g);
  }

  lemma AskedIff(js: seq<Solo>)
    requires PlainSolos(js) && StrictlyOrdered(js)
    ensures Proposed(js).requireReview <==> exists s :: LiveIn(js, s) && AsksReview(s.rule)
  {
    ProposalReview(js, |js|);
    if Proposed(js).requireReview {
      var i: nat :| i < |js| && Live(js, i) && js[i].patch.requireReview;
      LivePositions(js, i);
      assert LiveIn(js, js[i]) && AsksReview(js[i].rule);
    }
    if exists s :: LiveIn(js, s) && AsksReview(s.rule) {
      var s :| LiveIn(js, s) && AsksReview(s.rule);
      var i := LiveInPosition(js, s);
    }
  }

  lemma DisagreementIff(js: seq<Solo>, g: Guard)
    requires StrictlyOrdered(js)
    ensures Disagreement(Proposed(js).operations, g, |Proposed(js).operations|) <==> LiveDisagreement(js, g)
  {
    var ops := Proposed(js).operations;
    forall o ensures o in ops <==> LiveOperation(js, o) { ProposalFromLive(js, o); }
    MembersDisagree(ops, g);
  }

  /** Two admissible operations of the list ask for different values on one path. */
  ghost predicate MembersDiffer(ops: seq<Operation>, g: Guard) {
    exists a, b :: a in ops && b in ops && Differ(a, b, g)
  }

  /** Disagreement of positions is disagreement of members. */
  lemma MembersDisagree(ops: seq<Operation>, g: Guard)
    ensures Disagreement(ops, g, |ops|) <==> MembersDiffer(ops, g)
  {
    if Disagreement(ops, g, |ops|) {
      var i: nat, j: nat, path :| i < j < |ops| && AdmissibleOn(ops, g, path, i) && AdmissibleOn(ops, g, path, j)
        && !PyEq(ops[i].value, ops[j].value);
      assert ops[i] in ops && ops[j] in ops && Differ(ops[i], ops[j], g);
    }
    if a, b :| a in ops && b in ops && Differ(a, b, g) {
      var i :| 0 <= i < |ops| && ops[i] == a;
      var j :| 0 <= j < |ops| && ops[j] == b;
      assert AdmissibleOn(ops, g, a.path, i) && AdmissibleOn(ops, g, a.path, j);
      if i < j { assert Disagreement(ops, g, |ops|); } else { assert Disagreement(ops, g, |ops|); }
    }
  }

  // ---- When one rule's patch decides what a whole list decides ----

  ghost predicate PlainPatch(p: Patch) { Plain(p.operations) && Normal(p) }

  lemma PlainIsOneRank(p: Patch)
    requires Plain(p.operations)
    ensures SetOnly(p.operations) && OneRank(p.operations, ApprovedPolicy.Rank())
  {
    assert forall k | 0 <= k < |p.operations| :: p.operations[k] in p.operations;
  }

  /** The decision on a plain patch, part by part. */
  lemma PlainDecision(p: Patch, g: Guard)
    requires Plain(p.operations)
    ensures var d := Reduce(p, g).applied;
            && d.operations == Firsts(p.operations, g) && d.reasons == p.reasons
            && (d.requireReview <==> p.requireReview || MembersDiffer(p.operations, g))
            && d.reviewRole == if MembersDiffer(p.operations, g) then OrSteward(p.reviewRole) else p.reviewRole
  {
    PlainIsOneRank(p);
    AppliedAreFirsts(p, g, ApprovedPolicy.Rank());
    CausesFinal(p, g);
    OneRankRun(p, g, |p.operations|, ApprovedPolicy.Rank());
    MembersDisagree(p.operations, g);
  }

  /** No two rules propose the same operation: each operation is a plain one and carries its rule's ids. */
  ghost predicate OwnOperations(js: seq<Solo>) {
    && (forall i | 0 <= i < |js| :: PlainPatch(js[i].patch) && Tagged(js[i].patch.operations, js[i].rule))
    && (forall i, j | 0 <= i < j < |js| ::
          js[i].rule.policyId != js[j].rule.policyId || js[i].rule.id != js[j].rule.id)
  }

  lemma JudgedOwn(rules: seq<Rule>, ctx: Context, stage: Stage, w: World)
    requires UniqueIds(rules) && BuiltinOnly(rules, w)
    ensures OwnOperations(Judged(rules, ctx, stage, w))
  {
    var js := Judged(rules, ctx, stage, w);
    JudgedPlain(rules, ctx, stage, w);
    forall i | 0 <= i < |js| ensures PlainPatch(js[i].patch) && Tagged(js[i].patch.operations, js[i].rule) {
      assert js[i] in js;
      JudgedAt(rules, i, ctx, stage, w);
      AloneTagged(rules[i], ctx, stage, w);
    }
  }

  /** `p` is the patch of rule `k`, wherever that rule matches; the empty patch stands for no rule. */
  ghost predicate PatchOf(js: seq<Solo>, k: Option<nat>, p: Patch) {
    && PlainPatch(p) && (k.None? ==> p == EMPTY_PATCH)
    && (k.Some? ==>
          && k.value < |js| && Tagged(p.operations, js[k.value].rule)
          && (js[k.value].status == Matched ==> js[k.value].patch == p))
  }

  /** The patches of the live rules from `lo` up to `hi`. */
  ghost function LiveFrom(js: seq<Solo>, lo: nat, hi: nat): seq<Patch>
    requires lo <= hi <= |js|
  {
    if lo == hi then [] else LiveFrom(js, lo, hi - 1) + if Live(js, hi - 1) then [js[hi - 1].patch] else []
  }

  lemma {:induction false} LiveSplits(js: seq<Solo>, lo: nat, hi: nat)
    requires lo <= hi <= |js|
    ensures LivePatches(js, hi) == LivePatches(js, lo) + LiveFrom(js, lo, hi)
  {
    if lo < hi { LiveSplits(js, lo, hi - 1); }
  }

  ghost predicate FromLiveIn(js: seq<Solo>, lo: nat, hi: nat, o: Operation)
    requires hi <= |js|
  {
    exists i: nat :: lo <= i < hi && Live(js, i) && o in js[i].patch.operations
  }

  /** `m` proposes, explains and asks for what the live rules from `lo` up to `hi` do together. */
  ghost predicate Together(js: seq<Solo>, lo: nat, hi: nat, m: Patch)
    requires hi <= |js|
  {
    && Normal(m)
    && (forall o :: o in m.operations <==> FromLiveIn(js, lo, hi, o))
    && (m.reasons == [] <==> forall i | lo <= i < hi && Live(js, i) :: js[i].patch.reasons == [])
    && (m.requireReview <==> exists i :: lo <= i < hi && Live(js, i) && js[i].patch.requireReview)
  }

  lemma TogetherSkips(js: seq<Solo>, lo: nat, hi: nat, m: Patch)
    requires lo <= hi < |js| && Together(js, lo, hi, m) && !Live(js, hi)
    ensures Together(js, lo, hi + 1, m)
  {
    forall o ensures FromLiveIn(js, lo, hi + 1, o) <==> FromLiveIn(js, lo, hi, o) { }
  }

  lemma TogetherTakes(js: seq<Solo>, lo: nat, hi: nat, m: Patch)
    requires lo <= hi < |js| && Together(js, lo, hi, m) && Live(js, hi) && Normal(js[hi].patch)
    ensures Together(js, lo, hi + 1, Combine(m, js[hi].patch))
  {
    var p := js[hi].patch;
    forall o ensures FromLiveIn(js, lo, hi + 1, o) <==> FromLiveIn(js, lo, hi, o) || o in p.operations { }
    assert m.reasons + p.reasons == [] <==> m.reasons == [] && p.reasons == [] by {
      assert |m.reasons + p.reasons| == |m.reasons| + |p.reasons|;
    }
  }

  lemma {:induction false} LiveTogether(js: seq<Solo>, lo: nat, hi: nat)
    requires lo <= hi <= |js| && forall i | 0 <= i < |js| :: Normal(js[i].patch)
    ensures Together(js, lo, hi, Merge(LiveFrom(js, lo, hi)))
  {
    if lo < hi {
      LiveTogether(js, lo, hi - 1);
      LiveFromStep(js, lo, hi - 1);
      if Live(js, hi - 1) {
        TogetherTakes(js, lo, hi - 1, Merge(LiveFrom(js, lo, hi - 1)));
      } else {
        TogetherSkips(js, lo, hi - 1, Merge(LiveFrom(js, lo, hi - 1)));
      }
    } else {
      assert forall o :: !FromLiveIn(js, lo, lo, o);
    }
  }

  lemma LiveFromStep(js: seq<Solo>, lo: nat, hi: nat)
    requires lo <= hi < |js|
    ensures Merge(LiveFrom(js, lo, hi + 1)) ==
            if Live(js, hi) then Combine(Merge(LiveFrom(js, lo, hi)), js[hi].patch) else Merge(LiveFrom(js, lo, hi))
  {
    var before := LiveFrom(js, lo, hi);
    if Live(js, hi) { MergeAppend(before, js[hi].patch); } else { assert before + [] == before; }
  }

  /** What a live rule proposes stands between what the live ones before it and behind it propose. */
  lemma ProposalAround(js: seq<Solo>, k: nat) returns (before: Patch, behind: Patch)
    requires k < |js| && Live(js, k) && forall i | 0 <= i < |js| :: Normal(js[i].patch)
    ensures Together(js, 0, k, before) && Together(js, k + 1, |js|, behind)
    ensures Proposed(js) == Combine(Combine(before, js[k].patch), behind)
  {
    before, behind := Merge(LiveFrom(js, 0, k)), Merge(LiveFrom(js, k + 1, |js|));
    LiveTogether(js, 0, k);
    LiveTogether(js, k + 1, |js|);
    LiveSplits(js, 0, k);
    LiveSplits(js, k + 1, |js|);
    assert LivePatches(js, k) == LiveFrom(js, 0, k);
    assert LivePatches(js, k + 1) == LivePatches(js, k) + [js[k].patch];
    MergeAppend(LivePatches(js, k), js[k].patch);
    MergeConcat(LivePatches(js, k + 1), LiveFrom(js, k + 1, |js|));
  }

  lemma ProposalTogether(js: seq<Solo>)
    requires forall i | 0 <= i < |js| :: Normal(js[i].patch)
    ensures Together(js, 0, |js|, Proposed(js))
  {
    LiveSplits(js, 0, |js|);
    LiveTogether(js, 0, |js|);
    assert LivePatches(js, |js|) == LiveFrom(js, 0, |js|);
  }

  /** Rule `k` with patch `p` decides what the list decides: it is live, the live rules before it have no admissible
      operation, and the admissible ones of the live rules behind it are on paths it admits. If it has no admissible
      operation itself, no live rule has one. */
  ghost predicate DecidesOperations(js: seq<Solo>, k: Option<nat>, p: Patch, g: Guard)
    requires k.Some? ==> k.value < |js|
  {
    if NoneAdmissible(p.operations, g) then
      forall i | 0 <= i < |js| && Live(js, i) :: NoneAdmissible(js[i].patch.operations, g)
    else
      && k.Some? && Live(js, k.value)
      && NothingBefore(js, k, g)
      && (forall i | k.value < i < |js| && Live(js, i) :: Covered(js[i].patch.operations, p.operations, g))
  }

  lemma TogetherNoneAdmissible(js: seq<Solo>, lo: nat, hi: nat, m: Patch, g: Guard)
    requires hi <= |js| && Together(js, lo, hi, m)
    ensures NoneAdmissible(m.operations, g) <==>
            forall i | lo <= i < hi && Live(js, i) :: NoneAdmissible(js[i].patch.operations, g)
  {
    forall i: nat, o | lo <= i < hi && Live(js, i) && o in js[i].patch.operations ensures o in m.operations {
      assert FromLiveIn(js, lo, hi, o);
    }
  }

  lemma TogetherCovered(js: seq<Solo>, lo: nat, hi: nat, m: Patch, ops: seq<Operation>, g: Guard)
    requires hi <= |js| && Together(js, lo, hi, m)
    ensures Covered(m.operations, ops, g) <==>
            forall i | lo <= i < hi && Live(js, i) :: Covered(js[i].patch.operations, ops, g)
  {
    forall i: nat, o | lo <= i < hi && Live(js, i) && o in js[i].patch.operations ensures o in m.operations {
      assert FromLiveIn(js, lo, hi, o);
    }
  }

  /** Around operations `b`, those in front and behind change nothing iff none in front is admissible and those behind
      are covered. */
  lemma FirstsAroundIff(a: seq<Operation>, b: seq<Operation>, c: seq<Operation>, g: Guard)
    requires forall o | o in a :: o !in b
    ensures Firsts(a + b + c, g) == Firsts(b, g) <==> NoneAdmissible(a, g) && Covered(c, b, g)
  {
    assert a + b + c == a + (b + c);
    if NoneAdmissible(a, g) {
      FirstsSkip(a, b + c, g);
      FirstsCoveredIff(b, c, g);
    } else {
      var o := FirstsFromFront(a, b + c, g);
    }
  }

  lemma ProposalIsPlain(js: seq<Solo>)
    requires OwnOperations(js)
    ensures PlainPatch(Proposed(js)) && Together(js, 0, |js|, Proposed(js))
  {
    ProposalTogether(js);
    forall o | o in Proposed(js).operations ensures o.op == "set" && o.authority == ApprovedPolicy {
      assert FromLiveIn(js, 0, |js|, o);
    }
  }

  /** The operations decided on one rule's patch are those decided on the whole proposal iff `DecidesOperations`. */
  lemma OneDecidesOperationsIff(js: seq<Solo>, k: Option<nat>, p: Patch, g: Guard)
    requires OwnOperations(js) && PatchOf(js, k, p)
    ensures Reduce(p, g).applied.operations == Reduce(Proposed(js), g).applied.operations <==>
            DecidesOperations(js, k, p, g)
  {
    ProposalIsPlain(js);
    PlainDecision(p, g);
    PlainDecision(Proposed(js), g);
    FirstsEmptyIff(p.operations, g);
    if NoneAdmissible(p.operations, g) {
      FirstsEmptyIff(Proposed(js).operations, g);
      TogetherNoneAdmissible(js, 0, |js|, Proposed(js), g);
    } else if Live(js, k.value) {
      LiveDecidesIff(js, k.value, g);
    } else {
      OnlyLiveDecides(js, k.value, p, g);
    }
  }

  lemma OnlyLiveDecides(js: seq<Solo>, k: nat, p: Patch, g: Guard)
    requires OwnOperations(js) && k < |js| && !Live(js, k)
    requires Tagged(p.operations, js[k].rule) && Firsts(p.operations, g) != []
    ensures Firsts(Proposed(js).operations, g) != Firsts(p.operations, g)
  {
    var o := Firsts(p.operations, g)[0];
    assert o in Firsts(p.operations, g);
    ProposalIsPlain(js);
  }

  lemma LiveDecidesIff(js: seq<Solo>, k: nat, g: Guard)
    requires OwnOperations(js) && k < |js| && Live(js, k)
    ensures Firsts(Proposed(js).operations, g) == Firsts(js[k].patch.operations, g) <==>
            && (forall i | 0 <= i < k && Live(js, i) :: NoneAdmissible(js[i].patch.operations, g))
            && (forall i | k < i < |js| && Live(js, i) ::
                  Covered(js[i].patch.operations, js[k].patch.operations, g))
  {
    var ops := js[k].patch.operations;
    var before, behind := ProposalAround(js, k);
    assert forall o | o in before.operations :: FromLiveIn(js, 0, k, o) && o !in ops;
    FirstsAroundIff(before.operations, ops, behind.operations, g);
    TogetherNoneAdmissible(js, 0, k, before, g);
    TogetherCovered(js, k + 1, |js|, behind, ops, g);
  }

  /** No live rule before rule `k` has an admissible operation. */
  ghost predicate NothingBefore(js: seq<Solo>, k: Option<nat>, g: Guard)
    requires k.Some? ==> k.value < |js|
  {
    k.Some? ==> forall i | 0 <= i < k.value && Live(js, i) :: NoneAdmissible(js[i].patch.operations, g)
  }

  /** The last live rule decides the operations iff no live rule before it has an admissible one. */
  lemma LastDecidesIff(js: seq<Solo>, k: Option<nat>, p: Patch, g: Guard)
    requires PatchOf(js, k, p)
    requires k.Some? ==> Live(js, k.value) && forall i | k.value < i < |js| :: !Live(js, i)
    requires k.None? ==> forall i | 0 <= i < |js| :: !Live(js, i)
    ensures DecidesOperations(js, k, p, g) <==> NothingBefore(js, k, g)
  {
  }

  /** Two admissible operations of live rules ask for different values on one path. */
  ghost predicate LiveValuesDiffer(js: seq<Solo>, g: Guard) {
    exists a, b :: FromLiveIn(js, 0, |js|, a) && FromLiveIn(js, 0, |js|, b) && Differ(a, b, g)
  }

  /** The reasons the live rules among the first `n` give, in order. */
  ghost function LiveReasons(js: seq<Solo>, n: nat): seq<string>
    requires n <= |js|
  {
    if n == 0 then [] else LiveReasons(js, n - 1) + if Live(js, n - 1) then js[n - 1].patch.reasons else []
  }

  /** The first role a live rule among the first `n` names. */
  ghost function LiveRole(js: seq<Solo>, n: nat): Option<string>
    requires n <= |js|
  {
    if n == 0 then None
    else if LiveRole(js, n - 1).Some? then LiveRole(js, n - 1)
    else if Live(js, n - 1) && HasRole(js[n - 1].patch.reviewRole) then js[n - 1].patch.reviewRole
    else None
  }

  lemma {:induction false} ProposalRequests(js: seq<Solo>, n: nat)
    requires n <= |js|
    ensures var all := Merge(LivePatches(js, n));
            && all.reasons == LiveReasons(js, n) && all.reviewRole == LiveRole(js, n)
            && (all.reviewRole.Some? ==> HasRole(all.reviewRole))
  {
    if n > 0 {
      ProposalRequests(js, n - 1);
      var before, after := Merge(LivePatches(js, n - 1)), Merge(LivePatches(js, n));
      assert after == if Live(js, n - 1) then Combine(before, js[n - 1].patch) else before by { LiveStep(js, n - 1); }
    }
  }

  ghost predicate LiveAsks(js: seq<Solo>) { exists i :: 0 <= i < |js| && Live(js, i) && js[i].patch.requireReview }

  /** The parts of the proposal that are no operations, rule by rule. */
  lemma ProposalAsks(js: seq<Solo>)
    ensures var all := Proposed(js);
            && (all.requireReview <==> LiveAsks(js)) && all.reasons == LiveReasons(js, |js|)
            && all.reviewRole == LiveRole(js, |js|) && (all.reviewRole.Some? ==> HasRole(all.reviewRole))
  {
    ProposalReview(js, |js|);
    ProposalRequests(js, |js|);
  }

  /** Besides the operations, the requests agree. Of a rule that decides operations: no other live rule gives a reason,
      and the decision on the rule's patch already asks for any review that another live rule or a disagreement asks
      for, with the first role named. Otherwise some live rule asks for review iff the patch does, the first role named
      is its role, and the live rules' reasons, in order, are its reasons. */
  ghost predicate DecidesAll(js: seq<Solo>, k: Option<nat>, p: Patch, g: Guard)
    requires k.Some? ==> k.value < |js|
  {
    var d, role := Reduce(p, g).applied, LiveRole(js, |js|);
    && DecidesOperations(js, k, p, g)
    && if NoneAdmissible(p.operations, g) then
         (p.requireReview <==> LiveAsks(js)) && p.reviewRole == role && p.reasons == LiveReasons(js, |js|)
       else
         && (forall i: nat | i < |js| && Live(js, i) && k != Some(i) ::
               js[i].patch.reasons == [] && (js[i].patch.requireReview ==> d.requireReview))
         && (LiveValuesDiffer(js, g) ==> d.requireReview && HasRole(d.reviewRole))
         && (role.Some? ==> d.reviewRole == role)
  }

  lemma ValuesDifferIff(js: seq<Solo>, g: Guard)
    requires OwnOperations(js)
    ensures LiveValuesDiffer(js, g) <==> MembersDiffer(Proposed(js).operations, g)
  {
    ProposalTogether(js);
  }

  lemma OneDecidesAllIff(js: seq<Solo>, k: Option<nat>, p: Patch, g: Guard)
    requires OwnOperations(js) && PatchOf(js, k, p)
    ensures Reduce(p, g).applied == Reduce(Proposed(js), g).applied <==> DecidesAll(js, k, p, g)
  {
    OneDecidesOperationsIff(js, k, p, g);
    ProposalAsks(js);
    if !DecidesOperations(js, k, p, g) { return; }
    if NoneAdmissible(p.operations, g) {
      QuietDecidesIff(js, p, g);
    } else {
      LiveDecidesIff(js, k.value, g);
      LiveRequestsIff(js, k.value, g);
    }
  }

  /** Without admissible operations the decision is what is requested. */
  lemma QuietDecidesIff(js: seq<Solo>, p: Patch, g: Guard)
    requires OwnOperations(js) && PlainPatch(p) && NoneAdmissible(p.operations, g)
    requires forall i | 0 <= i < |js| && Live(js, i) :: NoneAdmissible(js[i].patch.operations, g)
    ensures var all := Proposed(js);
            Reduce(p, g).applied == Reduce(all, g).applied <==>
            all.requireReview == p.requireReview && all.reviewRole == p.reviewRole && all.reasons == p.reasons
  {
    ProposalIsPlain(js);
    TogetherNoneAdmissible(js, 0, |js|, Proposed(js), g);
    PlainDecision(p, g);
    PlainDecision(Proposed(js), g);
    FirstsEmptyIff(p.operations, g);
    FirstsEmptyIff(Proposed(js).operations, g);
  }

  lemma LiveRequestsIff(js: seq<Solo>, k: nat, g: Guard)
    requires OwnOperations(js) && k < |js| && Live(js, k)
    requires Firsts(Proposed(js).operations, g) == Firsts(js[k].patch.operations, g)
    ensures var all, d := Proposed(js), Reduce(js[k].patch, g).applied;
            d == Reduce(all, g).applied <==>
            && (forall i: nat | i < |js| && Live(js, i) && i != k ::
                  js[i].patch.reasons == [] && (js[i].patch.requireReview ==> d.requireReview))
            && (LiveValuesDiffer(js, g) ==> d.requireReview && HasRole(d.reviewRole))
            && (HasRole(all.reviewRole) ==> d.reviewRole == all.reviewRole)
  {
    var all, p := Proposed(js), js[k].patch;
    ProposalIsPlain(js);
    ValuesDifferIff(js, g);
    PlainDecision(p, g);
    PlainDecision(all, g);
    OthersReasons(js, k);
    forall o | o in p.operations ensures o in all.operations { assert FromLiveIn(js, 0, |js|, o); }
    var before, behind := ProposalAround(js, k);
  }

  lemma OthersReasons(js: seq<Solo>, k: nat)
    requires OwnOperations(js) && k < |js| && Live(js, k)
    ensures Proposed(js).reasons == js[k].patch.reasons <==>
            forall i: nat | i < |js| && Live(js, i) && i != k :: js[i].patch.reasons == []
  {
    var before, behind := ProposalAround(js, k);
    var r := js[k].patch.reasons;
    assert Proposed(js).reasons == before.reasons + r + behind.reasons;
    assert |before.reasons + r + behind.reasons| == |before.reasons| + |r| + |behind.reasons|;
    if before.reasons == [] && behind.reasons == [] { assert before.reasons + r + behind.reasons == r; }
  }

  // ---- The theorem ----

  lemma JudgedMembers(rules: seq<Rule>, ctx: Context, stage: Stage, w: World, s: Solo)
    ensures s in Judged(rules, ctx, stage, w) <==> s.rule in rules && s == Alone(s.rule, ctx, stage, w)
  {
    var js := Judged(rules, ctx, stage, w);
    if s in js {
      var i :| 0 <= i < |js| && js[i] == s;
      JudgedAt(rules, i, ctx, stage, w);
    }
    if s.rule in rules && s == Alone(s.rule, ctx, stage, w) {
      var i :| 0 <= i < |rules| && rules[i] == s.rule;
      JudgedAt(rules, i, ctx, stage, w);
      assert js[i] in js;
    }
  }

  /** Sort, evaluate and reduce refine a per-path choice, for every rule list with unique ids and built-in effects. */
  lemma PolicyRefinesChoice(rules: seq<Rule>, ctx: Context, stage: Stage, w: World, g: Guard)
    requires UniqueIds(rules) && BuiltinOnly(rules, w)
    ensures var js := Judged(SortRules(rules), ctx, stage, w);
            var decision := Reduce(Proposed(js), g).applied;
            && (forall s :: s in js <==> s.rule in rules && s == Alone(s.rule, ctx, stage, w))
            && (forall o | o in decision.operations :: exists s :: DecidedBy(js, g, o, s))
            && (forall s, path | LiveIn(js, s) && Proposes(s, g, path) ::
                  exists o :: o in decision.operations && o.path == path)
            && (forall i, j :: 0 <= i < j < |decision.operations| ==>
                  decision.operations[i].path != decision.operations[j].path)
            && (decision.requireReview <==>
                  ((exists s :: LiveIn(js, s) && AsksReview(s.rule)) || LiveDisagreement(js, g)))
  {
    var sorted := SortRules(rules);
    var js := Judged(sorted, ctx, stage, w);
    var decision := Reduce(Proposed(js), g).applied;
    SortedStrictly(rules);
    JudgedPlain(sorted, ctx, stage, w);
    ProposalPlain(js);
    AppliedUncontested(Proposed(js), g);
    ReviewIff(js, g);
    forall s ensures s in js <==> s.rule in rules && s == Alone(s.rule, ctx, stage, w) {
      JudgedMembers(sorted, ctx, stage, w, s);
    }
    forall o | o in decision.operations ensures exists s :: DecidedBy(js, g, o, s) {
      AppliedIsChoice(js, g, o);
    }
    forall s, path | LiveIn(js, s) && Proposes(s, g, path)
      ensures exists o :: o in decision.operations && o.path == path
    {
      var o := ProposedPathDecided(js, g, s, path);
    }
  }
}
