/** What the operators and groups of conditions mean to their users (redibis/behavior/conditions.py), in terms of
    numbers, texts and the verdicts of children. */
module ConditionLaws {
  import opened Sequences
  import opened Conditions

  // ---- Groups ----

  /** `all` holds iff every child does and fails iff one fails; `any` the other way round; `not` swaps the two. Groups
      without children, a `not` of several children and unknown kinds have no verdict. */
  lemma GroupVerdicts(kind: string, cs: seq<Condition>, facts: Facts, py: Primitives)
    ensures var v := Eval(Group(kind, cs), facts, py);
            && (cs == [] || (kind == "not" && |cs| > 1) || kind !in ["not", "all", "any"] ==> v == Unknown)
            && (kind == "not" && |cs| == 1 ==>
                  (v == True <==> Eval(cs[0], facts, py) == False) && (v == False <==> Eval(cs[0], facts, py) == True))
            && (kind == "all" && cs != [] ==>
                  && (v == True <==> forall k | 0 <= k < |cs| :: Eval(cs[k], facts, py) == True)
                  && (v == False <==> exists k :: 0 <= k < |cs| && Eval(cs[k], facts, py) == False))
            && (kind == "any" && cs != [] ==>
                  && (v == True <==> exists k :: 0 <= k < |cs| && Eval(cs[k], facts, py) == True)
                  && (v == False <==> forall k | 0 <= k < |cs| :: Eval(cs[k], facts, py) == False))
  {
    forall v ensures Occurs(cs, v, facts, py) <==> exists k :: 0 <= k < |cs| && Eval(cs[k], facts, py) == v {
      OccursAt(cs, v, facts, py);
    }
    if cs != [] { SomeVerdict(cs, facts, py); }
  }

  lemma OccursAt(cs: seq<Condition>, v: TruthValue, facts: Facts, py: Primitives)
    ensures Occurs(cs, v, facts, py) <==> exists k :: 0 <= k < |cs| && Eval(cs[k], facts, py) == v
  {
    if d :| d in cs && Eval(d, facts, py) == v {
      var k :| 0 <= k < |cs| && cs[k] == d;
    }
  }

  lemma SomeVerdict(cs: seq<Condition>, facts: Facts, py: Primitives)
    requires cs != []
    ensures Occurs(cs, Eval(cs[0], facts, py), facts, py)
  {
    assert cs[0] in cs;
  }

  // ---- Equality of values ----

  /** Numbers are equal as numbers, whatever their type; texts as texts; lists item by item; dictionaries key by key. */
  lemma ValueEquality(a: Value, b: Value)
    ensures PyEq(a, a) && (PyEq(a, b) <==> PyEq(b, a))
    ensures forall x, y | IsNumber(a, x) && IsNumber(b, y) :: PyEq(a, b) <==> x == y
    ensures a.Str? || a.Null? || b.Str? || b.Null? ==> (PyEq(a, b) <==> a == b)
    ensures a.List? && b.List? ==>
              (PyEq(a, b) <==>
                |a.items| == |b.items| && forall k | 0 <= k < |a.items| :: PyEq(a.items[k], b.items[k]))
    ensures a.Dict? && b.Dict? ==>
              (PyEq(a, b) <==>
                a.entries.Keys == b.entries.Keys && forall k | k in a.entries :: PyEq(a.entries[k], b.entries[k]))
  {
    if a.List? && b.List? { ListEquality(a, b); }
    if a.Dict? && b.Dict? { DictEquality(a, b); }
  }

  lemma ListEquality(a: Value, b: Value)
    requires a.List? && b.List?
    ensures PyEq(a, b) <==>
            |a.items| == |b.items| && forall k | 0 <= k < |a.items| :: PyEq(a.items[k], b.items[k])
  {
    var x, y := Canon(a).items, Canon(b).items;
    assert forall k | 0 <= k < |a.items| :: x[k] == Canon(a.items[k]);
    assert forall k | 0 <= k < |b.items| :: y[k] == Canon(b.items[k]);
    if |a.items| == |b.items| && forall k | 0 <= k < |a.items| :: PyEq(a.items[k], b.items[k]) {
      assert x == y;
    }
  }

  lemma DictEquality(a: Value, b: Value)
    requires a.Dict? && b.Dict?
    ensures PyEq(a, b) <==>
            a.entries.Keys == b.entries.Keys && forall k | k in a.entries :: PyEq(a.entries[k], b.entries[k])
  {
    var x, y := Canon(a).entries, Canon(b).entries;
    assert x.Keys == a.entries.Keys && y.Keys == b.entries.Keys;
    if a.entries.Keys == b.entries.Keys && forall k | k in a.entries :: PyEq(a.entries[k], b.entries[k]) {
      assert x == y;
    }
  }

  // ---- Operators ----

  /** A fact that is missing or null settles no test but those for absence. */
  lemma MissingFactIsUnknown(fact: string, operator: string, expected: Value, facts: Facts, py: Primitives)
    requires fact !in facts || facts[fact] == Null
    ensures var v := Eval(Pred(fact, operator, expected), facts, py);
            v == if operator == "exists" then False else if operator == "is_null" then True else Unknown
  {
  }

  lemma PresentFactExists(fact: string, expected: Value, facts: Facts, py: Primitives)
    requires fact in facts && facts[fact] != Null
    ensures Eval(Pred(fact, "exists", expected), facts, py) == True
    ensures Eval(Pred(fact, "is_null", expected), facts, py) == False
  {
  }

  /** Each operator of a pair denies what the other says, on every value. */
  lemma OpposedOperators(fact: Value, expected: Value, py: Primitives)
    ensures EvalOp("neq", fact, expected, py) == TvNot(EvalOp("eq", fact, expected, py))
    ensures EvalOp("gte", fact, expected, py) == TvNot(EvalOp("lt", fact, expected, py))
    ensures EvalOp("lte", fact, expected, py) == TvNot(EvalOp("gt", fact, expected, py))
  {
  }

  lemma OpposedTests(fact: Value, expected: Value, py: Primitives)
    ensures EvalOp("not_in", fact, expected, py) == TvNot(EvalOp("in", fact, expected, py))
    ensures EvalOp("is_false", fact, expected, py) == TvNot(EvalOp("is_true", fact, expected, py))
    ensures EvalOp("is_null", fact, expected, py) == TvNot(EvalOp("exists", fact, expected, py))
  {
  }

  /** What a value is taken for where numbers are compared: a number, or a text that reads as one. */
  ghost predicate ReadsAs(v: Value, x: real, py: Primitives) {
    IsNumber(v, x) || (v.Str? && py.parseFloat(v.s) == Some(x))
  }

  /** The order operators compare numbers; `between` takes both ends in; without two numbers there is no verdict. */
  lemma OrderOperators(fact: Value, expected: Value, x: real, y: real, py: Primitives)
    requires ReadsAs(fact, x, py) && ReadsAs(expected, y, py)
    ensures EvalOp("lt", fact, expected, py) == True <==> x < y
    ensures EvalOp("gt", fact, expected, py) == True <==> x > y
    ensures EvalOp("lt", fact, expected, py) != Unknown && EvalOp("gt", fact, expected, py) != Unknown
  {
  }

  lemma NoOrderWithoutNumbers(fact: Value, expected: Value, py: Primitives)
    requires (forall x :: !ReadsAs(fact, x, py)) || (forall y :: !ReadsAs(expected, y, py))
    ensures EvalOp("lt", fact, expected, py) == Unknown && EvalOp("gt", fact, expected, py) == Unknown
  {
    var a, b := ToFloat(fact, py), ToFloat(expected, py);
    if a.Some? { assert ReadsAs(fact, a.value, py); }
    if b.Some? { assert ReadsAs(expected, b.value, py); }
  }

  lemma BetweenIsTwoBounds(fact: Value, lo: Value, hi: Value, py: Primitives)
    requires EvalOp("gte", fact, lo, py) != Unknown && EvalOp("lte", fact, hi, py) != Unknown
    ensures EvalOp("between", fact, List([lo, hi]), py) == True <==>
            EvalOp("gte", fact, lo, py) == True && EvalOp("lte", fact, hi, py) == True
    ensures EvalOp("between", fact, List([lo, hi]), py) != Unknown
  {
  }

  /** Equality of facts is equality of values. */
  lemma EqualFacts(fact: Value, expected: Value, py: Primitives)
    requires fact != Null
    ensures EvalOp("eq", fact, expected, py) == True <==> PyEq(fact, expected)
    ensures EvalOp("eq", fact, expected, py) != Unknown
    ensures fact.Bool? ==> (EvalOp("is_true", fact, expected, py) == True <==> fact.b)
  {
  }

  /** `in` asks whether the fact equals an item, `contains` on a list whether an item equals the value. */
  lemma ListOperators(fact: Value, items: seq<Value>, v: Value, py: Primitives)
    requires fact != Null
    ensures EvalOp("in", fact, List(items), py) == True <==>
            exists k :: 0 <= k < |items| && PyEq(fact, items[k])
    ensures EvalOp("in", fact, List(items), py) != Unknown
    ensures EvalOp("contains", List(items), v, py) == True <==>
            exists k :: 0 <= k < |items| && PyEq(v, items[k])
    ensures EvalOp("contains", List(items), v, py) != Unknown
  {
  }

  /** `contains_any` holds iff `contains` holds of some value, `contains_all` iff of every one, for facts that are
      lists, and for texts when the values are texts that render as themselves. */
  lemma ContainsAnyAll(fact: Value, vs: seq<Value>, py: Primitives)
    requires fact.List? || (fact.Str? && forall v | v in vs :: v.Str? && py.render(v) == v.s)
    ensures EvalOp("contains_any", fact, List(vs), py) == True <==>
            exists v :: v in vs && EvalOp("contains", fact, v, py) == True
    ensures EvalOp("contains_all", fact, List(vs), py) == True <==>
            forall v | v in vs :: EvalOp("contains", fact, v, py) == True
    ensures EvalOp("contains_any", fact, List(vs), py) != Unknown
    ensures EvalOp("contains_all", fact, List(vs), py) != Unknown
  {
    if fact.List? {
      assert forall v :: EvalOp("contains", fact, v, py) == True <==> PyIn(v, fact.items);
    } else {
      assert forall v | v in vs :: EvalOp("contains", fact, v, py) == True <==> Contains(fact.s, v.s);
    }
  }

  /** On texts: what comes before and behind, if anything, makes the fact. */
  lemma TextContains(s: string, p: string, py: Primitives)
    ensures EvalOp("contains", Str(s), Str(p), py) == True <==> exists a: string, b: string :: s == a + p + b
    ensures EvalOp("contains", Str(s), Str(p), py) != Unknown
  {
    assert EvalOp("contains", Str(s), Str(p), py) == Truth(Contains(s, p));
    if k :| 0 <= k <= |s| && p <= s[k..] { assert s == s[..k] + p + s[k + |p|..]; }
    if a: string, b: string :| s == a + p + b { assert s[|a|..] == p + b; }
  }

  lemma TextStarts(s: string, p: string, py: Primitives)
    ensures EvalOp("starts_with", Str(s), Str(p), py) == True <==> exists b: string :: s == p + b
    ensures EvalOp("starts_with", Str(s), Str(p), py) != Unknown
  {
    if p <= s { assert s == p + s[|p|..]; }
  }

  lemma TextEnds(s: string, p: string, py: Primitives)
    ensures EvalOp("ends_with", Str(s), Str(p), py) == True <==> exists a: string :: s == a + p
    ensures EvalOp("ends_with", Str(s), Str(p), py) != Unknown
  {
    if EndsWith(s, p) { assert s == s[..|s| - |p|] + p; }
    if a: string :| s == a + p { assert s[|a|..] == p; }
  }

  lemma TextMatches(s: string, p: string, py: Primitives)
    ensures EvalOp("matches", Str(s), Str(p), py) == True <==> py.search(p, s) == Some(true)
    ensures EvalOp("matches", Str(s), Str(p), py) == Unknown <==> py.search(p, s) == None
  {
  }

  /** Everything else has no verdict: text operators on other values, lists where none is expected, booleans that are
      none, and operators nobody knows. */
  lemma OtherwiseUnknown(operator: string, fact: Value, expected: Value, py: Primitives)
    requires fact != Null && operator !in ["exists", "is_null", "eq", "neq", "lt", "lte", "gt", "gte"]
    requires operator in ["is_true", "is_false"] ==> !fact.Bool?
    requires operator in ["in", "not_in"] ==> !expected.List?
    requires operator == "between" ==> !expected.List? || |expected.items| != 2
    requires operator == "contains" ==> !fact.List? && !(fact.Str? && expected.Str?)
    requires operator in ["contains_any", "contains_all"] ==> !expected.List? || !(fact.List? || fact.Str?)
    requires operator in ["starts_with", "ends_with", "matches"] ==> !(fact.Str? && expected.Str?)
    ensures EvalOp(operator, fact, expected, py) == Unknown
  {
  }
}
