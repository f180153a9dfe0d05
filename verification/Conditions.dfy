/** Three-valued condition trees (redibis/behavior/conditions.py) and the lint key built from them. */
module Conditions {
  import opened Sequences

  // ---- JSON values and Python's equality on them ----

  datatype Value =
    | Null
    | Bool(b: bool)
    | Int(i: int)
    | Float(r: real)
    | Str(s: string)
    | List(items: seq<Value>)
    | Dict(entries: map<string, Value>)

  /** Python compares `True`, `1` and `1.0` as equal; `Canon` picks one value of each such class. */
  function Canon(v: Value): Value {
    match v
    case Bool(b) => Float(if b then 1.0 else 0.0)
    case Int(i) => Float(i as real)
    case List(items) => List(seq(|items|, k requires 0 <= k < |items| => Canon(items[k])))
    case Dict(entries) => Dict(map k | k in entries :: Canon(entries[k]))
    case _ => v
  }

  /** The number a value stands for where values are compared. */
  ghost predicate IsNumber(v: Value, x: real) {
    v == Float(x) || (v.Int? && v.i as real == x) || (v.Bool? && x == if v.b then 1.0 else 0.0)
  }

  predicate PyEq(a: Value, b: Value) { Canon(a) == Canon(b) }

  predicate PyIn(v: Value, items: seq<Value>) { exists k | 0 <= k < |items| :: PyEq(v, items[k]) }

  predicate Truthy(v: Value) {
    match v
    case Null => false
    case Bool(b) => b
    case Int(i) => i != 0
    case Float(r) => r != 0.0
    case Str(s) => s != ""
    case List(items) => items != []
    case Dict(entries) => entries != map[]
  }

  /** What the operators take from the Python runtime unexamined. */
  datatype Primitives = Primitives(
    parseFloat: string -> Option<real>,            // float(str); None for ValueError
    search: (string, string) -> Option<bool>,      // bounded regex search; None when compilation fails
    render: Value -> string,                       // str(value)
    repr: Value -> string,                         // repr(value)
    glob: (string, string) -> bool)                // fnmatch.fnmatch(name, pattern)

  type Facts = map<string, Value>

  datatype TruthValue = True | False | Unknown

  // ---- Operators ----

  function Truth(b: bool): TruthValue { if b then True else False }

  function ToFloat(v: Value, py: Primitives): Option<real> {
    match v
    case Bool(b) => Some(if b then 1.0 else 0.0)
    case Int(i) => Some(i as real)
    case Float(r) => Some(r)
    case Str(s) => py.parseFloat(s)
    case _ => None
  }

  predicate StartsWith(s: string, p: string) { p <= s }

  predicate EndsWith(s: string, p: string) { |p| <= |s| && s[|s| - |p|..] == p }

  predicate Contains(s: string, p: string) { exists k | 0 <= k <= |s| :: p <= s[k..] }

  function Ordering(operator: string, a: real, b: real): TruthValue {
    if operator == "lt" then Truth(a < b)
    else if operator == "lte" then Truth(a <= b)
    else if operator == "gt" then Truth(a > b)
    else Truth(a >= b)
  }

  function EvalOp(operator: string, fact: Value, expected: Value, py: Primitives): TruthValue {
    if operator == "exists" then Truth(fact != Null)
    else if operator == "is_null" then Truth(fact == Null)
    else if fact == Null then Unknown
    else if operator == "is_true" then if fact.Bool? then Truth(fact.b) else Unknown
    else if operator == "is_false" then if fact.Bool? then Truth(!fact.b) else Unknown
    else if operator == "eq" then Truth(PyEq(fact, expected))
    else if operator == "neq" then Truth(!PyEq(fact, expected))
    else if operator in ["lt", "lte", "gt", "gte"] then
      var a, b := ToFloat(fact, py), ToFloat(expected, py);
      if a.None? || b.None? then Unknown else Ordering(operator, a.value, b.value)
    else if operator == "between" then
      if !expected.List? || |expected.items| != 2 then Unknown
      else
        var v, lo, hi := ToFloat(fact, py), ToFloat(expected.items[0], py), ToFloat(expected.items[1], py);
        if v.None? || lo.None? || hi.None? then Unknown else Truth(lo.value <= v.value <= hi.value)
    else if operator == "in" then if expected.List? then Truth(PyIn(fact, expected.items)) else Unknown
    else if operator == "not_in" then if expected.List? then Truth(!PyIn(fact, expected.items)) else Unknown
    else if operator == "contains" then
      if fact.Str? && expected.Str? then Truth(Contains(fact.s, expected.s))
      else if fact.List? then Truth(PyIn(expected, fact.items))
      else Unknown
    else if operator == "contains_any" then
      if !expected.List? then Unknown
      else if fact.List? then Truth(exists v | v in expected.items :: PyIn(v, fact.items))
      else if fact.Str? then Truth(exists v | v in expected.items :: Contains(fact.s, py.render(v)))
      else Unknown
    else if operator == "contains_all" then
      if !expected.List? then Unknown
      else if fact.List? then Truth(forall v | v in expected.items :: PyIn(v, fact.items))
      else if fact.Str? then Truth(forall v | v in expected.items :: Contains(fact.s, py.render(v)))
      else Unknown
    else if operator == "starts_with" then
      if fact.Str? && expected.Str? then Truth(StartsWith(fact.s, expected.s)) else Unknown
    else if operator == "ends_with" then
      if fact.Str? && expected.Str? then Truth(EndsWith(fact.s, expected.s)) else Unknown
    else if operator == "matches" then
      if fact.Str? && expected.Str? then
        var hit := py.search(expected.s, fact.s);
        if hit.None? then Unknown else Truth(hit.value)
      else Unknown
    else Unknown
  }

  // ---- Kleene tables ----

  function TvNot(v: TruthValue): TruthValue {
    match v
    case True => False
    case False => True
    case Unknown => Unknown
  }

  function TvAnd(a: TruthValue, b: TruthValue): TruthValue {
    if a == False || b == False then False
    else if a == True && b == True then True
    else Unknown
  }

  function TvOr(a: TruthValue, b: TruthValue): TruthValue {
    if a == True || b == True then True
    else if a == False && b == False then False
    else Unknown
  }

  // ---- Trees ----

  datatype Condition =
    | Pred(fact: string, operator: string, expected: Value)
    | Group(kind: string, children: seq<Condition>)

  function Lookup(facts: Facts, fact: string): Value {
    if fact in facts then facts[fact] else Null
  }

  /** A group's verdict from its size, its only child's verdict, and which verdicts occur among its children. */
  ghost function GroupVerdict(kind: string, size: nat, only: TruthValue,
                              anyTrue: bool, anyFalse: bool, anyUnknown: bool): TruthValue {
    if size == 0 then Unknown
    else if kind == "not" then if size != 1 then Unknown else TvNot(only)
    else if kind == "all" then if anyFalse then False else if anyUnknown then Unknown else True
    else if kind == "any" then if anyTrue then True else if anyUnknown then Unknown else False
    else Unknown
  }

  /** The reference meaning: no order of evaluation, only which verdicts occur among the children. */
  ghost function Eval(c: Condition, facts: Facts, py: Primitives): TruthValue
    decreases c, 1
  {
    match c
    case Pred(fact, operator, expected) => EvalOp(operator, Lookup(facts, fact), expected, py)
    case Group(kind, cs) =>
      GroupVerdict(kind, |cs|, if |cs| == 1 then Eval(cs[0], facts, py) else Unknown,
                   Occurs(cs, True, facts, py), Occurs(cs, False, facts, py), Occurs(cs, Unknown, facts, py))
  }

  ghost predicate Occurs(cs: seq<Condition>, v: TruthValue, facts: Facts, py: Primitives)
    decreases cs, 0
  {
    exists d | d in cs :: Eval(d, facts, py) == v
  }

  /** The short-circuiting evaluator computes the order-free meaning. */
  method EvaluateCondition(node: Condition, facts: Facts, py: Primitives) returns (result: TruthValue)
    ensures result == Eval(node, facts, py)
    decreases node
  {
    match node
    case Pred(fact, operator, expected) =>
      return EvalOp(operator, Lookup(facts, fact), expected, py);
    case Group(kind, children) =>
      if children == [] { return Unknown; }
      if kind == "not" {
        if |children| != 1 { return Unknown; }
        var v := EvaluateCondition(children[0], facts, py);
        return TvNot(v);
      }
      if kind == "all" {
        result := True;
        for i := 0 to |children|
          invariant result != False
          invariant forall k :: 0 <= k < i ==> Eval(children[k], facts, py) != False
          invariant result == True <==> forall k :: 0 <= k < i ==> Eval(children[k], facts, py) == True
        {
          var v := EvaluateCondition(children[i], facts, py);
          result := TvAnd(result, v);
          if result == False { return False; }
        }
        return result;
      }
      if kind == "any" {
        result := False;
        for i := 0 to |children|
          invariant result != True
          invariant forall k :: 0 <= k < i ==> Eval(children[k], facts, py) != True
          invariant result == False <==> forall k :: 0 <= k < i ==> Eval(children[k], facts, py) == False
        {
          var v := EvaluateCondition(children[i], facts, py);
          result := TvOr(result, v);
          if result == True { return True; }
        }
        return result;
      }
      return Unknown;
  }

  // ---- De Morgan ----

  ghost function Negated(cs: seq<Condition>): seq<Condition> {
    seq(|cs|, k requires 0 <= k < |cs| => Group("not", [cs[k]]))
  }

  lemma NegatedAt(cs: seq<Condition>, k: nat, facts: Facts, py: Primitives)
    requires k < |cs|
    ensures Negated(cs)[k] in Negated(cs) && cs[k] in cs
    ensures Eval(Negated(cs)[k], facts, py) == TvNot(Eval(cs[k], facts, py))
  {
    assert Negated(cs)[k] == Group("not", [cs[k]]);
  }

  lemma NegatedOccurs(cs: seq<Condition>, v: TruthValue, facts: Facts, py: Primitives)
    ensures Occurs(Negated(cs), TvNot(v), facts, py) == Occurs(cs, v, facts, py)
  {
    var ns := Negated(cs);
    if Occurs(cs, v, facts, py) {
      var k :| 0 <= k < |cs| && Eval(cs[k], facts, py) == v;
      NegatedAt(cs, k, facts, py);
    }
    if Occurs(ns, TvNot(v), facts, py) {
      var k :| 0 <= k < |ns| && Eval(ns[k], facts, py) == TvNot(v);
      NegatedAt(cs, k, facts, py);
    }
  }

  /** `not all` is `any not`, and `not any` is `all not`, for nonempty groups. */
  lemma DeMorgan(cs: seq<Condition>, facts: Facts, py: Primitives)
    requires cs != []
    ensures Eval(Group("not", [Group("all", cs)]), facts, py) == Eval(Group("any", Negated(cs)), facts, py)
    ensures Eval(Group("not", [Group("any", cs)]), facts, py) == Eval(Group("all", Negated(cs)), facts, py)
  {
    NegatedOccurs(cs, True, facts, py);
    NegatedOccurs(cs, False, facts, py);
    NegatedOccurs(cs, Unknown, facts, py);
  }

  // ---- Reordering children at any depth ----

  /** A tree with the order of its children forgotten. */
  datatype Shape =
    | Leaf(fact: string, operator: string, expected: Value)
    | Node(kind: string, parts: multiset<Shape>)

  ghost function Shapes(cs: seq<Condition>): (r: seq<Shape>)
    ensures |r| == |cs|
    ensures forall k :: 0 <= k < |cs| ==> r[k] == ShapeOf(cs[k])
    decreases cs, 0
  {
    if cs == [] then [] else [ShapeOf(cs[0])] + Shapes(cs[1..])
  }

  ghost function ShapeOf(c: Condition): Shape
    decreases c, 1
  {
    match c
    case Pred(fact, operator, expected) => Leaf(fact, operator, expected)
    case Group(kind, children) => Node(kind, multiset(Shapes(children)))
  }

  ghost function EvalShape(s: Shape, facts: Facts, py: Primitives): TruthValue
    decreases s
  {
    match s
    case Leaf(fact, operator, expected) => EvalOp(operator, Lookup(facts, fact), expected, py)
    case Node(kind, parts) =>
      GroupVerdict(kind, |parts|,
                   if |parts| == 1 then var only :| only in parts; EvalShape(only, facts, py) else Unknown,
                   exists d | d in parts :: EvalShape(d, facts, py) == True,
                   exists d | d in parts :: EvalShape(d, facts, py) == False,
                   exists d | d in parts :: EvalShape(d, facts, py) == Unknown)
  }

  ghost predicate OccursIn(parts: multiset<Shape>, v: TruthValue, facts: Facts, py: Primitives) {
    exists d | d in parts :: EvalShape(d, facts, py) == v
  }

  /** Tree by tree, `ss` means what `cs` means. */
  ghost predicate SameVerdicts(cs: seq<Condition>, ss: seq<Shape>, facts: Facts, py: Primitives) {
    |cs| == |ss| && forall k | 0 <= k < |cs| :: Eval(cs[k], facts, py) == EvalShape(ss[k], facts, py)
  }

  lemma SameVerdictsOccur(cs: seq<Condition>, ss: seq<Shape>, v: TruthValue, facts: Facts, py: Primitives)
    requires SameVerdicts(cs, ss, facts, py)
    ensures Occurs(cs, v, facts, py) == OccursIn(multiset(ss), v, facts, py)
  {
    if d :| d in cs && Eval(d, facts, py) == v {
      var k :| 0 <= k < |cs| && cs[k] == d;
      assert ss[k] in multiset(ss);
    }
    if d :| d in ss && EvalShape(d, facts, py) == v {
      var k :| 0 <= k < |ss| && ss[k] == d;
      assert cs[k] in cs;
    }
  }

  lemma OnlyPart(ss: seq<Shape>)
    requires |ss| == 1
    ensures forall d :: d in multiset(ss) <==> d == ss[0]
  {
    assert ss == [ss[0]];
  }

  /** A group means what its shape means once its children do. */
  lemma GroupShapeDecides(kind: string, cs: seq<Condition>, ss: seq<Shape>, facts: Facts, py: Primitives)
    requires SameVerdicts(cs, ss, facts, py)
    ensures Eval(Group(kind, cs), facts, py) == EvalShape(Node(kind, multiset(ss)), facts, py)
  {
    assert |multiset(ss)| == |cs|;
    if |cs| == 1 { OnlyPart(ss); }
    SameVerdictsOccur(cs, ss, True, facts, py);
    SameVerdictsOccur(cs, ss, False, facts, py);
    SameVerdictsOccur(cs, ss, Unknown, facts, py);
  }

  lemma {:induction false} ShapeDecidesVerdict(c: Condition, facts: Facts, py: Primitives)
    ensures Eval(c, facts, py) == EvalShape(ShapeOf(c), facts, py)
    decreases c
  {
    if c.Group? {
      var cs, ss := c.children, Shapes(c.children);
      forall k | 0 <= k < |cs| ensures Eval(cs[k], facts, py) == EvalShape(ss[k], facts, py) {
        ShapeDecidesVerdict(cs[k], facts, py);
      }
      GroupShapeDecides(c.kind, cs, ss, facts, py);
    }
  }

  /** Trees equal up to the order of children, at any depth, agree on every fact map. */
  lemma ReorderingKeepsVerdict(c: Condition, d: Condition, facts: Facts, py: Primitives)
    requires ShapeOf(c) == ShapeOf(d)
    ensures Eval(c, facts, py) == Eval(d, facts, py)
  {
    ShapeDecidesVerdict(c, facts, py);
    ShapeDecidesVerdict(d, facts, py);
  }

  // ---- More facts: Kleene monotonicity ----

  predicate Extends(facts: Facts, more: Facts) {
    forall f | f in facts :: f in more && more[f] == facts[f]
  }

  /** `a` carries no more information than `b`. */
  predicate Below(a: TruthValue, b: TruthValue) { a == Unknown || a == b }

  predicate TestsAbsence(operator: string) { operator == "exists" || operator == "is_null" }

  /** Every fact tested for absence reads the same before and after. */
  predicate AbsenceSettled(c: Condition, facts: Facts, more: Facts) {
    match c
    case Pred(fact, operator, _) => TestsAbsence(operator) ==> Lookup(facts, fact) == Lookup(more, fact)
    case Group(_, children) => forall d | d in children :: AbsenceSettled(d, facts, more)
  }

  /** As long as the facts tested for absence read the same, new facts can only settle an UNKNOWN verdict, never change
      a TRUE or a FALSE. */
  lemma {:induction false} MoreFactsOnlySettle(c: Condition, facts: Facts, more: Facts, py: Primitives)
    requires AbsenceSettled(c, facts, more) && Extends(facts, more)
    ensures Below(Eval(c, facts, py), Eval(c, more, py))
    decreases c
  {
    if c.Group? {
      forall d | d in c.children ensures Below(Eval(d, facts, py), Eval(d, more, py)) {
        MoreFactsOnlySettle(d, facts, more, py);
      }
      if |c.children| == 1 { assert c.children[0] in c.children; }
    }
  }

  /** For one predicate the exclusion is exact: monotone under every extension iff it does not test absence. */
  lemma PredicateMonotoneIff(fact: string, operator: string, expected: Value, py: Primitives)
    ensures !TestsAbsence(operator) <==>
            forall facts: Facts, more: Facts :: Extends(facts, more) ==>
              Below(Eval(Pred(fact, operator, expected), facts, py), Eval(Pred(fact, operator, expected), more, py))
  {
    var p := Pred(fact, operator, expected);
    if TestsAbsence(operator) {
      var none: Facts, some: Facts := map[], map[fact := Bool(true)];
      assert Extends(none, some);
      assert !Below(Eval(p, none, py), Eval(p, some, py));
    } else {
      forall facts: Facts, more: Facts | Extends(facts, more)
        ensures Below(Eval(p, facts, py), Eval(p, more, py))
      {
        MoreFactsOnlySettle(p, facts, more, py);
      }
    }
  }
}
