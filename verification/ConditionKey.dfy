/** The string key by which the linter recognises "the same condition" (redibis/behavior/lint.py). */
module ConditionKey {
  import opened Sequences
  import opened Conditions

  function Join(parts: seq<string>): string {
    if parts == [] then ""
    else if |parts| == 1 then parts[0]
    else parts[0] + "|" + Join(parts[1..])
  }

  function Keys(cs: seq<Condition>, py: Primitives): (r: seq<string>)
    ensures |r| == |cs|
    ensures forall k :: 0 <= k < |cs| ==> r[k] == KeyOf(cs[k], py)
    decreases cs, 0
  {
    if cs == [] then [] else [KeyOf(cs[0], py)] + Keys(cs[1..], py)
  }

  function LeafKey(fact: string, operator: string, expected: Value, py: Primitives): string {
    "pred:" + (fact + ":" + (operator + ":" + py.repr(expected)))
  }

  function GroupKey(kind: string, childKeys: seq<string>): string {
    "grp:" + (kind + ":" + Join(Sort(StrLess, childKeys)))
  }

  function KeyOf(c: Condition, py: Primitives): string
    decreases c, 1
  {
    match c
    case Pred(fact, operator, expected) => LeafKey(fact, operator, expected, py)
    case Group(kind, children) => GroupKey(kind, Keys(children, py))
  }

  // ---- Reordered trees share a key ----

  /** Reordering children at any depth leaves the lint key unchanged. */
  lemma {:induction false} ReorderingKeepsKey(c: Condition, d: Condition, py: Primitives)
    requires ShapeOf(c) == ShapeOf(d)
    ensures KeyOf(c, py) == KeyOf(d, py)
    decreases c
  {
    if c.Group? {
      var cs, ds := c.children, d.children;
      forall i, j | 0 <= i < |cs| && 0 <= j < |ds| && Shapes(cs)[i] == Shapes(ds)[j]
        ensures Keys(cs, py)[i] == Keys(ds, py)[j]
      {
        ReorderingKeepsKey(cs[i], ds[j], py);
      }
      Transport(Shapes(cs), Keys(cs, py), Shapes(ds), Keys(ds, py));
      SameMultisetSameGroupKey(c.kind, Keys(cs, py), Keys(ds, py));
    }
  }

  lemma SameMultisetSameGroupKey(kind: string, a: seq<string>, b: seq<string>)
    requires multiset(a) == multiset(b)
    ensures GroupKey(kind, a) == GroupKey(kind, b)
  {
    StrSortSorted(b);
    StrSortIs(a, Sort(StrLess, b));
  }

  // ---- The key does not determine the tree ----

  lemma SortedInHalves(a: seq<string>, b: seq<string>)
    requires SortedBy(StrLess, a) && SortedBy(StrLess, b) && forall x, y | x in a && y in b :: !StrLess(y, x)
    ensures SortedBy(StrLess, a + b)
  {
    forall i, j | 0 <= i < j < |a + b| ensures !StrLess((a + b)[j], (a + b)[i]) {
      if i < |a| <= j { assert a[i] in a && b[j - |a|] in b; }
    }
  }

  /** Sorting two lists separately sorts them together when nothing in the second precedes anything in the first. */
  lemma SortInHalves(a: seq<string>, b: seq<string>)
    requires forall x, y | x in a && y in b :: !StrLess(y, x)
    ensures Sort(StrLess, a + b) == Sort(StrLess, a) + Sort(StrLess, b)
  {
    StrSortSorted(a);
    StrSortSorted(b);
    SortedInHalves(Sort(StrLess, a), Sort(StrLess, b));
    StrSortIs(a + b, Sort(StrLess, a) + Sort(StrLess, b));
  }

  lemma {:induction false} JoinInHalves(a: seq<string>, b: seq<string>)
    requires a != [] && b != []
    ensures Join(a + b) == Join(a) + "|" + Join(b)
  {
    if |a| == 1 {
      assert (a + b)[1..] == b;
    } else {
      JoinInHalves(a[1..], b);
      assert (a + b)[1..] == a[1..] + b;
    }
  }

  lemma BarsAlone(inner: string, a: seq<string>, b: seq<string>)
    requires a != [] && b != []
    ensures Join(["grp:" + (inner + ":" + Join(a))] + b) == "grp:" + (inner + ":" + Join(a + b))
  {
    JoinInHalves(a, b);
    JoinInHalves(["grp:" + (inner + ":" + Join(a))], b);
  }

  /** Moving the last keys of a group out of it and behind it leaves the enclosing group's key alone. */
  lemma UnwrappingKeepsKey(kind: string, inner: string, a: seq<string>, b: seq<string>)
    requires a != []
    requires forall x, y | x in a && y in b :: !StrLess(y, x)
    requires forall y | y in b :: !StrLess(y, GroupKey(inner, a))
    ensures GroupKey(kind, [GroupKey(inner, a)] + b) == GroupKey(kind, [GroupKey(inner, a + b)])
  {
    var narrow, wide := GroupKey(inner, a), GroupKey(inner, a + b);
    SortOne(narrow);
    SortOne(wide);
    if b == [] {
      assert a + b == a && [narrow] + b == [narrow];
    } else {
      SortInHalves(a, b);
      SortInHalves([narrow], b);
      BarsAlone(inner, Sort(StrLess, a), Sort(StrLess, b));
    }
  }

  lemma SortOne(x: string)
    ensures Sort(StrLess, [x]) == [x] && Join([x]) == x
  {
    assert [x][..0] == [];
  }

  lemma KeysConcat(cs: seq<Condition>, ds: seq<Condition>, py: Primitives)
    ensures Keys(cs + ds, py) == Keys(cs, py) + Keys(ds, py)
  {
  }

  /** The children `ds` of a group can be taken for children of the group inside it: whenever the keys come in that
      order, `kind(inner(cs), ds)` and `kind(inner(cs, ds))` share a key, because nothing marks where the inner group
      ends. */
  lemma KeyCollision(kind: string, inner: string, cs: seq<Condition>, ds: seq<Condition>, py: Primitives)
    requires cs != []
    requires forall x, y | x in Keys(cs, py) && y in Keys(ds, py) :: !StrLess(y, x)
    requires forall y | y in Keys(ds, py) :: !StrLess(y, KeyOf(Group(inner, cs), py))
    ensures KeyOf(Group(kind, [Group(inner, cs)] + ds), py) == KeyOf(Group(kind, [Group(inner, cs + ds)]), py)
    ensures ds != [] ==> ShapeOf(Group(kind, [Group(inner, cs)] + ds)) != ShapeOf(Group(kind, [Group(inner, cs + ds)]))
  {
    var narrow, wide := Group(inner, cs), Group(inner, cs + ds);
    KeysConcat(cs, ds, py);
    KeysConcat([narrow], ds, py);
    assert Keys([narrow], py) == [KeyOf(narrow, py)] && Keys([wide], py) == [KeyOf(wide, py)];
    UnwrappingKeepsKey(kind, inner, Keys(cs, py), Keys(ds, py));
    assert |multiset(Shapes([narrow] + ds))| == 1 + |ds| && |multiset(Shapes([wide]))| == 1;
  }

  lemma OccursAmong(cs: seq<Condition>, v: TruthValue, all: seq<Condition>, facts: Facts, py: Primitives)
    requires Occurs(cs, v, facts, py) && forall c | c in cs :: c in all
    ensures Occurs(all, v, facts, py)
  {
  }

  /** For `all` around `any` the two conditions part whenever one of `cs` holds and one of `ds` fails. */
  lemma CollidingConditionsDiffer(cs: seq<Condition>, ds: seq<Condition>, facts: Facts, py: Primitives)
    requires Occurs(cs, True, facts, py) && Occurs(ds, False, facts, py)
    ensures Eval(Group("all", [Group("any", cs)] + ds), facts, py) == False
    ensures Eval(Group("all", [Group("any", cs + ds)]), facts, py) == True
  {
    OccursAmong(ds, False, [Group("any", cs)] + ds, facts, py);
    OccursAmong(cs, True, cs + ds, facts, py);
    SingleAll(Group("any", cs + ds), facts, py);
  }

  lemma SingleAll(c: Condition, facts: Facts, py: Primitives)
    ensures Eval(Group("all", [c]), facts, py) == Eval(c, facts, py)
  {
    assert c in [c];
    assert Occurs([c], Eval(c, facts, py), facts, py);
  }

  // ---- What the key leaves out: how many children each group has ----

  /** A child's key, and the outline of the groups below it. */
  datatype Tag = Tag(key: string, outline: string)

  predicate TagLess(a: Tag, b: Tag) {
    StrLess(a.key, b.key) || (a.key == b.key && StrLess(a.outline, b.outline))
  }

  ghost function Tags(cs: seq<Condition>, py: Primitives): (r: seq<Tag>)
    ensures |r| == |cs|
    ensures forall k :: 0 <= k < |cs| ==> r[k] == TagOf(cs[k], py)
    decreases cs, 0
  {
    if cs == [] then [] else [TagOf(cs[0], py)] + Tags(cs[1..], py)
  }

  ghost function TagOf(c: Condition, py: Primitives): Tag
    decreases c, 2
  {
    Tag(KeyOf(c, py), Outline(c, py))
  }

  ghost function TagKeys(tags: seq<Tag>): (r: seq<string>)
    ensures |r| == |tags| && forall k :: 0 <= k < |tags| ==> r[k] == tags[k].key
  {
    seq(|tags|, k requires 0 <= k < |tags| => tags[k].key)
  }

  ghost function Outlines(tags: seq<Tag>): string {
    if tags == [] then "" else tags[0].outline + Outlines(tags[1..])
  }

  ghost function Marks(n: nat): (r: string)
    ensures |r| == n && '.' !in r
  {
    seq(n, _ => '*')
  }

  /** The child counts of a tree's groups, outermost first and in key order: a mark for each child, then a dot. */
  ghost function Outline(c: Condition, py: Primitives): string
    decreases c, 1
  {
    match c
    case Pred(_, _, _) => ""
    case Group(_, children) => Marks(|children|) + ['.'] + Outlines(Sort(TagLess, Tags(children, py)))
  }

  lemma TagLessIsStrictOrder()
    ensures StrictOrder(TagLess)
    ensures forall s: seq<Tag> :: TotalOn(TagLess, s)
  {
    forall x: Tag ensures !TagLess(x, x) {
      StrLessIrreflexive(x.key);
      StrLessIrreflexive(x.outline);
    }
    forall x: Tag, y: Tag, z: Tag | TagLess(x, y) && TagLess(y, z) ensures TagLess(x, z) {
      if StrLess(x.key, y.key) && StrLess(y.key, z.key) { StrLessTransitive(x.key, y.key, z.key); }
      if StrLess(x.outline, y.outline) && StrLess(y.outline, z.outline) {
        StrLessTransitive(x.outline, y.outline, z.outline);
      }
    }
    forall s: seq<Tag>, x, y | x in s && y in s ensures x == y || TagLess(x, y) || TagLess(y, x) {
      StrLessTotal(x.key, y.key);
      StrLessTotal(x.outline, y.outline);
    }
  }

  lemma TagSortSorted(tags: seq<Tag>)
    ensures SortedBy(TagLess, Sort(TagLess, tags))
  {
    TagLessIsStrictOrder();
    SortSorted(TagLess, tags);
  }

  lemma TagSortPermutation(a: seq<Tag>, b: seq<Tag>)
    requires multiset(a) == multiset(b)
    ensures Sort(TagLess, a) == Sort(TagLess, b)
  {
    TagLessIsStrictOrder();
    SortPermutation(TagLess, a, b);
  }

  lemma SortedTagsHaveSortedKeys(tags: seq<Tag>)
    requires SortedBy(TagLess, tags)
    ensures SortedBy(StrLess, TagKeys(tags))
  {
    forall i, j | 0 <= i < j < |tags| ensures !StrLess(TagKeys(tags)[j], TagKeys(tags)[i]) {
      assert !TagLess(tags[j], tags[i]);
    }
  }

  /** Tags in order carry their keys in order. */
  lemma SortedTagsSortKeys(tags: seq<Tag>)
    ensures TagKeys(Sort(TagLess, tags)) == Sort(StrLess, TagKeys(tags))
  {
    var sorted := Sort(TagLess, tags);
    TagSortSorted(tags);
    SortedTagsHaveSortedKeys(sorted);
    Transport(sorted, TagKeys(sorted), tags, TagKeys(tags));
    StrSortIs(TagKeys(tags), TagKeys(sorted));
  }

  /** Reordering children at any depth leaves the outline unchanged too. */
  lemma {:induction false} ReorderingKeepsOutline(c: Condition, d: Condition, py: Primitives)
    requires ShapeOf(c) == ShapeOf(d)
    ensures Outline(c, py) == Outline(d, py)
    decreases c
  {
    if c.Group? {
      var cs, ds := c.children, d.children;
      forall i, j | 0 <= i < |cs| && 0 <= j < |ds| && Shapes(cs)[i] == Shapes(ds)[j]
        ensures Tags(cs, py)[i] == Tags(ds, py)[j]
      {
        ReorderingKeepsKey(cs[i], ds[j], py);
        ReorderingKeepsOutline(cs[i], ds[j], py);
      }
      Transport(Shapes(cs), Tags(cs, py), Shapes(ds), Tags(ds, py));
      assert |cs| == |multiset(Shapes(cs))| == |multiset(Shapes(ds))| == |ds|;
      TagSortPermutation(Tags(cs, py), Tags(ds, py));
    }
  }

  // ---- Key and outline determine the tree ----

  /** No kind in the tree has a colon in it. */
  ghost predicate Plain(c: Condition) {
    match c
    case Pred(_, _, _) => true
    case Group(kind, children) => ':' !in kind && forall d | d in children :: Plain(d)
  }

  ghost predicate HasLeaf(c: Condition, leaf: Condition) {
    match c
    case Pred(_, _, _) => c == leaf
    case Group(_, children) => exists d | d in children :: HasLeaf(d, leaf)
  }

  /** Nothing follows, or `sep` does. */
  predicate Ended(x: string, sep: char) { x == "" || x[0] == sep }

  /** Where one leaf's key can be read off a text, up to its end or a bar, the other's can not. */
  ghost predicate ToldApart(p: Condition, q: Condition, py: Primitives) {
    forall x, y | Ended(x, '|') && Ended(y, '|') && KeyOf(p, py) + x == KeyOf(q, py) + y :: p == q
  }

  /** No leaf of the one tree is mistaken for a leaf of the other. */
  ghost predicate LeavesTold(c: Condition, d: Condition, py: Primitives) {
    forall p, q | HasLeaf(c, p) && HasLeaf(d, q) :: ToldApart(p, q, py)
  }

  lemma FieldReaches(a: string, x: string, b: string, y: string, sep: char)
    requires Ended(x, sep) && a + x == b + y && |a| < |b|
    ensures sep in b
  {
    assert |a + x| == |b + y|;
    assert (a + x)[|a|] == x[0];
    assert (b + y)[|a|] == b[|a|];
  }

  /** A field without `sep` in it ends where the text does or the first `sep` stands. */
  lemma FieldUnique(a: string, x: string, b: string, y: string, sep: char)
    requires sep !in a && sep !in b && Ended(x, sep) && Ended(y, sep) && a + x == b + y
    ensures a == b && x == y
  {
    if |a| < |b| { FieldReaches(a, x, b, y, sep); }
    if |b| < |a| { FieldReaches(b, y, a, x, sep); }
    assert (a + x)[..|a|] == a && (b + y)[..|b|] == b && (a + x)[|a|..] == x && (b + y)[|b|..] == y;
  }

  lemma FirstFieldUnique(a: string, x: string, b: string, y: string, sep: char)
    requires sep !in a && sep !in b && a + [sep] + x == b + [sep] + y
    ensures a == b && x == y
  {
    assert a + ([sep] + x) == a + [sep] + x && b + ([sep] + y) == b + [sep] + y;
    FieldUnique(a, [sep] + x, b, [sep] + y, sep);
    assert ([sep] + x)[1..] == x && ([sep] + y)[1..] == y;
  }

  lemma TagsPick(cs: seq<Condition>, tags: seq<Tag>, py: Primitives) returns (j: nat)
    requires tags != [] && multiset(tags) == multiset(Tags(cs, py))
    ensures j < |cs| && tags[0] == TagOf(cs[j], py)
    ensures multiset(Without(tags, 0)) == multiset(Tags(Without(cs, j), py))
  {
    var all := Tags(cs, py);
    assert tags[0] in multiset(all);
    j :| 0 <= j < |all| && all[j] == tags[0];
    SameHeadRemoved(tags, all, j);
    TagsWithout(cs, j, py);
  }

  lemma TagsWithout(cs: seq<Condition>, j: nat, py: Primitives)
    requires j < |cs|
    ensures Without(Tags(cs, py), j) == Tags(Without(cs, j), py)
  {
  }

  lemma SameCount(cs: seq<Condition>, tags: seq<Tag>, py: Primitives)
    requires multiset(tags) == multiset(Tags(cs, py))
    ensures |cs| == |tags|
  {
    assert |tags| == |multiset(tags)| == |multiset(Tags(cs, py))|;
  }

  lemma RearrangedStep(cs: seq<Condition>, tags: seq<Tag>, j: nat, rest: seq<Condition>, py: Primitives)
    requires j < |cs| && tags != [] && tags[0] == TagOf(cs[j], py)
    requires multiset(rest) == multiset(Without(cs, j)) && Tags(rest, py) == Without(tags, 0)
    ensures multiset([cs[j]] + rest) == multiset(cs) && Tags([cs[j]] + rest, py) == tags
  {
    assert multiset([cs[j]] + rest) == multiset{cs[j]} + multiset(rest);
    assert ([cs[j]] + rest)[1..] == rest;
    assert tags == [tags[0]] + Without(tags, 0);
  }

  /** Any rearrangement of a list's tags is the tags of a rearrangement of the list. */
  lemma {:induction false} Rearranged(cs: seq<Condition>, tags: seq<Tag>, py: Primitives) returns (ds: seq<Condition>)
    requires multiset(tags) == multiset(Tags(cs, py))
    ensures multiset(ds) == multiset(cs) && Tags(ds, py) == tags
    decreases |tags|
  {
    if tags == [] {
      SameCount(cs, tags, py);
      ds := [];
    } else {
      var j := TagsPick(cs, tags, py);
      var rest := Rearranged(Without(cs, j), Without(tags, 0), py);
      ds := [cs[j]] + rest;
      RearrangedStep(cs, tags, j, rest, py);
    }
  }

  /** A group's children in the order its key names them. */
  lemma InKeyOrder(c: Condition, py: Primitives) returns (cs: seq<Condition>)
    requires c.Group?
    ensures multiset(cs) == multiset(c.children) && |cs| == |c.children|
    ensures multiset(Shapes(cs)) == multiset(Shapes(c.children))
    ensures KeyOf(c, py) == "grp:" + (c.kind + [':'] + Join(TagKeys(Tags(cs, py))))
    ensures Outline(c, py) == Marks(|cs|) + ['.'] + Outlines(Tags(cs, py))
  {
    var tags := Tags(c.children, py);
    cs := Rearranged(c.children, Sort(TagLess, tags), py);
    assert |cs| == |multiset(cs)| == |multiset(c.children)| == |c.children|;
    Transport(cs, Shapes(cs), c.children, Shapes(c.children));
    SortedTagsSortKeys(tags);
    assert TagKeys(tags) == Keys(c.children, py);
  }

  lemma HeadsReadOneWay(kind: string, rest: string, x: string, kind': string, rest': string, x': string)
    requires ':' !in kind && ':' !in kind'
    requires "grp:" + (kind + [':'] + rest) + x == "grp:" + (kind' + [':'] + rest') + x'
    ensures kind == kind' && rest + x == rest' + x'
  {
    var s, s' := "grp:" + (kind + [':'] + rest) + x, "grp:" + (kind' + [':'] + rest') + x';
    assert s[4..] == kind + [':'] + (rest + x) && s'[4..] == kind' + [':'] + (rest' + x');
    FirstFieldUnique(kind, rest + x, kind', rest' + x', ':');
  }

  lemma CountsReadOneWay(n: nat, rest: string, x: string, n': nat, rest': string, x': string)
    requires Marks(n) + ['.'] + rest + x == Marks(n') + ['.'] + rest' + x'
    ensures n == n' && rest + x == rest' + x'
  {
    assert Marks(n) + ['.'] + rest + x == Marks(n) + ['.'] + (rest + x);
    assert Marks(n') + ['.'] + rest' + x' == Marks(n') + ['.'] + (rest' + x');
    FirstFieldUnique(Marks(n), rest + x, Marks(n'), rest' + x', '.');
  }

  lemma LeavesReadOneWay(c: Condition, x: string, d: Condition, y: string, py: Primitives)
    requires c.Pred? && d.Pred? && LeavesTold(c, d, py) && Ended(x, '|') && Ended(y, '|')
    requires KeyOf(c, py) + x == KeyOf(d, py) + y
    ensures c == d && x == y
  {
    assert HasLeaf(c, c) && HasLeaf(d, d);
    assert ToldApart(c, d, py);
    SameKeySameRest(KeyOf(c, py), x, y);
  }

  lemma SameKeySameRest(key: string, x: string, y: string)
    requires key + x == key + y
    ensures x == y
  {
    assert (key + x)[|key|..] == x && (key + y)[|key|..] == y;
  }

  /** Reading a tree off the front of a key and of an outline: there is one way to do it. */
  lemma {:induction false} ReadsOneWay(c: Condition, x: string, m: string,
                                       d: Condition, y: string, n: string, py: Primitives)
    requires Plain(c) && Plain(d) && LeavesTold(c, d, py) && Ended(x, '|') && Ended(y, '|')
    requires KeyOf(c, py) + x == KeyOf(d, py) + y && Outline(c, py) + m == Outline(d, py) + n
    ensures ShapeOf(c) == ShapeOf(d) && x == y && m == n
    decreases c
  {
    SameKind(c, x, d, y, py);
    if c.Pred? {
      LeavesReadOneWay(c, x, d, y, py);
      assert "" + m == m && "" + n == n;
    } else {
      var cs := InKeyOrder(c, py);
      var ds := InKeyOrder(d, py);
      HeadsReadOneWay(c.kind, Join(TagKeys(Tags(cs, py))), x, d.kind, Join(TagKeys(Tags(ds, py))), y);
      CountsReadOneWay(|cs|, Outlines(Tags(cs, py)), m, |ds|, Outlines(Tags(ds, py)), n);
      SameElements(cs, c.children);
      SameElements(ds, d.children);
      ChildrenReadOneWay(c, cs, x, m, d, ds, y, n, py);
    }
  }

  lemma SameKind(c: Condition, x: string, d: Condition, y: string, py: Primitives)
    requires KeyOf(c, py) + x == KeyOf(d, py) + y
    ensures c.Pred? <==> d.Pred?
  {
    assert KeyOf(c, py)[0] == (KeyOf(c, py) + x)[0] && KeyOf(d, py)[0] == (KeyOf(d, py) + y)[0];
  }

  lemma {:induction false} ChildrenReadOneWay(c: Condition, cs: seq<Condition>, x: string, m: string,
                                              d: Condition, ds: seq<Condition>, y: string, n: string, py: Primitives)
    requires c.Group? && d.Group? && |cs| == |ds|
    requires Plain(c) && Plain(d) && LeavesTold(c, d, py) && Ended(x, '|') && Ended(y, '|')
    requires (forall e | e in cs :: e in c.children) && (forall e | e in ds :: e in d.children)
    requires Join(TagKeys(Tags(cs, py))) + x == Join(TagKeys(Tags(ds, py))) + y
    requires Outlines(Tags(cs, py)) + m == Outlines(Tags(ds, py)) + n
    ensures Shapes(cs) == Shapes(ds) && x == y && m == n
    decreases c, |cs|
  {
    if cs == [] {
      assert TagKeys(Tags(cs, py)) == [] && "" + x == x && "" + y == y && "" + m == m && "" + n == n;
    } else {
      var rest, rest' := Tags(cs[1..], py), Tags(ds[1..], py);
      FirstThenRest(cs, x, m, py);
      FirstThenRest(ds, y, n, py);
      ChildTold(c, cs[0], d, ds[0], py);
      ReadsOneWay(cs[0], Tail(TagKeys(rest), x), Outlines(rest) + m,
                  ds[0], Tail(TagKeys(rest'), y), Outlines(rest') + n, py);
      TailsReadOneWay(TagKeys(rest), x, TagKeys(rest'), y);
      ChildrenReadOneWay(c, cs[1..], x, m, d, ds[1..], y, n, py);
    }
  }

  /** What follows the first of several joined keys. */
  function Tail(rest: seq<string>, x: string): string {
    if rest == [] then x else "|" + (Join(rest) + x)
  }

  lemma JoinThenTail(key: string, rest: seq<string>, x: string)
    requires Ended(x, '|')
    ensures Join([key] + rest) + x == key + Tail(rest, x) && Ended(Tail(rest, x), '|')
  {
    assert ([key] + rest)[1..] == rest;
    if rest != [] {
      assert key + "|" + Join(rest) + x == key + ("|" + (Join(rest) + x));
    }
  }

  lemma TailsReadOneWay(rest: seq<string>, x: string, rest': seq<string>, y: string)
    requires (rest == [] <==> rest' == []) && Tail(rest, x) == Tail(rest', y)
    ensures Join(rest) + x == Join(rest') + y
  {
    assert rest != [] ==> Tail(rest, x)[1..] == Join(rest) + x && Tail(rest', y)[1..] == Join(rest') + y;
  }

  lemma FirstThenRest(cs: seq<Condition>, x: string, m: string, py: Primitives)
    requires cs != [] && Ended(x, '|')
    ensures var rest := Tags(cs[1..], py);
            && Join(TagKeys(Tags(cs, py))) + x == KeyOf(cs[0], py) + Tail(TagKeys(rest), x)
            && Ended(Tail(TagKeys(rest), x), '|')
            && Outlines(Tags(cs, py)) + m == Outline(cs[0], py) + (Outlines(rest) + m)
  {
    var tag, rest := TagOf(cs[0], py), Tags(cs[1..], py);
    assert Tags(cs, py) == [tag] + rest;
    JoinThenTail(tag.key, TagKeys(rest), x);
    assert TagKeys([tag] + rest) == [tag.key] + TagKeys(rest);
    OutlinesCons(tag, rest, m);
  }

  lemma OutlinesCons(tag: Tag, rest: seq<Tag>, m: string)
    ensures Outlines([tag] + rest) + m == tag.outline + (Outlines(rest) + m)
  {
    assert ([tag] + rest)[1..] == rest;
  }

  lemma ChildTold(c: Condition, e: Condition, d: Condition, f: Condition, py: Primitives)
    requires c.Group? && d.Group? && e in c.children && f in d.children
    requires Plain(c) && Plain(d) && LeavesTold(c, d, py)
    ensures Plain(e) && Plain(f) && LeavesTold(e, f, py)
    ensures (c decreases to e)
  {
    forall p | HasLeaf(e, p) ensures HasLeaf(c, p) {}
    forall p | HasLeaf(f, p) ensures HasLeaf(d, p) {}
  }

  /** Equal keys mean equal trees up to reordering exactly when the groups' child counts agree in key order. */
  lemma EqualKeysMeanEqualTreesIff(c: Condition, d: Condition, py: Primitives)
    requires Plain(c) && Plain(d) && LeavesTold(c, d, py) && KeyOf(c, py) == KeyOf(d, py)
    ensures ShapeOf(c) == ShapeOf(d) <==> Outline(c, py) == Outline(d, py)
  {
    if ShapeOf(c) == ShapeOf(d) { ReorderingKeepsOutline(c, d, py); }
    if Outline(c, py) == Outline(d, py) {
      assert KeyOf(c, py) + "" == KeyOf(d, py) + "" && Outline(c, py) + "" == Outline(d, py) + "";
      ReadsOneWay(c, "", "", d, "", "", py);
    }
  }

  // ---- Groups of literals ----

  /** A predicate under any number of `not`s. */
  predicate Literal(c: Condition) {
    match c
    case Pred(_, _, _) => true
    case Group(kind, children) => kind == "not" && |children| == 1 && Literal(children[0])
  }

  /** A group of literals, or a literal, under any number of `not`s. */
  predicate Clause(c: Condition) {
    match c
    case Pred(_, _, _) => true
    case Group(kind, children) =>
      if kind == "not" then |children| == 1 && Clause(children[0]) else forall d | d in children :: Literal(d)
  }

  lemma NotKey(c: Condition, py: Primitives)
    requires c.Group? && |c.children| == 1
    ensures KeyOf(c, py) == "grp:" + (c.kind + [':'] + KeyOf(c.children[0], py))
    ensures Outline(c, py) == Marks(1) + ['.'] + Outline(c.children[0], py)
  {
    SortOne(KeyOf(c.children[0], py));
    assert Keys(c.children, py) == [KeyOf(c.children[0], py)];
    var tag := TagOf(c.children[0], py);
    assert Tags(c.children, py) == [tag];
    assert [tag][..0] == [];
    assert Sort(TagLess, [tag]) == [tag];
    assert Outlines([tag]) == tag.outline + "";
  }

  lemma NotReads(c: Condition, x: string, py: Primitives)
    requires c.Group? && |c.children| == 1
    ensures KeyOf(c, py) + x == "grp:" + (c.kind + [':'] + KeyOf(c.children[0], py)) + x
  {
    NotKey(c, py);
  }

  /** A literal is read off the front of a key in one way, whatever its outline. */
  lemma {:induction false} LiteralReadsOneWay(c: Condition, x: string, d: Condition, y: string, py: Primitives)
    requires Literal(c) && Literal(d) && Plain(c) && Plain(d) && LeavesTold(c, d, py)
    requires Ended(x, '|') && Ended(y, '|') && KeyOf(c, py) + x == KeyOf(d, py) + y
    ensures TagOf(c, py) == TagOf(d, py) && x == y
  {
    SameKind(c, x, d, y, py);
    if c.Pred? {
      LeavesReadOneWay(c, x, d, y, py);
    } else {
      var e, f := c.children[0], d.children[0];
      NotReads(c, x, py);
      NotReads(d, y, py);
      HeadsReadOneWay(c.kind, KeyOf(e, py), x, d.kind, KeyOf(f, py), y);
      assert e in c.children && f in d.children;
      ChildTold(c, e, d, f, py);
      LiteralReadsOneWay(e, x, f, y, py);
      NotKey(c, py);
      NotKey(d, py);
    }
  }

  /** Literals without colons in their kinds, none of whose leaves is mistaken for one of the other list. */
  ghost predicate LiteralsTold(cs: seq<Condition>, ds: seq<Condition>, py: Primitives) {
    && (forall c | c in cs :: Literal(c) && Plain(c)) && (forall d | d in ds :: Literal(d) && Plain(d))
    && (forall c, d | c in cs && d in ds :: LeavesTold(c, d, py))
  }

  lemma JoinReads(cs: seq<Condition>, py: Primitives)
    requires cs != []
    ensures var rest := TagKeys(Tags(cs[1..], py));
            Join(TagKeys(Tags(cs, py))) == KeyOf(cs[0], py) + Tail(rest, "") && Ended(Tail(rest, ""), '|')
    ensures Join(TagKeys(Tags(cs, py))) != ""
  {
    FirstThenRest(cs, "", "", py);
    assert Join(TagKeys(Tags(cs, py))) + "" == Join(TagKeys(Tags(cs, py)));
  }

  lemma TailsJoinAlike(rest: seq<string>, rest': seq<string>)
    requires Tail(rest, "") == Tail(rest', "")
    ensures Join(rest) == Join(rest')
  {
    if rest != [] && rest' != [] {
      TailsReadOneWay(rest, "", rest', "");
      assert Join(rest) + "" == Join(rest) && Join(rest') + "" == Join(rest');
    }
  }

  /** A list of literals is read off its joined keys in one way. */
  lemma {:induction false} LiteralsReadOneWay(cs: seq<Condition>, ds: seq<Condition>, py: Primitives)
    requires LiteralsTold(cs, ds, py) && Join(TagKeys(Tags(cs, py))) == Join(TagKeys(Tags(ds, py)))
    ensures Tags(cs, py) == Tags(ds, py)
  {
    if cs != [] { JoinReads(cs, py); }
    if ds != [] { JoinReads(ds, py); }
    if cs != [] && ds != [] {
      var rest, rest' := TagKeys(Tags(cs[1..], py)), TagKeys(Tags(ds[1..], py));
      LiteralReadsOneWay(cs[0], Tail(rest, ""), ds[0], Tail(rest', ""), py);
      TailsJoinAlike(rest, rest');
      assert (forall c | c in cs[1..] :: c in cs) && (forall d | d in ds[1..] :: d in ds);
      LiteralsReadOneWay(cs[1..], ds[1..], py);
    }
  }

  lemma SameHead(c: Condition, d: Condition, py: Primitives)
    requires c.Group? && d.Group? && ':' !in c.kind && ':' !in d.kind && KeyOf(c, py) == KeyOf(d, py)
    ensures c.kind == d.kind && Join(Sort(StrLess, Keys(c.children, py))) == Join(Sort(StrLess, Keys(d.children, py)))
  {
    var x, y := Join(Sort(StrLess, Keys(c.children, py))), Join(Sort(StrLess, Keys(d.children, py)));
    assert KeyOf(c, py) == "grp:" + (c.kind + [':'] + x) && KeyOf(d, py) == "grp:" + (d.kind + [':'] + y);
    OrderedKeys(c.kind, x, d.kind, y);
  }

  lemma OnlyChildKeys(c: Condition, d: Condition, py: Primitives)
    requires c.Group? && d.Group? && |c.children| == |d.children| == 1
    requires Join(Sort(StrLess, Keys(c.children, py))) == Join(Sort(StrLess, Keys(d.children, py)))
    ensures KeyOf(c.children[0], py) == KeyOf(d.children[0], py)
  {
    SortOne(KeyOf(c.children[0], py));
    SortOne(KeyOf(d.children[0], py));
    assert Keys(c.children, py) == [KeyOf(c.children[0], py)] && Keys(d.children, py) == [KeyOf(d.children[0], py)];
  }

  /** Between clauses the key fixes the child counts too. */
  lemma {:induction false} ClauseKeyFixesOutline(c: Condition, d: Condition, py: Primitives)
    requires Clause(c) && Clause(d) && Plain(c) && Plain(d) && LeavesTold(c, d, py) && KeyOf(c, py) == KeyOf(d, py)
    ensures Outline(c, py) == Outline(d, py)
  {
    SameKindAndHead(c, d, py);
    if c.Group? {
      if c.kind == "not" {
        NotFixesOutline(c, d, py);
        ClauseKeyFixesOutline(c.children[0], d.children[0], py);
      } else {
        LiteralsFixOutline(c, d, py);
      }
    }
  }

  lemma SameKindAndHead(c: Condition, d: Condition, py: Primitives)
    requires Plain(c) && Plain(d) && KeyOf(c, py) == KeyOf(d, py)
    ensures (c.Pred? <==> d.Pred?) && (c.Group? ==> c.kind == d.kind)
  {
    assert KeyOf(c, py) + "" == KeyOf(c, py);
    SameKind(c, "", d, "", py);
    if c.Group? { SameHead(c, d, py); }
  }

  lemma NotFixesOutline(c: Condition, d: Condition, py: Primitives)
    requires c.Group? && d.Group? && Clause(c) && Clause(d) && c.kind == d.kind == "not"
    requires Plain(c) && Plain(d) && LeavesTold(c, d, py) && KeyOf(c, py) == KeyOf(d, py)
    ensures |c.children| == |d.children| == 1
    ensures var e, f := c.children[0], d.children[0];
            && (c decreases to e)
            && Plain(e) && Plain(f) && LeavesTold(e, f, py) && KeyOf(e, py) == KeyOf(f, py)
            && (Outline(e, py) == Outline(f, py) ==> Outline(c, py) == Outline(d, py))
  {
    var e, f := c.children[0], d.children[0];
    SameHead(c, d, py);
    OnlyChildKeys(c, d, py);
    assert e in c.children && f in d.children;
    ChildTold(c, e, d, f, py);
    NotKey(c, py);
    NotKey(d, py);
  }

  lemma LiteralsFixOutline(c: Condition, d: Condition, py: Primitives)
    requires c.Group? && d.Group? && Plain(c) && Plain(d) && LeavesTold(c, d, py)
    requires (forall e | e in c.children :: Literal(e)) && (forall e | e in d.children :: Literal(e))
    requires KeyOf(c, py) == KeyOf(d, py)
    ensures Outline(c, py) == Outline(d, py)
  {
    var cs := InKeyOrder(c, py);
    var ds := InKeyOrder(d, py);
    OrderedLiteralsTold(c, cs, d, ds, py);
    OrderedKeys(c.kind, Join(TagKeys(Tags(cs, py))), d.kind, Join(TagKeys(Tags(ds, py))));
    LiteralsReadOneWay(cs, ds, py);
    SameTagsSameCount(cs, ds, py);
  }

  lemma OrderedKeys(kind: string, keys: string, kind': string, keys': string)
    requires ':' !in kind && ':' !in kind'
    requires "grp:" + (kind + [':'] + keys) == "grp:" + (kind' + [':'] + keys')
    ensures kind == kind' && keys == keys'
  {
    HeadsReadOneWay(kind, keys, "", kind', keys', "");
    assert keys + "" == keys && keys' + "" == keys';
  }

  lemma SameTagsSameCount(cs: seq<Condition>, ds: seq<Condition>, py: Primitives)
    requires Tags(cs, py) == Tags(ds, py)
    ensures |cs| == |ds|
  {
    assert |Tags(cs, py)| == |Tags(ds, py)|;
  }

  lemma OrderedLiteralsTold(c: Condition, cs: seq<Condition>, d: Condition, ds: seq<Condition>, py: Primitives)
    requires c.Group? && d.Group? && Plain(c) && Plain(d) && LeavesTold(c, d, py)
    requires (forall e | e in c.children :: Literal(e)) && (forall e | e in d.children :: Literal(e))
    requires multiset(cs) == multiset(c.children) && multiset(ds) == multiset(d.children)
    ensures LiteralsTold(cs, ds, py)
  {
    SameElements(cs, c.children);
    SameElements(ds, d.children);
    forall e, f | e in cs && f in ds ensures LeavesTold(e, f, py) { ChildTold(c, e, d, f, py); }
  }

  /** For groups of literals, equal keys mean equal up to reordering, and conversely. */
  lemma ClauseKeyExact(c: Condition, d: Condition, py: Primitives)
    requires Clause(c) && Clause(d) && Plain(c) && Plain(d) && LeavesTold(c, d, py)
    ensures KeyOf(c, py) == KeyOf(d, py) <==> ShapeOf(c) == ShapeOf(d)
  {
    if KeyOf(c, py) == KeyOf(d, py) {
      ClauseKeyFixesOutline(c, d, py);
      EqualKeysMeanEqualTreesIff(c, d, py);
    } else if ShapeOf(c) == ShapeOf(d) {
      ReorderingKeepsKey(c, d, py);
    }
  }

  // ---- Leaves that are told apart ----

  predicate PlainLeaf(p: Condition) { p.Pred? && ':' !in p.fact && ':' !in p.operator }

  /** Bars stand in the text only inside quotes, which a backslash may escape; `open` is the quote the text starts in.
      So Python writes values: bare, quoted, or in lists and dictionaries of these. */
  predicate Shielded(s: string, open: Option<char>) {
    if s == "" then open.None?
    else
      match open
      case None => s[0] != '|' && Shielded(s[1..], if s[0] == '"' || s[0] == '\'' then Some(s[0]) else None)
      case Some(quote) =>
        if s[0] == '\\' then |s| >= 2 && Shielded(s[2..], open)
        else Shielded(s[1..], if s[0] == quote then None else open)
  }

  lemma ShieldedEnds(b: string, y: string, x: string)
    requires Shielded(b, None) && Ended(x, '|') && "" + x == b + y
    ensures b == ""
  {
    assert "" + x == x;
    assert (b + y)[..|b|] == b;
  }

  /** Such a text ends where the whole does or the first bar outside quotes stands. */
  lemma {:induction false} ShieldedUnique(a: string, x: string, b: string, y: string, open: Option<char>)
    requires Shielded(a, open) && Shielded(b, open) && Ended(x, '|') && Ended(y, '|') && a + x == b + y
    ensures a == b
  {
    if a == "" || b == "" {
      if a == "" { ShieldedEnds(b, y, x); } else { ShieldedEnds(a, x, y); }
    } else {
      assert (a + x)[0] == a[0] && (b + y)[0] == b[0];
      if open.Some? && a[0] == '\\' {
        assert (a + x)[1] == a[1] && (b + y)[1] == b[1];
        assert (a + x)[2..] == a[2..] + x && (b + y)[2..] == b[2..] + y;
        ShieldedUnique(a[2..], x, b[2..], y, open);
        assert a == [a[0], a[1]] + a[2..] && b == [b[0], b[1]] + b[2..];
      } else {
        assert (a + x)[1..] == a[1..] + x && (b + y)[1..] == b[1..] + y;
        var next := if open.Some? then (if a[0] == open.value then None else open)
                    else if a[0] == '"' || a[0] == '\'' then Some(a[0]) else None;
        ShieldedUnique(a[1..], x, b[1..], y, next);
        assert a == [a[0]] + a[1..] && b == [b[0]] + b[1..];
      }
    }
  }

  /** Leaves are told apart when no colon stands in a fact or operator, `repr` writes bars inside quotes only, and tells
      their expected values apart. */
  lemma LeavesToldByRepr(c: Condition, d: Condition, py: Primitives)
    requires forall p | HasLeaf(c, p) || HasLeaf(d, p) :: PlainLeaf(p) && Shielded(py.repr(p.expected), None)
    requires forall p, q | HasLeaf(c, p) && HasLeaf(d, q) && p.Pred? && q.Pred? &&
                           py.repr(p.expected) == py.repr(q.expected) :: p.expected == q.expected
    ensures LeavesTold(c, d, py)
  {
    forall p, q, x, y | HasLeaf(c, p) && HasLeaf(d, q) && Ended(x, '|') && Ended(y, '|')
                        && KeyOf(p, py) + x == KeyOf(q, py) + y
      ensures p == q
    {
      LeafKeyParts(p, x, q, y, py);
    }
  }

  lemma LeafKeyReads(p: Condition, x: string, py: Primitives)
    requires p.Pred?
    ensures |KeyOf(p, py) + x| >= 5
    ensures (KeyOf(p, py) + x)[5..] == p.fact + [':'] + (p.operator + [':'] + (py.repr(p.expected) + x))
  {
    var r := py.repr(p.expected);
    var key := p.fact + (":" + (p.operator + (":" + r)));
    assert KeyOf(p, py) == "pred:" + key;
    assert ("pred:" + key + x)[5..] == key + x;
  }

  lemma LeafKeyParts(p: Condition, x: string, q: Condition, y: string, py: Primitives)
    requires PlainLeaf(p) && PlainLeaf(q) && Ended(x, '|') && Ended(y, '|') && KeyOf(p, py) + x == KeyOf(q, py) + y
    requires Shielded(py.repr(p.expected), None) && Shielded(py.repr(q.expected), None)
    ensures p.fact == q.fact && p.operator == q.operator && py.repr(p.expected) == py.repr(q.expected)
  {
    var r, t := py.repr(p.expected), py.repr(q.expected);
    var u, v := p.operator + [':'] + (r + x), q.operator + [':'] + (t + y);
    LeafKeyReads(p, x, py);
    LeafKeyReads(q, y, py);
    FirstFieldUnique(p.fact, u, q.fact, v, ':');
    FirstFieldUnique(p.operator, r + x, q.operator, t + y, ':');
    ShieldedUnique(r, x, t, y, None);
  }
}
