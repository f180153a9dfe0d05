/** Overlaying and applying edge rules (redibis/classification/edge_rules.py). */
module EdgeRules {
  import opened Sequences
  import opened Conditions

  /** `id` is absent or empty when the rule's mapping has no usable id. */
  datatype EdgeRule = EdgeRule(id: Option<string>, when: map<string, Value>, action: map<string, Value>)

  predicate HasId(r: EdgeRule) { r.id.Some? && r.id.value != "" }

  function IdOf(r: EdgeRule): string { r.id.GetOr("") }

  // ---- The ordered dictionary behind the merge: key order plus a map ----

  datatype Table = Table(order: seq<string>, rules: map<string, EdgeRule>)

  function BaseTable(base: seq<EdgeRule>): (t: Table)
    ensures forall x | x in t.order :: x in t.rules
  {
    if base == [] then Table([], map[])
    else
      var t, r := BaseTable(base[..|base| - 1]), base[|base| - 1];
      if HasId(r) then Table(t.order + [IdOf(r)], t.rules[IdOf(r) := r]) else t
  }

  /** None when an overlay entry has no id. */
  function OverlayTable(t: Table, overlay: seq<EdgeRule>): (r: Option<Table>)
    requires forall x | x in t.order :: x in t.rules
    ensures r.Some? ==> forall x | x in r.value.order :: x in r.value.rules
  {
    if overlay == [] then Some(t)
    else
      var before, o := OverlayTable(t, overlay[..|overlay| - 1]), overlay[|overlay| - 1];
      if before.None? || !HasId(o) then None
      else
        var b := before.value;
        Some(Table(if IdOf(o) in b.rules then b.order else b.order + [IdOf(o)], b.rules[IdOf(o) := o]))
  }

  function Listed(t: Table): (r: seq<EdgeRule>)
    requires forall x | x in t.order :: x in t.rules
    ensures |r| == |t.order| && forall k :: 0 <= k < |r| ==> t.order[k] in t.rules && r[k] == t.rules[t.order[k]]
  {
    seq(|t.order|, k requires 0 <= k < |t.order| => assert t.order[k] in t.order; t.rules[t.order[k]])
  }

  function Merge(base: seq<EdgeRule>, overlay: seq<EdgeRule>): Option<seq<EdgeRule>> {
    if overlay == [] then Some(base)
    else
      var t := OverlayTable(BaseTable(base), overlay);
      if t.None? then None else Some(Listed(t.value))
  }

  /** `merge_edge_rules`; None stands for the configuration error on an overlay entry without id. */
  method MergeEdgeRules(base: seq<EdgeRule>, overlay: seq<EdgeRule>) returns (merged: Option<seq<EdgeRule>>)
    ensures merged == Merge(base, overlay)
  {
    if overlay == [] { return Some(base); }
    var order: seq<string>, byId: map<string, EdgeRule> := [], map[];
    for k := 0 to |base|
      invariant Table(order, byId) == BaseTable(base[..k])
    {
      TakeStep(base, k);
      if !HasId(base[k]) { continue; }
      byId := byId[IdOf(base[k]) := base[k]];
      order := order + [IdOf(base[k])];
    }
    assert base[..|base|] == base;
    for k := 0 to |overlay|
      invariant OverlayTable(BaseTable(base), overlay[..k]) == Some(Table(order, byId))
    {
      TakeStep(overlay, k);
      if !HasId(overlay[k]) {
        OverlayFails(BaseTable(base), overlay, k + 1);
        return None;
      }
      if IdOf(overlay[k]) !in byId { order := order + [IdOf(overlay[k])]; }
      byId := byId[IdOf(overlay[k]) := overlay[k]];
    }
    assert overlay[..|overlay|] == overlay;
    merged := Some(Listed(Table(order, byId)));
  }

  lemma {:induction false} OverlayFails(t: Table, overlay: seq<EdgeRule>, k: nat)
    requires forall x | x in t.order :: x in t.rules
    requires k <= |overlay| && OverlayTable(t, overlay[..k]).None?
    ensures OverlayTable(t, overlay).None?
    decreases |overlay|
  {
    if k == |overlay| {
      assert overlay[..k] == overlay;
    } else {
      assert overlay[..|overlay| - 1][..k] == overlay[..k];
      OverlayFails(t, overlay[..|overlay| - 1], k);
    }
  }

  // ---- Id-unique rule lists, as loaded packs and validated overlays are ----

  ghost predicate UniqueIds(rules: seq<EdgeRule>) {
    && (forall r | r in rules :: HasId(r))
    && forall i, j :: 0 <= i < j < |rules| ==> IdOf(rules[i]) != IdOf(rules[j])
  }

  /** The first rule with that id. */
  function Find(rules: seq<EdgeRule>, id: string): Option<EdgeRule> {
    if rules == [] then None
    else if Find(rules[..|rules| - 1], id).Some? then Find(rules[..|rules| - 1], id)
    else if IdOf(rules[|rules| - 1]) == id then Some(rules[|rules| - 1])
    else None
  }

  /** The direct description: base rules in place, each replaced where the overlay has its id ... */
  function Override(base: seq<EdgeRule>, overlay: seq<EdgeRule>): (r: seq<EdgeRule>)
    ensures |r| == |base|
    ensures forall k :: 0 <= k < |base| ==> r[k] == Find(overlay, IdOf(base[k])).GetOr(base[k])
  {
    if base == [] then []
    else Override(base[..|base| - 1], overlay) + [Find(overlay, IdOf(base[|base| - 1])).GetOr(base[|base| - 1])]
  }

  /** ... then the overlay's rules whose ids are new, in overlay order. */
  function Fresh(base: seq<EdgeRule>, overlay: seq<EdgeRule>): seq<EdgeRule> {
    if overlay == [] then []
    else
      var o := overlay[|overlay| - 1];
      Fresh(base, overlay[..|overlay| - 1]) + if Find(base, IdOf(o)).Some? then [] else [o]
  }

  function Overlaid(base: seq<EdgeRule>, overlay: seq<EdgeRule>): seq<EdgeRule> {
    Override(base, overlay) + Fresh(base, overlay)
  }

  // ---- Lookup ----

  lemma {:induction false} FindIs(rules: seq<EdgeRule>, id: string)
    ensures Find(rules, id).Some? ==> Find(rules, id).value in rules && IdOf(Find(rules, id).value) == id
    ensures Find(rules, id).Some? <==> exists k :: 0 <= k < |rules| && IdOf(rules[k]) == id
  {
    if rules != [] { FindIs(rules[..|rules| - 1], id); }
  }

  lemma {:induction false} FindConcat(a: seq<EdgeRule>, b: seq<EdgeRule>, id: string)
    ensures Find(a + b, id) == if Find(a, id).Some? then Find(a, id) else Find(b, id)
  {
    if b == [] {
      assert a + b == a;
    } else {
      var n := |b| - 1;
      assert (a + b)[..|a + b| - 1] == a + b[..n] && (a + b)[|a + b| - 1] == b[n];
      FindConcat(a, b[..n], id);
    }
  }

  lemma {:induction false} FindUnique(rules: seq<EdgeRule>, k: nat)
    requires UniqueIds(rules) && k < |rules|
    ensures Find(rules, IdOf(rules[k])) == Some(rules[k])
  {
    var front := rules[..|rules| - 1];
    assert forall r | r in front :: r in rules;
    FindIs(front, IdOf(rules[k]));
    if k < |front| { FindUnique(front, k); }
  }

  lemma {:induction false} FindOverride(base: seq<EdgeRule>, overlay: seq<EdgeRule>, id: string)
    ensures Find(Override(base, overlay), id) ==
            if Find(base, id).Some? && Find(overlay, id).Some? then Find(overlay, id) else Find(base, id)
  {
    if base != [] {
      var front, b := base[..|base| - 1], base[|base| - 1];
      FindOverride(front, overlay, id);
      var o := Override(front, overlay);
      var last := Find(overlay, IdOf(b)).GetOr(b);
      assert (o + [last])[..|o|] == o;
      FindIs(overlay, IdOf(b));
      FindIs(front, id);
    }
  }

  lemma {:induction false} FindFresh(base: seq<EdgeRule>, overlay: seq<EdgeRule>, id: string)
    ensures Find(Fresh(base, overlay), id) == if Find(base, id).Some? then None else Find(overlay, id)
  {
    if overlay != [] {
      var front, o := overlay[..|overlay| - 1], overlay[|overlay| - 1];
      FindFresh(base, front, id);
      FindConcat(Fresh(base, front), if Find(base, IdOf(o)).Some? then [] else [o], id);
      FindIs(base, id);
      assert [o][..0] == [];
    }
  }

  /** Looking an id up in the overlaid list: the overlay answers first. */
  lemma FindOverlaid(base: seq<EdgeRule>, overlay: seq<EdgeRule>, id: string)
    ensures Find(Overlaid(base, overlay), id) == if Find(overlay, id).Some? then Find(overlay, id) else Find(base, id)
  {
    FindConcat(Override(base, overlay), Fresh(base, overlay), id);
    FindOverride(base, overlay, id);
    FindFresh(base, overlay, id);
  }

  /** Overlaying unique lists gives every overlay rule, every base rule whose id the overlay does not have, and no
      other. */
  lemma OverlaidHas(base: seq<EdgeRule>, overlay: seq<EdgeRule>, r: EdgeRule)
    requires UniqueIds(base) && UniqueIds(overlay)
    ensures r in Overlaid(base, overlay) <==>
            r in overlay || (r in base && forall o | o in overlay :: o.id != r.id)
  {
    var kept := Override(base, overlay);
    FreshMembers(base, overlay, r);
    FindIs(base, IdOf(r));
    if r in overlay {
      var k :| 0 <= k < |overlay| && overlay[k] == r;
      FindUnique(overlay, k);
      if j :| 0 <= j < |base| && IdOf(base[j]) == IdOf(r) { assert kept[j] == r; }
    }
    if r in base && forall o | o in overlay :: o.id != r.id {
      var k :| 0 <= k < |base| && base[k] == r;
      FindIs(overlay, IdOf(r));
      forall j | 0 <= j < |overlay| ensures IdOf(overlay[j]) != IdOf(r) { assert overlay[j] in overlay; }
      assert kept[k] == r;
    }
    if r in kept {
      var k :| 0 <= k < |kept| && kept[k] == r;
      assert base[k] in base;
      FindIs(overlay, IdOf(base[k]));
      if Find(overlay, IdOf(base[k])).None? {
        forall o | o in overlay ensures o.id != r.id {
          var j :| 0 <= j < |overlay| && overlay[j] == o;
        }
      }
    }
  }

  // ---- The dictionary merge is that description ----

  function IdsOf(rules: seq<EdgeRule>): (r: seq<string>)
    ensures |r| == |rules| && forall k :: 0 <= k < |rules| ==> r[k] == IdOf(rules[k])
  {
    if rules == [] then [] else IdsOf(rules[..|rules| - 1]) + [IdOf(rules[|rules| - 1])]
  }

  /** The dictionary holds for each id the last rule given for it. */
  ghost predicate Holds(byId: map<string, EdgeRule>, rules: seq<EdgeRule>) {
    forall id :: Find(rules, id) == if id in byId then Some(byId[id]) else None
  }

  lemma UniquePrefix(rules: seq<EdgeRule>, n: nat)
    requires UniqueIds(rules) && n <= |rules|
    ensures UniqueIds(rules[..n])
  {
  }

  lemma {:induction false} BaseTableIs(base: seq<EdgeRule>)
    requires UniqueIds(base)
    ensures BaseTable(base).order == IdsOf(base) && Holds(BaseTable(base).rules, base)
  {
    if base != [] {
      var front, r := base[..|base| - 1], base[|base| - 1];
      UniquePrefix(base, |base| - 1);
      BaseTableIs(front);
      FindIs(front, IdOf(r));
      assert r in base;
    }
  }

  lemma HoldsPut(t: Table, base: seq<EdgeRule>, overlay: seq<EdgeRule>, o: EdgeRule)
    requires Holds(t.rules, Overlaid(base, overlay)) && Find(overlay, IdOf(o)).None?
    ensures Holds(t.rules[IdOf(o) := o], Overlaid(base, overlay + [o]))
  {
    forall id ensures Find(Overlaid(base, overlay + [o]), id) ==
      (if id in t.rules[IdOf(o) := o] then Some(t.rules[IdOf(o) := o][id]) else None)
    {
      FindOverlaid(base, overlay, id);
      FindOverlaid(base, overlay + [o], id);
      FindConcat(overlay, [o], id);
      assert [o][..0] == [];
    }
  }

  lemma FreshAppend(base: seq<EdgeRule>, overlay: seq<EdgeRule>, o: EdgeRule)
    ensures Fresh(base, overlay + [o]) == Fresh(base, overlay) + if Find(base, IdOf(o)).Some? then [] else [o]
  {
    assert (overlay + [o])[..|overlay|] == overlay;
  }

  /** The merge's dictionary describes the overlaid list. */
  ghost predicate Describes(t: Table, base: seq<EdgeRule>, overlay: seq<EdgeRule>) {
    t.order == IdsOf(base) + IdsOf(Fresh(base, overlay)) && Holds(t.rules, Overlaid(base, overlay))
  }

  lemma DescribesStart(base: seq<EdgeRule>)
    requires UniqueIds(base)
    ensures Describes(BaseTable(base), base, [])
  {
    BaseTableIs(base);
    assert Override(base, []) == base;
    assert Overlaid(base, []) == base + [] == base;
  }

  /** An id the overlay has not used yet is in the dictionary exactly when the base has it. */
  lemma KnownFromBase(byId: map<string, EdgeRule>, base: seq<EdgeRule>, overlay: seq<EdgeRule>, id: string)
    requires Holds(byId, Overlaid(base, overlay)) && Find(overlay, id).None?
    ensures id in byId <==> Find(base, id).Some?
  {
    FindOverlaid(base, overlay, id);
  }

  lemma AppendTwice(a: seq<string>, b: seq<string>, id: string)
    ensures (a + b) + [id] == a + (b + [id])
    ensures a + (b + []) == a + b
  {
    assert b + [] == b;
  }

  lemma DescribesStep(t: Table, base: seq<EdgeRule>, overlay: seq<EdgeRule>, o: EdgeRule)
    requires Describes(t, base, overlay) && Find(overlay, IdOf(o)).None?
    ensures var order := if IdOf(o) in t.rules then t.order else t.order + [IdOf(o)];
            Describes(Table(order, t.rules[IdOf(o) := o]), base, overlay + [o])
  {
    HoldsPut(t, base, overlay, o);
    KnownFromBase(t.rules, base, overlay, IdOf(o));
    FreshIds(base, overlay, o);
    AppendTwice(IdsOf(base), IdsOf(Fresh(base, overlay)), IdOf(o));
  }

  /** A rule with an id the base lacks comes last among the new ids; one the base has adds none. */
  lemma FreshIds(base: seq<EdgeRule>, overlay: seq<EdgeRule>, o: EdgeRule)
    ensures IdsOf(Fresh(base, overlay + [o])) ==
            IdsOf(Fresh(base, overlay)) + if Find(base, IdOf(o)).Some? then [] else [IdOf(o)]
  {
    FreshAppend(base, overlay, o);
    var added := Fresh(base, overlay);
    if Find(base, IdOf(o)).Some? {
      assert added + [] == added;
    } else {
      assert IdsOf(added + [o]) == IdsOf(added) + [IdOf(o)];
    }
  }

  lemma LastIsNew(rules: seq<EdgeRule>)
    requires UniqueIds(rules) && rules != []
    ensures HasId(rules[|rules| - 1]) && Find(rules[..|rules| - 1], IdOf(rules[|rules| - 1])).None?
    ensures rules == rules[..|rules| - 1] + [rules[|rules| - 1]]
  {
    assert rules[|rules| - 1] in rules;
    FindIs(rules[..|rules| - 1], IdOf(rules[|rules| - 1]));
  }

  lemma {:induction false} OverlayTableIs(base: seq<EdgeRule>, overlay: seq<EdgeRule>)
    requires UniqueIds(base) && UniqueIds(overlay)
    ensures OverlayTable(BaseTable(base), overlay).Some?
    ensures Describes(OverlayTable(BaseTable(base), overlay).value, base, overlay)
  {
    if overlay == [] {
      DescribesStart(base);
    } else {
      var front, o := overlay[..|overlay| - 1], overlay[|overlay| - 1];
      assert UniqueIds(front) by { UniquePrefix(overlay, |overlay| - 1); }
      OverlayTableIs(base, front);
      LastIsNew(overlay);
      DescribesStep(OverlayTable(BaseTable(base), front).value, base, front, o);
    }
  }

  lemma {:induction false} FreshMembers(base: seq<EdgeRule>, overlay: seq<EdgeRule>, r: EdgeRule)
    ensures r in Fresh(base, overlay) <==> r in overlay && Find(base, IdOf(r)).None?
  {
    if overlay != [] {
      FreshMembers(base, overlay[..|overlay| - 1], r);
      assert r in overlay <==> r in overlay[..|overlay| - 1] || r == overlay[|overlay| - 1];
    }
  }

  lemma {:induction false} FreshUnique(base: seq<EdgeRule>, overlay: seq<EdgeRule>)
    requires UniqueIds(overlay)
    ensures UniqueIds(Fresh(base, overlay))
  {
    if overlay != [] {
      var n := |overlay| - 1;
      UniquePrefix(overlay, n);
      FreshUnique(base, overlay[..n]);
      var f := Fresh(base, overlay[..n]);
      forall k | 0 <= k < |f| ensures IdOf(f[k]) != IdOf(overlay[n]) { FreshMembers(base, overlay[..n], f[k]); }
      assert overlay[n] in overlay;
    }
  }

  lemma OverrideKeepsIds(base: seq<EdgeRule>, overlay: seq<EdgeRule>)
    requires UniqueIds(base) && UniqueIds(overlay)
    ensures UniqueIds(Override(base, overlay)) && IdsOf(Override(base, overlay)) == IdsOf(base)
  {
    var r := Override(base, overlay);
    forall k | 0 <= k < |r| ensures HasId(r[k]) && IdOf(r[k]) == IdOf(base[k]) {
      assert base[k] in base;
      FindIs(overlay, IdOf(base[k]));
    }
  }

  lemma {:induction false} IdsConcat(a: seq<EdgeRule>, b: seq<EdgeRule>)
    ensures IdsOf(a + b) == IdsOf(a) + IdsOf(b)
  {
  }

  /** Ids stay unique, base ids keep their places, and new ids follow in overlay order. */
  lemma OverlaidShape(base: seq<EdgeRule>, overlay: seq<EdgeRule>)
    requires UniqueIds(base) && UniqueIds(overlay)
    ensures UniqueIds(Overlaid(base, overlay))
    ensures IdsOf(Overlaid(base, overlay)) == IdsOf(base) + IdsOf(Fresh(base, overlay))
  {
    var kept, added := Override(base, overlay), Fresh(base, overlay);
    OverrideKeepsIds(base, overlay);
    FreshUnique(base, overlay);
    IdsConcat(kept, added);
    forall i, j | 0 <= i < |kept| && 0 <= j < |added| ensures IdOf(kept[i]) != IdOf(added[j]) {
      FreshMembers(base, overlay, added[j]);
      FindIs(base, IdOf(added[j]));
      assert IdOf(kept[i]) == IdsOf(base)[i];
    }
    UniqueConcat(kept, added);
  }

  lemma UniqueConcat(a: seq<EdgeRule>, b: seq<EdgeRule>)
    requires UniqueIds(a) && UniqueIds(b)
    requires forall i, j | 0 <= i < |a| && 0 <= j < |b| :: IdOf(a[i]) != IdOf(b[j])
    ensures UniqueIds(a + b)
  {
  }

  /** On id-unique lists `merge_edge_rules` yields exactly the overlaid list. */
  lemma MergeIsOverlaid(base: seq<EdgeRule>, overlay: seq<EdgeRule>)
    requires UniqueIds(base) && UniqueIds(overlay)
    ensures Merge(base, overlay) == Some(Overlaid(base, overlay))
  {
    if overlay == [] {
      assert Override(base, []) == base;
      assert Overlaid(base, []) == base;
    } else {
      OverlayTableIs(base, overlay);
      OverlaidShape(base, overlay);
      var t, all := OverlayTable(BaseTable(base), overlay).value, Overlaid(base, overlay);
      assert |t.order| == |all|;
      forall k | 0 <= k < |all| ensures Listed(t)[k] == all[k] {
        assert t.order[k] == IdsOf(all)[k] == IdOf(all[k]);
        FindUnique(all, k);
      }
      assert Listed(t) == all;
    }
  }

  // ---- The algebra of overlays ----

  lemma {:induction false} OverrideConcat(a: seq<EdgeRule>, b: seq<EdgeRule>, overlay: seq<EdgeRule>)
    ensures Override(a + b, overlay) == Override(a, overlay) + Override(b, overlay)
  {
  }

  lemma {:induction false} FreshConcat(base: seq<EdgeRule>, a: seq<EdgeRule>, b: seq<EdgeRule>)
    ensures Fresh(base, a + b) == Fresh(base, a) + Fresh(base, b)
  {
    if b == [] {
      assert a + b == a;
      assert Fresh(base, a) + [] == Fresh(base, a);
    } else {
      var n := |b| - 1;
      assert a + b == (a + b[..n]) + [b[n]];
      FreshAppend(base, a + b[..n], b[n]);
      FreshConcat(base, a, b[..n]);
    }
  }

  lemma OverrideTwice(a: seq<EdgeRule>, b: seq<EdgeRule>, c: seq<EdgeRule>)
    ensures Override(Override(a, b), c) == Override(a, Overlaid(b, c))
  {
    forall k | 0 <= k < |a| ensures Override(Override(a, b), c)[k] == Override(a, Overlaid(b, c))[k] {
      FindOverlaid(b, c, IdOf(a[k]));
      FindIs(b, IdOf(a[k]));
    }
  }

  lemma {:induction false} OverrideFresh(a: seq<EdgeRule>, b: seq<EdgeRule>, c: seq<EdgeRule>)
    ensures Override(Fresh(a, b), c) == Fresh(a, Override(b, c))
  {
    if b == [] {
      assert Override([], c) == [];
    } else {
      var front, o := b[..|b| - 1], b[|b| - 1];
      OverrideFresh(a, front, c);
      var last := Find(c, IdOf(o)).GetOr(o);
      FindIs(c, IdOf(o));
      FreshAppend(a, Override(front, c), last);
      if Find(a, IdOf(o)).None? {
        OverrideConcat(Fresh(a, front), [o], c);
        assert Override([o], c) == [last];
      } else {
        assert Fresh(a, b) == Fresh(a, front) + [] == Fresh(a, front);
      }
    }
  }

  lemma {:induction false} FreshFresh(a: seq<EdgeRule>, b: seq<EdgeRule>, c: seq<EdgeRule>)
    ensures Fresh(Overlaid(a, b), c) == Fresh(a, Fresh(b, c))
  {
    if c != [] {
      var front, o := c[..|c| - 1], c[|c| - 1];
      FreshFresh(a, b, front);
      FindOverlaid(a, b, IdOf(o));
      if Find(b, IdOf(o)).None? {
        FreshAppend(a, Fresh(b, front), o);
      } else {
        assert Fresh(b, c) == Fresh(b, front) + [] == Fresh(b, front);
      }
    }
  }

  /** Overlaying is associative: how a stack of overlays is grouped does not matter. */
  lemma OverlayAssociative(a: seq<EdgeRule>, b: seq<EdgeRule>, c: seq<EdgeRule>)
    ensures Overlaid(Overlaid(a, b), c) == Overlaid(a, Overlaid(b, c))
  {
    var kept, middle, last := Override(a, Overlaid(b, c)), Fresh(a, Override(b, c)), Fresh(a, Fresh(b, c));
    assert Overlaid(Overlaid(a, b), c) == kept + middle + last by {
      OverrideConcat(Override(a, b), Fresh(a, b), c);
      OverrideTwice(a, b, c);
      OverrideFresh(a, b, c);
      FreshFresh(a, b, c);
    }
    assert Overlaid(a, Overlaid(b, c)) == kept + (middle + last) by { FreshConcat(a, Override(b, c), Fresh(b, c)); }
  }

  lemma {:induction false} NothingFresh(base: seq<EdgeRule>, overlay: seq<EdgeRule>)
    requires forall r | r in overlay :: Find(base, IdOf(r)).Some?
    ensures Fresh(base, overlay) == []
  {
    if overlay != [] {
      assert overlay[|overlay| - 1] in overlay;
      NothingFresh(base, overlay[..|overlay| - 1]);
    }
  }

  /** Applying the same overlay again changes nothing. */
  lemma OverlayIdempotent(a: seq<EdgeRule>, b: seq<EdgeRule>)
    requires UniqueIds(b)
    ensures Overlaid(Overlaid(a, b), b) == Overlaid(a, b)
  {
    var once := Overlaid(a, b);
    forall r | r in b ensures Find(once, IdOf(r)).Some? {
      FindOverlaid(a, b, IdOf(r));
      FindIs(b, IdOf(r));
    }
    NothingFresh(once, b);
    forall k | 0 <= k < |once| ensures Override(once, b)[k] == once[k] {
      if k < |a| {
        FindIs(b, IdOf(a[k]));
      } else {
        var r := once[k];
        assert r == Fresh(a, b)[k - |a|];
        FreshMembers(a, b, r);
        var i :| 0 <= i < |b| && b[i] == r;
        FindUnique(b, i);
      }
    }
    assert Override(once, b) == once;
  }

  // ---- First match ----

  /** `apply_edge_rules`: the first rule whose condition holds and which no passing checksum blocks. */
  function FirstMatch(rules: seq<EdgeRule>, applies: EdgeRule -> bool): Option<EdgeRule> {
    if rules == [] then None else if applies(rules[0]) then Some(rules[0]) else FirstMatch(rules[1..], applies)
  }

  ghost predicate IsFirst(rules: seq<EdgeRule>, k: nat, when: EdgeRule -> bool, blocked: EdgeRule -> bool)
    requires k < |rules|
  {
    when(rules[k]) && !blocked(rules[k]) && forall j :: 0 <= j < k ==> !when(rules[j]) || blocked(rules[j])
  }

  method ApplyEdgeRules(rules: seq<EdgeRule>, when: EdgeRule -> bool, blocked: EdgeRule -> bool)
      returns (hit: Option<EdgeRule>)
    ensures hit == FirstMatch(rules, r => when(r) && !blocked(r))
    ensures hit.Some? ==> exists k: nat :: k < |rules| && rules[k] == hit.value && IsFirst(rules, k, when, blocked)
    ensures hit.None? ==> forall k :: 0 <= k < |rules| ==> !when(rules[k]) || blocked(rules[k])
  {
    ghost var applies := r => when(r) && !blocked(r);
    for k := 0 to |rules|
      invariant FirstMatch(rules, applies) == FirstMatch(rules[k..], applies)
      invariant forall j :: 0 <= j < k ==> !when(rules[j]) || blocked(rules[j])
    {
      assert rules[k..][1..] == rules[k + 1..];
      if !when(rules[k]) { continue; }
      if blocked(rules[k]) { continue; }
      assert IsFirst(rules, k, when, blocked);
      return Some(rules[k]);
    }
    hit := None;
  }

  /** First-match evaluation does not depend on how overlays were grouped before merging. */
  lemma GroupingIrrelevant(a: seq<EdgeRule>, b: seq<EdgeRule>, c: seq<EdgeRule>, applies: EdgeRule -> bool)
    requires UniqueIds(a) && UniqueIds(b) && UniqueIds(c)
    ensures Merge(a, b).Some? && Merge(b, c).Some?
    ensures Merge(Merge(a, b).value, c) == Merge(a, Merge(b, c).value)
    ensures Merge(a, Merge(b, c).value).Some?
    ensures FirstMatch(Merge(Merge(a, b).value, c).value, applies) ==
            FirstMatch(Merge(a, Merge(b, c).value).value, applies)
  {
    MergeIsOverlaid(a, b);
    MergeIsOverlaid(b, c);
    OverlaidShape(a, b);
    OverlaidShape(b, c);
    MergeIsOverlaid(Overlaid(a, b), c);
    MergeIsOverlaid(a, Overlaid(b, c));
    OverlayAssociative(a, b, c);
  }
}
