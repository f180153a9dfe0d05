/** What a classification resolution promises (redibis/classification/policy_engine.py), in terms of the candidates, the
    context and the policy pack alone. */
module ResolutionLaws {
  import opened Sequences
  import opened Conditions
  import opened Ensemble
  import opened PolicyEngine

  // ---- Which candidates are applied ----

  /** The policy forbids applying the tag: it is escalated instead. */
  ghost predicate Forbids(p: Policy, ref: TagRef) { ref in p.tags && p.tags[ref].applyForbidden }

  /** Neither a mere suggestion nor a forbidden tag. */
  ghost predicate Counts(p: Policy, c: Candidate) { !c.suggestOnly && !Forbids(p, c.ref) }

  /** Candidate `k` decides its tag: it counts, it is the first of its tag that does or has confidence, and no later one
      of its tag that counts has any. */
  ghost predicate Decides(p: Policy, cs: seq<Candidate>, k: nat) {
    && k < |cs| && Counts(p, cs[k])
    && (cs[k].confidence > 0.0 || forall j | 0 <= j < k && cs[j].ref == cs[k].ref :: !Counts(p, cs[j]))
    && forall m | k < m < |cs| && cs[m].ref == cs[k].ref && Counts(p, cs[m]) :: cs[m].confidence <= 0.0
  }

  ghost function AsApplied(c: Candidate): Resolved { Resolved(c.ref, c.attributes, false, c.source) }

  /** The list holds what the deciding candidates give, once for each tag, and nothing else. */
  ghost predicate HoldsDecided(p: Policy, cs: seq<Candidate>, sel: seq<Resolved>) {
    && (forall t :: t in sel <==> Decided(p, cs, t))
    && (forall i, j | 0 <= i < j < |sel| :: sel[i].ref != sel[j].ref)
    && (forall ref :: Has(sel, ref) <==> Applied(p, cs, ref))
  }

  /** A deciding candidate gives `t`. */
  ghost predicate Decided(p: Policy, cs: seq<Candidate>, t: Resolved) {
    exists k: nat :: Decides(p, cs, k) && t == AsApplied(cs[k])
  }

  /** Some candidate of this tag counts. */
  ghost predicate Applied(p: Policy, cs: seq<Candidate>, x: TagRef) { exists c | c in cs :: c.ref == x && Counts(p, c) }

  lemma FrontOf(cs: seq<Candidate>, k: nat)
    requires cs != [] && k < |cs| - 1
    ensures cs[..|cs| - 1][k] == cs[k]
  {
  }

  /** A candidate that decided before goes on to unless the next one of its tag takes over. */
  lemma DecidesNext(p: Policy, cs: seq<Candidate>, k: nat)
    requires cs != [] && k < |cs| - 1
    ensures var (front, c) := (cs[..|cs| - 1], cs[|cs| - 1]);
            Decides(p, cs, k) <==>
            Decides(p, front, k) && !(c.ref == cs[k].ref && Counts(p, c) && c.confidence > 0.0)
  {
    var front, c := cs[..|cs| - 1], cs[|cs| - 1];
    forall j | 0 <= j < |front| ensures front[j] == cs[j] {}
  }

  lemma DecidesLast(p: Policy, cs: seq<Candidate>)
    requires cs != []
    ensures var (front, c) := (cs[..|cs| - 1], cs[|cs| - 1]);
            Decides(p, cs, |cs| - 1) <==>
            Counts(p, c) && (c.confidence > 0.0 || forall x | x in front && x.ref == c.ref :: !Counts(p, x))
  {
    var front, c := cs[..|cs| - 1], cs[|cs| - 1];
    forall j | 0 <= j < |front| ensures front[j] == cs[j] && front[j] in front {}
  }

  /** One entry for each tag. */
  ghost predicate OneEach(sel: seq<Resolved>) { forall i, j | 0 <= i < j < |sel| :: sel[i].ref != sel[j].ref }

  lemma PutHolds(sel: seq<Resolved>, t: Resolved)
    requires OneEach(sel)
    ensures OneEach(Put(sel, t))
    ensures forall x :: x in Put(sel, t) <==> x == t || (x in sel && x.ref != t.ref)
    ensures forall ref :: Has(Put(sel, t), ref) <==> Has(sel, ref) || ref == t.ref
  {
    var r := Put(sel, t);
    if Has(sel, t.ref) {
      var i := At(sel, t.ref);
      assert r == sel[..i] + [t] + sel[i + 1..];
      forall x ensures x in r <==> x == t || (x in sel && x.ref != t.ref) {
        if x in sel && x.ref != t.ref {
          var k :| 0 <= k < |sel| && sel[k] == x;
          assert r[k] == x;
        }
        if x in r && x != t { var k :| 0 <= k < |r| && r[k] == x; }
        assert r[i] == t;
      }
      forall ref ensures Has(r, ref) <==> Has(sel, ref) || ref == t.ref {
        forall k | 0 <= k < |sel| ensures r[k].ref == sel[k].ref {}
      }
    } else {
      assert forall k | 0 <= k < |sel| :: r[k] == sel[k];
      assert r[|sel|] == t;
    }
  }

  lemma {:induction false} SelectedDecided(p: Policy, cs: seq<Candidate>)
    ensures HoldsDecided(p, cs, Select(p, cs).selected)
  {
    if cs == [] {
      assert forall k: nat :: !Decides(p, cs, k);
    } else {
      var front, c := cs[..|cs| - 1], cs[|cs| - 1];
      SelectedDecided(p, front);
      if Counts(p, c) && (!Has(Select(p, front).selected, c.ref) || c.confidence > 0.0) {
        TakesOver(p, cs, Select(p, front).selected);
      } else {
        StaysDecided(p, cs, Select(p, front).selected);
      }
    }
  }

  lemma AppliedNext(p: Policy, cs: seq<Candidate>, ref: TagRef)
    requires cs != []
    ensures var (front, last) := (cs[..|cs| - 1], cs[|cs| - 1]);
            Applied(p, cs, ref) <==> Applied(p, front, ref) || (last.ref == ref && Counts(p, last))
  {
    assert cs == cs[..|cs| - 1] + [cs[|cs| - 1]];
  }

  /** The last candidate decides its tag. */
  lemma DecidedAnew(p: Policy, cs: seq<Candidate>, t: Resolved)
    requires cs != [] && Decides(p, cs, |cs| - 1)
    ensures var (front, c) := (cs[..|cs| - 1], cs[|cs| - 1]);
            Decided(p, cs, t) <==> t == AsApplied(c) || (Decided(p, front, t) && t.ref != c.ref)
  {
    var front, c, n := cs[..|cs| - 1], cs[|cs| - 1], |cs| - 1;
    if Decided(p, cs, t) && t != AsApplied(c) {
      var k: nat :| Decides(p, cs, k) && t == AsApplied(cs[k]);
      DecidesBehind(p, cs, k);
      assert t == AsApplied(front[k]);
    }
    if Decided(p, front, t) && t.ref != c.ref {
      var k: nat :| Decides(p, front, k) && t == AsApplied(front[k]);
      DecidesBehind(p, cs, k);
      assert t == AsApplied(cs[k]);
    }
  }

  lemma DecidesBehind(p: Policy, cs: seq<Candidate>, k: nat)
    requires cs != [] && Decides(p, cs, |cs| - 1) && k < |cs| - 1
    ensures Decides(p, cs, k) <==> Decides(p, cs[..|cs| - 1], k) && cs[k].ref != cs[|cs| - 1].ref
  {
    DecidesNext(p, cs, k);
  }

  lemma TakesOver(p: Policy, cs: seq<Candidate>, before: seq<Resolved>)
    requires cs != [] && HoldsDecided(p, cs[..|cs| - 1], before)
    requires var c := cs[|cs| - 1]; Counts(p, c) && (!Has(before, c.ref) || c.confidence > 0.0)
    ensures HoldsDecided(p, cs, Put(before, AsApplied(cs[|cs| - 1])))
  {
    var c := cs[|cs| - 1];
    var after := Put(before, AsApplied(c));
    PutHolds(before, AsApplied(c));
    DecidesLast(p, cs);
    forall t ensures t in after <==> Decided(p, cs, t) { DecidedAnew(p, cs, t); }
    forall ref ensures Has(after, ref) <==> Applied(p, cs, ref) { AppliedNext(p, cs, ref); }
  }

  /** The last candidate leaves the others as they were. */
  lemma DecidedStill(p: Policy, cs: seq<Candidate>, t: Resolved)
    requires cs != []
    requires var c := cs[|cs| - 1]; Counts(p, c) ==> Applied(p, cs[..|cs| - 1], c.ref) && c.confidence <= 0.0
    ensures Decided(p, cs, t) <==> Decided(p, cs[..|cs| - 1], t)
  {
    var front, n := cs[..|cs| - 1], |cs| - 1;
    DecidesLast(p, cs);
    forall k: nat ensures Decides(p, cs, k) <==> Decides(p, front, k) {
      if k < n { DecidesNext(p, cs, k); }
    }
    if k: nat :| Decides(p, cs, k) && t == AsApplied(cs[k]) { assert t == AsApplied(front[k]); }
    if k: nat :| Decides(p, front, k) && t == AsApplied(front[k]) { assert t == AsApplied(cs[k]); }
  }

  lemma StaysDecided(p: Policy, cs: seq<Candidate>, before: seq<Resolved>)
    requires cs != [] && HoldsDecided(p, cs[..|cs| - 1], before)
    requires var c := cs[|cs| - 1]; Counts(p, c) ==> Has(before, c.ref) && c.confidence <= 0.0
    ensures HoldsDecided(p, cs, before)
  {
    forall t ensures t in before <==> Decided(p, cs, t) { DecidedStill(p, cs, t); }
    forall ref ensures Has(before, ref) <==> Applied(p, cs, ref) { AppliedNext(p, cs, ref); }
  }

  // ---- What is dropped, suggested and escalated ----

  datatype Pile = Suggested | Dropped | Escalated

  /** Which candidates go where: suggestions and forbidden tags are dropped, forbidden tags with hard evidence
      escalated. */
  ghost predicate GoesTo(p: Policy, c: Candidate, pile: Pile) {
    match pile
    case Suggested => c.suggestOnly
    case Dropped => c.suggestOnly || Forbids(p, c.ref)
    case Escalated => !c.suggestOnly && Forbids(p, c.ref)
  }

  ghost function Piled(p: Policy, cs: seq<Candidate>, pile: Pile): (r: seq<Candidate>)
    ensures forall c :: c in r <==> c in cs && GoesTo(p, c, pile)
  {
    if cs == [] then []
    else
      var front, last := cs[..|cs| - 1], cs[|cs| - 1];
      assert forall c :: c in cs <==> c in front || c == last;
      Piled(p, front, pile) + if GoesTo(p, last, pile) then [last] else []
  }

  ghost function RefsOf(cs: seq<Candidate>): (r: seq<TagRef>)
    ensures |r| == |cs| && forall k | 0 <= k < |cs| :: r[k] == cs[k].ref
  {
    seq(|cs|, k requires 0 <= k < |cs| => cs[k].ref)
  }

  lemma RefsOfAppend(cs: seq<Candidate>, c: Candidate)
    ensures RefsOf(cs + [c]) == RefsOf(cs) + [c.ref]
  {
  }

  lemma {:induction false} SortedOut(p: Policy, cs: seq<Candidate>)
    ensures var st := Select(p, cs);
            && st.suggestions == Piled(p, cs, Suggested)
            && st.dropped == RefsOf(Piled(p, cs, Dropped))
            && st.escalations == RefsOf(Piled(p, cs, Escalated))
  {
    if cs != [] {
      var front, c := cs[..|cs| - 1], cs[|cs| - 1];
      SortedOut(p, front);
      RefsOfAppend(Piled(p, front, Dropped), c);
      RefsOfAppend(Piled(p, front, Escalated), c);
      assert Piled(p, front, Dropped) + [] == Piled(p, front, Dropped);
      assert Piled(p, front, Escalated) + [] == Piled(p, front, Escalated);
      assert Piled(p, front, Suggested) + [] == Piled(p, front, Suggested);
    }
  }

  // ---- The tags of the result ----

  /** `x` is a mandatory co-tag of an applied tag. */
  ghost predicate Follows(p: Policy, cs: seq<Candidate>, x: TagRef) {
    exists y | Applied(p, cs, y) && y.tag in p.cotags :: x in p.cotags[y.tag]
  }

  /** The context's jurisdiction, in capitals, brings `x` along. */
  ghost predicate Local(p: Policy, ctx: Context, x: TagRef) {
    && ctx.jurisdiction != ""
    && exists name | name in p.jurisdictionCotags && InCapitals(name, ctx.jurisdiction) ::
         x in p.jurisdictionCotags[name]
  }

  /** `upper` is `s` with each small letter made a capital. */
  ghost predicate InCapitals(upper: string, s: string) {
    |upper| == |s| && forall k | 0 <= k < |s| ::
      if 'a' <= s[k] <= 'z' then upper[k] as int == s[k] as int - 'a' as int + 'A' as int else upper[k] == s[k]
  }

  /** The tags evidence and jurisdiction call for. */
  ghost predicate CalledFor(p: Policy, cs: seq<Candidate>, ctx: Context, x: TagRef) {
    Applied(p, cs, x) || Follows(p, cs, x) || Local(p, ctx, x)
  }

  lemma {:induction false} UpperIsCapitals(s: string)
    ensures InCapitals(Upper(s), s)
  {
    if s != "" {
      UpperIsCapitals(s[1..]);
      var u := Upper(s);
      assert u == [u[0]] + Upper(s[1..]);
      forall k | 0 < k < |s| ensures u[k] == Upper(s[1..])[k - 1] && s[k] == s[1..][k - 1] {}
    }
  }

  lemma CapitalsUnique(u: string, v: string, s: string)
    requires InCapitals(u, s) && InCapitals(v, s)
    ensures u == v
  {
    forall k | 0 <= k < |s| ensures u[k] == v[k] {}
  }

  lemma LocalIff(p: Policy, ctx: Context, x: TagRef)
    ensures Local(p, ctx, x) <==>
            ctx.jurisdiction != "" && Upper(ctx.jurisdiction) in p.jurisdictionCotags &&
            x in p.jurisdictionCotags[Upper(ctx.jurisdiction)]
  {
    UpperIsCapitals(ctx.jurisdiction);
    forall u | InCapitals(u, ctx.jurisdiction) ensures u == Upper(ctx.jurisdiction) {
      CapitalsUnique(u, Upper(ctx.jurisdiction), ctx.jurisdiction);
    }
  }

  lemma CalledForIff(p: Policy, cs: seq<Candidate>, ctx: Context, x: TagRef)
    ensures CalledFor(p, cs, ctx, x) <==> Has(BeforeSecurity(p, Select(p, cs).selected, ctx), x)
  {
    var sel := Select(p, cs).selected;
    SelectedDecided(p, cs);
    JurisdictionTags(p, sel, ctx, x);
    LocalIff(p, ctx, x);
    if CotagOf(p, sel, |sel|, x) {
      var k :| 0 <= k < |sel| && x in Cotags(p, sel[k].ref.tag);
      assert Has(sel, sel[k].ref);
      assert Applied(p, cs, sel[k].ref);
    }
    if Follows(p, cs, x) {
      var y :| Applied(p, cs, y) && y.tag in p.cotags && x in p.cotags[y.tag];
      assert Has(sel, y);
      var k :| 0 <= k < |sel| && sel[k].ref == y;
      assert CotagOf(p, sel, |sel|, x);
    }
  }

  /** A tag the context names, when the policy knows it. */
  ghost predicate Stated(p: Policy, ctx: Context, x: TagRef) {
    && x in p.tags && x.tag != ""
    && (x == TagRef("Lifecycle", ctx.lifecycle) || x == TagRef("PrivacyState", ctx.privacyState))
  }

  ghost function LevelOf(p: Policy, tag: string): int { if tag in p.securityOrder then p.securityOrder[tag] else -1 }

  ghost predicate DerivesTo(p: Policy, y: TagRef, tag: string) {
    y.domain == "DataSensitivity" && y.tag in p.securityDerivation && p.securityDerivation[y.tag] == tag && tag != ""
  }

  /** A security tag derived because none was called for: some sensitivity tag called for derives to it, at a level
      above -1 that none of the others exceeds. */
  ghost predicate Derivable(p: Policy, cs: seq<Candidate>, ctx: Context, x: TagRef) {
    && x.domain == "DataSecurity" && (forall y | CalledFor(p, cs, ctx, y) :: y.domain != "DataSecurity")
    && (exists y | CalledFor(p, cs, ctx, y) :: DerivesTo(p, y, x.tag)) && LevelOf(p, x.tag) > -1
    && forall y, tag | CalledFor(p, cs, ctx, y) && DerivesTo(p, y, tag) :: LevelOf(p, tag) <= LevelOf(p, x.tag)
  }

  /** What the result holds: what evidence and jurisdiction call for, a security tag derived if none of these is one,
      what the context states, and the retention tag reported. */
  ghost predicate HoldsCalledFor(p: Policy, cs: seq<Candidate>, ctx: Context, r: PolicyEngine.Result) {
    && (forall x | CalledFor(p, cs, ctx, x) || Stated(p, ctx, x) :: Has(r.resolved, x))
    && (forall x | Has(r.resolved, x) ::
          || CalledFor(p, cs, ctx, x) || Stated(p, ctx, x) || Derivable(p, cs, ctx, x)
          || (x.domain == "RetentionPolicy" && x.tag == r.retentionTag != ""))
    && (r.retentionTag != "" ==> Has(r.resolved, TagRef("RetentionPolicy", r.retentionTag)))
    && ((exists x :: Derivable(p, cs, ctx, x)) ==> exists x :: Derivable(p, cs, ctx, x) && Has(r.resolved, x))
  }

  lemma {:induction false} BestDerives(p: Policy, sel: seq<Resolved>, n: nat)
    requires n <= |sel|
    ensures var best := BestSecurity(p, sel, n);
            && best.level >= -1 && (best.tag == "" <==> best.level == -1)
            && (best.tag != "" ==>
                  && best.level == LevelOf(p, best.tag)
                  && exists k :: 0 <= k < n && DerivesTo(p, sel[k].ref, best.tag))
            && forall k, tag | 0 <= k < n && DerivesTo(p, sel[k].ref, tag) :: LevelOf(p, tag) <= best.level
  {
    if n > 0 { BestDerives(p, sel, n - 1); }
  }

  lemma DerivedIsDerivable(p: Policy, cs: seq<Candidate>, ctx: Context)
    ensures var before := BeforeSecurity(p, Select(p, cs).selected, ctx);
            var best := BestSecurity(p, before, |before|);
            !HasDomain(before, SECURITY) && best.tag != "" ==> Derivable(p, cs, ctx, TagRef("DataSecurity", best.tag))
  {
    var before := BeforeSecurity(p, Select(p, cs).selected, ctx);
    var best := BestSecurity(p, before, |before|);
    forall y ensures CalledFor(p, cs, ctx, y) <==> Has(before, y) { CalledForIff(p, cs, ctx, y); }
    BestDerives(p, before, |before|);
    if !HasDomain(before, SECURITY) && best.tag != "" {
      var k :| 0 <= k < |before| && DerivesTo(p, before[k].ref, best.tag);
      assert CalledFor(p, cs, ctx, before[k].ref);
    }
  }

  lemma ResultHoldsTag(p: Policy, cs: seq<Candidate>, ctx: Context, x: TagRef)
    ensures var r, before := Resolve(p, cs, ctx), BeforeSecurity(p, Select(p, cs).selected, ctx);
            var best := BestSecurity(p, before, |before|);
            Has(r.resolved, x) <==>
            || CalledFor(p, cs, ctx, x) || Stated(p, ctx, x)
            || (!HasDomain(before, SECURITY) && best.tag != "" && x == TagRef(SECURITY, best.tag))
            || (x.domain == "RetentionPolicy" && x.tag == r.retentionTag != "")
  {
    var sel := Select(p, cs).selected;
    var secured := DeriveSecurity(p, BeforeSecurity(p, sel, ctx));
    var living := ApplyContextTag(p, secured, "Lifecycle", ctx.lifecycle, "context.lifecycle");
    CalledForIff(p, cs, ctx, x);
    SecurityTags(p, BeforeSecurity(p, sel, ctx), x);
    ContextTags(p, secured, "Lifecycle", ctx.lifecycle, "context.lifecycle", x);
    ContextTags(p, living, "PrivacyState", ctx.privacyState, "context.privacy_state", x);
    RetentionAdds(p, BeforeRetention(p, sel, ctx), x);
  }

  lemma ResultHolds(p: Policy, cs: seq<Candidate>, ctx: Context)
    ensures HoldsCalledFor(p, cs, ctx, Resolve(p, cs, ctx))
  {
    var r := Resolve(p, cs, ctx);
    DerivedIsDerivable(p, cs, ctx);
    forall x
      ensures CalledFor(p, cs, ctx, x) || Stated(p, ctx, x) ==> Has(r.resolved, x)
      ensures Has(r.resolved, x) ==>
                || CalledFor(p, cs, ctx, x) || Stated(p, ctx, x) || Derivable(p, cs, ctx, x)
                || (x.domain == "RetentionPolicy" && x.tag == r.retentionTag != "")
    {
      ResultHoldsTag(p, cs, ctx, x);
    }
    ResultHoldsTag(p, cs, ctx, TagRef("RetentionPolicy", r.retentionTag));
    if x :| Derivable(p, cs, ctx, x) { SomeDerived(p, cs, ctx, x); }
  }

  lemma SomeDerived(p: Policy, cs: seq<Candidate>, ctx: Context, x: TagRef)
    requires Derivable(p, cs, ctx, x)
    ensures exists y :: Derivable(p, cs, ctx, y) && Has(Resolve(p, cs, ctx).resolved, y)
  {
    var before := BeforeSecurity(p, Select(p, cs).selected, ctx);
    var best := BestSecurity(p, before, |before|);
    forall y ensures CalledFor(p, cs, ctx, y) <==> Has(before, y) { CalledForIff(p, cs, ctx, y); }
    BestDerives(p, before, |before|);
    var y :| CalledFor(p, cs, ctx, y) && DerivesTo(p, y, x.tag);
    var k :| 0 <= k < |before| && before[k].ref == y;
    assert DerivesTo(p, before[k].ref, x.tag);
    assert !HasDomain(before, SECURITY) by {
      if j :| 0 <= j < |before| && before[j].ref.domain == SECURITY { assert Has(before, before[j].ref); }
    }
    DerivedIsDerivable(p, cs, ctx);
    ResultHoldsTag(p, cs, ctx, TagRef(SECURITY, best.tag));
  }

  /** Tag `k` is the first of those among the first `n` that ask for the most days. */
  ghost predicate AsksLongest(p: Policy, tags: seq<Resolved>, n: nat, k: nat)
    requires n <= |tags|
  {
    && k < n && DaysOf(p, tags[k]).Some?
    && (forall j | 0 <= j < n && DaysOf(p, tags[j]).Some? :: DaysOf(p, tags[j]).value <= DaysOf(p, tags[k]).value)
    && (forall j | 0 <= j < k && DaysOf(p, tags[j]).Some? :: DaysOf(p, tags[j]).value < DaysOf(p, tags[k]).value)
  }

  ghost function DaysOf(p: Policy, t: Resolved): Option<int> {
    if t.ref.tag in p.retention then p.retention[t.ref.tag].days else None
  }

  lemma {:induction false} BestIsLongest(p: Policy, tags: seq<Resolved>, n: nat)
    requires n <= |tags|
    ensures var best := BestRetention(p, tags, n);
            if best.days.None? then best.tag == "" && forall j | 0 <= j < n :: DaysOf(p, tags[j]).None?
            else exists k: nat :: AsksLongest(p, tags, n, k) && best == Kept(DaysOf(p, tags[k]),
                                                                             p.retention[tags[k].ref.tag].tag)
  {
    if n > 0 {
      BestIsLongest(p, tags, n - 1);
      var before := BestRetention(p, tags, n - 1);
      if DaysOf(p, tags[n - 1]).Some? && (before.days.None? || DaysOf(p, tags[n - 1]).value > before.days.value) {
        LongestNew(p, tags, n);
      } else if before.days.Some? {
        var k: nat :| AsksLongest(p, tags, n - 1, k) &&
                      before == Kept(DaysOf(p, tags[k]), p.retention[tags[k].ref.tag].tag);
        LongestStays(p, tags, n, k);
      }
    }
  }

  lemma LongestNew(p: Policy, tags: seq<Resolved>, n: nat)
    requires 0 < n <= |tags| && DaysOf(p, tags[n - 1]).Some?
    requires forall j | 0 <= j < n - 1 && DaysOf(p, tags[j]).Some? ::
               DaysOf(p, tags[j]).value < DaysOf(p, tags[n - 1]).value
    ensures AsksLongest(p, tags, n, n - 1)
  {
  }

  lemma LongestStays(p: Policy, tags: seq<Resolved>, n: nat, k: nat)
    requires 0 < n <= |tags| && AsksLongest(p, tags, n - 1, k)
    requires DaysOf(p, tags[n - 1]).Some? ==> DaysOf(p, tags[n - 1]).value <= DaysOf(p, tags[k]).value
    ensures AsksLongest(p, tags, n, k)
  {
  }

  /** When no retention is reported, no tag asks for days, or what the longest-asking one stands for has no name or is
      in the result already. */
  lemma RetentionMissing(p: Policy, cs: seq<Candidate>, ctx: Context)
    requires Resolve(p, cs, ctx).retentionDays.None?
    ensures var r := Resolve(p, cs, ctx);
            && r.retentionTag == ""
            && ((forall t | t in r.resolved :: DaysOf(p, t).None?) ||
                exists k: nat :: AsksLongest(p, r.resolved, |r.resolved|, k) &&
                  var tag := p.retention[r.resolved[k].ref.tag].tag;
                  tag == "" || Has(r.resolved, TagRef("RetentionPolicy", tag)))
  {
    var before := BeforeRetention(p, Select(p, cs).selected, ctx);
    BestIsLongest(p, before, |before|);
  }

  lemma RetentionAdds(p: Policy, sel: seq<Resolved>, x: TagRef)
    ensures var kept := ApplyRetention(p, sel);
            Has(kept.selected, x) <==>
            Has(sel, x) || (x.domain == "RetentionPolicy" && x.tag == kept.tag != "")
  {
    var best := BestRetention(p, sel, |sel|);
    AppendTags(sel, Resolved(TagRef("RetentionPolicy", best.tag), map[], true, "retention_table"), x);
  }

  // ---- Violations, flags and the approval role ----

  ghost predicate SomeIn(tags: seq<Resolved>, domain: string) { exists t | t in tags :: t.ref.domain == domain }

  ghost predicate OnlyIn(tags: seq<Resolved>, domain: string, k: nat) {
    k < |tags| && tags[k].ref.domain == domain && forall j | 0 <= j < |tags| && tags[j].ref.domain == domain :: j == k
  }

  ghost predicate FirstIn(tags: seq<Resolved>, domain: string, k: nat) {
    k < |tags| && tags[k].ref.domain == domain && forall j | 0 <= j < k :: tags[j].ref.domain != domain
  }

  /** What each violation says of the tags. */
  ghost predicate Violated(p: Policy, tags: seq<Resolved>, v: Violation) {
    match v
    case NotExactlyOne(id) =>
      exists d | ExactlyOne(id, d) in p.goldenRules :: forall k: nat :: !OnlyIn(tags, d, k)
    case SecurityMissing(id) =>
      exists trigger, m | MinSecurity(id, trigger, m) in p.goldenRules ::
        SomeIn(tags, trigger) && !SomeIn(tags, "DataSecurity")
    case SecurityTooLow(id) =>
      exists trigger, m | MinSecurity(id, trigger, m) in p.goldenRules ::
        SomeIn(tags, trigger) &&
        exists k: nat :: FirstIn(tags, "DataSecurity", k) && LevelOf(p, tags[k].ref.tag) < LevelOf(p, m)
    case Exclusive(id) =>
      exists refs | MutuallyExclusive(id, refs) in p.goldenRules ::
        exists i, j :: 0 <= i < j < |refs| && Has(tags, refs[i]) && Has(tags, refs[j])
    case DomainMissing(id) =>
      exists ref, domain | RequiresWhen(id, ref, domain) in p.goldenRules :: Has(tags, ref) && !SomeIn(tags, domain)
    case AttributeMissing(ref, attribute) =>
      && ref in p.tags && attribute in p.tags[ref].required
      && exists t | t in tags :: t.ref == ref && attribute !in t.attributes
  }

  lemma SomeInIff(tags: seq<Resolved>, domain: string)
    ensures SomeIn(tags, domain) <==> HasDomain(tags, domain)
  {
  }

  lemma {:induction false} CountIsOne(tags: seq<Resolved>, domain: string)
    ensures CountDomain(tags, domain) == 0 <==> !SomeIn(tags, domain)
    ensures CountDomain(tags, domain) == 1 <==> exists k: nat :: OnlyIn(tags, domain, k)
  {
    if tags != [] {
      var front, n := tags[..|tags| - 1], |tags| - 1;
      CountIsOne(front, domain);
      assert tags == front + [tags[n]];
      if tags[n].ref.domain == domain {
        if CountDomain(front, domain) == 0 {
          forall j | 0 <= j < n ensures tags[j].ref.domain != domain { assert front[j] in front; }
          assert OnlyIn(tags, domain, n);
        } else {
          var t :| t in front && t.ref.domain == domain;
          var j :| 0 <= j < n && front[j] == t;
          assert tags[j].ref.domain == domain;
        }
      } else {
        forall k: nat ensures OnlyIn(tags, domain, k) <==> OnlyIn(front, domain, k) {
          assert forall j | 0 <= j < n :: front[j] == tags[j];
        }
      }
    }
  }

  lemma {:induction false} FirstInIs(tags: seq<Resolved>, domain: string)
    requires HasDomain(tags, domain)
    ensures exists k: nat :: FirstIn(tags, domain, k) && FirstInDomain(tags, domain) == tags[k]
  {
    if tags[0].ref.domain == domain {
      assert FirstIn(tags, domain, 0);
    } else {
      assert HasDomain(tags[1..], domain) by {
        var k :| 0 <= k < |tags| && tags[k].ref.domain == domain;
        assert tags[1..][k - 1] == tags[k];
      }
      FirstInIs(tags[1..], domain);
      var k: nat :| FirstIn(tags[1..], domain, k) && FirstInDomain(tags[1..], domain) == tags[1..][k];
      forall j | 0 <= j < k + 1 ensures tags[j].ref.domain != domain {
        if j > 0 { assert tags[1..][j - 1] == tags[j]; }
      }
      assert FirstIn(tags, domain, k + 1);
    }
  }

  lemma {:induction false} CountPresentIff(tags: seq<Resolved>, refs: seq<TagRef>)
    ensures CountPresent(tags, refs) > 0 <==> exists i :: 0 <= i < |refs| && Has(tags, refs[i])
    ensures CountPresent(tags, refs) > 1 <==>
            exists i, j :: 0 <= i < j < |refs| && Has(tags, refs[i]) && Has(tags, refs[j])
  {
    if refs != [] {
      var n := |refs| - 1;
      CountPresentIff(tags, refs[..n]);
      if Has(tags, refs[n]) && CountPresent(tags, refs[..n]) > 0 {
        var i :| 0 <= i < n && Has(tags, refs[..n][i]);
        assert Has(tags, refs[i]);
      }
      if i, j :| 0 <= i < j < |refs| && Has(tags, refs[i]) && Has(tags, refs[j]) {
        assert Has(tags, refs[..n][i]);
        if j < n { assert Has(tags, refs[..n][j]); }
      }
    }
  }

  /** One rule's violations, in these terms. */
  ghost predicate ViolatedBy(p: Policy, rule: GoldenRule, tags: seq<Resolved>, v: Violation) {
    match rule
    case ExactlyOne(id, d) => v == NotExactlyOne(id) && forall k: nat :: !OnlyIn(tags, d, k)
    case MinSecurity(id, trigger, m) =>
      && SomeIn(tags, trigger)
      && if SomeIn(tags, "DataSecurity") then
           v == SecurityTooLow(id) &&
           exists k: nat :: FirstIn(tags, "DataSecurity", k) && LevelOf(p, tags[k].ref.tag) < LevelOf(p, m)
         else v == SecurityMissing(id)
    case MutuallyExclusive(id, refs) =>
      v == Exclusive(id) && exists i, j :: 0 <= i < j < |refs| && Has(tags, refs[i]) && Has(tags, refs[j])
    case RequiresWhen(id, ref, domain) => v == DomainMissing(id) && Has(tags, ref) && !SomeIn(tags, domain)
  }

  lemma RuleViolations(p: Policy, rule: GoldenRule, tags: seq<Resolved>, v: Violation)
    ensures v in GoldenViolations(p, rule, tags) <==> ViolatedBy(p, rule, tags, v)
  {
    match rule
    case ExactlyOne(_, d) => CountIsOne(tags, d);
    case MinSecurity(_, trigger, m) => SecurityViolations(p, tags, m);
    case MutuallyExclusive(_, refs) => CountPresentIff(tags, refs);
    case RequiresWhen(_, _, _) =>
  }

  lemma SecurityViolations(p: Policy, tags: seq<Resolved>, m: string)
    ensures HasDomain(tags, SECURITY) ==>
              (SecurityLevel(p, FirstInDomain(tags, SECURITY).ref.tag) < SecurityLevel(p, m) <==>
               exists k: nat :: FirstIn(tags, "DataSecurity", k) && LevelOf(p, tags[k].ref.tag) < LevelOf(p, m))
    ensures !HasDomain(tags, SECURITY) ==> forall k: nat :: !FirstIn(tags, "DataSecurity", k)
  {
    if HasDomain(tags, SECURITY) {
      FirstInIs(tags, SECURITY);
      var k: nat :| FirstIn(tags, SECURITY, k) && FirstInDomain(tags, SECURITY) == tags[k];
      assert forall j: nat | FirstIn(tags, SECURITY, j) :: j == k;
    }
  }

  /** One of the first `n` rules is violated so. */
  ghost predicate ViolatedUpTo(p: Policy, n: nat, tags: seq<Resolved>, v: Violation)
    requires n <= |p.goldenRules|
  {
    exists k :: 0 <= k < n && ViolatedBy(p, p.goldenRules[k], tags, v)
  }

  lemma GoldenNext(p: Policy, n: nat, tags: seq<Resolved>, v: Violation)
    requires n < |p.goldenRules|
    ensures v in AllGolden(p, n + 1, tags) <==>
            v in AllGolden(p, n, tags) || ViolatedBy(p, p.goldenRules[n], tags, v)
    ensures ViolatedUpTo(p, n + 1, tags, v) <==>
            ViolatedUpTo(p, n, tags, v) || ViolatedBy(p, p.goldenRules[n], tags, v)
  {
    RuleViolations(p, p.goldenRules[n], tags, v);
    assert v in AllGolden(p, n + 1, tags) <==>
           v in AllGolden(p, n, tags) || v in GoldenViolations(p, p.goldenRules[n], tags);
  }

  ghost predicate GoldenAt(p: Policy, n: nat, tags: seq<Resolved>, v: Violation) {
    n <= |p.goldenRules| ==> (v in AllGolden(p, n, tags) <==> ViolatedUpTo(p, n, tags, v))
  }

  lemma AllGoldenHas(p: Policy, n: nat, tags: seq<Resolved>, v: Violation)
    requires n <= |p.goldenRules|
    ensures v in AllGolden(p, n, tags) <==> ViolatedUpTo(p, n, tags, v)
  {
    var P := (k: nat) => GoldenAt(p, k, tags, v);
    assert P(0) by { NoGolden(p, tags, v); }
    forall k: nat, m: nat | k < m <= n && m == k + 1 && P(k) ensures P(m) { GoldenStep(p, k, tags, v); }
    Inductively(P, n);
    GoldenSo(p, n, tags, v);
  }

  lemma NoGolden(p: Policy, tags: seq<Resolved>, v: Violation)
    ensures GoldenAt(p, 0, tags, v)
  {
  }

  lemma GoldenStep(p: Policy, n: nat, tags: seq<Resolved>, v: Violation)
    requires GoldenAt(p, n, tags, v)
    ensures GoldenAt(p, n + 1, tags, v)
  {
    if n < |p.goldenRules| { GoldenNext(p, n, tags, v); }
  }

  lemma GoldenSo(p: Policy, n: nat, tags: seq<Resolved>, v: Violation)
    requires n <= |p.goldenRules| && GoldenAt(p, n, tags, v)
    ensures v in AllGolden(p, n, tags) <==> ViolatedUpTo(p, n, tags, v)
  {
  }

  lemma GoldenIff(p: Policy, tags: seq<Resolved>, v: Violation)
    requires !v.AttributeMissing?
    ensures ViolatedUpTo(p, |p.goldenRules|, tags, v) <==> Violated(p, tags, v)
  {
    if Violated(p, tags, v) {
      var rule :| rule in p.goldenRules && ViolatedBy(p, rule, tags, v);
      var k :| 0 <= k < |p.goldenRules| && p.goldenRules[k] == rule;
    }
    if k :| 0 <= k < |p.goldenRules| && ViolatedBy(p, p.goldenRules[k], tags, v) {
      assert p.goldenRules[k] in p.goldenRules;
    }
  }

  lemma {:induction false} MissingHas(t: Resolved, required: seq<string>, v: Violation)
    ensures v in MissingAttributes(t, required) <==>
            exists a | a in required :: a !in t.attributes && v == AttributeMissing(t.ref, a)
  {
    if required != [] {
      var n := |required| - 1;
      MissingHas(t, required[..n], v);
      assert required == required[..n] + [required[n]];
    }
  }

  /** The attributes missing among the first `n` tags. */
  ghost predicate Lacks(p: Policy, tags: seq<Resolved>, n: nat, v: Violation)
    requires n <= |tags|
  {
    exists k, a :: 0 <= k < n && tags[k].ref in p.tags && a in p.tags[tags[k].ref].required
                   && a !in tags[k].attributes && v == AttributeMissing(tags[k].ref, a)
  }

  lemma {:induction false} ValidatedHas(p: Policy, tags: seq<Resolved>, n: nat, v: Violation, x: TagRef)
    requires n <= |tags|
    ensures v in ValidateAttributes(p, tags, n).violations <==> Lacks(p, tags, n, v)
    ensures x in ValidateAttributes(p, tags, n).flags <==> x !in p.tags && exists k :: 0 <= k < n && tags[k].ref == x
  {
    if n > 0 {
      ValidatedHas(p, tags, n - 1, v, x);
      if tags[n - 1].ref in p.tags { MissingHas(tags[n - 1], p.tags[tags[n - 1].ref].required, v); }
    }
  }

  lemma CheckedViolations(p: Policy, tags: seq<Resolved>, v: Violation)
    ensures v in AllGolden(p, |p.goldenRules|, tags) + ValidateAttributes(p, tags, |tags|).violations <==>
            Violated(p, tags, v)
  {
    ValidatedHas(p, tags, |tags|, v, TagRef("", ""));
    AllGoldenHas(p, |p.goldenRules|, tags, v);
    if v.AttributeMissing? {
      LacksIff(p, tags, v);
      forall k | 0 <= k < |p.goldenRules| ensures !ViolatedBy(p, p.goldenRules[k], tags, v) {}
    } else {
      GoldenIff(p, tags, v);
    }
  }

  /** The result lists a violation iff it is one, and flags a tag iff the policy does not know it. */
  lemma ResultChecked(p: Policy, cs: seq<Candidate>, ctx: Context, v: Violation, x: TagRef)
    ensures var r := Resolve(p, cs, ctx);
            && (v in r.violations <==> Violated(p, r.resolved, v))
            && (x in r.flags <==> Has(r.resolved, x) && x !in p.tags)
  {
    var tags := Resolve(p, cs, ctx).resolved;
    ValidatedHas(p, tags, |tags|, v, x);
    CheckedViolations(p, tags, v);
  }

  lemma LacksIff(p: Policy, tags: seq<Resolved>, v: Violation)
    requires v.AttributeMissing?
    ensures Lacks(p, tags, |tags|, v) <==> Violated(p, tags, v)
  {
    if Violated(p, tags, v) {
      var t :| t in tags && t.ref == v.ref && v.attribute !in t.attributes;
      var k :| 0 <= k < |tags| && tags[k] == t;
    }
    if k, a :| 0 <= k < |tags| && tags[k].ref in p.tags && a in p.tags[tags[k].ref].required
               && a !in tags[k].attributes && v == AttributeMissing(tags[k].ref, a) {
      assert tags[k] in tags;
    }
  }

  /** The routing table sends some tag to the role: by its domain, by itself, or by its name. */
  ghost predicate Routed(p: Policy, tags: seq<Resolved>, role: string) {
    role in p.roleRouting && exists t, pattern | t in tags && pattern in p.roleRouting[role] ::
      pattern == AnyOf(t.ref.domain) || pattern == Exactly(t.ref) || pattern == Named(t.ref.tag)
  }

  lemma RoutedIff(p: Policy, tags: seq<Resolved>, role: string)
    ensures Routed(p, tags, role) <==> RoleMatched(p, tags, role)
  {
    if Routed(p, tags, role) {
      var t, pattern :| t in tags && pattern in p.roleRouting[role] &&
        (pattern == AnyOf(t.ref.domain) || pattern == Exactly(t.ref) || pattern == Named(t.ref.tag));
      var k :| 0 <= k < |tags| && tags[k] == t;
      assert PatternMatches(pattern, tags[k].ref);
    }
    if RoleMatched(p, tags, role) {
      var k, pattern :| 0 <= k < |tags| && pattern in p.roleRouting[role] && PatternMatches(pattern, tags[k].ref);
      assert tags[k] in tags;
    }
  }

  /** Any escalation goes to SecOps; otherwise the first of SecOps, Legal, DPO and Architecture that some tag is routed
      to approves, or else the steward. */
  ghost predicate RoleDue(p: Policy, r: PolicyEngine.Result) {
    r.approvalRole ==
      if r.escalations != [] || Routed(p, r.resolved, "SecOps") then "SecOps"
      else if Routed(p, r.resolved, "Legal") then "Legal"
      else if Routed(p, r.resolved, "DPO") then "DPO"
      else if Routed(p, r.resolved, "Architecture") then "Architecture"
      else "Steward"
  }

  lemma ResultRouted(p: Policy, cs: seq<Candidate>, ctx: Context)
    ensures RoleDue(p, Resolve(p, cs, ctx))
  {
    var tags := Resolve(p, cs, ctx).resolved;
    RoutedIff(p, tags, "SecOps");
    RoutedIff(p, tags, "Legal");
    RoutedIff(p, tags, "DPO");
    RoutedIff(p, tags, "Architecture");
    RoleAmong(p, tags, "Steward", []);
    RoleAmong(p, tags, "Architecture", ["Steward"]);
    RoleAmong(p, tags, "DPO", ["Architecture", "Steward"]);
    RoleAmong(p, tags, "Legal", ["DPO", "Architecture", "Steward"]);
    RoleAmong(p, tags, "SecOps", ["Legal", "DPO", "Architecture", "Steward"]);
  }

  lemma RoleAmong(p: Policy, tags: seq<Resolved>, role: string, others: seq<string>)
    ensures FirstRole(p, tags, [role] + others) ==
            if RoleMatched(p, tags, role) then role else FirstRole(p, tags, others)
  {
    assert ([role] + others)[1..] == others;
  }

  // ---- One entry for each tag ----

  lemma {:induction false} AddAllOneEach(sel: seq<Resolved>, refs: seq<TagRef>, source: string)
    requires OneEach(sel)
    ensures OneEach(AddAll(sel, refs, source))
  {
    if refs != [] { AddAllOneEach(sel, refs[..|refs| - 1], source); }
  }

  lemma {:induction false} ExpandOneEach(p: Policy, sel: seq<Resolved>, n: nat)
    requires OneEach(sel) && n <= |sel|
    ensures OneEach(ExpandCotags(p, sel, n))
  {
    if n > 0 {
      ExpandOneEach(p, sel, n - 1);
      AddAllOneEach(ExpandCotags(p, sel, n - 1), Cotags(p, sel[n - 1].ref.tag), "cotag:" + sel[n - 1].ref.tag);
    }
  }

  lemma StageOneEach(p: Policy, sel: seq<Resolved>)
    requires OneEach(sel)
    ensures OneEach(DeriveSecurity(p, sel)) && OneEach(ApplyRetention(p, sel).selected)
  {
    var best := BestSecurity(p, sel, |sel|);
    if !HasDomain(sel, SECURITY) && best.tag != "" {
      PutHolds(sel, Resolved(TagRef(SECURITY, best.tag), map[], true, "security_derivation"));
    }
  }

  lemma ContextOneEach(p: Policy, sel: seq<Resolved>, domain: string, tag: string, source: string)
    requires OneEach(sel)
    ensures OneEach(ApplyContextTag(p, sel, domain, tag, source))
  {
  }

  lemma ResultOneEach(p: Policy, cs: seq<Candidate>, ctx: Context)
    ensures OneEach(Resolve(p, cs, ctx).resolved)
  {
    var sel := Select(p, cs).selected;
    SelectedDecided(p, cs);
    ExpandOneEach(p, sel, |sel|);
    var expanded := ExpandCotags(p, sel, |sel|);
    if ctx.jurisdiction != "" && Upper(ctx.jurisdiction) in p.jurisdictionCotags {
      AddAllOneEach(expanded, p.jurisdictionCotags[Upper(ctx.jurisdiction)], "jurisdiction:" + ctx.jurisdiction);
    }
    var before := BeforeSecurity(p, sel, ctx);
    StageOneEach(p, before);
    var secured := DeriveSecurity(p, before);
    var living := ApplyContextTag(p, secured, "Lifecycle", ctx.lifecycle, "context.lifecycle");
    ContextOneEach(p, secured, "Lifecycle", ctx.lifecycle, "context.lifecycle");
    ContextOneEach(p, living, "PrivacyState", ctx.privacyState, "context.privacy_state");
    StageOneEach(p, BeforeRetention(p, sel, ctx));
  }

  /** Applied tags are in the result as their deciding candidates give them. */
  lemma ResultDecided(p: Policy, cs: seq<Candidate>, ctx: Context, t: Resolved)
    ensures Decided(p, cs, t) ==> t in Resolve(p, cs, ctx).resolved
    ensures t in Resolve(p, cs, ctx).resolved && Applied(p, cs, t.ref) ==> Decided(p, cs, t)
  {
    var sel, final := Select(p, cs).selected, Resolve(p, cs, ctx).resolved;
    SelectedDecided(p, cs);
    ResolutionGrows(p, cs, ctx);
    ResultOneEach(p, cs, ctx);
    if t in sel {
      var k :| 0 <= k < |sel| && sel[k] == t;
      assert final[k] == t;
    }
    if t in final && Applied(p, cs, t.ref) {
      assert Has(sel, t.ref);
      var k :| 0 <= k < |sel| && sel[k].ref == t.ref;
      assert final[k] == sel[k] && sel[k] in sel;
      var j :| 0 <= j < |final| && final[j] == t;
      assert j == k;
    }
  }

  // ---- What is brought along ----

  /** A tag no candidate applies carries no attributes, and counts as derived unless only the context states it. */
  ghost predicate Brought(p: Policy, cs: seq<Candidate>, ctx: Context, t: Resolved) {
    t.attributes == map[] && (t.derived <==> CalledFor(p, cs, ctx, t.ref) || !Stated(p, ctx, t.ref))
  }

  /** `after` adds to `before` entries without attributes only, all derived. */
  ghost predicate AddsDerived(before: seq<Resolved>, after: seq<Resolved>) {
    before <= after && forall k | |before| <= k < |after| :: after[k].derived && after[k].attributes == map[]
  }

  lemma {:induction false} AddAllDerived(sel: seq<Resolved>, refs: seq<TagRef>, source: string)
    ensures AddsDerived(sel, AddAll(sel, refs, source))
  {
    if refs != [] { AddAllDerived(sel, refs[..|refs| - 1], source); }
  }

  lemma {:induction false} ExpandDerived(p: Policy, sel: seq<Resolved>, n: nat)
    requires n <= |sel|
    ensures AddsDerived(sel, ExpandCotags(p, sel, n))
  {
    if n > 0 {
      ExpandDerived(p, sel, n - 1);
      AddAllDerived(ExpandCotags(p, sel, n - 1), Cotags(p, sel[n - 1].ref.tag), "cotag:" + sel[n - 1].ref.tag);
    }
  }

  lemma CalledForDerived(p: Policy, sel: seq<Resolved>, ctx: Context)
    ensures AddsDerived(sel, BeforeSecurity(p, sel, ctx))
  {
    ExpandDerived(p, sel, |sel|);
    if ctx.jurisdiction != "" && Upper(ctx.jurisdiction) in p.jurisdictionCotags {
      AddAllDerived(ExpandCotags(p, sel, |sel|), p.jurisdictionCotags[Upper(ctx.jurisdiction)],
                    "jurisdiction:" + ctx.jurisdiction);
    }
  }

  ghost predicate AllBrought(p: Policy, cs: seq<Candidate>, ctx: Context, tags: seq<Resolved>) {
    forall t | t in tags && !Applied(p, cs, t.ref) :: Brought(p, cs, ctx, t)
  }

  lemma BroughtFirst(p: Policy, cs: seq<Candidate>, ctx: Context)
    ensures AllBrought(p, cs, ctx, BeforeSecurity(p, Select(p, cs).selected, ctx))
  {
    var sel := Select(p, cs).selected;
    var before := BeforeSecurity(p, sel, ctx);
    SelectedDecided(p, cs);
    CalledForDerived(p, sel, ctx);
    forall t | t in before && !Applied(p, cs, t.ref) ensures Brought(p, cs, ctx, t) {
      CalledForIff(p, cs, ctx, t.ref);
      var k :| 0 <= k < |before| && before[k] == t;
      if k < |sel| { assert Has(sel, sel[k].ref); }
    }
  }

  lemma BroughtAppended(p: Policy, cs: seq<Candidate>, ctx: Context, tags: seq<Resolved>, t: Resolved)
    requires AllBrought(p, cs, ctx, tags) && Brought(p, cs, ctx, t)
    ensures AllBrought(p, cs, ctx, tags + [t])
  {
  }

  lemma BroughtByContext(
      p: Policy, cs: seq<Candidate>, ctx: Context, tags: seq<Resolved>, domain: string, tag: string, source: string)
    requires AllBrought(p, cs, ctx, tags) && BeforeSecurity(p, Select(p, cs).selected, ctx) <= tags
    requires (domain == "Lifecycle" && tag == ctx.lifecycle) || (domain == "PrivacyState" && tag == ctx.privacyState)
    ensures AllBrought(p, cs, ctx, ApplyContextTag(p, tags, domain, tag, source))
  {
    var ref := TagRef(domain, tag);
    if tag != "" && !Has(tags, ref) && ref in p.tags {
      CalledForIff(p, cs, ctx, ref);
      if CalledFor(p, cs, ctx, ref) { HasGrows(BeforeSecurity(p, Select(p, cs).selected, ctx), tags, ref); }
      BroughtAppended(p, cs, ctx, tags, Resolved(ref, map[], false, source));
    }
  }

  lemma ResultBrought(p: Policy, cs: seq<Candidate>, ctx: Context)
    ensures AllBrought(p, cs, ctx, Resolve(p, cs, ctx).resolved)
  {
    var sel := Select(p, cs).selected;
    var before := BeforeSecurity(p, sel, ctx);
    BroughtFirst(p, cs, ctx);
    var best := BestSecurity(p, before, |before|);
    BroughtAppended(p, cs, ctx, before, Resolved(TagRef(SECURITY, best.tag), map[], true, "security_derivation"));
    var secured := DeriveSecurity(p, before);
    BroughtByContext(p, cs, ctx, secured, "Lifecycle", ctx.lifecycle, "context.lifecycle");
    var living := ApplyContextTag(p, secured, "Lifecycle", ctx.lifecycle, "context.lifecycle");
    BroughtByContext(p, cs, ctx, living, "PrivacyState", ctx.privacyState, "context.privacy_state");
    var all := BeforeRetention(p, sel, ctx);
    var kept := BestRetention(p, all, |all|);
    BroughtAppended(p, cs, ctx, all, Resolved(TagRef("RetentionPolicy", kept.tag), map[], true, "retention_table"));
  }

  // ---- All together ----

  /** What a resolution promises of its result. */
  ghost predicate Promised(p: Policy, cs: seq<Candidate>, ctx: Context, r: PolicyEngine.Result) {
    match r
    case Result(resolved, _, _, _, escalations, violations, flags, dropped, suggestions) =>
      && (forall t | Decided(p, cs, t) :: t in resolved)
      && (forall t | t in resolved && Applied(p, cs, t.ref) :: Decided(p, cs, t))
      && OneEach(resolved) && HoldsCalledFor(p, cs, ctx, r)
      && (forall t | t in resolved && !Applied(p, cs, t.ref) :: Brought(p, cs, ctx, t))
      && suggestions == Piled(p, cs, Suggested)
      && dropped == RefsOf(Piled(p, cs, Dropped)) && escalations == RefsOf(Piled(p, cs, Escalated))
      && (forall v :: v in violations <==> Violated(p, resolved, v))
      && (forall x :: x in flags <==> Has(resolved, x) && x !in p.tags)
      && RoleDue(p, r)
  }

  lemma ResolutionPromised(p: Policy, cs: seq<Candidate>, ctx: Context)
    ensures Promised(p, cs, ctx, Resolve(p, cs, ctx))
  {
    var r := Resolve(p, cs, ctx);
    forall t | Decided(p, cs, t) ensures t in r.resolved { ResultDecided(p, cs, ctx, t); }
    forall t | t in r.resolved && Applied(p, cs, t.ref) ensures Decided(p, cs, t) { ResultDecided(p, cs, ctx, t); }
    ResultOneEach(p, cs, ctx);
    ResultHolds(p, cs, ctx);
    ResultBrought(p, cs, ctx);
    SortedOut(p, cs);
    forall v ensures v in r.violations <==> Violated(p, r.resolved, v) {
      ResultChecked(p, cs, ctx, v, TagRef("", ""));
    }
    forall x ensures x in r.flags <==> Has(r.resolved, x) && x !in p.tags {
      ResultChecked(p, cs, ctx, NotExactlyOne(""), x);
    }
    ResultRouted(p, cs, ctx);
  }
}
