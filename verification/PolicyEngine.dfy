/** The deterministic classification engine: "LLM proposes, engine disposes"
    (redibis/classification/policy_engine.py). */
module PolicyEngine {
  import opened Sequences
  import opened Conditions
  import opened Ensemble

  // ---- Model ----

  datatype TagSpec = TagSpec(required: seq<string>, applyForbidden: bool)

  datatype Retention = Retention(days: Option<int>, tag: string)

  datatype GoldenRule =
    | ExactlyOne(id: string, domain: string)
    | MinSecurity(id: string, trigger: string, minTag: string)
    | MutuallyExclusive(id: string, tags: seq<TagRef>)
    | RequiresWhen(id: string, when: TagRef, required: string)

  datatype Pattern = AnyOf(domain: string) | Exactly(ref: TagRef) | Named(tag: string)

  datatype Policy = Policy(
    tags: map<TagRef, TagSpec>,
    cotags: map<string, seq<TagRef>>,
    jurisdictionCotags: map<string, seq<TagRef>>,
    securityDerivation: map<string, string>,
    securityOrder: map<string, int>,
    retention: map<string, Retention>,
    goldenRules: seq<GoldenRule>,
    roleRouting: map<string, seq<Pattern>>)

  datatype Context = Context(jurisdiction: string, lifecycle: string, privacyState: string)

  datatype Resolved = Resolved(ref: TagRef, attributes: map<string, Value>, derived: bool, source: string)

  datatype Violation =
    | NotExactlyOne(rule: string) | SecurityMissing(rule: string) | SecurityTooLow(rule: string)
    | Exclusive(rule: string) | DomainMissing(rule: string) | AttributeMissing(ref: TagRef, attribute: string)

  datatype Result = Result(
    resolved: seq<Resolved>, retentionDays: Option<int>, retentionTag: string, approvalRole: string,
    escalations: seq<TagRef>, violations: seq<Violation>, flags: seq<TagRef>,
    dropped: seq<TagRef>, suggestions: seq<Candidate>)

  const SECURITY := "DataSecurity"
  const SENSITIVITY := "DataSensitivity"

  function Upper(s: string): string {
    if s == "" then "" else [if 'a' <= s[0] <= 'z' then (s[0] as int - 32) as char else s[0]] + Upper(s[1..])
  }

  function SecurityLevel(p: Policy, tag: string): int { if tag in p.securityOrder then p.securityOrder[tag] else -1 }

  // ---- The `selected` dictionary, in insertion order ----

  predicate Has(sel: seq<Resolved>, ref: TagRef) { exists k | 0 <= k < |sel| :: sel[k].ref == ref }

  predicate HasDomain(sel: seq<Resolved>, domain: string) { exists k | 0 <= k < |sel| :: sel[k].ref.domain == domain }

  function At(sel: seq<Resolved>, ref: TagRef): (i: nat)
    requires Has(sel, ref)
    ensures i < |sel| && sel[i].ref == ref
  {
    if sel[0].ref == ref then 0 else 1 + At(sel[1..], ref)
  }

  function Put(sel: seq<Resolved>, t: Resolved): seq<Resolved> {
    if Has(sel, t.ref) then sel[At(sel, t.ref) := t] else sel + [t]
  }

  function AddMissing(sel: seq<Resolved>, t: Resolved): (r: seq<Resolved>)
    ensures sel <= r && Has(r, t.ref)
  {
    if Has(sel, t.ref) then sel else (assert (sel + [t])[|sel|].ref == t.ref; sel + [t])
  }

  // ---- Selection from candidates ----

  datatype Selection = Selection(
    selected: seq<Resolved>, escalations: seq<TagRef>, dropped: seq<TagRef>, suggestions: seq<Candidate>)

  function SelectOne(p: Policy, st: Selection, c: Candidate): Selection {
    if c.suggestOnly then st.(suggestions := st.suggestions + [c], dropped := st.dropped + [c.ref])
    else if c.ref in p.tags && p.tags[c.ref].applyForbidden then
      st.(escalations := st.escalations + [c.ref], dropped := st.dropped + [c.ref])
    else if !Has(st.selected, c.ref) || c.confidence > 0.0 then
      st.(selected := Put(st.selected, Resolved(c.ref, c.attributes, false, c.source)))
    else st
  }

  function Select(p: Policy, cs: seq<Candidate>): Selection {
    if cs == [] then Selection([], [], [], []) else SelectOne(p, Select(p, cs[..|cs| - 1]), cs[|cs| - 1])
  }

  // ---- Stages over the selected tags ----

  function AddAll(sel: seq<Resolved>, refs: seq<TagRef>, source: string): (r: seq<Resolved>)
    ensures sel <= r && forall x | x in refs :: Has(r, x)
  {
    if refs == [] then sel
    else
      var n := |refs| - 1;
      var before := AddAll(sel, refs[..n], source);
      var r := AddMissing(before, Resolved(refs[n], map[], true, source));
      assert forall x | x in refs :: x in refs[..n] || x == refs[n];
      assert forall x | x in refs[..n] :: Has(r, x) by {
        forall x | x in refs[..n] ensures Has(r, x) { HasGrows(before, r, x); }
      }
      r
  }

  lemma HasGrows(a: seq<Resolved>, b: seq<Resolved>, ref: TagRef)
    requires a <= b && Has(a, ref)
    ensures Has(b, ref)
  {
    var k :| 0 <= k < |a| && a[k].ref == ref;
    assert b[k] == a[k];
  }

  function Cotags(p: Policy, tag: string): seq<TagRef> { if tag in p.cotags then p.cotags[tag] else [] }

  /** Co-tags of the first `n` entries of the snapshot `from`, added to `from`. */
  function ExpandCotags(p: Policy, from: seq<Resolved>, n: nat): (r: seq<Resolved>)
    requires n <= |from|
    ensures from <= r && forall k, x | 0 <= k < n && x in Cotags(p, from[k].ref.tag) :: Has(r, x)
  {
    if n == 0 then from
    else
      var before := ExpandCotags(p, from, n - 1);
      var r := AddAll(before, Cotags(p, from[n - 1].ref.tag), "cotag:" + from[n - 1].ref.tag);
      assert forall k, x | 0 <= k < n && x in Cotags(p, from[k].ref.tag) :: Has(r, x) by {
        forall k, x | 0 <= k < n && x in Cotags(p, from[k].ref.tag) ensures Has(r, x) {
          if k < n - 1 { HasGrows(before, r, x); }
        }
      }
      r
  }

  function ApplyJurisdiction(p: Policy, sel: seq<Resolved>, jurisdiction: string): (r: seq<Resolved>)
    ensures sel <= r
  {
    if jurisdiction == "" || Upper(jurisdiction) !in p.jurisdictionCotags then sel
    else AddAll(sel, p.jurisdictionCotags[Upper(jurisdiction)], "jurisdiction:" + jurisdiction)
  }

  datatype Best = Best(level: int, tag: string)

  /** The highest derived security level among the first `n` sensitivity tags, first one winning. */
  function BestSecurity(p: Policy, sel: seq<Resolved>, n: nat): Best
    requires n <= |sel|
  {
    if n == 0 then Best(-1, "")
    else
      var before, t := BestSecurity(p, sel, n - 1), sel[n - 1];
      var tag := t.ref.tag;
      if t.ref.domain != SENSITIVITY || tag !in p.securityDerivation || p.securityDerivation[tag] == "" then before
      else
        var d := p.securityDerivation[t.ref.tag];
        if SecurityLevel(p, d) > before.level then Best(SecurityLevel(p, d), d) else before
  }

  function DeriveSecurity(p: Policy, sel: seq<Resolved>): (r: seq<Resolved>)
    ensures sel <= r
  {
    if HasDomain(sel, SECURITY) then sel
    else
      var best := BestSecurity(p, sel, |sel|);
      if best.tag == "" then sel
      else
        assert !Has(sel, TagRef(SECURITY, best.tag));
        Put(sel, Resolved(TagRef(SECURITY, best.tag), map[], true, "security_derivation"))
  }

  /** Lifecycle and privacy state come from the context, when the policy knows the tag. */
  function ApplyContextTag(
      p: Policy, sel: seq<Resolved>, domain: string, tag: string, source: string): (r: seq<Resolved>)
    ensures sel <= r
  {
    var ref := TagRef(domain, tag);
    if tag == "" || Has(sel, ref) || ref !in p.tags then sel else sel + [Resolved(ref, map[], false, source)]
  }

  datatype Kept = Kept(days: Option<int>, tag: string)

  /** The longest retention among the first `n` tags, first one winning. */
  function BestRetention(p: Policy, sel: seq<Resolved>, n: nat): Kept
    requires n <= |sel|
  {
    if n == 0 then Kept(None, "")
    else
      var before, tag := BestRetention(p, sel, n - 1), sel[n - 1].ref.tag;
      if tag !in p.retention || p.retention[tag].days.None? then before
      else if before.days.None? || p.retention[tag].days.value > before.days.value then
        Kept(p.retention[tag].days, p.retention[tag].tag)
      else before
  }

  datatype Retained = Retained(selected: seq<Resolved>, days: Option<int>, tag: string)

  function ApplyRetention(p: Policy, sel: seq<Resolved>): (r: Retained)
    ensures sel <= r.selected
  {
    var best := BestRetention(p, sel, |sel|);
    var ref := TagRef("RetentionPolicy", best.tag);
    if best.tag == "" || Has(sel, ref) then Retained(sel, None, "")
    else Retained(sel + [Resolved(ref, map[], true, "retention_table")], best.days, best.tag)
  }

  // ---- Checks over the final tags ----

  function CountDomain(sel: seq<Resolved>, domain: string): nat {
    if sel == [] then 0
    else CountDomain(sel[..|sel| - 1], domain) + if sel[|sel| - 1].ref.domain == domain then 1 else 0
  }

  function FirstInDomain(sel: seq<Resolved>, domain: string): (t: Resolved)
    requires HasDomain(sel, domain)
    ensures t in sel && t.ref.domain == domain
  {
    if sel[0].ref.domain == domain then sel[0] else FirstInDomain(sel[1..], domain)
  }

  function CountPresent(sel: seq<Resolved>, refs: seq<TagRef>): nat {
    if refs == [] then 0 else CountPresent(sel, refs[..|refs| - 1]) + if Has(sel, refs[|refs| - 1]) then 1 else 0
  }

  function GoldenViolations(p: Policy, r: GoldenRule, sel: seq<Resolved>): seq<Violation> {
    match r
    case ExactlyOne(id, domain) => if CountDomain(sel, domain) != 1 then [NotExactlyOne(id)] else []
    case MinSecurity(id, trigger, minTag) =>
      if !HasDomain(sel, trigger) then []
      else if !HasDomain(sel, SECURITY) then [SecurityMissing(id)]
      else if SecurityLevel(p, FirstInDomain(sel, SECURITY).ref.tag) < SecurityLevel(p, minTag) then
        [SecurityTooLow(id)]
      else []
    case MutuallyExclusive(id, tags) => if CountPresent(sel, tags) > 1 then [Exclusive(id)] else []
    case RequiresWhen(id, when, required) =>
      if Has(sel, when) && !HasDomain(sel, required) then [DomainMissing(id)] else []
  }

  function AllGolden(p: Policy, n: nat, sel: seq<Resolved>): seq<Violation>
    requires n <= |p.goldenRules|
  {
    if n == 0 then [] else AllGolden(p, n - 1, sel) + GoldenViolations(p, p.goldenRules[n - 1], sel)
  }

  function MissingAttributes(t: Resolved, required: seq<string>): seq<Violation> {
    if required == [] then []
    else MissingAttributes(t, required[..|required| - 1]) +
         if required[|required| - 1] in t.attributes then [] else [AttributeMissing(t.ref, required[|required| - 1])]
  }

  datatype Validated = Validated(violations: seq<Violation>, flags: seq<TagRef>)

  function ValidateAttributes(p: Policy, sel: seq<Resolved>, n: nat): Validated
    requires n <= |sel|
  {
    if n == 0 then Validated([], [])
    else
      var before, t := ValidateAttributes(p, sel, n - 1), sel[n - 1];
      if t.ref !in p.tags then before.(flags := before.flags + [t.ref])
      else before.(violations := before.violations + MissingAttributes(t, p.tags[t.ref].required))
  }

  predicate PatternMatches(pattern: Pattern, ref: TagRef) {
    match pattern
    case AnyOf(domain) => ref.domain == domain
    case Exactly(r) => ref == r
    case Named(tag) => ref.tag == tag
  }

  const ROLE_PRIORITY := ["SecOps", "Legal", "DPO", "Architecture", "Steward"]

  predicate RoleMatched(p: Policy, sel: seq<Resolved>, role: string) {
    && role in p.roleRouting
    && exists k, pattern | 0 <= k < |sel| && pattern in p.roleRouting[role] :: PatternMatches(pattern, sel[k].ref)
  }

  function FirstRole(p: Policy, sel: seq<Resolved>, roles: seq<string>): string {
    if roles == [] then "Steward" else if RoleMatched(p, sel, roles[0]) then roles[0] else FirstRole(p, sel, roles[1..])
  }

  // ---- The whole resolution ----

  /** The tags at the end of each stage, for a given selection. */
  function BeforeSecurity(p: Policy, sel: seq<Resolved>, ctx: Context): (r: seq<Resolved>)
    ensures sel <= r
  {
    ApplyJurisdiction(p, ExpandCotags(p, sel, |sel|), ctx.jurisdiction)
  }

  function BeforeRetention(p: Policy, sel: seq<Resolved>, ctx: Context): (r: seq<Resolved>)
    ensures sel <= r
  {
    var secured := DeriveSecurity(p, BeforeSecurity(p, sel, ctx));
    var living := ApplyContextTag(p, secured, "Lifecycle", ctx.lifecycle, "context.lifecycle");
    ApplyContextTag(p, living, "PrivacyState", ctx.privacyState, "context.privacy_state")
  }

  function Finish(p: Policy, s: Selection, ctx: Context): Result {
    var kept := ApplyRetention(p, BeforeRetention(p, s.selected, ctx));
    var final := kept.selected;
    var checked := ValidateAttributes(p, final, |final|);
    Result(final, kept.days, kept.tag,
           if s.escalations != [] then "SecOps" else FirstRole(p, final, ROLE_PRIORITY),
           s.escalations, AllGolden(p, |p.goldenRules|, final) + checked.violations, checked.flags,
           s.dropped, s.suggestions)
  }

  function Resolve(p: Policy, cs: seq<Candidate>, ctx: Context): Result { Finish(p, Select(p, cs), ctx) }

  // ---- Suggestions never interfere ----

  predicate SameDecision(a: Result, b: Result) {
    a.(dropped := b.dropped, suggestions := b.suggestions) == b
  }

  lemma {:induction false} SelectSeesHardOnly(p: Policy, cs: seq<Candidate>)
    ensures Select(p, cs).selected == Select(p, Hard(cs)).selected
    ensures Select(p, cs).escalations == Select(p, Hard(cs)).escalations
  {
    if cs != [] {
      var front, c := cs[..|cs| - 1], cs[|cs| - 1];
      SelectSeesHardOnly(p, front);
      if c.suggestOnly {
        assert Hard(cs) == Hard(front) + [] == Hard(front);
      } else {
        assert Hard(cs) == Hard(front) + [c];
        assert (Hard(front) + [c])[..|Hard(front)|] == Hard(front);
      }
    }
  }

  /** Two candidate lists with the same hard evidence in the same order are decided alike, wherever suggestions sit
      among it. */
  lemma HardEvidenceDecides(p: Policy, cs: seq<Candidate>, ds: seq<Candidate>, ctx: Context)
    requires Hard(cs) == Hard(ds)
    ensures SameDecision(Resolve(p, cs, ctx), Resolve(p, ds, ctx))
  {
    SelectSeesHardOnly(p, cs);
    SelectSeesHardOnly(p, ds);
  }

  lemma {:induction false} HardConcat(a: seq<Candidate>, b: seq<Candidate>)
    ensures Hard(a + b) == Hard(a) + Hard(b)
  {
    if b == [] {
      assert a + b == a;
    } else {
      var n := |b| - 1;
      assert (a + b)[..|a + b| - 1] == a + b[..n] && (a + b)[|a + b| - 1] == b[n];
      HardConcat(a, b[..n]);
    }
  }

  lemma {:induction false} NoHardIn(cs: seq<Candidate>)
    requires AllSuggested(cs)
    ensures Hard(cs) == []
  {
    if cs != [] {
      assert cs[|cs| - 1] in cs;
      NoHardIn(cs[..|cs| - 1]);
    }
  }

  /** Collecting with any suggestions and resolving decides exactly what collecting without them decides; `inferred` is
      what jurisdiction inference appends in between. */
  lemma SuggestionsNeverInterfere(p: Policy, evidence: seq<Candidate>, inferred: seq<Candidate>,
                                  llm: seq<Suggestion>, memory: seq<Suggestion>, learned: seq<Suggestion>, ctx: Context)
    requires AllHard(evidence)
    ensures SameDecision(Resolve(p, Dedupe(evidence + Suggested(llm, memory, learned)) + inferred, ctx),
                         Resolve(p, Dedupe(evidence + Suggested([], [], [])) + inferred, ctx))
  {
    assert Suggested([], [], []) == [] && evidence + [] == evidence;
    var base := Dedupe(evidence);
    var extra := SuggestionsTrail(evidence, Suggested(llm, memory, learned));
    HardConcat(base + extra, inferred);
    HardConcat(base, extra);
    HardConcat(base, inferred);
    NoHardIn(extra);
    assert Hard(base) + [] == Hard(base);
    HardEvidenceDecides(p, base + extra + inferred, base + inferred, ctx);
  }

  // ---- Resolution only grows ----

  /** Tags selected from candidates open the resolved list unchanged, and their mandatory co-tags are all in it. */
  lemma ResolutionGrows(p: Policy, cs: seq<Candidate>, ctx: Context)
    ensures var sel, final := Select(p, cs).selected, Resolve(p, cs, ctx).resolved;
            && sel <= final
            && forall k, x | 0 <= k < |sel| && x in Cotags(p, sel[k].ref.tag) :: Has(final, x)
  {
    var sel, final := Select(p, cs).selected, Resolve(p, cs, ctx).resolved;
    var expanded := ExpandCotags(p, sel, |sel|);
    assert expanded <= final;
    forall k, x | 0 <= k < |sel| && x in Cotags(p, sel[k].ref.tag) ensures Has(final, x) {
      HasGrows(expanded, final, x);
    }
  }

  // ---- Which tags a resolution holds, and when they are closed under co-tags ----

  lemma {:induction false} AddAllTags(sel: seq<Resolved>, refs: seq<TagRef>, source: string, x: TagRef)
    ensures Has(AddAll(sel, refs, source), x) <==> Has(sel, x) || x in refs
  {
    if refs != [] {
      var n := |refs| - 1;
      var before := AddAll(sel, refs[..n], source);
      AddAllTags(sel, refs[..n], source, x);
      AddMissingTags(before, Resolved(refs[n], map[], true, source), x);
      assert x in refs <==> x in refs[..n] || x == refs[n];
    }
  }

  lemma AddMissingTags(sel: seq<Resolved>, t: Resolved, x: TagRef)
    ensures Has(AddMissing(sel, t), x) <==> Has(sel, x) || x == t.ref
  {
    var r := AddMissing(sel, t);
    if Has(sel, x) { HasGrows(sel, r, x); }
    if k :| 0 <= k < |r| && r[k].ref == x && k < |sel| { assert sel[k].ref == x; }
  }

  /** `x` is a mandatory co-tag of one of the first `n` tags. */
  predicate CotagOf(p: Policy, sel: seq<Resolved>, n: nat, x: TagRef)
    requires n <= |sel|
  {
    exists k | 0 <= k < n :: x in Cotags(p, sel[k].ref.tag)
  }

  lemma {:induction false} ExpandedTags(p: Policy, sel: seq<Resolved>, n: nat, x: TagRef)
    requires n <= |sel|
    ensures Has(ExpandCotags(p, sel, n), x) <==> Has(sel, x) || CotagOf(p, sel, n, x)
  {
    if n > 0 {
      ExpandedTags(p, sel, n - 1, x);
      AddAllTags(ExpandCotags(p, sel, n - 1), Cotags(p, sel[n - 1].ref.tag), "cotag:" + sel[n - 1].ref.tag, x);
    }
  }

  ghost predicate Closed(p: Policy, sel: seq<Resolved>) {
    forall k, y | 0 <= k < |sel| && y in Cotags(p, sel[k].ref.tag) :: Has(sel, y)
  }

  predicate SelectedOrCotag(p: Policy, sel: seq<Resolved>, x: TagRef) { Has(sel, x) || CotagOf(p, sel, |sel|, x) }

  /** Expansion is one level deep, so it is closed under co-tags iff no co-tag of a co-tag lies outside that level. */
  lemma ExpansionClosedIff(p: Policy, sel: seq<Resolved>)
    ensures Closed(p, ExpandCotags(p, sel, |sel|)) <==> CotagsCovered(p, sel, [])
  {
    var r := ExpandCotags(p, sel, |sel|);
    forall x ensures Has(r, x) <==> SelectedOrCotag(p, sel, x) { ExpandedTags(p, sel, |sel|, x); }
    ClosedByParts(p, sel, [], r);
  }

  lemma ClosedMeans(p: Policy, sel: seq<Resolved>)
    ensures Closed(p, sel) <==> forall x, y | Has(sel, x) && y in Cotags(p, x.tag) :: Has(sel, y)
  {
    forall x, y | Closed(p, sel) && Has(sel, x) && y in Cotags(p, x.tag) ensures Has(sel, y) {
      var k :| 0 <= k < |sel| && sel[k].ref == x;
    }
    forall k, y | (forall x, z | Has(sel, x) && z in Cotags(p, x.tag) :: Has(sel, z)) && 0 <= k < |sel| &&
                  y in Cotags(p, sel[k].ref.tag)
      ensures Has(sel, y)
    {
      assert Has(sel, sel[k].ref);
    }
  }

  /** The tags the stages after expansion may add, from the tags before each: jurisdiction, derived security, lifecycle,
      privacy state and retention. */
  function StageTags(p: Policy, sel: seq<Resolved>, ctx: Context): seq<TagRef> {
    var jurisdiction := if ctx.jurisdiction != "" && Upper(ctx.jurisdiction) in p.jurisdictionCotags
                        then p.jurisdictionCotags[Upper(ctx.jurisdiction)] else [];
    var before := BeforeSecurity(p, sel, ctx);
    var best := BestSecurity(p, before, |before|);
    var security := if HasDomain(before, SECURITY) || best.tag == "" then [] else [TagRef(SECURITY, best.tag)];
    var retained := BeforeRetention(p, sel, ctx);
    var kept := BestRetention(p, retained, |retained|);
    jurisdiction + security + KnownTag(p, "Lifecycle", ctx.lifecycle) + KnownTag(p, "PrivacyState", ctx.privacyState)
    + if kept.tag == "" then [] else [TagRef("RetentionPolicy", kept.tag)]
  }

  function KnownTag(p: Policy, domain: string, tag: string): seq<TagRef> {
    if tag != "" && TagRef(domain, tag) in p.tags then [TagRef(domain, tag)] else []
  }

  lemma AppendTags(sel: seq<Resolved>, t: Resolved, x: TagRef)
    ensures Has(sel + [t], x) <==> Has(sel, x) || x == t.ref
  {
    var r := sel + [t];
    if Has(sel, x) { HasGrows(sel, r, x); }
    if x == t.ref { assert r[|sel|].ref == x; }
    if k :| 0 <= k < |r| && r[k].ref == x && k < |sel| { assert sel[k].ref == x; }
  }

  lemma ContextTags(p: Policy, sel: seq<Resolved>, domain: string, tag: string, source: string, x: TagRef)
    ensures Has(ApplyContextTag(p, sel, domain, tag, source), x) <==> Has(sel, x) || x in KnownTag(p, domain, tag)
  {
    AppendTags(sel, Resolved(TagRef(domain, tag), map[], false, source), x);
  }

  lemma SecurityTags(p: Policy, sel: seq<Resolved>, x: TagRef)
    ensures var best := BestSecurity(p, sel, |sel|);
            Has(DeriveSecurity(p, sel), x) <==>
            Has(sel, x) ||
            x in (if HasDomain(sel, SECURITY) || best.tag == "" then [] else [TagRef(SECURITY, best.tag)])
  {
    var best := BestSecurity(p, sel, |sel|);
    AppendTags(sel, Resolved(TagRef(SECURITY, best.tag), map[], true, "security_derivation"), x);
  }

  lemma RetentionTags(p: Policy, sel: seq<Resolved>, x: TagRef)
    ensures var best := BestRetention(p, sel, |sel|);
            Has(ApplyRetention(p, sel).selected, x) <==>
            Has(sel, x) || x in (if best.tag == "" then [] else [TagRef("RetentionPolicy", best.tag)])
  {
    var best := BestRetention(p, sel, |sel|);
    AppendTags(sel, Resolved(TagRef("RetentionPolicy", best.tag), map[], true, "retention_table"), x);
  }

  /** Nothing else is ever added: a resolution holds exactly the selected tags, their co-tags and the stage tags. */
  predicate Held(p: Policy, sel: seq<Resolved>, ctx: Context, x: TagRef) {
    SelectedOrCotag(p, sel, x) || x in StageTags(p, sel, ctx)
  }

  lemma JurisdictionTags(p: Policy, sel: seq<Resolved>, ctx: Context, x: TagRef)
    ensures Has(BeforeSecurity(p, sel, ctx), x) <==>
            SelectedOrCotag(p, sel, x) ||
            x in (if ctx.jurisdiction != "" && Upper(ctx.jurisdiction) in p.jurisdictionCotags
                  then p.jurisdictionCotags[Upper(ctx.jurisdiction)] else [])
  {
    ExpandedTags(p, sel, |sel|, x);
    var expanded := ExpandCotags(p, sel, |sel|);
    if ctx.jurisdiction != "" && Upper(ctx.jurisdiction) in p.jurisdictionCotags {
      AddAllTags(expanded, p.jurisdictionCotags[Upper(ctx.jurisdiction)], "jurisdiction:" + ctx.jurisdiction, x);
    }
  }

  lemma ResolvedTags(p: Policy, cs: seq<Candidate>, ctx: Context, x: TagRef)
    ensures Has(Resolve(p, cs, ctx).resolved, x) <==> Held(p, Select(p, cs).selected, ctx, x)
  {
    var sel := Select(p, cs).selected;
    var before := BeforeSecurity(p, sel, ctx);
    var secured := DeriveSecurity(p, before);
    JurisdictionTags(p, sel, ctx, x);
    SecurityTags(p, before, x);
    ContextTags(p, secured, "Lifecycle", ctx.lifecycle, "context.lifecycle", x);
    ContextTags(p, ApplyContextTag(p, secured, "Lifecycle", ctx.lifecycle, "context.lifecycle"),
                "PrivacyState", ctx.privacyState, "context.privacy_state", x);
    RetentionTags(p, BeforeRetention(p, sel, ctx), x);
  }

  /** `final` holds the selected tags, their co-tags and `extra`, and nothing else. */
  ghost predicate HoldsExactly(p: Policy, sel: seq<Resolved>, extra: seq<TagRef>, final: seq<Resolved>) {
    forall x :: Has(final, x) <==> SelectedOrCotag(p, sel, x) || x in extra
  }

  /** Every co-tag of a co-tag or of an extra tag is selected, a co-tag of a selected tag, or extra. */
  ghost predicate CotagsCovered(p: Policy, sel: seq<Resolved>, extra: seq<TagRef>) {
    forall x, y | (CotagOf(p, sel, |sel|, x) || x in extra) && y in Cotags(p, x.tag) ::
      SelectedOrCotag(p, sel, y) || y in extra
  }

  lemma ClosedByParts(p: Policy, sel: seq<Resolved>, extra: seq<TagRef>, final: seq<Resolved>)
    requires HoldsExactly(p, sel, extra, final)
    ensures Closed(p, final) <==> CotagsCovered(p, sel, extra)
  {
    ClosedMeans(p, final);
    forall x, y | Has(sel, x) && y in Cotags(p, x.tag) ensures CotagOf(p, sel, |sel|, y) {
      var k :| 0 <= k < |sel| && sel[k].ref == x;
    }
  }

  lemma ResolutionHolds(p: Policy, cs: seq<Candidate>, ctx: Context)
    ensures var sel := Select(p, cs).selected;
            HoldsExactly(p, sel, StageTags(p, sel, ctx), Resolve(p, cs, ctx).resolved)
  {
    forall x ensures Has(Resolve(p, cs, ctx).resolved, x) <==> Held(p, Select(p, cs).selected, ctx, x) {
      ResolvedTags(p, cs, ctx, x);
    }
  }

  /** A resolution is closed under co-tags iff the co-tags of co-tags and of stage tags are covered. */
  lemma ResolutionClosedIff(p: Policy, cs: seq<Candidate>, ctx: Context)
    ensures var sel := Select(p, cs).selected;
            Closed(p, Resolve(p, cs, ctx).resolved) <==> CotagsCovered(p, sel, StageTags(p, sel, ctx))
  {
    var sel := Select(p, cs).selected;
    ResolutionHolds(p, cs, ctx);
    ClosedByParts(p, sel, StageTags(p, sel, ctx), Resolve(p, cs, ctx).resolved);
  }

  /** It can fail: a co-tag's own co-tag need not follow. */
  lemma CotagsNotTransitive()
    ensures var a, b, c := TagRef("D", "A"), TagRef("D", "B"), TagRef("D", "C");
            var p := Policy(map[], map["A" := [b], "B" := [c]], map[], map[], map[], map[], [], map[]);
            var sel := [Resolved(a, map[], false, "")];
            !Closed(p, ExpandCotags(p, sel, 1))
  {
    var a, b, c := TagRef("D", "A"), TagRef("D", "B"), TagRef("D", "C");
    var p := Policy(map[], map["A" := [b], "B" := [c]], map[], map[], map[], map[], [], map[]);
    var sel := [Resolved(a, map[], false, "")];
    assert Cotags(p, sel[0].ref.tag) == [b] && Cotags(p, b.tag) == [c];
    assert CotagOf(p, sel, 1, b) && c in Cotags(p, b.tag);
    assert a.tag != c.tag && b.tag != c.tag;
    assert !Has(sel, c) && !CotagOf(p, sel, |sel|, c);
    ExpansionClosedIff(p, sel);
  }

  // ---- The derived security tag ----

  function DerivedLevel(p: Policy, t: Resolved): Option<int> {
    if t.ref.domain == SENSITIVITY && t.ref.tag in p.securityDerivation && p.securityDerivation[t.ref.tag] != ""
    then Some(SecurityLevel(p, p.securityDerivation[t.ref.tag])) else None
  }

  lemma {:induction false} BestSecurityDominates(p: Policy, sel: seq<Resolved>, n: nat)
    requires n <= |sel|
    ensures var best := BestSecurity(p, sel, n);
            && (forall k | 0 <= k < n && DerivedLevel(p, sel[k]).Some? :: DerivedLevel(p, sel[k]).value <= best.level)
            && best.level >= -1 && (best.tag == "" <==> best.level == -1)
            && (best.tag != "" ==> best.level == SecurityLevel(p, best.tag))
  {
    if n > 0 { BestSecurityDominates(p, sel, n - 1); }
  }

  /** Entries appended to `before` all belong to other domains than the two security ones. */
  ghost predicate AddsElsewhere(before: seq<Resolved>, after: seq<Resolved>) {
    && before <= after
    && forall k | |before| <= k < |after| :: after[k].ref.domain != SECURITY && after[k].ref.domain != SENSITIVITY
  }

  lemma LaterStagesElsewhere(p: Policy, sel: seq<Resolved>, ctx: Context)
    ensures AddsElsewhere(DeriveSecurity(p, BeforeSecurity(p, sel, ctx)),
                          ApplyRetention(p, BeforeRetention(p, sel, ctx)).selected)
  {
  }

  /** At most one DataSecurity tag, derived, at least as high as what every DataSensitivity tag derives to; none only
      when all those levels are -1 or below. */
  ghost predicate SecurityDominates(p: Policy, final: seq<Resolved>) {
    && (forall i, j | 0 <= i < |final| && 0 <= j < |final|
          && final[i].ref.domain == SECURITY && final[j].ref.domain == SECURITY :: i == j)
    && (forall i | 0 <= i < |final| && final[i].ref.domain == SECURITY :: final[i].derived)
    && (forall k | 0 <= k < |final| && DerivedLevel(p, final[k]).Some? ::
          || DerivedLevel(p, final[k]).value <= -1
          || exists i :: 0 <= i < |final| && final[i].ref.domain == SECURITY
               && SecurityLevel(p, final[i].ref.tag) >= DerivedLevel(p, final[k]).value)
  }

  lemma SecuredDominates(p: Policy, before: seq<Resolved>, final: seq<Resolved>)
    requires !HasDomain(before, SECURITY) && AddsElsewhere(DeriveSecurity(p, before), final)
    ensures SecurityDominates(p, final)
  {
    var secured := DeriveSecurity(p, before);
    BestSecurityDominates(p, before, |before|);
    var best := BestSecurity(p, before, |before|);
    assert |secured| == |before| + (if best.tag == "" then 0 else 1);
    if best.tag != "" {
      assert final[|before|] == secured[|before|];
      assert final[|before|].ref.domain == SECURITY && final[|before|].derived;
    }
  }

  /** When nothing supplied a DataSecurity tag, the derived one dominates every DataSensitivity tag in the result. */
  lemma DerivedSecurityDominates(p: Policy, cs: seq<Candidate>, ctx: Context)
    requires !HasDomain(BeforeSecurity(p, Select(p, cs).selected, ctx), SECURITY)
    ensures SecurityDominates(p, Resolve(p, cs, ctx).resolved)
  {
    var sel := Select(p, cs).selected;
    LaterStagesElsewhere(p, sel, ctx);
    SecuredDominates(p, BeforeSecurity(p, sel, ctx), Resolve(p, cs, ctx).resolved);
  }

  predicate Keeps(p: Policy, t: Resolved, days: int) {
    t.ref.tag in p.retention && p.retention[t.ref.tag].days == Some(days)
  }

  lemma {:induction false} BestRetentionLongest(p: Policy, sel: seq<Resolved>, n: nat)
    requires n <= |sel|
    ensures var best := BestRetention(p, sel, n);
            && (forall k, d | 0 <= k < n && Keeps(p, sel[k], d) :: best.days.Some? && d <= best.days.value)
            && (best.days.Some? ==> exists k :: 0 <= k < n && Keeps(p, sel[k], best.days.value))
  {
    if n > 0 {
      BestRetentionLongest(p, sel, n - 1);
      var before, best := BestRetention(p, sel, n - 1), BestRetention(p, sel, n);
      if best != before { assert Keeps(p, sel[n - 1], best.days.value); }
    }
  }

  /** A reported retention is the longest any tag before the retention tag itself asks for; it is the longest of the
      whole result iff that tag, appended last, asks for no more. */
  lemma RetentionIsLongest(p: Policy, cs: seq<Candidate>, ctx: Context)
    requires Resolve(p, cs, ctx).retentionDays.Some?
    ensures var r := Resolve(p, cs, ctx);
            var n := |r.resolved| - 1;
            && n >= 0 && r.resolved[n].ref == TagRef("RetentionPolicy", r.retentionTag)
            && (forall k, d | 0 <= k < n && Keeps(p, r.resolved[k], d) :: d <= r.retentionDays.value)
            && (exists k :: 0 <= k < n && Keeps(p, r.resolved[k], r.retentionDays.value))
            && ((forall k, d | 0 <= k <= n && Keeps(p, r.resolved[k], d) :: d <= r.retentionDays.value) <==>
                (forall d | Keeps(p, r.resolved[n], d) :: d <= r.retentionDays.value))
  {
    var before := BeforeRetention(p, Select(p, cs).selected, ctx);
    BestRetentionLongest(p, before, |before|);
    var final := Resolve(p, cs, ctx).resolved;
    assert final[|before|].ref.domain == "RetentionPolicy";
  }
}
