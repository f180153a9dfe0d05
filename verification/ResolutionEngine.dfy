/** The classification engine as it runs (redibis/classification/policy_engine.py, PolicyEngine.resolve). */
module ResolutionEngine {
  import opened Sequences
  import opened Conditions
  import opened Ensemble
  import opened PolicyEngine
  import opened ResolutionLaws

  // ---- The engine as it runs: each stage updates the shared tags and result ----

  class Resolution {
    const policy: Policy
    const ctx: Context
    var selected: seq<Resolved>
    var escalations: seq<TagRef>
    var dropped: seq<TagRef>
    var suggestions: seq<Candidate>
    var retentionDays: Option<int>
    var retentionTag: string
    var violations: seq<Violation>
    var flags: seq<TagRef>

    constructor (p: Policy, c: Context)
      ensures policy == p && ctx == c
      ensures selected == [] && escalations == [] && dropped == [] && suggestions == []
      ensures retentionDays == None && retentionTag == "" && violations == [] && flags == []
    {
      policy, ctx := p, c;
      selected, escalations, dropped, suggestions := [], [], [], [];
      retentionDays, retentionTag, violations, flags := None, "", [], [];
    }

    method TakeCandidates(cs: seq<Candidate>)
      requires selected == [] && escalations == [] && dropped == [] && suggestions == []
      modifies this`selected, this`escalations, this`dropped, this`suggestions
      ensures Selection(selected, escalations, dropped, suggestions) == Select(policy, cs)
    {
      for k := 0 to |cs|
        invariant Selection(selected, escalations, dropped, suggestions) == Select(policy, cs[..k])
      {
        TakeStep(cs, k);
        var c := cs[k];
        if c.suggestOnly {
          suggestions := suggestions + [c];
          dropped := dropped + [c.ref];
          continue;
        }
        if c.ref in policy.tags && policy.tags[c.ref].applyForbidden {
          escalations := escalations + [c.ref];
          dropped := dropped + [c.ref];
          continue;
        }
        if !Has(selected, c.ref) || c.confidence > 0.0 {
          selected := Put(selected, Resolved(c.ref, c.attributes, false, c.source));
        }
      }
      assert cs[..|cs|] == cs;
    }

    method AddEach(refs: seq<TagRef>, source: string)
      modifies this`selected
      ensures selected == AddAll(old(selected), refs, source)
    {
      for k := 0 to |refs|
        invariant selected == AddAll(old(selected), refs[..k], source)
      {
        TakeStep(refs, k);
        if !Has(selected, refs[k]) { selected := selected + [Resolved(refs[k], map[], true, source)]; }
      }
      assert refs[..|refs|] == refs;
    }

    method AddCotags()
      modifies this`selected
      ensures selected == ExpandCotags(policy, old(selected), |old(selected)|)
    {
      var snapshot := selected;
      for k := 0 to |snapshot|
        invariant selected == ExpandCotags(policy, snapshot, k)
      {
        AddEach(Cotags(policy, snapshot[k].ref.tag), "cotag:" + snapshot[k].ref.tag);
      }
    }

    method AddJurisdiction()
      modifies this`selected
      ensures selected == ApplyJurisdiction(policy, old(selected), ctx.jurisdiction)
    {
      if ctx.jurisdiction == "" || Upper(ctx.jurisdiction) !in policy.jurisdictionCotags { return; }
      AddEach(policy.jurisdictionCotags[Upper(ctx.jurisdiction)], "jurisdiction:" + ctx.jurisdiction);
    }

    method AddDataSecurity()
      modifies this`selected
      ensures selected == DeriveSecurity(policy, old(selected))
    {
      if HasDomain(selected, SECURITY) { return; }
      var level, tag := -1, "";
      for k := 0 to |selected|
        invariant selected == old(selected) && Best(level, tag) == BestSecurity(policy, selected, k)
      {
        var t := selected[k].ref;
        if t.domain != SENSITIVITY { continue; }
        if t.tag !in policy.securityDerivation || policy.securityDerivation[t.tag] == "" { continue; }
        var derived := policy.securityDerivation[t.tag];
        if SecurityLevel(policy, derived) > level {
          level, tag := SecurityLevel(policy, derived), derived;
        }
      }
      if tag != "" {
        selected := Put(selected, Resolved(TagRef(SECURITY, tag), map[], true, "security_derivation"));
      }
    }

    method AddContextTag(domain: string, tag: string, source: string)
      modifies this`selected
      ensures selected == ApplyContextTag(policy, old(selected), domain, tag, source)
    {
      if tag == "" { return; }
      var ref := TagRef(domain, tag);
      if !Has(selected, ref) && ref in policy.tags { selected := selected + [Resolved(ref, map[], false, source)]; }
    }

    method AddRetention()
      requires retentionDays == None && retentionTag == ""
      modifies this`selected, this`retentionDays, this`retentionTag
      ensures Retained(selected, retentionDays, retentionTag) == ApplyRetention(policy, old(selected))
    {
      var days, tag := None, "";
      for k := 0 to |selected|
        invariant selected == old(selected) && retentionDays == None && retentionTag == ""
        invariant Kept(days, tag) == BestRetention(policy, selected, k)
      {
        var name := selected[k].ref.tag;
        if name !in policy.retention || policy.retention[name].days.None? { continue; }
        if days.None? || policy.retention[name].days.value > days.value {
          days, tag := policy.retention[name].days, policy.retention[name].tag;
        }
      }
      if tag != "" && !Has(selected, TagRef("RetentionPolicy", tag)) {
        selected := selected + [Resolved(TagRef("RetentionPolicy", tag), map[], true, "retention_table")];
        retentionDays, retentionTag := days, tag;
      }
    }

    method CheckGoldenRules()
      requires violations == []
      modifies this`violations
      ensures violations == AllGolden(policy, |policy.goldenRules|, selected)
    {
      for k := 0 to |policy.goldenRules|
        invariant violations == AllGolden(policy, k, selected)
      {
        violations := violations + GoldenViolations(policy, policy.goldenRules[k], selected);
      }
    }

    method CheckAttributes()
      requires flags == []
      modifies this`violations, this`flags
      ensures violations == old(violations) + ValidateAttributes(policy, selected, |selected|).violations
      ensures flags == ValidateAttributes(policy, selected, |selected|).flags
    {
      for k := 0 to |selected|
        invariant violations == old(violations) + ValidateAttributes(policy, selected, k).violations
        invariant flags == ValidateAttributes(policy, selected, k).flags
      {
        var t := selected[k];
        if t.ref !in policy.tags {
          flags := flags + [t.ref];
          continue;
        }
        violations := violations + MissingAttributes(t, policy.tags[t.ref].required);
      }
    }
  }

  /** `PolicyEngine.resolve`. */
  method ResolveCandidates(p: Policy, cs: seq<Candidate>, ctx: Context) returns (r: PolicyEngine.Result)
    ensures r == Resolve(p, cs, ctx)
    ensures Promised(p, cs, ctx, r)
  {
    r := RunStages(p, cs, ctx);
    ResolutionPromised(p, cs, ctx);
  }

  /** The stages in their order. */
  method RunStages(p: Policy, cs: seq<Candidate>, ctx: Context) returns (r: PolicyEngine.Result)
    ensures r == Resolve(p, cs, ctx)
  {
    var run := new Resolution(p, ctx);
    run.TakeCandidates(cs);
    run.AddCotags();
    run.AddJurisdiction();
    run.AddDataSecurity();
    run.AddContextTag("Lifecycle", ctx.lifecycle, "context.lifecycle");
    run.AddContextTag("PrivacyState", ctx.privacyState, "context.privacy_state");
    run.AddRetention();
    run.CheckGoldenRules();
    run.CheckAttributes();
    var role := if run.escalations != [] then "SecOps" else FirstRole(p, run.selected, ROLE_PRIORITY);
    r := PolicyEngine.Result.Result(
      run.selected, run.retentionDays, run.retentionTag, role, run.escalations, run.violations, run.flags, run.dropped,
      run.suggestions);
  }
}
