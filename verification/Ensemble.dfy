/** Candidate tags and their deduplication (redibis/classification/models.py, ensemble.py). */
module Ensemble {
  import opened Sequences
  import opened Conditions

  datatype TagRef = TagRef(domain: string, tag: string)

  datatype Candidate = Candidate(
    ref: TagRef, confidence: real, source: string, attributes: map<string, Value>, suggestOnly: bool)

  /** An item proposed by an LLM, by memory retrieval or by a learned classifier. */
  datatype Suggestion = Suggestion(domain: string, tag: string, confidence: real, attributes: map<string, Value>)

  function FromSuggestions(items: seq<Suggestion>, source: string): (r: seq<Candidate>)
    ensures forall c | c in r :: c.suggestOnly
  {
    if items == [] then []
    else
      var item := items[|items| - 1];
      FromSuggestions(items[..|items| - 1], source) +
      if item.domain == "" || item.tag == "" then []
      else
        var confidence := if item.confidence == 0.0 then 0.5 else item.confidence;
        [Candidate(TagRef(item.domain, item.tag), confidence, source, item.attributes, true)]
  }

  // ---- The `best` dictionary: candidates in first-insertion order of their keys ----

  predicate HasKey(best: seq<Candidate>, ref: TagRef) { exists k | 0 <= k < |best| :: best[k].ref == ref }

  function Find(best: seq<Candidate>, ref: TagRef): (i: nat)
    requires HasKey(best, ref)
    ensures i < |best| && best[i].ref == ref
  {
    if best[0].ref == ref then 0 else 1 + Find(best[1..], ref)
  }

  /** Hard evidence beats suggestions; otherwise strictly higher confidence wins. */
  predicate Replaces(c: Candidate, prev: Candidate) {
    if prev.suggestOnly && !c.suggestOnly then true
    else if !prev.suggestOnly && c.suggestOnly then false
    else c.confidence > prev.confidence
  }

  function Insert(best: seq<Candidate>, c: Candidate): seq<Candidate> {
    if !HasKey(best, c.ref) then best + [c]
    else var i := Find(best, c.ref); if Replaces(c, best[i]) then best[i := c] else best
  }

  function Dedupe(cs: seq<Candidate>): seq<Candidate> {
    if cs == [] then [] else Insert(Dedupe(cs[..|cs| - 1]), cs[|cs| - 1])
  }

  method DedupeCandidates(cs: seq<Candidate>) returns (best: seq<Candidate>)
    ensures best == Dedupe(cs) && BestOf(best, cs)
  {
    best := [];
    for k := 0 to |cs|
      invariant best == Dedupe(cs[..k])
    {
      TakeStep(cs, k);
      var c := cs[k];
      if !HasKey(best, c.ref) {
        best := best + [c];
        continue;
      }
      var i := Find(best, c.ref);
      if best[i].suggestOnly && !c.suggestOnly {
        best := best[i := c];
        continue;
      }
      if !best[i].suggestOnly && c.suggestOnly { continue; }
      if c.confidence > best[i].confidence { best := best[i := c]; }
    }
    assert cs[..|cs|] == cs;
    DedupeKeepsBest(cs);
  }

  // ---- What deduplication keeps ----

  ghost predicate DistinctKeys(best: seq<Candidate>) {
    forall i, j :: 0 <= i < j < |best| ==> best[i].ref != best[j].ref
  }

  /** One survivor per key, itself a candidate; and no candidate of the key would replace it. */
  lemma {:induction false} DedupeSound(cs: seq<Candidate>)
    ensures Survivors(Dedupe(cs), cs)
  {
    if cs != [] {
      var front, c := cs[..|cs| - 1], cs[|cs| - 1];
      DedupeSound(front);
      InsertSound(Dedupe(front), front, c);
      assert cs == front + [c];
    }
  }

  ghost predicate Survivors(best: seq<Candidate>, cs: seq<Candidate>) {
    DistinctKeys(best) && (forall b | b in best :: b in cs) && (forall c | c in cs :: Survivor(best, c))
  }

  ghost predicate Survivor(best: seq<Candidate>, c: Candidate) {
    exists b | b in best :: b.ref == c.ref && !Replaces(c, b)
  }

  lemma InsertSound(best: seq<Candidate>, cs: seq<Candidate>, c: Candidate)
    requires Survivors(best, cs)
    ensures Survivors(Insert(best, c), cs + [c])
  {
    InsertDistinct(best, c);
    forall x | x in cs ensures Survivor(Insert(best, c), x) { SurvivorStays(best, c, x); }
    InsertedSurvives(best, c);
  }

  lemma InsertDistinct(best: seq<Candidate>, c: Candidate)
    requires DistinctKeys(best)
    ensures DistinctKeys(Insert(best, c)) && forall b | b in Insert(best, c) :: b == c || b in best
  {
  }

  lemma SurvivorStays(best: seq<Candidate>, c: Candidate, x: Candidate)
    requires Survivor(best, x)
    ensures Survivor(Insert(best, c), x)
  {
    var r := Insert(best, c);
    var b :| b in best && b.ref == x.ref && !Replaces(x, b);
    var k :| 0 <= k < |best| && best[k] == b;
    assert r[k] in r && (r[k] == b || (r[k] == c && Replaces(c, b) && c.ref == b.ref));
  }

  lemma InsertedSurvives(best: seq<Candidate>, c: Candidate)
    ensures Survivor(Insert(best, c), c)
  {
    var r := Insert(best, c);
    if HasKey(best, c.ref) { assert r[Find(best, c.ref)] in r; } else { assert c in r; }
  }

  // ---- Which candidate survives ----

  /** `a` is preferred to `b`: hard evidence to a suggestion, and among the like higher confidence. */
  ghost predicate Preferred(a: Candidate, b: Candidate) {
    if a.suggestOnly == b.suggestOnly then a.confidence > b.confidence else b.suggestOnly
  }

  /** No candidate of its tag is preferred to candidate `k`, and each one before it is less preferred. */
  ghost predicate Survives(cs: seq<Candidate>, k: nat) {
    && k < |cs|
    && (forall j | 0 <= j < |cs| && cs[j].ref == cs[k].ref :: !Preferred(cs[j], cs[k]))
    && forall j | 0 <= j < k && cs[j].ref == cs[k].ref :: Preferred(cs[k], cs[j])
  }

  ghost predicate Surviving(cs: seq<Candidate>, c: Candidate) { exists k: nat :: Survives(cs, k) && c == cs[k] }

  /** What is left: the surviving candidates, one for each tag. */
  ghost predicate BestOf(best: seq<Candidate>, cs: seq<Candidate>) {
    DistinctKeys(best) && forall c :: c in best <==> Surviving(cs, c)
  }

  ghost predicate Beats(c: Candidate, x: Candidate) { x.ref == c.ref && Preferred(c, x) }

  ghost predicate BeatsAll(c: Candidate, xs: seq<Candidate>) { forall x | x in xs && x.ref == c.ref :: Preferred(c, x) }

  lemma InsertHas(best: seq<Candidate>, c: Candidate)
    requires DistinctKeys(best)
    ensures DistinctKeys(Insert(best, c))
    ensures forall x :: x in Insert(best, c) <==> (x in best && !Beats(c, x)) || (x == c && BeatsAll(c, best))
  {
    InsertDistinct(best, c);
    if HasKey(best, c.ref) {
      var i := Find(best, c.ref);
      assert best[i] in best;
      forall b | b in best && b.ref == c.ref ensures b == best[i] {
        var j :| 0 <= j < |best| && best[j] == b;
      }
      if Replaces(c, best[i]) { ReplacedHas(best, i, c); }
    } else {
      forall b | b in best ensures b.ref != c.ref {
        var j :| 0 <= j < |best| && best[j] == b;
      }
    }
  }

  lemma ReplacedHas(best: seq<Candidate>, i: nat, c: Candidate)
    requires i < |best| && best[i].ref == c.ref && DistinctKeys(best)
    ensures forall x :: x in best[i := c] <==> (x in best && x != best[i]) || x == c
  {
    var r := best[i := c];
    assert r[i] == c;
    forall x | x in best && x != best[i] ensures x in r {
      var j :| 0 <= j < |best| && best[j] == x;
      assert r[j] == x;
    }
    forall x | x in r && x != c ensures x in best && x != best[i] {
      var j :| 0 <= j < |r| && r[j] == x;
      assert j != i && best[j] == x;
    }
  }

  lemma SurvivesNext(front: seq<Candidate>, c: Candidate, k: nat)
    requires k < |front|
    ensures Survives(front + [c], k) <==> Survives(front, k) && !Beats(c, front[k])
  {
    var cs := front + [c];
    assert forall j | 0 <= j < |front| :: cs[j] == front[j];
    assert cs[|front|] == c;
  }

  lemma SurvivesLast(front: seq<Candidate>, c: Candidate)
    ensures Survives(front + [c], |front|) <==> BeatsAll(c, front)
  {
    var cs := front + [c];
    assert forall j | 0 <= j < |front| :: cs[j] == front[j] && front[j] in front;
    assert cs[|front|] == c;
  }

  lemma SurvivingNext(front: seq<Candidate>, c: Candidate, x: Candidate)
    ensures Surviving(front + [c], x) <==> (Surviving(front, x) && !Beats(c, x)) || (x == c && BeatsAll(c, front))
  {
    if Surviving(front + [c], x) { SurvivedBefore(front, c, x); }
    if Surviving(front, x) && !Beats(c, x) { SurvivesOn(front, c, x); }
    if x == c && BeatsAll(c, front) {
      SurvivesLast(front, c);
      assert (front + [c])[|front|] == c;
    }
  }

  lemma SurvivedBefore(front: seq<Candidate>, c: Candidate, x: Candidate)
    requires Surviving(front + [c], x)
    ensures (Surviving(front, x) && !Beats(c, x)) || (x == c && BeatsAll(c, front))
  {
    var k: nat :| Survives(front + [c], k) && x == (front + [c])[k];
    if k < |front| { SurvivesNext(front, c, k); } else { SurvivesLast(front, c); }
  }

  lemma SurvivesOn(front: seq<Candidate>, c: Candidate, x: Candidate)
    requires Surviving(front, x) && !Beats(c, x)
    ensures Surviving(front + [c], x)
  {
    var k: nat :| Survives(front, k) && x == front[k];
    SurvivesNext(front, c, k);
    assert (front + [c])[k] == x;
  }

  /** Less preferred than all survivors of its tag is less preferred than all candidates of it. */
  lemma SurvivorsDecide(best: seq<Candidate>, cs: seq<Candidate>, c: Candidate)
    requires Survivors(best, cs)
    ensures BeatsAll(c, best) <==> BeatsAll(c, cs)
  {
    if BeatsAll(c, best) {
      forall x | x in cs && x.ref == c.ref ensures Preferred(c, x) {
        assert Survivor(best, x);
        var b :| b in best && b.ref == x.ref && !Replaces(x, b);
      }
    }
  }

  lemma DedupeAppend(cs: seq<Candidate>, c: Candidate)
    ensures Dedupe(cs + [c]) == Insert(Dedupe(cs), c)
  {
    assert (cs + [c])[..|cs|] == cs;
  }

  /** Deduplication keeps exactly these. */
  lemma {:induction false} DedupeKeepsBest(cs: seq<Candidate>)
    ensures BestOf(Dedupe(cs), cs)
  {
    if cs == [] {
      NothingBest();
    } else {
      var front, c := cs[..|cs| - 1], cs[|cs| - 1];
      assert cs == front + [c];
      DedupeKeepsBest(front);
      DedupeSound(front);
      InsertedBest(Dedupe(front), front, c);
      DedupeAppend(front, c);
    }
  }

  lemma NothingBest()
    ensures BestOf([], [])
  {
  }

  lemma InsertedBest(best: seq<Candidate>, front: seq<Candidate>, c: Candidate)
    requires BestOf(best, front) && Survivors(best, front)
    ensures BestOf(Insert(best, c), front + [c])
  {
    InsertHas(best, c);
    SurvivorsDecide(best, front, c);
    forall x ensures x in Insert(best, c) <==> Surviving(front + [c], x) { SurvivingNext(front, c, x); }
  }

  /** Each suggestion that names a tag gives a suggest-only candidate of it, half sure if it does not say how sure. */
  lemma {:induction false} SuggestionsGive(items: seq<Suggestion>, source: string, c: Candidate)
    ensures c in FromSuggestions(items, source) <==>
            exists item | item in items ::
              && item.domain != "" && item.tag != "" && c.ref == TagRef(item.domain, item.tag)
              && c.confidence == (if item.confidence == 0.0 then 0.5 else item.confidence)
              && c.source == source && c.attributes == item.attributes && c.suggestOnly
  {
    if items != [] {
      SuggestionsGive(items[..|items| - 1], source, c);
      assert items == items[..|items| - 1] + [items[|items| - 1]];
    }
  }

  function Hard(cs: seq<Candidate>): (r: seq<Candidate>)
    ensures forall c | c in r :: !c.suggestOnly
  {
    if cs == [] then [] else Hard(cs[..|cs| - 1]) + if cs[|cs| - 1].suggestOnly then [] else [cs[|cs| - 1]]
  }

  ghost predicate AllHard(cs: seq<Candidate>) { forall c | c in cs :: !c.suggestOnly }

  ghost predicate AllSuggested(cs: seq<Candidate>) { forall c | c in cs :: c.suggestOnly }

  lemma InsertSuggestion(hard: seq<Candidate>, extra: seq<Candidate>, c: Candidate) returns (extra': seq<Candidate>)
    requires AllHard(hard) && AllSuggested(extra) && c.suggestOnly
    ensures AllSuggested(extra') && Insert(hard + extra, c) == hard + extra'
  {
    var best := hard + extra;
    if !HasKey(best, c.ref) {
      extra' := extra + [c];
      assert best + [c] == hard + extra';
    } else {
      var i := Find(best, c.ref);
      if Replaces(c, best[i]) {
        assert forall k | 0 <= k < |hard| :: hard[k] in hard && best[k] == hard[k];
        assert best[i].suggestOnly;
        assert i >= |hard|;
        extra' := extra[i - |hard| := c];
        assert best[i := c] == hard + extra';
      } else {
        extra' := extra;
      }
    }
  }

  lemma DedupeHard(hard: seq<Candidate>)
    requires AllHard(hard)
    ensures AllHard(Dedupe(hard))
  {
    DedupeSound(hard);
  }

  /** Suggestions after hard evidence only add suggest-only entries behind it. */
  lemma {:induction false} SuggestionsTrail(hard: seq<Candidate>, suggested: seq<Candidate>)
      returns (extra: seq<Candidate>)
    requires AllHard(hard) && AllSuggested(suggested)
    ensures AllSuggested(extra) && Dedupe(hard + suggested) == Dedupe(hard) + extra
  {
    if suggested == [] {
      extra := [];
      assert hard + suggested == hard;
      assert Dedupe(hard) + [] == Dedupe(hard);
    } else {
      var n := |suggested| - 1;
      assert hard + suggested == (hard + suggested[..n]) + [suggested[n]];
      var before := SuggestionsTrail(hard, suggested[..n]);
      DedupeHard(hard);
      assert suggested[n] in suggested;
      extra := InsertSuggestion(Dedupe(hard), before, suggested[n]);
      DedupeAppend(hard + suggested[..n], suggested[n]);
    }
  }

  /** `ClassifierEnsemble.collect`: contract evidence first, then the three kinds of suggestion. */
  method Collect(evidence: seq<Candidate>, llm: seq<Suggestion>, memory: seq<Suggestion>, learned: seq<Suggestion>)
    returns (candidates: seq<Candidate>)
    ensures candidates == Dedupe(evidence + Suggested(llm, memory, learned))
    ensures BestOf(candidates, evidence + Suggested(llm, memory, learned))
  {
    var out := Gather(evidence, llm, memory, learned);
    candidates := DedupeCandidates(out);
    DedupeKeepsBest(out);
  }

  method Gather(evidence: seq<Candidate>, llm: seq<Suggestion>, memory: seq<Suggestion>, learned: seq<Suggestion>)
    returns (out: seq<Candidate>)
    ensures out == evidence + Suggested(llm, memory, learned)
  {
    out := evidence;
    if llm != [] { out := out + FromSuggestions(llm, "llm_judgment"); }
    if memory != [] { out := out + FromSuggestions(memory, "memory_retrieval"); }
    if learned != [] { out := out + FromSuggestions(learned, "learned_classifier"); }
    ghost var a, b := FromSuggestions(llm, "llm_judgment"), FromSuggestions(memory, "memory_retrieval");
    Regrouped(evidence, a, b, FromSuggestions(learned, "learned_classifier"));
  }

  lemma Regrouped(a: seq<Candidate>, b: seq<Candidate>, c: seq<Candidate>, d: seq<Candidate>)
    ensures a + b + c + d == a + (b + c + d)
    ensures a + [] == a
  {
  }

  function Suggested(llm: seq<Suggestion>, memory: seq<Suggestion>, learned: seq<Suggestion>): (r: seq<Candidate>)
    ensures forall c | c in r :: c.suggestOnly
  {
    FromSuggestions(llm, "llm_judgment") + FromSuggestions(memory, "memory_retrieval") +
        FromSuggestions(learned, "learned_classifier")
  }
}
