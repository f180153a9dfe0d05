# Verified model of the behavior policy runtime and its neighbours

This project models the deterministic cores of `redibis` in Dafny and proves what they promise:

- the **policy runtime**: three-valued condition trees, priority-ordered rule evaluation, capability-aware patch
  reduction, the rule-at-a-time column loop, the versioned policy store and the terminal-shadow linter;
- the **pipeline graph**: Kahn's ordering with its cycle fallback, and structural validation of typed ports;
- **classification**: candidate deduplication, the "LLM proposes, engine disposes" resolution engine, edge-rule overlays;
- the **batch executors**: the sequential run with its task ledger, and the run that pauses for a human, resumes, and
  recovers after a crash;
- the **governance log**: transitions as a hash chain per field.

Code that updates state step by step is a method or a class whose contract ties it to a specification function; the
results below are lemmas about those functions, or contracts of the methods. The main operations also have a law each
that says what they do without those functions, by their inputs and the states before and after alone. Everything the
model takes from outside (regular expressions, `str`, `repr`, SHA-256, adapters, node runners, the LangGraph executor,
cancellation) is a function or a record of functions passed in, so each theorem holds for every such environment.

Verify with `dafny verify dfyconfig.toml`.

## Files

| file | models |
|---|---|
| `Sequences.dfy` | shared facts: options, stable sorting by a strict order, code-point string order |
| `Conditions.dfy`, `ConditionKey.dfy` | condition trees; the linter's key for them |
| `ConditionLaws.dfy` | what groups, equality and each operator mean, by themselves |
| `Reducer.dfy` | patch operations and their reduction |
| `Evaluator.dfy`, `PolicyDecision.dfy` | rule evaluation; what sort, evaluate and reduce decide together |
| `Lint.dfy` | terminal-shadow findings against evaluation |
| `Runtime.dfy` | fact providers and the column loop, compared with batch simulation |
| `PolicyStore.dfy` | the versioned store with activation stack and rollback |
| `TopologicalOrder.dfy`, `NodeRegistry.dfy` | run order; validation; what both guarantee together |
| `ValidationLaws.dfy` | which errors validation reports, problem by problem |
| `Ensemble.dfy`, `PolicyEngine.dfy`, `EdgeRules.dfy` | candidates, resolution, edge-rule overlays |
| `ResolutionLaws.dfy`, `ResolutionEngine.dfy` | what a resolution holds, in terms of candidates and policy; the engine |
| `TaskLedger.dfy`, `BatchSequential.dfy`, `BatchLangGraph.dfy` | ledger operations and the two batch executors |
| `SequentialLaws.dfy`, `LangGraphLaws.dfy` | how a run and a round end, in terms of what checks and tables give |
| `BatchHistory.dfy` | what a session of pauses and resumes leaves behind |
| `BatchRecovery.dfy`, `BatchReruns.dfy` | going on after a crash; recovering a stopped batch any number of times |
| `Governance.dfy` | the governance state and its log |

## What turned out false, and exactly when it holds

- The lint key is not a key: a group's children can be taken for children of the group before them
  (`ConditionKey.KeyCollision`), and such conditions can differ in meaning (`ConditionKey.CollidingConditionsDiffer`).
  Equal keys mean equal trees up to reordering iff the groups' child counts agree in key order
  (`ConditionKey.EqualKeysMeanEqualTreesIff`); for groups of literals they always do (`ConditionKey.ClauseKeyExact`).
  Bars in expected values, as in the alternations of most name patterns, do no harm, since `repr` writes them inside
  quotes (`ConditionKey.LeavesToldByRepr`).
- An equal value is skipped without raising the recorded authority, so a weaker later value can win
  (`Reducer.EqualValueHidesAuthority`). The applied operation is a highest-authority one iff some highest-authority
  operation escapes the equal-value branch (`Reducer.HighestAuthorityAppliedIff`).
- Two different values of one path can be applied (`Reducer.MixedPatchAppliesTwoValues`). A path ends with exactly one
  applied operation iff some operation is admissible there and none is applied beside a holder (`Reducer.AppliedOnceIff`);
  where the first admissible operation is no `set`, iff all admissible values on the path are equal
  (`Reducer.FirstNoSetOnceIff`).
- A second reduction can drop what the first one applied (`Reducer.SecondReductionDropsAdd`). It changes nothing iff no
  applied operation repeats the value of, or conflicts with, the first highest-authority one before it on its path
  (`Reducer.ReduceIdempotentIff`), as for every patch of `set`s (`Reducer.ReduceIdempotent`).
- Provider enrichment can flip a verdict that tests absence (`Runtime.EnrichmentCanFlipAbsenceTest`), but only if it
  supplies a fact tested for absence (`Runtime.EnrichmentKeepsDefiniteVerdicts`); a single predicate is monotone iff it
  does not test absence (`Conditions.PredicateMonotoneIff`).
- The column loop keeps the last rule it applies only (`Runtime.LoopKeepsLastMatch`). For every adapter it applies the
  operations the batch simulation applies iff that rule is live in the first context, no live rule before it has an
  admissible operation, and those of the live rules behind it are on paths it admits; or, if it has no admissible
  operation itself, iff no live rule has one (`Runtime.OperationsAgreeIff`). The whole patch is the same iff their
  requests agree too (`Runtime.PatchesAgreeIff`).
- Activating and rolling back restores the position iff some version was active before (`PolicyStore.ActivateThenRollback`).
- A validated pipeline may contain a cycle that feeds itself only (`NodeRegistry.SelfLoopValidatesUnfed`). A validated
  pipeline feeds every node iff each node reachable from a cycle finds, for every required type, an emitting node that is
  reachable from no cycle or stands before it in the specification (`NodeRegistry.PipelineIsFedIff`).
- Mandatory co-tags are expanded one level deep (`PolicyEngine.CotagsNotTransitive`). The expansion is closed iff each
  co-tag's own co-tags are selected or co-tags of selected tags (`PolicyEngine.ExpansionClosedIff`); likewise for the whole
  resolution (`PolicyEngine.ResolutionClosedIff`).
- A reported retention is the longest of the whole result iff the retention tag appended last asks for no more
  (`PolicyEngine.RetentionIsLongest`).
- A log entry for a table that is not a string breaks its chain (`Governance.NullTableBreaksChain`); an update keeps the
  chain iff it logs what it stores (`Governance.ChainKeptIff`). A graph value arrives iff the hash does not hide the
  difference (`Governance.FromGraphState`).
- A completed batch may hold cancelled tables: it does not iff no table came back cancelled when it last came back
  (`BatchHistory.SessionAllCompletedIff`, `BatchLangGraph.DistinctAllCompletedIff`). Where later checks see a
  cancellation, it does iff every table goes on and the last one comes back cancelled
  (`BatchLangGraph.StickyCancelledIff`); over resumes, iff the very last run that came back did
  (`BatchHistory.StickySessionCompletedIff`).
- A completed batch may leave all its tasks planned, since tasks are matched to steps by kind
  (`BatchHistory.CompletesUnsettled`): a task is settled iff some run of its table had a step of its kind
  (`BatchHistory.CompletedLedgerIff`). When every node ran once, each task carries its
  own node's step iff no two nodes are of one kind (`TaskLedger.OwnStepsIff`).
- A resumed batch that crashes before it has stored another table starts over at the first table
  (`BatchRecovery.ResumedBatchStartsOver`). It goes on behind the resumed table in every world iff all tasks of the tables
  up to it are done (`BatchRecovery.RecoversInPlaceIff`, `BatchRecovery.ResumedCrashRecovery`).
- A FAILED batch that is recovered goes on behind its failed table, and completes with that table's failed run in place
  (`BatchReruns.FailedBatchCompletes`). A recovery completes with only completed tables iff the tables behind it all
  completed, and each one ahead goes on and does not come back cancelled (`BatchReruns.RecoveryAllCompletedIff`); once a
  table failed or was cancelled, no number of recoveries gets there (`BatchReruns.FailedTableStays`).
- A table listed twice makes ledger tasks indistinguishable (`TaskLedger.PlanDistinctIff`), and a completed sequential run
  has settled every task iff no table is listed twice (`BatchSequential.SettlesAllIffTablesDistinct`).

## Model

| member | source | states |
|---|---|---|
| Conditions.EvaluateCondition | redibis/behavior/conditions.py:213-252 | the short-circuiting evaluator computes a meaning that only looks at which verdicts occur among a group's children |
| Conditions.DeMorgan | redibis/behavior/conditions.py:183-252 | `not all` is `any` of `not`s and `not any` is `all` of `not`s, for every nonempty group and fact map |
| Conditions.ReorderingKeepsVerdict | redibis/behavior/conditions.py:213-252 | trees equal up to the order of children at any depth have the same truth value on every fact map |
| Conditions.MoreFactsOnlySettle | redibis/behavior/conditions.py:63-252 | as long as the facts that `exists` and `is_null` look at read the same, additional facts can only turn UNKNOWN into a definite value |
| Conditions.PredicateMonotoneIff | redibis/behavior/conditions.py:63-180 | a predicate is monotone under every extension of the facts iff its operator does not test absence |
| ConditionLaws.GroupVerdicts | redibis/behavior/conditions.py:183-252 | `all` holds iff every child does and fails iff one fails, `any` the other way round, `not` swaps TRUE and FALSE; an empty or unknown group is UNKNOWN |
| ConditionLaws.MissingFactIsUnknown | redibis/behavior/conditions.py:70-78 | on a missing or null fact `exists` is FALSE, `is_null` TRUE, and every other operator gives UNKNOWN |
| ConditionLaws.PresentFactExists | redibis/behavior/conditions.py:70-74 | on any other fact `exists` is TRUE and `is_null` FALSE |
| ConditionLaws.ValueEquality | redibis/behavior/conditions.py:90-94 | numbers and booleans are equal as numbers, whatever their types, texts as texts, lists item by item, dictionaries key by key |
| ConditionLaws.EqualFacts | redibis/behavior/conditions.py:90-94 | `eq` is TRUE exactly on equal values, else FALSE |
| ConditionLaws.OpposedOperators | redibis/behavior/conditions.py:90-110 | `neq` denies `eq`, `gte` denies `lt` and `lte` denies `gt`, on every value |
| ConditionLaws.OrderOperators | redibis/behavior/conditions.py:96-110 | where both sides read as numbers, `lt`, `lte`, `gt`, `gte` compare these numbers |
| ConditionLaws.NoOrderWithoutNumbers | redibis/behavior/conditions.py:96-121 | where one side does not, they give UNKNOWN |
| ConditionLaws.BetweenIsTwoBounds | redibis/behavior/conditions.py:112-121 | `between` is `gte` the lower and `lte` the upper bound, both included |
| ConditionLaws.ListOperators | redibis/behavior/conditions.py:123-139 | `in` asks whether the fact equals some listed value, `contains` whether some item equals the value |
| ConditionLaws.ContainsAnyAll | redibis/behavior/conditions.py:140-155 | on lists, and on texts for listed texts, `contains_any` holds iff `contains` holds of some listed value, `contains_all` iff of each |
| ConditionLaws.OtherwiseUnknown | redibis/behavior/conditions.py:63-180 | an operator on values it is not for, and any unknown operator, gives UNKNOWN |
| ConditionKey.ReorderingKeepsKey | redibis/behavior/lint.py:62-69 | trees equal up to reordering have the same lint key |
| ConditionKey.KeyCollision | redibis/behavior/lint.py:62-69 | whenever the keys come in that order, children of a group can be taken for children of the group before them: two conditions of different structure, over any lists of children, share a key |
| ConditionKey.CollidingConditionsDiffer | redibis/behavior/lint.py:62-69 | for `all` around `any` those two conditions have opposite verdicts whenever a child that stays inside holds and one that moved out fails |
| ConditionKey.EqualKeysMeanEqualTreesIff | redibis/behavior/lint.py:62-69 | for trees of any depth, bars in expected values included, conditions with equal keys are equal up to reordering iff their groups' child counts agree, read in key order |
| ConditionKey.ClauseKeyExact | redibis/behavior/lint.py:62-69 | for groups of literals (predicates under any number of `not`s, the group too) keys are equal iff the conditions are equal up to reordering |
| ConditionKey.LeavesToldByRepr | redibis/behavior/lint.py:62-69 | no leaf of the one is mistaken for one of the other when facts and operators hold no colon, `repr` writes bars inside quotes only, and tells these leaves' expected values apart |
| Reducer.ReducePatch | redibis/behavior/reducer.py:117-227 | the loop over operations computes the specified reduction, and what it returns is as `Reducer.ReductionPromised` says |
| Reducer.ReductionPromised | redibis/behavior/reducer.py:35-227 | for every patch: blocked by capability iff the path is immutable, or an allow list has neither it nor its head with `.*`, or its number is strictly below the minimum or above the maximum; blocked by a human decision iff not so and that decision strictly outranks it; every other operation is applied, repeats an earlier one not so blocked, or lost to a `set` of another value, stronger or of its own authority; review and steward follow from the latter |
| Reducer.AuthorityOrder | redibis/behavior/models.py:61-68 | safety guard, validator, human, approved policy, engine, LLM, strongest first |
| Reducer.PassInvariant | redibis/behavior/reducer.py:128-215 | after any prefix, for any patch: applied operations are admissible and in order, each path's holder is applied, nothing is both applied and blocked, nothing blocked twice |
| Reducer.EveryOperationAccounted | redibis/behavior/reducer.py:117-227 | every proposed operation is exactly one of applied, blocked once, or skipped as an equal-value repeat of the then-current holder |
| Reducer.OneAppliedPerPath | redibis/behavior/reducer.py:128-215 | a path all of whose operations are `set`s ends with exactly one applied operation if some operation is admissible there, else with none |
| Reducer.AppliedOnceIff | redibis/behavior/reducer.py:128-215 | for every patch, a path ends with exactly one applied operation iff some operation is admissible there and none is applied beside a holder |
| Reducer.FirstNoSetOnceIff | redibis/behavior/reducer.py:159-215 | a path whose first admissible operation is no `set` ends with exactly one applied operation iff all admissible values on it are equal |
| Reducer.EqualValuesKeepFirst | redibis/behavior/reducer.py:205-212 | where all admissible values on a path are equal, the first of these operations alone is applied, whatever the authorities of the others |
| Reducer.ConflictLosersOutranked | redibis/behavior/reducer.py:159-204 | an operation blocked by a conflict was admissible, for every patch; on a path of `set`s its authority is at most that of the operation applied there |
| Reducer.HighestAuthorityAppliedIff | redibis/behavior/reducer.py:205-212 | the applied operation has the highest admissible authority on its path iff some highest-authority operation was not skipped as a repeat |
| Reducer.CoherentAppliesHighest | redibis/behavior/reducer.py:128-215 | if on a path distinct values carry distinct authorities and each value one, a highest-authority operation is applied there |
| Reducer.OrderIndependent | redibis/behavior/reducer.py:128-215 | for such proposals, rearranging the operations changes neither which paths are decided nor value and authority applied to them |
| Reducer.AppliedUncontested | redibis/behavior/reducer.py:217-222 | the applied patch of `set`s holds only admissible proposed operations, at most one for each path |
| Reducer.AppliedAdmissible | redibis/behavior/reducer.py:128-222 | for every patch, each applied operation was proposed and is admissible |
| Reducer.ReduceIdempotentIff | redibis/behavior/reducer.py:117-227 | for every patch, reducing the applied patch again returns it unchanged with nothing rejected or blocked iff no applied operation repeats, or conflicts with, the first highest-authority one before it on its path |
| Reducer.ReduceIdempotent | redibis/behavior/reducer.py:117-227 | so it does for every patch of `set`s |
| Reducer.SecondReductionDropsAdd | redibis/behavior/reducer.py:205-212 | `set`, `add`, the same `add`, stronger `set`: the first reduction applies both `add`s, the second does not |
| Reducer.AppliedRespectsGuard | redibis/behavior/reducer.py:35-69 | for every patch, no applied operation leaves the allowed paths, touches an immutable one, breaks a bound, or overrides a stronger human decision |
| Reducer.OneAuthorityReduction | redibis/behavior/reducer.py:128-222 | with one authority throughout, each path gets its first admissible value, and review is required iff it was asked or two admissible values of one path differ |
| Reducer.EqualValueHidesAuthority | redibis/behavior/reducer.py:205-212 | a human decision repeating a weaker proposal's value is skipped, and a weaker different value then wins |
| Reducer.MixedPatchAppliesTwoValues | redibis/behavior/reducer.py:84-88 | with an `add` between them, two different `set` values of one path are both applied |
| Evaluator.MergePatches | redibis/behavior/evaluator.py:197-217 | the merging loop computes the specified merge, first nonempty role winning |
| Evaluator.MergeConcat | redibis/behavior/evaluator.py:197-217 | merging is associative: the merge of a concatenation is the merge of the two merges |
| Evaluator.ExecuteEffects | redibis/behavior/evaluator.py:320-331 | the patches of all effects in order, annotated, or the first error |
| Evaluator.EvaluateRule | redibis/behavior/evaluator.py:263-354 | each rule's trace: out of scope, TERMINATED behind a terminal match, UNKNOWN_NO_MATCH iff its condition is UNKNOWN, CONDITION_FALSE iff FALSE; EFFECT_ERROR iff TRUE and an effect raises, MATCHED iff TRUE and none does, with its effects' stamped operations |
| Evaluator.Evaluate | redibis/behavior/evaluator.py:234-360 | every trace is so, where a rule is behind a terminal match iff an earlier trace shows one; the proposal holds exactly the matched traces' operations, reasons and requests for review |
| Evaluator.ProposedIsTrue | redibis/behavior/evaluator.py:300-354 | every proposed operation stems from an effect of a rule in scope whose condition is TRUE; UNKNOWN never matches |
| Evaluator.MergedInOrder | redibis/behavior/evaluator.py:197-217 | merged operations and reasons come patch by patch, and the first patch with a nonempty role gives the role |
| Evaluator.VerdictEffects | redibis/behavior/evaluator.py:115-138 | the built-in verdict effects set `verdict.entity`, `verdict.detected` and `verdict.confidence` to their parameter, as approved policy |
| Evaluator.ThresholdEffect | redibis/behavior/evaluator.py:148-155 | `core.threshold.set_for_run` sets the named threshold to its value |
| Evaluator.ReviewEffects | redibis/behavior/evaluator.py:139-147 | `core.review.require` alone asks for a review, by the steward unless a role is given, and `core.review.add_reason` alone gives a reason, if any |
| Evaluator.OtherEffects | redibis/behavior/evaluator.py:156-166 | any other effect without handler sets `effect.` and its name to its parameters |
| Evaluator.WholeListIsPrefixMerge | redibis/behavior/evaluator.py:259-360 | the whole list proposes exactly the merge of one-rule evaluations up to and including the first terminal match |
| PolicyDecision.ArrivalOrderIrrelevant | redibis/behavior/evaluator.py:363-365 | with unique (policy id, rule id) the sorted list, and so the whole decision, does not depend on arrival order |
| PolicyDecision.SortedStrictly | redibis/behavior/evaluator.py:363-365 | the sorted list has the same rules, strictly ordered by priority, policy id and rule id |
| PolicyDecision.SortedByPriority | redibis/behavior/evaluator.py:363-365 | higher priorities come first; equal ones are ordered by policy id, then rule id, in code-point order |
| PolicyDecision.AppliedIsChoice | redibis/behavior/reducer.py:117-227 | an applied operation is the first admissible one on its path of the first live rule that has one |
| PolicyDecision.ProposedPathDecided | redibis/behavior/reducer.py:117-227 | every path for which a live rule has an admissible operation is decided |
| PolicyDecision.ReviewIff | redibis/behavior/reducer.py:187-204 | review is required iff a live rule asked for it or two live admissible values of one path differ |
| PolicyDecision.PolicyRefinesChoice | redibis/behavior/evaluator.py:234-365 | with built-in effects and unique ids, sort, evaluate and reduce together refine the per-path choice, in all the parts above at once |
| Lint.CheckTerminalShadows | redibis/behavior/lint.py:137-163 | the findings are, rule by rule in sorted order, one for each terminal rule before it, and so exactly the pairs of a terminal rule and a rule sorted after it |
| Lint.CompiledSortAgrees | redibis/behavior/lint.py:140 | sorting authored rules and compiling them is compiling and sorting as the evaluator does |
| Lint.TerminatedIsReported | redibis/behavior/lint.py:137-163 | a rule traced TERMINATED has a finding naming the first terminal rule that matched before it |
| Lint.ReportedIsTerminated | redibis/behavior/lint.py:137-163 | if a finding against a rule names a rule that matches, the evaluation traces the first one TERMINATED |
| Lint.TerminatedIffReported | redibis/behavior/lint.py:137-163 | in any evaluation of a policy with unique rule ids, TERMINATED iff some finding names a rule that matches |
| Runtime.EnrichFactsFromProviders | redibis/behavior/runtime.py:125-145 | enrichment keeps every fact and adds only non-null facts of registered providers |
| Runtime.EnrichedIff | redibis/behavior/runtime.py:125-145 | a fact has a value after enrichment iff it had it before, or was missing and the first provider to supply it, null answers aside, gave that value |
| Runtime.EnrichmentKeepsDefiniteVerdicts | redibis/behavior/runtime.py:125-145 | enrichment never flips a TRUE or FALSE verdict, unless it supplies a fact the condition tests for absence |
| Runtime.EnrichmentCanFlipAbsenceTest | redibis/behavior/runtime.py:125-145 | with an absence test it can |
| Runtime.EvaluateColumn | redibis/behavior/runtime.py:264-371 | the loop ends with the folded detection and applied patch, and each trace is what the rule's own scope, condition and effects call for in the context the rules before it left, TERMINATED once a terminal rule was applied |
| Runtime.LoopAppliesIff | redibis/behavior/runtime.py:238-341 | the loop applies a rule iff no terminal rule was applied before, its scope, condition and effects make it match in the context it meets, and, on a column where one of the three checksum facts is `pass`, each `verdict.entity` operation of its reduced patch has the canonical entity of the current detection, and is null only where that has none; otherwise the rule changes nothing |
| Runtime.PassedEntityStays | redibis/behavior/runtime.py:238-341 | so on such a column, with an adapter that writes the entity from `verdict.entity` only, the canonical entity is the same after any rule list |
| Runtime.MarkLeftovers | redibis/behavior/runtime.py:344-358 | after a terminal match every remaining rule is traced TERMINATED |
| Runtime.StepwiseAgreesWithBatch | redibis/behavior/runtime.py:309-371 | for any effects and adapters without a passing checksum: if the first match (if any) is terminal, the loop and the batch simulation reduce to the same applied patch |
| Runtime.AllTerminalAgree | redibis/behavior/agent_tools.py:197-199 | in particular when all rules are terminal |
| Runtime.LoopKeepsLastMatch | redibis/behavior/runtime.py:309-369 | for every adapter, effects and checksums, the loop over any list ends with the patch of the last rule it applies alone, reduced, or with the empty one |
| Runtime.OperationsAgreeIff | redibis/behavior/agent_tools.py:197-199 | for every adapter, built-in effects and unique ids, loop and batch apply the same operations iff the last rule the loop applies is live in the batch, no live rule before it has an admissible operation and those behind it have them on its paths only (or neither it nor any live rule has one) |
| Runtime.PatchesAgreeIff | redibis/behavior/agent_tools.py:197-199 | and they apply the same patch, review, role and reasons included, iff besides no other live rule gives a reason, and no other live rule or disagreement asks for a review or role that rule's own decision does not get |
| Runtime.SteadyOperationsAgreeIff | redibis/behavior/agent_tools.py:197-199 | while the context stays as it was and no checksum passes, that is: iff no live rule before the last one has an admissible operation |
| PolicyStore.EveryRunKeeps | redibis/behavior/store.py:54-218 | along any sequence of store commands every active pointer and stack entry names a saved version with its hash, and no saved hash changes |
| PolicyStore.RollbackFailsCleanly | redibis/behavior/store.py:114-148 | a rollback from a reachable state fails iff nothing was pushed, and a failed one has popped nothing |
| PolicyStore.ActivateThenRollback | redibis/behavior/store.py:89-148 | activation followed by rollback restores records, active pointer and stack iff some version was active before |
| PolicyStore.NestedActivationsUnwind | redibis/behavior/store.py:89-148 | after n activations and k rollbacks the position is that after the first n - k activations |
| PolicyStore.ReservedIsFileNameClash | redibis/behavior/store.py:103-106 | the excluded versions are exactly those whose record file would be the active-pointer or the stack file |
| PolicyStore.BehaviorPolicyStore.SavePolicy | redibis/behavior/store.py:54-84 | succeeds iff the names are valid and no other hash is saved there; adds the record if it is new and changes nothing else; keeps the invariant and all hashes |
| PolicyStore.BehaviorPolicyStore.ActivateVersion | redibis/behavior/store.py:89-112 | succeeds iff the names are valid and the version is saved; the active pointer is then that id, version and saved hash, the stack the old one plus the old pointer if there was one, and records, receipts and other policies are as before |
| PolicyStore.BehaviorPolicyStore.RollbackToPrevious | redibis/behavior/store.py:114-148 | succeeds iff something is stacked; the last pointer is then off the stack and active, and nothing else changes; on any error the store is unchanged |
| PolicyStore.BehaviorPolicyStore.DeactivatePolicy | redibis/behavior/store.py:150-154 | removes the active pointer only |
| PolicyStore.BehaviorPolicyStore.SetLifecycleOf | redibis/behavior/store.py:175-181 | replaces one version's lifecycle and nothing else |
| PolicyStore.BehaviorPolicyStore.RecordSimulationOf | redibis/behavior/store.py:183-218 | notes id and aggregate beside what the saved version's lifecycle holds, and writes a receipt only under a safe simulation id; of an unknown version it notes nothing |
| PolicyStore.BehaviorPolicyStore.GetActive | redibis/behavior/store.py:252-264 | the active record exists iff an active pointer does; it is the saved record of the pointer's version and has its hash |
| PolicyStore.ActivatePromises | redibis/behavior/store.py:89-112 | what ActivateVersion promises holds of the specified activation, for every store |
| PolicyStore.RollbackPromises | redibis/behavior/store.py:114-148 | and what RollbackToPrevious does of the specified rollback, from every reachable state |
| PolicyStore.ValidNamesStayInside | redibis/behavior/store.py:39-52 | an accepted id or version is nonempty, bounded, starts with a letter or digit, and holds no slash and no two dots in a row |
| TopologicalOrder.Order | redibis/agents/prompt_compiler.py:13-34 | the queue-driven loop builds the Kahn order that leaves the queue first in, first out, for any graph, and the fallback appends the missing nodes in specification order |
| TopologicalOrder.RunOrderUnique | redibis/agents/prompt_compiler.py:13-34 | which fixes the order: a graph has one run order |
| TopologicalOrder.KahnOrderIsUnblocked | redibis/agents/prompt_compiler.py:13-30 | for any graph at all, the part built before the fallback is exactly the nodes no cycle and no unknown source leads to |
| TopologicalOrder.KahnOrderIsOffCycle | redibis/agents/prompt_compiler.py:13-30 | with unique ids and known endpoints it is exactly the nodes not reachable from a cycle |
| TopologicalOrder.OrderIsPermutation | redibis/agents/prompt_compiler.py:13-34 | the whole order lists every node exactly once |
| TopologicalOrder.FallbackEmptyIffAcyclic | redibis/agents/prompt_compiler.py:31-34 | the fallback adds nothing iff the graph is acyclic |
| NodeRegistry.ValidateConfig | redibis/agents/registry.py:95-119 | exactly the configuration errors in order; none iff every field is fine |
| NodeRegistry.ValidateSpec | redibis/agents/registry.py:365-486 | exactly the errors of nodes, inputs, edges and contracts in order; none iff the specification is sound |
| ValidationLaws.ReportedIff | redibis/agents/registry.py:365-486 | a problem is reported at a node iff it is due there: an unknown kind, a field wrong in the way the error says, a required input no direct predecessor supplies, an edge whose source gives nothing or nothing its target needs, a contract with none of its four parts on |
| ValidationLaws.ConfigErrorIff | redibis/agents/registry.py:95-119 | a configuration error is reported iff some field is wrong in that way, given the node's own value or else the default |
| ValidationLaws.KindsStandFor | redibis/agents/registry.py:154-187 | each board kind stands for its registry type, and any other kind for itself |
| NodeRegistry.NoErrorsIffSound | redibis/agents/registry.py:365-486 | the error list is empty iff kinds and configs are valid, required inputs fed, edges closed and compatible, contracts non-empty |
| NodeRegistry.SoundIsWellFormed | redibis/agents/registry.py:430-438 | a validated specification with unique ids has edges between known nodes only |
| NodeRegistry.ValidatedNodeIsFed | redibis/agents/registry.py:397-438 | in run order, every node not reachable from a cycle has each required input type produced by an earlier node |
| NodeRegistry.ValidatedPipelineIsFed | redibis/agents/executor.py:202-204 | a validated acyclic pipeline run in topological order feeds every node |
| NodeRegistry.CyclicNodeIsFedIff | redibis/agents/prompt_compiler.py:31-34 | a node reachable from a cycle is fed a type earlier in run order iff some node emitting it is reachable from no cycle or stands before it in the specification |
| NodeRegistry.PipelineIsFedIff | redibis/agents/executor.py:202-204 | a validated pipeline, cyclic or not, feeds every node iff each node reachable from a cycle finds such a source for every required type |
| NodeRegistry.SelfLoopValidatesUnfed | redibis/agents/registry.py:397-438 | and validation does accept one that does not: a node that only its own self-loop feeds |
| Ensemble.DedupeCandidates | redibis/classification/ensemble.py:183-199 | the dictionary loop keeps first-insertion order and exactly the preferred candidate of each tag |
| Ensemble.DedupeSound | redibis/classification/ensemble.py:183-199 | one survivor for each key, itself a candidate, that no candidate of the key would replace |
| Ensemble.DedupeKeepsBest | redibis/classification/ensemble.py:183-199 | what is left are exactly the candidates no other of their tag is preferred to (hard evidence to suggestions, then higher confidence), the first among equals, one for each tag |
| Ensemble.SuggestionsGive | redibis/classification/ensemble.py:111-131 | each suggestion that names a domain and a tag gives a suggest-only candidate, of confidence 0.5 if it names none |
| Ensemble.SuggestionsTrail | redibis/classification/ensemble.py:161-199 | suggestions after hard evidence leave its survivors untouched and only add suggest-only entries behind them |
| Ensemble.Collect | redibis/classification/ensemble.py:161-180 | evidence first, then LLM, memory and learned suggestions; kept is the preferred candidate of each tag among all of them |
| ResolutionEngine.ResolveCandidates | redibis/classification/policy_engine.py:23-67 | the staged updates of tags and result compute the specified resolution, and what they leave is as `ResolutionLaws.ResolutionPromised` says |
| ResolutionLaws.ResolutionPromised | redibis/classification/policy_engine.py:23-303 | for every policy, candidate list and context: applied are exactly the tags with a candidate neither suggest-only nor forbidden, as their deciding candidate gives them, one entry for each tag; dropped are exactly the suggestions and forbidden tags, in order, and escalated exactly the forbidden hard ones; everything else is a tag called for or stated; violations, flags and role are exactly those due |
| ResolutionLaws.SelectedDecided | redibis/classification/policy_engine.py:33-51 | the deciding candidate is the last one that is the first of its tag to count or has positive confidence |
| ResolutionLaws.SortedOut | redibis/classification/policy_engine.py:33-46 | suggestions, dropped and escalated candidates, each list in candidate order |
| ResolutionLaws.ResultHolds | redibis/classification/policy_engine.py:53-212 | a tag is in the result iff it is applied, a co-tag of an applied one, brought by the jurisdiction, the derived security tag, stated by the context, or the retention tag |
| ResolutionLaws.ResultChecked | redibis/classification/policy_engine.py:214-280 | a violation is listed iff a golden rule or a required attribute is violated so, and a tag is flagged iff the policy does not know it |
| ResolutionLaws.ResultRouted | redibis/classification/policy_engine.py:62-66 | any escalation makes the role SecOps; otherwise it is the first of SecOps, Legal, DPO and Architecture some tag is routed to, else Steward |
| PolicyEngine.HardEvidenceDecides | redibis/classification/policy_engine.py:31-67 | candidate lists with the same hard evidence are decided alike, wherever suggestions sit |
| PolicyEngine.SuggestionsNeverInterfere | redibis/classification/policy_engine.py:23-67 | collect then resolve gives the same tags, retention, role, escalations, violations and flags with any suggestions as with none |
| PolicyEngine.ResolutionGrows | redibis/classification/policy_engine.py:53-82 | selected tags open the result unchanged and all their mandatory co-tags are in it |
| PolicyEngine.ResolvedTags | redibis/classification/policy_engine.py:53-212 | a tag is in the result iff it was selected, is a co-tag of a selected tag, or is one the later stages add |
| PolicyEngine.ExpansionClosedIff | redibis/classification/policy_engine.py:69-82 | expansion is closed under co-tags iff every co-tag of a co-tag of a selected tag is selected or itself a co-tag of a selected tag |
| PolicyEngine.ResolutionClosedIff | redibis/classification/policy_engine.py:53-212 | the whole resolution is closed under co-tags iff the same holds with the co-tags of the tags the later stages add |
| PolicyEngine.CotagsNotTransitive | redibis/classification/policy_engine.py:69-82 | and it need not be: a co-tag whose own co-tag does not follow |
| PolicyEngine.DerivedSecurityDominates | redibis/classification/policy_engine.py:126-152 | with no DataSecurity tag supplied, a derived one is the only one and at least as high as what any DataSensitivity tag derives to |
| PolicyEngine.RetentionIsLongest | redibis/classification/policy_engine.py:184-212 | a reported retention is the longest any tag but the appended retention tag asks for, some tag asks for it, and it is the longest of the whole result iff the appended tag asks for no more |
| EdgeRules.MergeEdgeRules | redibis/classification/edge_rules.py:271-290 | the dictionary loop computes the specified merge, or reports an overlay entry without id |
| EdgeRules.MergeIsOverlaid | redibis/classification/edge_rules.py:271-290 | on id-unique lists the merge is the base with overlaid rules in place, then the new ones |
| EdgeRules.OverlaidShape | redibis/classification/edge_rules.py:271-290 | ids stay unique, base ids keep their order, new ids follow in overlay order |
| EdgeRules.OverlaidHas | redibis/classification/edge_rules.py:271-290 | a rule is in the merge iff it is in the overlay, or in the base with an id the overlay does not have |
| EdgeRules.OverlayAssociative | redibis/classification/edge_rules.py:271-290 | overlaying is associative |
| EdgeRules.OverlayIdempotent | redibis/classification/edge_rules.py:271-290 | applying an overlay twice is applying it once |
| EdgeRules.ApplyEdgeRules | redibis/classification/edge_rules.py:496-518 | returns the first rule whose condition holds and which no checksum blocks, or none if there is none |
| EdgeRules.GroupingIrrelevant | redibis/classification/edge_rules.py:271-518 | first-match evaluation does not depend on how overlays were grouped |
| TaskLedger.PlanTasks | redibis/agents/batch_executor.py:84-100 | the ledger has one row of planned tasks for each table, over the executable nodes in run order |
| TaskLedger.PlannedIff | redibis/agents/batch_executor.py:84-100 | planned are exactly the listed tables' tasks for the ordered nodes the specification knows, but for batch loops |
| TaskLedger.PlanDistinctIff | redibis/agents/batch_executor.py:542-546 | tasks are told apart by table and node iff no table repeats |
| TaskLedger.FindTask | redibis/agents/batch_executor.py:542-546 | the first matching task, or none if there is none |
| TaskLedger.TableTasksDone | redibis/agents/batch_executor.py:549-553 | true iff the table has tasks and all are done or skipped |
| TaskLedger.SyncLedgerForTable | redibis/agents/batch_executor.py:556-576 | each task of the table whose kind some step has takes the last such step's id and its status (completed to done, skipped to skipped, failed to failed); nothing else changes |
| TaskLedger.OwnStepsIff | redibis/agents/batch_executor.py:556-576 | when every node of a table ran once, syncing gives each task its own node's step iff no two nodes are of one kind |
| TaskLedger.CancelPendingTasks | redibis/agents/batch_executor.py:579-582 | exactly the planned and running tasks become cancelled |
| BatchSequential.RunSequential | redibis/agents/batch_executor.py:417-516 | for every graph, table list and world, the run ends as the specified one over the run order |
| BatchSequential.BatchRun.RunTables | redibis/agents/batch_executor.py:447-514 | the loop over tables and its handlers end in exactly the specified record, every written state included |
| BatchSequential.RunIsCoherent | redibis/agents/batch_executor.py:417-516 | every state that run writes is coherent with the plan and its steps are a prefix of the final ones and what the runner returned; COMPLETED iff no check saw a cancellation and no node raised |
| SequentialLaws.HowItEnds | redibis/agents/batch_executor.py:447-514 | a run is cancelled iff a cancellation is the first thing to stop it and fails iff a node that raises is, by the positions of checks and nodes alone |
| SequentialLaws.CancelledRun | redibis/agents/batch_executor.py:499-502 | it then has a step for each node run before that check, the reason and no error |
| SequentialLaws.FailedRun | redibis/agents/batch_executor.py:503-505 | it then has that node's error, its step unless the node broke before recording it, and its task still running unless it was settled |
| SequentialLaws.RunWrites | redibis/agents/batch_executor.py:447-514 | every run has written each node that ran before it began and as running, then how the run ended; a failed one the failing node as running too |
| BatchSequential.CompletedRunSettlesAllIff | redibis/agents/batch_executor.py:455-492 | a completed run has settled every task iff no two tasks share a table and a node |
| BatchSequential.SettlesAllIffTablesDistinct | redibis/agents/batch_executor.py:449-492 | when the run order names each node once and some node is executable, iff no table is listed twice |
| BatchSequential.TasksAfterSteps | redibis/agents/batch_executor.py:455-492 | after any steps each task carries id and status of the last step it stands for, being the first task for that table and node, and is as planned if there is none |
| BatchSequential.BatchRun.RunTable | redibis/agents/batch_executor.py:449-497 | one table's loop runs as many nodes to the end as specified, and stops for the specified reason |
| BatchSequential.BatchRun.RunStep | redibis/agents/batch_executor.py:460-497 | one step marks its task and saves, runs the node, records the step, settles the task and saves, or raises at one of three points |
| BatchSequential.BatchRun.Finish | redibis/agents/batch_executor.py:499-514 | a cancellation cancels every open task, an exception leaves them, and the final state is saved |
| BatchSequential.AtMostOneRunning | redibis/agents/batch_executor.py:417-516 | in a coherent state at most one task is running, whatever tables are listed |
| BatchSequential.RunningIsInOrder | redibis/agents/batch_executor.py:417-516 | when no two tasks share table and node, the tasks before a running one are settled by their own steps and those after it are as planned |
| BatchSequential.CancelledIsInOrder | redibis/agents/batch_executor.py:499-514 | when no two tasks share table and node, a cancelled run has settled the first tasks by their own steps and cancelled all the others |
| BatchLangGraph.RunFromKeeps | redibis/agents/batch_executor.py:345-413 | whatever tables and checks do, and however often a table is listed, the loop ends in a state with all earlier tables passed, the steps those of the latest runs and the ledger following them |
| BatchLangGraph.ResumeKeeps | redibis/agents/batch_executor.py:169-252 | so does every accepted resume |
| BatchLangGraph.SessionKeeps | redibis/agents/batch_executor.py:169-415 | the invariant holds after any number of pauses and resume attempts, for any table list |
| BatchLangGraph.PausesKeepProgress | redibis/agents/batch_executor.py:169-415 | without cancelled table runs: tables before the paused one completed, steps are those of each table's latest run, COMPLETED means every table completed; without repeated tables, the tables reached are the first ones in list order |
| BatchLangGraph.StepsOfTable | redibis/agents/batch_executor.py:367-369 | the steps of a table in the run are exactly those of its latest run |
| BatchLangGraph.DistinctLatest | redibis/agents/batch_executor.py:347-365 | for distinct tables the run at each position is what the world gave there, the specification validated for the first table only |
| BatchLangGraph.CompletesIff | redibis/agents/batch_executor.py:345-396 | the loop completes iff every position is skipped, its table's tasks being done by then, or reached uncancelled with a run that neither pauses, fails nor throws |
| BatchLangGraph.DistinctCompletesIff | redibis/agents/batch_executor.py:345-396 | for distinct tables nothing is skipped, so that is a condition on the world's answers alone |
| BatchLangGraph.DistinctAllCompletedIff | redibis/agents/batch_executor.py:350-396 | for distinct tables: it completes with every table's run completed iff at each position no check sees a cancellation and the run the world gives neither pauses, fails nor comes back cancelled |
| BatchLangGraph.StickyCancelledIff | redibis/agents/batch_executor.py:350-396 | for distinct tables, when later checks see a cancellation: it completes with a cancelled table iff every position goes on and the last table comes back cancelled |
| BatchLangGraph.SessionOnlyLastCancelled | redibis/agents/batch_executor.py:169-415 | with sticky cancellations no run but the last is ever cancelled, at any point of any session over any table list |
| BatchLangGraph.BatchExecutor.ContinueBatch | redibis/agents/batch_executor.py:324-415 | the loop with its start position, skip test, cancellation check and validation flag runs exactly the specified tables |
| BatchLangGraph.BatchExecutor.RecoverBatch | redibis/agents/batch_executor.py:254-285 | from any stored state, recovery goes on behind the table named as last completed, or from the first one if none is named |
| BatchLangGraph.BatchExecutor.RunTable | redibis/agents/batch_executor.py:347-403 | one round: skip a finished table, cancel, fail, or take over the table's run |
| LangGraphLaws.RoundDue | redibis/agents/batch_executor.py:345-403 | from any recorded state a round does nothing unless the batch is running and the table is not all done or skipped; else a cancellation cancels the open tasks, an exception fails the batch, and a run that came back replaces the table's steps and tasks and pauses, fails or continues the batch by its status, every field included |
| LangGraphLaws.RunEnds | redibis/agents/batch_executor.py:345-413 | a run over the tables goes through all of them and completes, or ends as the round at one position leaves it |
| BatchLangGraph.BatchExecutor.ResumeBatch | redibis/agents/batch_executor.py:169-252 | replaces the paused table's steps, then pauses, fails or continues; refused resumes leave the stored batch alone |
| LangGraphLaws.ResumeDue | redibis/agents/batch_executor.py:169-252 | refused are exactly batches that await nobody, name no table or no session, or whose table throws; otherwise the table's steps are replaced and the batch pauses there, fails, or goes on behind the table's first place in the list, every field included |
| BatchHistory.SessionReplays | redibis/agents/batch_executor.py:169-415 | at any point of any session over any table list, the latest runs and the ledger are the replay, in order, of all the table runs that came back from executions and accepted resumes |
| BatchHistory.SessionLatest | redibis/agents/batch_executor.py:169-415 | so each table's latest run is the last one that came back for it, repeated tables and skipped positions included |
| BatchHistory.SessionAllCompletedIff | redibis/agents/batch_executor.py:169-415 | a completed session, over any table list, has a last run for each table, and only completed tables iff none of these came back cancelled |
| BatchHistory.StickySessionCompletedIff | redibis/agents/batch_executor.py:169-415 | with sticky cancellations, iff the very last run that came back is not a cancelled one |
| BatchHistory.CompletedLedgerIff | redibis/agents/batch_executor.py:556-576 | in a completed session a task carries the last step of its kind of the last run of its table that had one, and is as planned iff no run of its table had one |
| BatchHistory.CompletesUnsettled | redibis/agents/batch_executor.py:556-576 | where the steps come back under kinds no task has, as `_normalize_for_execution` names them, a batch completes with its whole ledger as planned |
| BatchHistory.CompletedSettlesIff | redibis/agents/batch_executor.py:556-576 | where later runs of a table keep the kinds of its earlier ones, a task is settled iff its table's latest run has a step of its kind |
| BatchHistory.DistinctKindsStay | redibis/agents/batch_executor.py:345-396 | as they do in an uninterrupted run over distinct tables |
| BatchRecovery.CrashRecovery | redibis/agents/batch_executor.py:254-285 | a batch of distinct tables that never paused and crashes after any number of them goes on at the first table not stored, and in an unchanged world ends as if it had never crashed |
| BatchRecovery.RecoversInPlaceIff | redibis/agents/batch_executor.py:254-285 | a running batch of distinct tables that names no completed table goes on at a position in every world iff all tasks of all tables before it are done |
| BatchRecovery.ResumedCrashRecovery | redibis/agents/batch_executor.py:222-285 | a resumed batch that crashes goes on where it was once another table is stored, and in an unchanged world ends as if it had never crashed; before that, iff all tasks of the tables up to the resumed one are done |
| BatchRecovery.ResumedBatchStartsOver | redibis/agents/batch_executor.py:556-576 | a batch paused at its first table and resumed there, whose step has another kind than its task, does not go on behind that table |
| BatchReruns.RecoveryGoesOn | redibis/agents/batch_executor.py:254-285 | a running, failed, cancelled or completed batch of distinct, named tables that names its last table goes on behind it, whatever became of that table: earlier runs stay, later ones are what the world gives, it completes iff every later position goes on, and unless it pauses it can be recovered again |
| BatchReruns.RecoveryAllCompletedIff | redibis/agents/batch_executor.py:254-285 | it completes with only completed tables iff the earlier tables all completed and each later position goes on and does not come back cancelled |
| BatchReruns.RecoveriesKeepRuns | redibis/agents/batch_executor.py:385-396 | over any number of recoveries, each until it ends, fails, is cancelled or crashes, no table that came back runs again, and its run stays where and as it is |
| BatchReruns.FailedTableStays | redibis/agents/batch_executor.py:385-391 | once a table failed or came back cancelled, no number of recoveries makes all tables completed |
| BatchReruns.FailedBatchCompletes | redibis/agents/batch_executor.py:385-396 | a batch whose last table fails is FAILED, and recovered it completes with that failed run in place, in every world |
| Governance.TransitionEffect | redibis/agents/governance_state.py:82-109 | a transition stores one coerced value and appends one entry, unless the hashes agree |
| Governance.WellFormedIff | redibis/agents/governance_state.py:183-202 | left alone by a reload are exactly values of the field's type, but for version zero and the empty status |
| Governance.CoercedTo | redibis/agents/governance_state.py:183-202 | an empty value gives way to the field's default; any other is kept or converted to the field's type |
| Governance.ChainedStep | redibis/agents/governance_state.py:82-109 | a well-formed update extends the old-hash to new-hash chain of every field |
| Governance.ChainKeptIff | redibis/agents/governance_state.py:82-109 | from a well-formed state an update keeps the log a chain iff it logs what it stores; for a logged update whose hash does not confuse it with its own conversion, iff its value is well formed |
| Governance.ReplayChained | redibis/agents/governance_state.py:82-109 | along any sequence of well-formed updates the log only grows at its end and each field's entries chain from start to current value |
| Governance.InitialNormal | redibis/agents/governance_state.py:61-77 | a fresh state is well formed |
| Governance.FromGraphState | redibis/agents/governance_state.py:142-164 | from a well-formed state every graph field ends with the exact value stated, which is the graph's converted one iff the hash hides no difference, no other field moves, and the log stays chained iff the table is logged as stored, as any string is |
| Governance.NullTableBreaksChain | redibis/agents/governance_state.py:154-163 | a graph without a table is not logged as stored whenever the hash tells null from the table before and from the empty string |
| Governance.RecordContractLineage | redibis/agents/governance_state.py:111-130 | each given value is recorded iff it is not empty and its hash is not that of the value before; nothing else moves, and the log grows by entries of this actor and node only and stays chained |

## Left out

- File, JSON and YAML handling, timestamps, UUIDs, logging and telemetry: input and output only.
- Operators' regular expressions, `float(str)`, `str`, `repr` and glob matching are functions the theorems quantify over; NaN, infinities and float rounding are not modelled, and floats are reals.
- ConditionKey.EqualKeysMeanEqualTreesIff: kinds without colons are assumed, as is that no leaf of the one tree is mistaken for one of the other (ConditionKey.LeavesToldByRepr gives a sufficient condition, met by Python's quoting).
- Reducer.OneAppliedPerPath: stated for paths all of whose operations are `set`s, which is all the built-in effects emit (redibis/behavior/evaluator.py:114-164); Reducer.AppliedOnceIff is the exact condition for any patch.
- Reducer.ReducePatch: an operation object is known by its position, so one object listed twice in a proposal counts as two; explanation texts are omitted.
- Evaluator.Evaluate: registered effect handlers are arbitrary functions that return a patch or raise; `effective_from` and `effective_until` are not read by the modelled code.
- Runtime.StepwiseAgreesWithBatch: the adapter (context building, patch application, canonical entity names) is a record of functions, and both sides use the same guard; redibis/behavior/adapters/pii.py is not part of this model.
- Runtime.OperationsAgreeIff: built-in effects only, as registered handlers may propose anything in each context; Runtime.LoopKeepsLastMatch and Runtime.StepwiseAgreesWithBatch hold for all effects.
- PolicyStore.EveryRunKeeps: the versions `active` and `activation_stack` are excluded by the type of versions, identifiers are taken as already stripped, and lifecycle history and listing are omitted.
- TopologicalOrder.OrderIsPermutation: requires unique node ids and edges between known nodes; TopologicalOrder.Order and TopologicalOrder.KahnOrderIsUnblocked hold without.
- NodeRegistry.ValidateSpec: messages are datatype values carrying the offending field, port or node; the contents of the registry are a parameter.
- Ensemble.Collect: the evidence found in a contract column is an input, never suggest-only, as the source builds it.
- PolicyEngine.SuggestionsNeverInterfere: tag keys are pairs of domain and tag, jurisdiction inference is a list of appended candidates, and `upper` acts on ASCII letters.
- EdgeRules.ApplyEdgeRules: the `when` conditions and the checksum test are predicates; overlay validation is omitted.
- Lint.CheckTerminalShadows: the other lint checks are omitted; they are heuristics or local scans.
- BatchSequential.RunSequential: the run order is computed once, as the source's two computations of it agree; a failing first or last write of the run record is not modelled.
- BatchLangGraph.BatchExecutor.ContinueBatch: the LangGraph executor returns any run whose steps belong to its table, or throws; what a checkpointer remembers of a crashed table is part of what it returns when executed again.
- BatchRecovery.CrashRecovery: distinct, named tables, and the state last stored; a crash while a state is being written is not modelled.
- BatchReruns.RecoveryGoesOn: distinct, named tables, and states that name their last table; BatchRecovery.RecoversInPlaceIff treats a resumed batch, which names none. Recovering a batch that awaits a human is not treated.
- BatchHistory.CompletedSettlesIff: without the assumption on kinds, BatchHistory.CompletedLedgerIff is the exact condition.
- Governance.FromGraphState: integer, list and text conversions and the hash are functions, and nonempty text of truthy values is assumed; `transition` on attribute names that are not data fields is omitted.
