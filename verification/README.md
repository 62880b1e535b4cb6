# First Commit, verified

A Dafny model of the parts of the First Commit security pipeline in which a mistake would be hard to
see: the durable scan pipeline, its Amazon States Language interpreter, IAM policy narrowing, the
scheduling of model calls, and content-addressed source snapshots. `dafny verify dfyconfig.toml`
checks all of it.

## What is modelled

**The state machine** (`AslSyntax`, `AslPaths`, `AslRetry`, `AslRun`, `AslSoundness`,
`AslSchedules`). `ValidMachine` is the load-time validator, state type by state type. A configuration
is an arbitrarily deep nest of running maps; a step names the part that moves, and tasks are an
arbitrary oracle, so every thread schedule of every accepted definition is covered. The soundness
theorem says that nothing is ever looked up that is not there; independence of the schedule is
a diamond property carried to whole runs. `WithHandlers` is the retry loop with its counters and
sleeps, against a specification in terms of the errors raised so far.

**The durable pipeline** (`RunState`, `Store`, `Merge`, `MergeRetry`, `MergeRaces`, `Honesty`). A run record is
updated by read, merge and conditional write; every interleaving refines one serialized store. The
merge step is a list of idempotent writes that a crash cuts off anywhere; retries, one
after another or at once in any interleaving, are compared with one uninterrupted attempt after
erasing timestamps. `Honesty` lets any number of workers do
whatever the steps can do (write, return a check, pass on a summary), and shows what a stored
`completed` means and that reuse pointers keep their promise.

**IAM narrowing** (`Glob`, `Iam`, `LeastPrivilege`, `Scope`, `PolicyDocuments`, `Remediation`).
Requests, glob matching and placeholders have a semantics, and the syntactic subset rule is sound
for it. On top of it stand the static candidate, the gate, the scoping of generated policies, the
lens of a policy inside a document, and the proposal that a person validates.

**Model scheduling** (`Leases`, `Budgets`, `Schemas`, `Batches`, `Units`, `Packets`). The cache
leases are a protocol over calls, keys and a clock. The ledger is a class and its interleavings an
event system over exact rationals. The schema validator is proved against a declarative semantics,
batch validation against counting items, the three passes against what every unit is promised, and
packet building against a partition of the findings.

**Snapshots** (`Splits`, `Listings`, `Trees`, `Snapshots`, `Disks`, `Workspace`). Trees have nested
directories in any scan order. The digested bytes are an injective encoding of the sorted listing;
archives are built with their real header sizes and extracted entry by entry; the round trip has its
exact condition.

Strings are sequences of characters, or of bytes where bytes are digested. SHA-256 is a parameter
that yields 32 bytes, and what needs it assumes only that the byte strings at hand do not collide.
Regular expressions, clocks, random numbers, the policy engine, AWS answers, model replies and the
prose checks are parameters.

## What the proofs found

- Two kinds of definition whose fields have the types of the language pass the validator and still
  end in a Python exception rather than a States error: a `Fail` state with `"CausePath": null`
  (`NullCauseBreaks`), and a retrier whose interval, backoff rate or maximal delay makes a delay
  negative, which `time.sleep` refuses (`NegativeIntervalBreaks`). `StepIntactIff` shows that a step
  goes wrong there and nowhere else, `SleepableIff` says of a retrier's fields when no delay is
  negative, and soundness holds for the definitions without either.
- A path of just `$$` reads the key of the empty name in the data; only `$$.` selects the context
  object. The laws of ResultPath treat it as the data path it is.
- `merge_run` keeps an outcome only against `queued` and `running`; another status that is not final
  undoes it, and one final status replaces another (`MergeIsMonotoneIff`, `UnknownStatusUndoes`,
  `OutcomesReplaceEachOther`). The docstring's promise holds with that exact condition.
- A policy whose `Statement` is a single object passes the subset check, and the narrowing gate
  cannot read it (`SingleStatementIsUnreadable`, `GateAnswersIff`).
- `scope_to_target` speaks of keeping covered pairs, and keeps the product of kept actions and kept
  resources. It is contained in the old policy exactly when every generated statement is
  rectangular: an action and a resource that are each covered with something there are covered
  together (`ScopedIsSafeIff`). Where one is not, the gate refuses the result as an expansion,
  whatever AWS answers (`ScopedExpandsIff`, and on an input `ProductMayReachMore`).
- A proposal is made however long its replacement text is, and validation cannot load more than
  2 MiB (`LongReplacementIsRejected`); `ProposalValidatesIff` says that this is the only case.
- `validate_proposal` does not turn every failure into a result. What leaves it: the errors of
  PyYAML, which are no ValueError, for a target or a replacement that YAML cannot read; an
  AttributeError for a replacement that is no text and for documents whose resources, one of them,
  or the properties of a role are no object; and the MemoryError of a Python file that is nested too
  deeply. `ValidateProposal` says exactly when and from where, and such a proposal can be made for
  every target that loads (`UnreadableReplacementEscapes`; also `UnreadableTargetEscapes`,
  `ListOfResourcesEscapes`).
- The 512 bytes a file that widen the extraction limit do not suffice for every accepted tree: one
  file of a 250-byte name at both limits is refused (`ALongNameDoesNotFit`). Names with a colon, a
  backslash or a control character, or equal up to case, pass inspection and not the round trip
  (`OddNameDoesNotComeBack`, `EqualUpToCaseDoesNotComeBack`); `SnapshotWorksIff` is the exact
  condition.
- Stripping schema keywords also strips properties of those names, and keys of enumerated objects
  (`StrippedNameIsRefused`, `StrippedKeyIsRefused`); `ApiAcceptsIff` says which valid values that
  loses.
- A materialized tree is kept under half of its content hash, and a verified one is not compared
  with the other half again (`Scratch.Materialize` states both cases).

## Model

| member | source | states |
|---|---|---|
| AslPaths.WriteWithCursor | agent/orchestration/asl.py:242-258 | the cursor that walks the copied input, creating missing objects, computes the recursive write, refusals included |
| AslPaths.WriteSucceedsIff | agent/orchestration/asl.py:242-258 | a write succeeds if and only if nothing on the way down is there without being an object |
| AslPaths.WriteThenWalk | agent/orchestration/asl.py:213-258 | what is written is what is read back, and every diverging path reads as before |
| AslPaths.SecondWriteWins | agent/orchestration/asl.py:242-258 | a second write to the same path always succeeds and leaves no trace of the first |
| AslPaths.DivergingWritesCommute | agent/orchestration/asl.py:242-258 | two writes to diverging paths can be made in either order with the same result |
| AslPaths.ResultPathLaws | agent/orchestration/asl.py:213-258 | the ResultPath laws on accepted path texts: read-back, non-interference, overriding, and the raw input for a null path |
| AslRetry.UncatchableIsFinal | agent/orchestration/asl.py:270-278 | States.Runtime and States.DataLimitExceeded are never retried and never caught |
| AslRetry.DecideByUses | agent/orchestration/asl.py:374-425 | retry, catch or give up is decided by how often the selected retrier was used and by the first matching catcher |
| AslRetry.RetryStep | agent/orchestration/asl.py:395-412 | one more retry raises the sum of the counters by one and sleeps no more than the capped geometric sum grows |
| AslRetry.SleepableIff | agent/orchestration/asl.py:395-411 | the fields of a retrier that never asks for a negative sleep, whatever the jitter: exactly these |
| AslRetry.WithHandlers | agent/orchestration/asl.py:374-425 | for every error sequence and all retrier fields: stops at the first attempt that has to stop or is refused its sleep, at most 1 + the sum of MaxAttempts attempts, retries equal the counters, sleep within the capped geometric sums, and the right outcome; with retriers that never ask for a negative sleep, an exception escapes only if the last attempt raised it |
| AslRetry.HandleAttempt | agent/orchestration/asl.py:374-425 | one attempt either settles the state or uses exactly one retrier, whose sleep may be refused |
| AslSoundness.StepIntactIff | agent/orchestration/asl.py:324-511 | one step of an accepted typed definition keeps the configuration intact if and only if the moving part is neither a Fail state with a null CausePath nor about to sleep for a negative time |
| AslSoundness.RunsAreIntact | agent/orchestration/asl.py:97-511 | for the same definitions, every schedule from every intact configuration stays intact and can step, has an output, or has raised |
| AslSoundness.TypeSoundness | agent/orchestration/asl.py:97-511 | no accepted typed definition without a null CausePath and without a retrier that can ask for a negative sleep ever looks up a missing state, resource or operator, whatever the payload and whatever its tasks do |
| AslSoundness.NullCauseBreaks | agent/orchestration/asl.py:336-345 | a definition that the validator accepts and whose first step is not a States error |
| AslSoundness.NegativeIntervalBreaks | agent/orchestration/asl.py:387-411 | a definition that the validator accepts and whose first retry is refused its sleep |
| AslSoundness.CrashFreeHasNoCrashPoint | agent/orchestration/asl.py:324-411 | a definition of neither kind has no crash point at any depth, whatever the tasks answer and the jitter draws |
| AslSoundness.RetriesAreBounded | agent/orchestration/asl.py:374-425 | a state being attempted has used at most its retriers' attempts, in every intact configuration |
| AslSoundness.GatherIsInItemOrder | agent/orchestration/asl.py:467-494 | a finished map returns the outputs in item order and of the same number, or the error of the lowest failing item |
| AslSoundness.EvalNeverCrashes | agent/orchestration/asl.py:496-511 | a validated typed rule only ever answers or raises a States error |
| AslSchedules.Diamond | agent/orchestration/asl.py:467-494 | two different moves of nested maps commute exactly |
| AslSchedules.Residual | agent/orchestration/asl.py:467-494 | after any first move the run can still end the same way, one move sooner |
| AslSchedules.ScheduleIndependence | agent/orchestration/asl.py:467-494 | any two complete interleavings of the iterations end in the same configuration after the same number of moves |
| AslSchedules.SequentialAgrees | agent/orchestration/asl.py:467-494 | the sequential execution ends as every interleaving ends |
| AslSchedules.IterationAlone | agent/orchestration/asl.py:473-481 | an iteration inside a map makes exactly its own moves and is where it would be alone |
| AslSchedules.MapIsScheduleIndependent | agent/orchestration/asl.py:467-494 | every iteration of a map ends as it ends running alone, for every interleaving |
| Iam.SafeMeansContained | agent/iam.py:46-76 | a safe subset check means semantic containment of allowed requests under glob matching, for every value of the placeholders |
| Iam.SafeIffContained | agent/iam.py:46-76 | for exact new values and old patterns of only `*` and `?`, the check is safe if and only if the new policy is contained |
| Iam.WildcardCandidateIsRefused | agent/iam.py:46-54 | where the check is only sound: a narrower wildcard is contained and still refused |
| Iam.PolicyFromEvidence | agent/iam.py:79-99 | the loop builds the policy of the reviewed operations, or refuses exactly the lists with an unreviewed or missing operation |
| Iam.EvidencePolicyIsExact | agent/iam.py:79-99 | the policy built from reviewed operations is accepted and allows exactly these operations, up to the case of actions |
| Iam.EvidenceIsSafeIff | agent/iam.py:62-99 | replacing a policy by reviewed operations is safe if and only if it already allowed each of them |
| LeastPrivilege.StaticCandidate | agent/least_privilege.py:238-270 | the loop over remaining actions computes the declarative candidate, the dropped actions and both refusals |
| LeastPrivilege.StaticSplits | agent/least_privilege.py:238-270 | the wanted actions, each as often as it is wanted, are cut in three: first matched by a wildcard that the candidate replaces by the list of them, first named by a statement that it keeps as it is, or dropped because no statement answers for them |
| LeastPrivilege.StaticKeepsWanted | agent/least_privilege.py:238-270 | every wanted action that is not dropped is named by the candidate |
| LeastPrivilege.StaticNarrows | agent/least_privilege.py:238-270 | the candidate allows no request the original does not, for wildcard-free actions and bracket-free patterns |
| LeastPrivilege.NarrowerIsContained | agent/least_privilege.py:340-425 | `strictly_narrower` by the local proof means containment for every placeholder value, and some written value is gone |
| LeastPrivilege.GateAnswersIff | agent/least_privilege.py:359-425 | the gate answers for accepted policies if and only if both write their statements as a list |
| LeastPrivilege.SingleStatementIsUnreadable | agent/least_privilege.py:194-217 | a lone statement object passes the subset check and cannot be read by the gate |
| LeastPrivilege.CandidateIsSafe | agent/least_privilege.py:238-425 | the subset proof succeeds on the static candidate of every provable policy |
| LeastPrivilege.StaticCandidatePassesIff | agent/least_privilege.py:238-425 | end to end: the static candidate is strictly narrower if and only if the policy was over-broad, and never an expansion |
| Scope.ScopeToTarget | agent/least_privilege.py:287-329 | the loop over generated statements computes the scoped policy and the actions outside, with both failures |
| Scope.ScopeKeepsReachedPairs | agent/least_privilege.py:287-329 | no generated pair that the old policy covers is lost |
| Scope.KeptHavePartners | agent/least_privilege.py:287-329 | everything kept has a partner in its statement with which it is covered |
| Scope.ScopedIsSafeIff | agent/least_privilege.py:287-329 | what scoping returns passes the subset check if and only if every generated statement is rectangular in the old policy's reach, and is an expansion otherwise |
| Scope.ScopedExpandsIff | agent/least_privilege.py:287-425 | end to end: the gate refuses what scoping returns as an expansion, by its own proof, if and only if some generated statement is not rectangular |
| Scope.ProductMayReachMore | agent/least_privilege.py:319-324 | for any two statements of one pair each that do not cover one another, scoping a statement of all four values keeps a pair that was never covered, and the gate refuses the result whatever AWS answers |
| PolicyDocuments.IdentityPolicy | agent/policy_documents.py:22-39 | finds the one identity policy of a document, and fails exactly for the documents with none, with several, or with a shape that raises an AttributeError or a TypeError, telling these apart |
| PolicyDocuments.PutThenFind | agent/policy_documents.py:22-50 | put-get: after the replacement the identity policy is the new one, at the same selector |
| PolicyDocuments.FindThenPut | agent/policy_documents.py:22-50 | get-put: putting the found policy back changes nothing |
| PolicyDocuments.SecondPutWins | agent/policy_documents.py:42-50 | put-put: the second replacement wins |
| PolicyDocuments.PutKeepsTheRest | agent/policy_documents.py:42-50 | nothing off the selector changes |
| PolicyDocuments.SelectorReads | agent/policy_documents.py:22-39 | the selector of the identity policy leads to that policy |
| Remediation.ProposeIam | agent/remediation.py:75-131 | a proposal is returned exactly when one exists, and it is the one the target and the operations determine |
| Remediation.CheckIntegrity | agent/remediation.py:146-174 | the integrity check fails exactly when the proposal, its hash, its context or its target is not the one expected |
| Remediation.CompareDocuments | agent/remediation.py:175-205 | the document comparison validates if and only if only the policy changed and it is contained and sufficient, and exactly when an exception leaves it, and from where |
| Remediation.ValidateProposal | agent/remediation.py:146-205 | validation succeeds if and only if the integrity check and the document comparison do, with the checks in order; exactly when an exception leaves it, and whether from reading a document, searching it or parsing Python |
| Remediation.UnreadableReplacementEscapes | agent/remediation.py:176-205 | for every target that loads, a proposal with a replacement that is no text, or text that YAML cannot read, passes the integrity check and raises |
| Remediation.UnreadableTargetEscapes | agent/policy_documents.py:9-19 | so does every proposal for a target that YAML cannot read |
| Remediation.ListOfResourcesEscapes | agent/policy_documents.py:22-31 | so does every proposal for a target whose resources are a list |
| Remediation.ProposalValidatesIff | agent/remediation.py:75-205 | a proposal made on a tree validates on that tree if and only if its replacement is at most the 2 MiB that can be loaded |
| Remediation.LongReplacementIsRejected | agent/remediation.py:75-205 | a document that loads and whose policy is replaced by an equal one is proposed, and does not validate where its new text is over the limit |
| Remediation.ValidatedOnlyNarrows | agent/remediation.py:146-205 | a validated proposal changes nothing off the policy, allows nothing new, and grants every action the code is known to call |
| RunState.MergeIsMonotoneIff | agent/orchestration/state.py:46-54 | a merge raises the version by one and goes back in (generation, is-final) if and only if it undoes an outcome with an unknown status |
| RunState.UnknownStatusUndoes | agent/orchestration/state.py:46-54 | a status the guard does not know undoes an outcome |
| RunState.OutcomesReplaceEachOther | agent/orchestration/state.py:46-54 | within a generation one final status may replace another |
| RunState.LocalRuns.UpdateRun | agent/orchestration/state.py:103-123 | the serialized update stores the merge, or nothing when it is refused or there is no run |
| RunState.SameVersionSameRecord | agent/orchestration/state.py:292-313 | no ABA: a writer that finds the version it read finds the record it read |
| RunState.NextRefines | agent/orchestration/state.py:272-313 | every step of the optimistic read-merge-write loop is nothing or one serialized step |
| RunState.OptimisticRefinesSerialized | agent/orchestration/state.py:103-313 | every interleaving of the optimistic loop refines the serialized store |
| RunState.RecordNeverGoesBack | agent/orchestration/state.py:46-313 | over every behaviour the version counts the writes and (generation, is-final) never goes back |
| Store.PipelineStore.PutCheckpoint | agent/orchestration/state.py:132-141 | a checkpoint is stored only when its key is new |
| Store.PipelineStore.WriteOnce | agent/orchestration/steps.py:215-222 | the caller gets what is stored under the key, its own body only when it was first |
| Store.PipelineStore.PutReviewItem | agent/orchestration/state.py:171-186 | a review item is stored only when its id is new |
| Store.PipelineStore.ResolveReviews | agent/orchestration/state.py:197-232 | exactly the open items of older generations of one step are closed |
| Merge.MergeChecks | agent/orchestration/steps.py:478-518 | the loop over planned checks records the missing results, fills coverage and unites the findings by id, cut off after any write |
| Merge.ResolveOlder | agent/orchestration/steps.py:530-536 | succeeded checks of a resumed run close their older items |
| Merge.WriteResults | agent/orchestration/steps.py:564-584 | report, policy and summary are written once, in this order |
| Merge.MergeStep | agent/orchestration/steps.py:464-586 | the merge step, cut off after any number of writes, leaves the store that its list of writes gives |
| MergeRetry.RetryIsIdempotent | agent/orchestration/steps.py:215-222 | any number of attempts cut off anywhere, then a complete one, leave the store of a single complete attempt, up to timestamps |
| MergeRetry.TriesArePrefix | agent/orchestration/steps.py:464-586 | whatever attempts did so far, together they made a prefix of the full writes |
| MergeRetry.PrefixAbsorbed | agent/orchestration/steps.py:464-586 | a longer prefix of the same writes absorbs a shorter one before it |
| MergeRetry.AlreadyMerged | agent/orchestration/steps.py:473-476 | once the summary is stored, attempts change nothing |
| MergeRaces.SameWritesSameEnd | agent/orchestration/steps.py:464-586 | lists of the same agreeing writes do the same in whatever order and however often they are made |
| MergeRaces.RacesEndAlike | agent/orchestration/steps.py:215-586 | any number of attempts at once, their writes interleaved in any way and cut off anywhere, of which one makes all of its own, leave the store of a single complete attempt, up to timestamps |
| Honesty.Detect | agent/orchestration/steps.py:369-422 | a detect step stores its result once and reports success only for a stored result without an error |
| Honesty.Incident | agent/orchestration/steps.py:427-442 | the incident of a detector writes one review item and returns an incomplete check without a checkpoint, with the name and reason read from what was caught |
| Honesty.IncidentOfStep | agent/orchestration/steps.py:443-459 | the incident of a failed step writes one review item where the run is known, and lets nothing through but codes |
| Honesty.IncidentIsReported | agent/orchestration/steps.py:427-519 | merge reports an incident as it is, with its reason, disposition and review item, whatever was caught |
| Honesty.MadeIsGenuine | agent/orchestration/steps.py:369-443 | every check that detect or incident returns is genuine: success is backed by a stored checkpoint without an error |
| Honesty.Finalize | agent/orchestration/steps.py:753-852 | the result is written once, and only a completed result that is no reuse gets the pointer of its reuse key |
| Honesty.CompletedMeansAllClean | agent/orchestration/steps.py:681-749 | a completed status means that every planned check succeeded without an error and policy was evaluated |
| Honesty.AssembledIsHonest | agent/orchestration/steps.py:681-749 | an assembled result claims no more than its merge shows |
| Honesty.ReusedIsHonest | agent/orchestration/steps.py:776-813 | a reused result is a completed one of the same source |
| Honesty.DetectMay | agent/orchestration/steps.py:369-422 | the write and the check of a detect step are steps of the system, whoever wrote the checkpoint first |
| Honesty.IncidentMay | agent/orchestration/steps.py:427-442 | so is the check of an incident, whatever was caught |
| Honesty.MergeMay | agent/orchestration/steps.py:464-586 | the result writes of a merge on returned checks, in their order, and the summary it passes on are steps of the system |
| Honesty.FinalizeMay | agent/orchestration/steps.py:753-823 | the result of a finalize step and the pointer after it are steps of the system |
| Honesty.AlwaysJustified | agent/orchestration/steps.py:369-852 | every behaviour of many workers keeps every stored body justified, every returned check genuine and every summary passed on stored |
| Honesty.CompletedResultsAreHonest | agent/orchestration/steps.py:681-749 | in every run a stored completed result rests on a merge in which every planned check finished cleanly and policy did not fail |
| Honesty.PointersLeadToCompletedForever | agent/orchestration/steps.py:776-852 | a completed pointer leads forever to the same completed result of its own source |
| Honesty.ReuseNeverUpgrades | agent/orchestration/steps.py:776-813 | reuse ends completed if and only if a pointer for the run's own source is there |
| Honesty.CleanScanCompletes | agent/orchestration/steps.py:369-852 | the promises are not empty: for every clean result of a planned detector some run ends completed with just its findings and the pointer of its reuse key |
| Leases.MemoryExplanationCache.Put | agent/reasoning/cache.py:44-49 | an entry is stored only when the key is new |
| Leases.MemoryExplanationCache.Acquire | agent/reasoning/cache.py:51-57 | a lease is granted unless another owner has an unexpired one, and then replaces what was there |
| Leases.MemoryExplanationCache.Release | agent/reasoning/cache.py:59-62 | only the owner's own lease is deleted |
| Leases.NextKeepsInv | agent/reasoning/service.py:278-327 | every step of N calls over K keys and a clock keeps what each phase holds equal to the stored leases |
| Leases.OneHolderPerKey | agent/reasoning/service.py:278-327 | no key ever has two calls with unexpired leases |
| Leases.WaitersHoldNothing | agent/reasoning/service.py:311-327 | a waiting or finished call holds no lease, so no cycle of waiting calls exists and nothing is left behind |
| Leases.WorkersHoldAll | agent/reasoning/service.py:292-304 | a call works on its batch only with every lease of it granted |
| Leases.OthersLeasesAreSafe | agent/reasoning/cache.py:51-62 | no step of a call, a late release included, touches another owner's unexpired lease |
| Budgets.PriceOf | agent/reasoning/budget.py:26-31 | every model has a price, at most the highest one |
| Budgets.WithinReservation | agent/reasoning/budget.py:70-114 | a response of a no dearer model within the estimates costs no more than was reserved |
| Budgets.Ledger.Reserve | agent/reasoning/budget.py:70-92 | an open circuit refuses, a call that would pass any of the four limits opens it, and otherwise one more call and its worst case are reserved |
| Budgets.Ledger.Record | agent/reasoning/budget.py:98-114 | the reservation is released, cost and tokens are added, and the breaker counter starts over |
| Budgets.Ledger.RecordFailure | agent/reasoning/budget.py:116-125 | the reservation is released; a failure that is not transient, or the threshold of them in a row, opens the circuit |
| Budgets.BudgetHolds | agent/reasoning/budget.py:70-125 | for every interleaving: reserved equals the outstanding reservations, calls stay within the limit, and cost plus reserved exceeds the budget only by what records exceeded their reservations |
| Budgets.BudgetIsNeverExceeded | agent/reasoning/budget.py:70-125 | if no record exceeds its reservation, spent plus outstanding never exceeds the budget |
| Budgets.OpenStaysOpen | agent/reasoning/budget.py:70-125 | an open circuit never closes and admits no further reservation |
| Schemas.Validate | agent/reasoning/schemas.py:196-249 | for a positive limit there are no errors if and only if the value satisfies the declarative semantics of the schema |
| Schemas.ApiMeaning | agent/reasoning/schemas.py:169-175 | for every schema and every value, the stripped schema means the loose reading of the original: no lengths and patterns, no property of a stripped name, enumerated values without their stripped keys |
| Schemas.ApiAcceptsMore | agent/reasoning/schemas.py:169-175 | every valid value satisfies the stripped schema when no property and no key inside an enumerated value has a stripped name and no explicit limit is above 10^9 |
| Schemas.ApiAcceptsIff | agent/reasoning/schemas.py:169-175 | for every schema and every valid value, exactly when the stripped schema still accepts it, under the limit of 10^9 the validator implies |
| Schemas.StrippedNameIsRefused | agent/reasoning/schemas.py:169-175 | a property named like a stripped keyword makes the stripped schema refuse a valid value |
| Schemas.StrippedKeyIsRefused | agent/reasoning/schemas.py:169-175 | so does a key of that name in an enumerated object |
| Schemas.LongTextIsRefused | agent/reasoning/schemas.py:228-231 | a text between the implied limit of 10^9 and an explicit limit above it is valid for a schema and not for its stripped copy |
| Batches.CheckExplanationBatch | agent/reasoning/validation.py:393-463 | a unit is accepted if and only if the batch is well formed and untainted and exactly one item explains it and passes; every other requested unit has a violation |
| Batches.GoodMeansExactlyOne | agent/reasoning/validation.py:393-463 | a group is good if and only if exactly one item explains it and that item passes every check |
| Units.Escalate | agent/reasoning/routing.py:141-146 | a route goes up exactly one tier and never down |
| Units.CallExplain | agent/reasoning/service.py:483-551 | every unit of a batch gets one outcome, and an accepted item passed the checks for that unit |
| Units.Chunks | agent/reasoning/service.py:329-340 | consecutive non-empty batches within the capacity that together are the units in order, the synthesis first and the groups by their ids |
| Units.LargeStep | agent/reasoning/service.py:372-395 | the large pass settles a unit honestly or leaves it for its one corrective retry |
| Units.RetryStep | agent/reasoning/service.py:385-422 | the corrective pass settles every unit |
| Units.Passes.Remember | agent/reasoning/service.py:632-662 | the first result of a unit stays in the cache, and degraded ones never get there |
| Units.Passes.ExplainPasses | agent/reasoning/service.py:342-395 | every unit ends with exactly one result after at most three attempts, at most one of them with corrections, never in a lower tier; validated if and only if some answer was accepted and the last was no refusal |
| Units.Passes.Resolve | agent/reasoning/service.py:278-291 | templates, cached results and the passes together give every unit one result, and all validated content, fresh or cached, passed the checks for that unit |
| Packets.BuildPacket | agent/reasoning/evidence.py:245-409 | a packet is refused exactly for the first inconsistency of report and policy, and otherwise packs every finding |
| Packets.PacketPartitions | agent/reasoning/evidence.py:289-402 | the groups partition the findings as a multiset, members of a group agree on its key, and no two groups share one |
| Packets.PacketIsRanked | agent/reasoning/evidence.py:378-402 | groups stand in the order of their full ranks and are numbered in it, with denied findings first, and shown plus omitted locations are the members |
| Packets.Bucket | agent/reasoning/evidence.py:289-299 | every bucket holds exactly the findings of its key, in the order of the report |
| Packets.DistinctByCount | agent/reasoning/evidence.py:276-279 | counting the dictionary finds exactly the repeated decisions |
| Listings.EncodeIsInjective | agent/preflight.py:99-102 | equal digested byte strings come from equal listings of NUL-free names and 32-byte digests |
| Listings.ContentHashNamesTheFiles | agent/preflight.py:94-103 | collisions aside, content hashes are equal if and only if the files are |
| Listings.OneListing | agent/preflight.py:99 | the same files have one sorted listing |
| Trees.Inspect | agent/preflight.py:36-103 | the bounded walk accepts a tree if and only if it keeps every limit, reports its files and hash, and names a limit that is broken |
| Trees.DigestListing | agent/preflight.py:99-102 | feeding the digest name by name feeds it the encoding of the sorted listing |
| Trees.InspectionIgnoresOrder | agent/preflight.py:36-103 | acceptance and report do not depend on the order directories are scanned in |
| Trees.HashNamesTheTree | agent/preflight.py:94-103 | collisions aside, two trees have one content hash if and only if they hold the same files |
| Snapshots.ExtractZip | agent/ingest.py:92-146 | the extraction loop with its running counters and chunked copy computes the declarative extraction, each refusal included |
| Snapshots.Copy | agent/ingest.py:131-144 | counting chunk by chunk refuses exactly the entries with more data than declared or than the limits leave |
| Snapshots.AcceptedNames | agent/ingest.py:77-89 | an accepted entry has no colon and no control character, and its path no backslash |
| Snapshots.BuildSnapshot | agent/orchestration/snapshots.py:46-56 | stored entries sorted by name, with the archive size of the local headers, central headers and end record of the PKWARE APPNOTE sections 4.3.7, 4.3.12 and 4.3.16 |
| Snapshots.SameFilesSameSnapshot | agent/orchestration/snapshots.py:46-56 | equal files give equal archives |
| Snapshots.SnapshotRoundTrip | agent/orchestration/snapshots.py:46-122 | extracting the snapshot of an accepted tree under the widened limits trips no limit, and the extracted tree is accepted with the same report |
| Snapshots.SnapshotWorksIff | agent/orchestration/snapshots.py:46-125 | collisions aside, a snapshot comes back accepted with its content hash if and only if its names are portable and its archive fits |
| Snapshots.OddNameDoesNotComeBack | agent/ingest.py:77-89 | an accepted tree of one file with a colon, a backslash or a control character in its name does not come back |
| Snapshots.EqualUpToCaseDoesNotComeBack | agent/ingest.py:110-114 | nor does an accepted tree of two files whose names are equal up to case |
| Snapshots.ShortNamesFit | agent/orchestration/snapshots.py:116-122 | 512 bytes a file are enough for names of up to 200 bytes |
| Snapshots.ALongNameDoesNotFit | agent/orchestration/snapshots.py:116-122 | an accepted tree whose snapshot is too large for the widened limits |
| Disks.SomeTreeHolds | agent/ingest.py:92-146 | whatever an archive is extracted to, some directory tree holds exactly that |
| Disks.SnapshotIsRestored | agent/orchestration/snapshots.py:46-122 | the snapshot of an accepted tree of portable names that fits comes back as a tree, accepted with the same report |
| Disks.SnapshotOutcome | agent/orchestration/snapshots.py:46-125 | for every accepted tree there is what its snapshot becomes, and collisions aside it is the tree again if and only if names and size allow it |
| Workspace.Scratch.Materialize | agent/orchestration/snapshots.py:78-107 | a tree is handed out only after its inspection gave the wanted hash, and a tree of another hash is removed |
| Workspace.Scratch.Verify | agent/orchestration/snapshots.py:88-101 | a tree becomes usable exactly when it is accepted and has the wanted hash |

## Left out

- Leases.OneHolderPerKey: speaks of the memory and SQLite caches; the DynamoDB cache takes over a lease only after its expiry second, one second later.
- Leases.NextKeepsInv: a storage error between two `acquire` calls, after which the leases already taken wait for their expiry, is not a step of the protocol.
- Budgets.BudgetHolds: costs are exact rationals, so floating-point rounding is not covered, and tokens in flight are not reserved by the source and so not bounded.
- AslRetry.WithHandlers: delays are exact rationals, so that neither rounding nor the OverflowError of a float power under a huge MaxAttempts, or of a sleep that is too long, is modelled; `sleep` is `time.sleep`, which refuses a negative delay and nothing else. The wall-clock deadline inside a sleep and the event log are not modelled.
- AslSoundness.TypeSoundness: assumes the syntax is typed as the definition language says, which the validator checks for paths, transitions between states and operators, and not for IntervalSeconds, MaxAttempts, BackoffRate, MaxDelaySeconds, MaxConcurrency, the TimeoutSeconds of the definition or a comparison operand, where null or text is a TypeError. Tasks return a value that JSON can encode or raise an Exception; a BaseException such as KeyboardInterrupt is not modelled.
- AslSchedules.MapIsScheduleIndependent: the thread pool's limit of workers only removes interleavings and is not modelled; tasks answer, jitter is drawn and the deadline expires as functions of where in the nest it happens, so a shared wall-clock deadline that a slow sibling uses up is outside the statement.
- Iam.SafeMeansContained: lower-casing covers the ASCII letters of IAM names.
- LeastPrivilege.StaticCandidate: character classes of `fnmatch` are an oracle, and a list field that holds an object counts as the exception other shapes raise, where Python would read its keys.
- LeastPrivilege.NarrowerIsContained: containment is claimed for the local proof only; an answer of AWS is an oracle.
- Scope.ScopeToTarget: the sorted tuple of actions outside is a set.
- PolicyDocuments.IdentityPolicy: objects have no order, so of a document with both kinds of wrong shape the AttributeError is reported, where the source raises what it meets first; the deep copy that is assigned into is a value.
- Remediation.ValidateProposal: the tree is one that can be inspected, so that a refused or unreachable tree is outside the model; dates and keys that are no text, which YAML has and JSON does not, are not modelled; memory running out anywhere but in the Python parser is not an outcome.
- Remediation.ProposalValidatesIff: assumes of the text of the replaced document that parsing gives what was written, which the YAML parser does not promise for JSON numbers with an exponent and for escaped surrogate pairs; hashes, canonical form, diff text and parsing are parameters, and a tree with a Python file that does not parse is one whose required actions are unknown.
- RunState.OptimisticRefinesSerialized: storage errors other than a failed condition end a call without a write; SQLite and boto3 are an atomic record and a conditional put.
- MergeRetry.RetryIsIdempotent: the policy engine is a deterministic oracle and a run stands for one prepared source; the scan store, the notices, the counts and the order of findings in the report are not modelled. `MergeRaces` makes the same assumptions, and that no detector checkpoint is written for these checks while merges race.
- Honesty.Detect: the error of a scan is a non-empty code or none.
- Honesty.MergeMay: the early review items of a merge are in `Merge` and leave no trace in what a result rests on.
- Honesty.CompletedResultsAreHonest: digests are injective keys; the explanation inside a result, its usage figures and its notices are not modelled.
- Honesty.PointersLeadToCompletedForever: a run id and a generation stand for one prepared source, so the keys hold the whole run where the source has its id, its generation and a digest of the material.
- Schemas.Validate: whether a pattern matches the full text and which characters are whitespace are oracles, and error messages are data, not prose; a text of more than 10^9 characters under a schema without maxLength is an error here, where forming the source's message raises a KeyError.
- Units.Passes.Resolve: units and cache entries are values keyed by unit id, so aliasing and the cache key digest are not modelled; the lease that another worker holds is the subject of `Leases`.
- Batches.CheckExplanationBatch: the schema and prose checks of one item are oracles.
- Packets.BuildPacket: text cleaning is an oracle; messages, details, flags, reasons, environments and evidence classes of a group are not modelled.
- Trees.Inspect: the file sets of a report are not ordered, the time limit and a file that changes while it is read are not modelled, and the walk is unrolled before the loop over it.
- Snapshots.ExtractZip: the time limit is not modelled, and the two messages for too much data are one refusal.
- Snapshots.BuildSnapshot: archives are small enough to need no ZIP64 records, which holds for at most 65535 files and archives below 2 GiB.
- Workspace.Scratch.Materialize: one call at a time; which trees are evicted, the locks and the renaming of a staged tree are not modelled.
- Pipeline entry points, `submit` and `resume`: thin callers of the run record and the state machine.
- Questions and answers of the reasoning service, query understanding, prompts, templates and reports: prose with no state of its own beyond the passes modelled here.
- Detectors, subprocess scanners, Git cloning, Cedar policies, the API, the command line and the web front end: process and network I/O, or rules whose text is data.
- Routing scores, guard counters and domain records: they would only add easy members.
