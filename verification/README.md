# AgentOps framework: a verified model

A Dafny model of the parts of the framework where state, ordering and interleaving matter, with proofs about
every run and every input. `dafny verify dfyconfig.toml` checks all of it.

The centre is the human-approval cycle. A native run stops at SDK interruptions and turns each into a pending
approval. People approve, reject or let expire, whenever they like. `AgentApp.resume` reads the approvals one per
await, decides whether to go on, and hands the decisions to `OpenAIAgentsBackend.resume`, which makes one-use
markers out of them; every later tool call tries to spend one. The model has each layer, and one theorem across all
of them (`EndToEnd.ApprovalsBuyCalls`): under every interleaving, the tool calls that receive a marker are, for each
tool and arguments, the first ones, as many as there are interruptions asking for that call whose answer is approval.
The markers go out oldest first, one call each. The answer that counts for an interruption is the one given to the last
interruption with its call id whose approval the store still holds. Where call ids are distinct and none is an approval
id, that is its own, or none (`EndToEnd.OwnApprovalsBuyCalls`). The theorem covers stores that have lost approvals of
the run. It assumes that a lost one does not turn up again under its old id, and that the interruption list is the
run's own or nothing was lost.

| file | what it models |
|---|---|
| PyValues.dfy | JSON trees, Python equality of arguments, `str(d.get(k, default))` |
| ApprovalStore.dfy | the approval store, with expiry |
| ResumeProtocol.dfy | resume tasks and deciders as a transition system; what every step keeps |
| ResumeSafety.dfy | safety, agreement, stability, termination and the exact safety condition over all schedules |
| AgentApp.dfy | `resume` as loops with awaits; every execution is a schedule of the transition system |
| Ledger.dfy | the shared marker ledger |
| DecisionMap.dfy | the map from SDK call ids to decisions |
| RunStateCodec.dfy | saving and loading the SDK run state |
| SavedRuns.dfy | the id map and the interruption list in the saved dictionary |
| NativeBackend.dfy | the interruption loop of `run` and the decision loop of `resume` |
| EndToEnd.dfy | run, decide, resume, call |
| Routing.dfy | the stable rule sort, `route_one`, `route_many` |
| RuntimeConfig.dfy, AppConfig.dfy | configuration normalisation |
| Pagination.dfy, Redaction.dfy | console paging and metadata redaction |
| RecoveryScan.dfy, RunTrace.dfy, Orchestrator.dfy | candidate selection, status inference, agent-call extraction |

What surrounds the modelled code enters as parameters or assumptions:

- Only a pending record changes status, and no record is deleted. This is not assumed: within one process it is what the store's methods do (`ApprovalStore.OpsEvolve`).
- The ids that `run` draws at random are distinct and not in the store yet.
- The clock is a parameter of each decision; JSON decoding, the SDK's `from_json`, `str.lower`, `str` and regular-expression search, and how lists and match types print, are arbitrary functions.
- Every await may be followed by any number of store calls and any number of steps of other resumes of the same run.

Where code and promise part, the code is modelled and the difference is a theorem:

- `resume` goes ahead and marks the run resumed, and without a native backend reports it approved, also when an approval has expired or is missing, since it only looks for pending and rejected ones. Under every schedule it goes ahead only with every approval approved, exactly when one is rejected already, or each is approved already or open without a time limit (`GoesAheadApprovedIff`; `LateAnswerGoesAhead` has the schedule, one answer after the limit). The approvals that `run` creates have no limit, so there a dispatch means that all are approved (`RunThenResume`).
- The scans skip an approval id that the store does not hold. Every dispatch finds every approval of the run in the store, approved or expired, exactly when no id is missing at the start, or one is already rejected, or there is no native backend (`DispatchSafeIff`). Resumes agree under every schedule exactly when no id is missing or one is already rejected (`AgreeIff`); the schedule on which they disagree creates a missing approval again under its old id and rejects it (`LateRejectionSplits`).
- Interruptions that share a call id share the answer to the last of them. Called directly with a rejection and an approval, the backend lets the rejected call through (`RejectedRequestBuysCall`); `AgentApp.resume` never hands it a rejection. Each interruption gets its own answer exactly when no two that share a call id were answered differently and no call id is mistaken for an approval id (`OwnAnswerIff`).
- The loading code means to handle an asynchronous `from_json` and calls `asyncio.run` for it, which fails because `resume` already runs in an event loop (`CoroutineIsLost`). A run loads exactly when `from_json` is synchronous and its payload is good (`LoadSucceedsIff`).
- `route_one` documents a fallback to the first allowed default rule and falls back to the last (`SecondDefaultWins`; the exact condition is `DocumentedRouteIff`, which always holds with at most one allowed default).
- Redaction does not look into a list that sits directly in a list (`InnerListLeaks`; the exact condition is `FullyRedactedIff`).
- Two of the skip reasons of a recovery scan can never be given (`SelectedIff`).

## Model

| member | source | states |
|---|---|---|
| ApprovalStore.Store.Create | agent_app/governance/approval.py:122-126 | a new id is stored, a known one refused without any change |
| ApprovalStore.Store.Lookup | agent_app/governance/approval.py:128-131 | the record, or not found |
| ApprovalStore.Store.Decide | agent_app/governance/approval.py:133-189 | succeeds iff the record is pending and inside its time limit; past the limit it turns expired and still fails; every field of the record afterwards, and which error |
| ApprovalStore.OpsEvolve | agent_app/governance/approval.py:122-189 | no call removes an id, touches a record that has left pending, moves a time limit, or expires a record without one |
| ResumeProtocol.StepKeepsInv | agent_app/core/app.py:1271-1395 | every step of every participant keeps what each resume's scans have established |
| ResumeProtocol.RunKeepsInv | agent_app/core/app.py:1271-1395 | so does every schedule |
| ResumeSafety.DispatchIsSafe | agent_app/core/app.py:1291-1373 | when, and ever after, the backend is called, no approval present at the start is pending or rejected, and the list passed is the store's current answers in id order, missing approvals left out, if no missing one turns up; position by position if none was missing |
| ResumeSafety.DispatchSafeIff | agent_app/core/app.py:1450-1480 | every schedule dispatches only with every approval in the store and approved or expired, iff no id is missing, or one is rejected already, or no native backend |
| ResumeSafety.MissingIdBreaksSafety | agent_app/core/app.py:1457-1463 | builds, for any run with a missing id and no rejection, a schedule of approvals and this resume alone that calls the backend without the missing approval |
| ResumeSafety.GoesAheadApprovedIff | agent_app/core/app.py:1336-1390 | under every schedule a resume goes ahead only with every approval approved, iff one is rejected already, or each is approved, or pending without a time limit |
| ResumeSafety.LateAnswerGoesAhead | agent_app/core/app.py:1310-1337 | builds, for an approval that is missing, expired or has a limit, and no rejection, a schedule of decisions and this resume alone that marks the run resumed and calls the backend, if there is one, without that approval |
| ResumeSafety.ResumesAgree | agent_app/core/app.py:1310-1337 | concurrent resumes of one run never reach opposite verdicts, as long as no id of the run enters the store that was missing at the start |
| ResumeSafety.AgreeIff | agent_app/core/app.py:1310-1337 | they agree under every schedule iff no id is missing at the start or one is rejected already |
| ResumeSafety.LateRejectionSplits | agent_app/core/app.py:1466-1480 | for any run with a missing id and no rejection, the schedule in which one resume goes ahead, the missing approval is created again and rejected, and the next resume rejects |
| ResumeSafety.RunRecordIsFinal | agent_app/core/app.py:1316-1337 | as long as no missing id turns up, the stored run is marked completed once a resume rejects and resumed once one goes ahead, completed only if an approval is rejected, resumed only if all in the store are cleared, and never remarked otherwise |
| ResumeSafety.VerdictIsFixed | agent_app/core/app.py:1291-1337 | a resume started after the last decision never reports pending, rejects iff some approval is rejected, and gives the first rejection's reason, never Unknown |
| ResumeSafety.VerdictIgnoresOrder | agent_app/core/app.py:1466-1480 | the verdict depends on the set of ids, not their order |
| ResumeSafety.ResumeTerminates | agent_app/core/app.py:1271-1395 | a resume of n approvals has returned after 3n + 4 of its own steps, in any company |
| ResumeSafety.DecidedResumeCompletes | agent_app/core/app.py:1291-1395 | and of a decided run it then ends in rejection, in the backend or as a stub, whichever the records and the backend call for |
| AgentApp.RunHost.Await | agent_app/core/app.py:1450-1494 | a suspended resume keeps its place while deciders and other resumes act |
| AgentApp.RunHost.CheckPendingApprovals | agent_app/core/app.py:1450-1464 | the loop is a run of the protocol's first scan |
| AgentApp.RunHost.CheckRejectedApprovals | agent_app/core/app.py:1466-1480 | the loop is a run of the protocol's second scan |
| AgentApp.RunHost.GetRejectionInfo | agent_app/core/app.py:1482-1494 | the loop is a run of the reason scan and returns its reason |
| AgentApp.RunHost.CollectApprovals | agent_app/core/app.py:1355-1365 | the loop is a run of the collecting scan and returns what it collected |
| AgentApp.RunHost.ResumeTask | agent_app/core/app.py:1271-1395 | every execution of resume is a schedule of the protocol ending in the matching phase |
| AgentApp.RunHost.Resume | agent_app/core/app.py:1240-1395 | safe dispatch, current answers with missing approvals left out, fixed verdict and first reason, a report of pending only if an approval was open at the call, and the stored run marked accordingly, stated of the method itself |
| PyValues.PyEqExact | agent_app/adapters/openai_agents.py:1583 | between arguments without truth values, equality is exact |
| PyValues.BoolsAreNumbers | agent_app/adapters/openai_agents.py:1583 | True equals 1 and nothing else that is a number, False 0 |
| PyValues.PyEqIsEquivalence | agent_app/adapters/openai_agents.py:1583 | equality of arguments is an equivalence |
| PyValues.CanonIffPyEq | agent_app/adapters/openai_agents.py:1583 | two values have one canonical form iff they are equal |
| PyValues.CanonIsBoolFree | agent_app/adapters/openai_agents.py:1583 | every value equals its canonical form, which has no truth values |
| Ledger.SameArgumentsIff | agent_app/adapters/openai_agents.py:1557-1571 | two argument values normalise alike iff they mean the same or one wraps the other under _raw |
| Ledger.SameKeyIff | agent_app/adapters/openai_agents.py:1574-1585 | calls share a key iff they have the same tool and equal arguments |
| Ledger.ApprovalLedger.Append | agent_app/adapters/openai_agents.py:862-870 | files a marker last under its tool |
| Ledger.ApprovalLedger.Pop | agent_app/adapters/openai_agents.py:1574-1585 | removes and returns the first matching marker, which the tool executor accepts for this call and which has exactly its arguments if no truth values are among them, or changes nothing |
| Ledger.PopTakesOldest | agent_app/adapters/openai_agents.py:1574-1585 | a call gets the oldest unused marker of its key iff there is one; every other key keeps its markers in order |
| Ledger.FirstComeFirstServed | agent_app/adapters/openai_agents.py:534-544 | in any sequence of calls those with one key get that key's markers in order until they run out, then none |
| Ledger.CallsConserve | agent_app/adapters/openai_agents.py:803-878 | markers left plus markers consumed always equal markers created |
| DecisionMap.BuildSdkDecisionMap | agent_app/adapters/openai_agents.py:1530-1554 | the four loops compute, for every key, the reference lookup: id map, then interruptions, then own approval id |
| DecisionMap.ViaIdMapFinds | agent_app/adapters/openai_agents.py:1546-1549 | the id map answers with its last applicable entry and only if it has one |
| DecisionMap.LastStatusFinds | agent_app/adapters/openai_agents.py:1536-1539 | an approval id has the status of the last record that counts for it; missing and None fields count as the code reads them |
| DecisionMap.ViaInterruptionsFinds | agent_app/adapters/openai_agents.py:1541-1545 | the interruptions answer with the last applicable one and only if there is one |
| DecisionMap.FirstStatusFinds | agent_app/adapters/openai_agents.py:1550-1553 | a key that is an approval id is decided by the first record that counts for it |
| DecisionMap.EmptyCallIdDecidedIff | agent_app/adapters/openai_agents.py:1541-1553 | an empty call id is decided iff the id map itself has an applicable empty entry |
| DecisionMap.NoneCallIdIsAWord | agent_app/adapters/openai_agents.py:1541-1545 | a None call id is read as the word None |
| RunStateCodec.SerializedBy | agent_app/adapters/openai_agents.py:68-118 | the first strategy that works, under its name, and only repr marked as not resumable |
| RunStateCodec.SavedSays | agent_app/adapters/openai_agents.py:715-733 | every saved run is tagged native, keeps its id map, its interruptions and all the state was serialised to; the fallback is marked as not resumable |
| RunStateCodec.LoadSucceedsIff | agent_app/adapters/openai_agents.py:121-168 | any saved dictionary loads iff it is tagged to_json and its payload is a non-empty dictionary of which from_json makes a state without being awaited; what it loads to; and which error otherwise |
| RunStateCodec.CoroutineIsLost | agent_app/adapters/openai_agents.py:152-160 | with an asynchronous from_json, what would load outside an event loop fails in resume |
| SavedRuns.SavedReadsBack | agent_app/adapters/openai_agents.py:717-733 | an id map and an interruption list written into a backend state are read back from it entry by entry, in order, whatever the SDK state |
| SavedRuns.ReadableIff | agent_app/adapters/openai_agents.py:796-806 | exactly which saved metadata can be read as an interruption list; a list passed in is taken as it is |
| SavedRuns.ReadAsText | agent_app/adapters/openai_agents.py:1541-1543 | a missing member is empty, None is the word None, text is itself, anything else is printed |
| RunStateCodec.SavedThenLoaded | agent_app/adapters/openai_agents.py:715-841 | what run saves comes back as from_json of the original payload, and every other saved shape fails, with which error |
| NativeBackend.CallId | agent_app/adapters/openai_agents.py:1524-1527 | the call id if there is one, else the lookup key, empty iff both are missing or empty |
| NativeBackend.ToolName | agent_app/adapters/openai_agents.py:863-867 | tool_name first, then name, else unknown |
| NativeBackend.RecordInterruptions | agent_app/adapters/openai_agents.py:670-713 | one pending approval without a time limit per interruption and nothing else changed in the store; id map and both lists, field by field |
| NativeBackend.WithPendingHolds | agent_app/adapters/openai_agents.py:684-698 | afterwards every id of the run is in the store, pending |
| NativeBackend.ExtractApprovalIds | agent_app/runtime/app_runner.py:714-722 | the loop collects the approval ids shown, in order, leaving out missing and empty ones |
| NativeBackend.ShownIdsAre | agent_app/runtime/app_runner.py:714-722 | a run is stored under exactly the ids its interruptions show |
| NativeBackend.RecordedReadsBack | agent_app/adapters/openai_agents.py:701-721 | the id map and interruptions that run saves are those that resume reads |
| NativeBackend.ApplyDecisions | agent_app/adapters/openai_agents.py:843-878 | approved and rejected items and their markers are those the decision lookup names, in order |
| NativeBackend.ChosenPositions | agent_app/adapters/openai_agents.py:855-878 | an interruption is chosen iff it has the verdict, and stands in the order of the interruptions |
| NativeBackend.Resume | agent_app/adapters/openai_agents.py:796-904 | loads or fails as the codec says, raises on an interruption list it cannot read, decides by what the saved dictionary holds; a resume that does not get to the runner makes no marker |
| EndToEnd.DecidedByLastTwin | agent_app/adapters/openai_agents.py:843-878 | an interruption is decided by the last one with its call id whose approval is in the store; if there is none, by the approval whose id its call id is; else, or without a call id, it stays undecided |
| EndToEnd.OwnAnswerIff | agent_app/adapters/openai_agents.py:1530-1554 | every interruption gets its own answer iff no two sharing a call id were answered differently and no call id is mistaken for an approval id |
| EndToEnd.ChosenByAnswer | agent_app/adapters/openai_agents.py:843-878 | approved (rejected) items are exactly those whose counting answer is approval (rejection), in order |
| EndToEnd.AnsweredOwn | agent_app/adapters/openai_agents.py:843-878 | under that condition those are exactly the ones whose own approval says so |
| EndToEnd.BuysCallIff | agent_app/adapters/openai_agents.py:1557-1571 | exactly which calls an interruption's marker is for, from its tool_name, name and arguments in every form |
| EndToEnd.RejectedRequestBuysCall | agent_app/adapters/openai_agents.py:1546-1549 | two requests with one call id, the first rejected and the second approved, handed to the backend directly: nothing is rejected, and the call the first asked for receives its marker |
| EndToEnd.TextBuysDecodedCall | agent_app/adapters/openai_agents.py:1557-1571 | arguments reported as JSON text buy the call of the named tool with the decoded dictionary |
| EndToEnd.ApprovalsBuyCalls | agent_app/adapters/openai_agents.py:803-904 | under every interleaving, whatever the call ids and whatever the store has lost for good, calls with one tool and arguments get exactly the markers of the interruptions asking for them whose counting answer is approval, oldest first, once each; none is rejected |
| EndToEnd.OwnApprovalsBuyCalls | agent_app/adapters/openai_agents.py:803-904 | with distinct call ids that are no approval ids, or nothing lost, the same in terms of each interruption's own approval |
| EndToEnd.LostRunBuysNothing | agent_app/core/app.py:1355-1365 | a run none of whose approvals the store holds buys no call anything |
| EndToEnd.ResumeNatively | agent_app/core/app.py:1339-1373 | the two resume methods chained: a dispatched run is resumed exactly as answered, missing approvals included if they stay missing; a run that is not dispatched or does not load leaves no marker |
| EndToEnd.RunAndSave | agent_app/adapters/openai_agents.py:661-733 | the backend state and the approval ids an interrupted run is stored with |
| EndToEnd.RunThenResume | agent_app/adapters/openai_agents.py:661-904 | run, any store traffic, and resume under the ids shown: a dispatch finds every approval approved, approves exactly the interruptions with a call id, and holds exactly their markers; a state that does not come back fails without one |
| Routing.SortedRulesSorts | agent_app/core/routing.py:64-66 | a permutation of the rules in ascending priority |
| Routing.StableSortIsUnique | agent_app/core/routing.py:64-66 | the only stable one: any list in priority order that keeps each priority's declaration order is it |
| Routing.SortingCommutesWithMatching | agent_app/core/routing.py:64-66 | for every way of matching, matching the sorted rules is sorting the matching rules |
| Routing.EndsAreExtreme | agent_app/core/routing.py:64-66 | the first match is least by priority then declaration, the last match greatest |
| Routing.HitMeans | agent_app/runtime/routing.py:66-103 | a rule is tried only for an allowed target and hits by a lower-cased keyword inside the lower-cased input, or by its non-empty pattern |
| Routing.RouteOne | agent_app/runtime/routing.py:46-103 | the first allowed hit in sorted order, else the last allowed default; the decision has an allowed target and is a declared rule's target, name, metadata and reason or text |
| Routing.RouteMany | agent_app/runtime/routing.py:105-153 | every allowed hit, in the order of the sorted hits, each with its rule's target, name, metadata and reason or text; every target allowed |
| Routing.RouteIsExtreme | agent_app/runtime/routing.py:46-103 | in terms of the declared rules: the hit that outranks all hits, else the default that all defaults outrank, else none; and field by field what the decision says of it |
| Routing.DocumentedRouteIff | agent_app/runtime/routing.py:52-65 | the documented route and the code's agree iff some rule hits, or no default is allowed, or the best and worst ranked allowed defaults have the same target, name, effective reason and metadata; so always with at most one |
| Routing.SecondDefaultWins | agent_app/runtime/routing.py:76-84 | two defaults for which they differ |
| RuntimeConfig.Normalize | agent_app/config/schema.py:93-191 | each normaliser, as assignments and a pop, on any value |
| RuntimeConfig.KeyByKey | agent_app/config/schema.py:93-191 | after any list of normalisers a key has the value its owner alone gives it |
| RuntimeConfig.AnyOrder | agent_app/config/schema.py:93-191 | all orders of the seven, repeated or not, give the same dictionary |
| RuntimeConfig.AllIdempotent | agent_app/config/schema.py:93-191 | normalising twice, in whatever orders, is normalising once |
| RuntimeConfig.OtherKeysUntouched | agent_app/config/schema.py:93-191 | keys outside the footprints pass through |
| RuntimeConfig.OneOwner | agent_app/config/schema.py:93-191 | the footprints are disjoint |
| RuntimeConfig.StoreMeaning | agent_app/config/schema.py:93-139 | nested over flat over default, with all normalisers composed, and the section gone; a bare workflow state is its type and gone; any other section stays |
| RuntimeConfig.ConfigMeaning | agent_app/config/schema.py:141-191 | a section given as a dictionary becomes its configuration, with all normalisers composed |
| RuntimeConfig.StoresByName | agent_app/config/schema.py:93-139 | the three store sections in their own key names: nested type and path, else flat, else memory and none |
| RuntimeConfig.ShorthandByName | agent_app/config/schema.py:127-137 | a workflow state given as a word is its type |
| RuntimeConfig.ConfigsByName | agent_app/config/schema.py:141-191 | the four configuration sections in their own key names |
| RuntimeConfig.NestedEqualsFlat | agent_app/config/schema.py:93-139 | nested and flat spellings normalise to the same dictionary |
| AppConfig.EntryList | agent_app/config/schema.py:1526-1538 | entries in order, each all its body says and the key as name where the body gives none; failing iff some body is not a dictionary |
| AppConfig.NormalizeSections | agent_app/config/schema.py:1541-1552 | the loop keeps the listed sections and wraps the bare ones |
| AppConfig.NormalizeGovernance | agent_app/config/schema.py:1541-1552 | the same over the eleven known sections, by name; unknown and empty ones are dropped, dictionaries kept, other values wrapped |
| AppConfig.TopMeaning | agent_app/config/schema.py:1517-1554 | agents and tools each listed from their own section, failing iff a body is no dictionary; governance reduced; everything else as it was |
| AppConfig.TopIdempotent | agent_app/config/schema.py:1517-1554 | normalising leaves other keys alone; normalising a normalised configuration succeeds and changes nothing |
| AppConfig.DuplicateCheckIff | agent_app/config/schema.py:1556-1562 | raises iff two positions hold one name |
| AppConfig.KeyedAgentsClashIff | agent_app/config/schema.py:1517-1562 | for keyed agents, iff two effective names coincide; never if no body overrides its name |
| Pagination.FloorDivFloors | agent_app/console/router.py:7425-7426 | the floored quotient, for divisors of either sign |
| Pagination.PageCountCovers | agent_app/console/router.py:7423-7426 | pages is the least positive number of windows covering the listing |
| Pagination.AlignedPage | agent_app/console/router.py:7423-7437 | every field of the k-th page |
| Pagination.WalkVisitsEverythingOnce | agent_app/console/router.py:7423-7437 | the walk ends after exactly pages pages, numbered in turn, prev leading back, each item shown once |
| Pagination.CurrentInRange | agent_app/console/router.py:7425-7426 | current stays within 1..pages for any offset and names the page the offset falls in |
| Pagination.AnyPage | agent_app/console/router.py:7423-7437 | any offset and limit: fails iff the limit is zero on a listing that is not empty; what lies before and after |
| Pagination.PrevUndoesNext | agent_app/console/router.py:7434-7436 | next then prev returns to any offset |
| Redaction.SanitizeDict | agent_app/console/router.py:7110-7123 | the loop and its recursion compute the redacted form |
| Redaction.SanitizeMetadata | agent_app/console/router.py:7095-7123 | with None as the empty dictionary and the console's own key list; the key set and the placeholder |
| Redaction.ConsoleKeys | agent_app/console/router.py:7103-7112 | the nineteen sensitive keys, in any letter case |
| Redaction.RedactIdempotent | agent_app/console/router.py:7095-7123 | redacting twice is redacting once |
| Redaction.VisiblePartKept | agent_app/console/router.py:7110-7122 | off the sensitive keys, leaves, key sets and list lengths are what they were |
| Redaction.FullyRedactedIff | agent_app/console/router.py:7113-7120 | every sensitive key at any depth is redacted iff none sits in a list directly inside a list |
| Redaction.InnerListLeaks | agent_app/console/router.py:7116-7120 | such a list gets through unchanged |
| RecoveryScan.SelectedIff | agent_app/core/app.py:1000-1041 | exactly which candidates are selected, and two reasons that are never given |
| RecoveryScan.ReasonGivenIff | agent_app/core/app.py:1014-1039 | which of the skip reasons is given, for every candidate and policy |
| RecoveryScan.Prefix | agent_app/core/app.py:838 | the slice, negative bounds counting from the end |
| RecoveryScan.RunScanOnce | agent_app/core/app.py:829-878 | the capped prefix split by the skip test, counts to match, nothing recovered, and the failed scan |
| RecoveryScan.ScanPartitions | agent_app/core/app.py:844-866 | every candidate lands in one list, in scan order, at its position |
| RecoveryScan.MoreFlagsSelectMore | agent_app/core/app.py:1025-1030 | more recover flags only add to the selection |
| RecoveryScan.BuildFlags | agent_app/core/app.py:959-987 | the nested loops are set membership of lower-cased statuses, status by status |
| RecoveryScan.FlagsGrow | agent_app/core/app.py:959-987 | more statuses, in any order or case, never switch a flag off |
| RunTrace.InferStatus | agent_app/adapters/fastapi.py:2004-2018 | three passes compute the strongest event under failed, interrupted, completed, in the names of the event types |
| RunTrace.StrongestBounds | agent_app/adapters/fastapi.py:2004-2018 | some event says it and none says more |
| RunTrace.InferConcat | agent_app/adapters/fastapi.py:2004-2018 | a homomorphism into the join; appending never lowers it |
| RunTrace.InferIgnoresOrder | agent_app/adapters/fastapi.py:2004-2018 | independent of order and repetition |
| Orchestrator.ExtractAgentCalls | agent_app/adapters/openai_agents.py:1364-1383 | the specialist calls in order if any, else the first occurrences |
| Orchestrator.SpecialistPositions | agent_app/adapters/openai_agents.py:1364-1373 | every call of a specialist is in the list, in order, as often as it was made; a call without a tool counts as unknown |
| Orchestrator.FirstOccurrencesOrder | agent_app/adapters/openai_agents.py:1374-1383 | exactly the tools called, without duplicates, by first call |

## Left out

- The DAG executor, lease backends, idempotency, rollout, federation and notification services: separate subsystems.
- HTTP handlers, HTML and streaming, audit and trace events: I/O around the modelled code.
- Approve-and-resume and reject in one call (`agent_app/runtime/approval_resume.py`): not modelled, and neither are their writes to the stored run record (lines 333, 394 and 460). `RunRecordIsFinal` speaks of `AgentApp.resume` alone.
- A run that the run-state store does not know, and the older path of `resume` without such a store: one branch each, no interaction.
- A run without an approval store behaves in `resume` as one whose store is empty (`LostRunBuysNothing`); `run` is modelled with a store.
- Deciders in several processes on one SQLite store: its updates are not conditional on the record still being pending, so there a decision can overwrite another.
- What the tool executor does with a marker: a tool that needs no approval runs without one and still uses up a matching one, and other gates come before.
- Markers taken from a run's context metadata: each wrapper then builds its own list, so the ledger theorems do not apply.
- Tool wrappers popping from several operating-system threads: a pop is one step here.
- At-most-once resumption: the code does not enforce it, and nothing here claims it.
- Exceptions that the SDK raises while approving, rejecting or running; they end the call or are swallowed after the modelled part.
- ApprovalStore.Store.Create: does not model the request's tool, arguments and requester, because no decision reads them.
- RunStateCodec.SavedThenLoaded: does not model the wording of error messages, only their type.
- `_sanitize_headers`: one level of the same loop.
- NaN and numbers beyond exact reals in tool arguments.
