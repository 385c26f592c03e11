# Verified model of Cyberbrain's durable core

Cyberbrain keeps versioned knowledge for agents, and a background "dream" worker that turns
recalled evidence into new knowledge. This project models the parts whose correctness rests on
interleaving, crashes or bounded search, and proves what those parts are for.

| part | files | what is proved |
|---|---|---|
| Knowledge evolution | `EvolutionModel`, `EvolutionInvariant`, `EvolutionRuns`, `EvolutionCalls`, `EvolutionGuarantees`, `EvolutionVerdicts`, `EvolutionAttempts`, `EvolutionOutcomes`, `EvolutionService`, `EvolutionWitnesses`, `EvolutionLimits` | a two-phase commit over a store without transactions refines one append-only log per identity, over every interleaving and every crash; what a store answers is exact; where it falls short, exactly when, and a run that gets there |
| Reason-task inbox | `InboxModel`, `InboxRuns`, `InboxGuarantees`, `InboxOutcomes`, `InboxService`, `Timestamps` | leases are exclusive and die for good, the first winner stays, retirement is exact and final, and the stored texts order like the instants |
| MCP-first reasoner | `Orchestration`, `OrchestrationOutcomes`, `RunReasoner` | whatever other parties do meanwhile, a run waits its time for them, uses what they handed in by then, and assembles the durable results of its own tasks |
| Inference engine | `RelationModel`, `Contradictions`, `InferencePaths`, `InferenceRuns`, `InferenceGuarantees`, `Counterfactuals`, `InferenceEngine` | bounded inference is sound, and complete when its flag is down; the flag and the counterfactual verdict are decided by the edges and the budgets, and by their order in one case only |
| Evidence gate | `GateModel`, `GateVerdicts`, `EvidenceGate`, `GateGroups` | merging conserves candidates, evidence and identity; groups and judgements are exact; promotion implies real, verified evidence |
| Dream queue and worker | `QueueModel`, `DreamWorker` | attempts stay bounded, every drain step lowers one measure, and the worker goes idle with every due job claimed |
| Associative recall | `AssociativeRecall` | within its limits and free of repetition, and exactly the reachable items when not full |

`Common` and `Lists` hold shared vocabulary, `Text` the string operations.

## How the model is built

**Evolution.** `Step` is one step of a call: some reads, then at most one repository write. A call
is a program counter (`Pc`); a crash is a call that stops between steps. `EvolutionRuns` puts any
number of calls together, at most one per lock key, because the process guard and the identity
lock exclude each other's holders and a crash releases them. The commit point is the upsert: from
there recovery only rolls forward. `KnowledgeEvolutionService` has the source's methods, writes one
record at a time under a budget of writes after which the process is dead, and equals the step
function.

**Query limits.** The active search stops at 10 points and the pending scroll at 20, and the context
is only filtered afterwards. Both limits are in the model. A query answers with all matches or
with any 10 (20) of them, and the guarantees ask that it sees every match (`SeesAll`). At most ten
contexts per entity and partition are enough (`FewContextsSeeAll`), and `SearchLimitIsExact` and
`ScrollLimitIsExact` show that beyond the limit the guarantee is lost. `SecondActive` and
`OverlooksPending` are runs from the empty repository that get there: a store inserts a second
active version, a call overlooks a pending one. `LegalServerExists` shows that some server answers
within its limits.

**Inference.** A derivation is a list of trials, one per comparison an unstopped engine makes, in the
order in which it makes them (`Trials`). A bounded derivation consumes them one by one until a
budget is used up or a proof is oversized (`Run`). The engine's methods build paths and keep
budgets as the source does and equal that run. The size of the list (`FullWork`) and the claims it
supports (`AllClaims`) are defined from the edges alone.

**Inbox.** Every `BEGIN IMMEDIATE` block is one function on the two tables at an instant. A run of the
system is any sequence of them under a clock that never goes back, with tokens never issued before.
The object's methods equal these functions. `MCPFirstDreamReasoner` runs against that object while
an arbitrary environment transacts between its steps.

**Places where the code does less than one might assume**

- `reconcile_pending` strips the four identity fields before it recovers, so a pending record
  whose fields carry outer whitespace is counted but not found, and stays pending.
  `ReconcileExact` states exactly what remains; `WhitespaceStaysPending` is a crashed store that
  leaves such a record.
- Repeating a forced store after its upsert landed stores the content twice
  (`ForcedRetryStoresTwice`), and repeating one with an expected version raises a conflict
  (`ExpectedRetryConflicts`); `RetryExactlyOnce` gives both directions.
- A derivation that uses up the inference budget exactly is flagged or not depending on the order of
  the edges, and with it the counterfactual verdict changes (`OrderCanDecide`); in every other case
  neither does (`FlagIsStable`, `VerdictIsStable`).
- The evidence count of the gate counts repeated ids; the score, not the count, is what forces two
  different items (`PromotionNeedsEvidence`).
- With a policy of no evidence per task, a replacement task is still made and cites nothing
  (`TopicPlanCitesSome`).
- `mark_failed` does not look at the status; it makes progress exactly on a running job
  (`FailDecreasesExactlyWhenRunning`).
- Evidence without a time sorts behind all timed evidence, so it comes first among the latest
  (`LatestIsLatest`).
- Registering a run again overwrites the stored request even of a completed task, so a stored
  result need not validate against the stored request. `Reason` claims grounded results only for
  fresh task ids.

## Assumptions

- Record ids, claim tokens and hashes are given values: ids are new, tokens were never issued
  before, and digests, entity keys and relation ids are equal exactly when what they identify is.
- Strings are compared by code unit; stripping and lower-casing are those of ASCII text. Case
  folding, tokenising, marker words and topic relevance are function parameters.
- Stores exclude each other per identity. Within a process the identity lock does that; between
  processes it takes the optional lock file, which is off by default. Calls on other identities
  run at any time.
- The instants of successive inbox transactions never go back. Each method reads the clock before
  its transaction begins, so two that overlap could be serialised against their instants; that a
  dead token stays dead rests on their not being.
- The environment of a dream run does not register that run's task ids again and does not really
  retire that run. Everything else is allowed at any time.
- Confidence, thresholds and scores are real numbers; rounding is not modelled.

## Model

| member | source | states |
|---|---|---|
| EvolutionInvariant.StepKeepsChain | cyberbrain/knowledge/evolution.py:411-605 | Every step of a call, with any legal query answer, keeps an identity's records one chain of versions in one of four phases, and appends to its content only at the upsert |
| EvolutionInvariant.BeginResult | cyberbrain/knowledge/evolution.py:505-563 | Recovery finds the pending record exactly when there is one, and then never hits one of its conflict branches |
| EvolutionInvariant.KeptAreMatches | cyberbrain/knowledge/evolution.py:344-362 | Filtering the complete answer by context and partition leaves exactly the identity's own matching records |
| EvolutionRuns.ChainIsUnique | cyberbrain/knowledge/evolution.py:411-493 | The chain and its phase are determined by the repository |
| EvolutionRuns.EventRefines | cyberbrain/knowledge/evolution.py:332-605 | Any event of any call keeps all identities healthy and every running call in step, and extends each log by exactly what that event commits |
| EvolutionRuns.RunRefinesLog | cyberbrain/knowledge/evolution.py:332-605 | Over every interleaving of stores and recoveries, stopped anywhere, each identity's log is the append-only list of its upserts |
| EvolutionRuns.CallsFailOnlyByArgument | cyberbrain/knowledge/evolution.py:363-397 | A reachable call reports no conflict but a changed source version or missing review authority |
| EvolutionRuns.ShapeSingle | cyberbrain/knowledge/evolution.py:363-366 | At most one active and one pending record per identity between any two writes |
| EvolutionRuns.ShapeVersions | cyberbrain/knowledge/evolution.py:411-446 | The versions are exactly 1..n, one record each, holding the log entry of that number |
| EvolutionRuns.ShapeLinks | cyberbrain/knowledge/evolution.py:565-591 | `supersedes_id` and `superseded_by_id` are inverse along the committed chain |
| EvolutionRuns.ShapeGap | cyberbrain/knowledge/evolution.py:545-605 | A stored identity has no active record exactly while its pending record's predecessor is superseded and points at it |
| EvolutionRuns.ReachableShape | cyberbrain/knowledge/evolution.py:332-605 | These four facts hold in every state of every run from an empty repository, for the log of what was committed |
| EvolutionCalls.FewContextsSeeAll | cyberbrain/knowledge/evolution.py:344-362 | With at most ten contexts per entity and partition both limited queries see every match |
| EvolutionCalls.ExecFinishes | cyberbrain/knowledge/evolution.py:565-605 | After its upsert, a call changes neither log nor newest version, and given its writes it returns |
| EvolutionCalls.ExecStores | cyberbrain/knowledge/evolution.py:332-493 | A store, surviving or not, either leaves its identity as it was with the matching outcome, or adds exactly its own content under a new id |
| EvolutionGuarantees.RetryAlone | cyberbrain/knowledge/evolution.py:334-409 | A store that runs alone returns within five writes, and repeating it after a crash at any write is exactly once under the condition below |
| EvolutionAttempts.AttemptEffect | cyberbrain/knowledge/evolution.py:332-493 | Whatever calls on other identities do meanwhile, a finished attempt at a store answers NO_CHANGE if and only if its content, relations and expectation repeat the newest version and nothing is forced, SOURCE_CHANGED if and only if it names another version, the authority error if and only if it would replace or drop reviewed relations unauthorised, and in all other cases commits its content once, under its digest and relations; a stopped one has left its identity alone or committed its content once |
| EvolutionVerdicts.VerdictIsExact | cyberbrain/knowledge/evolution.py:371-409 | Which of these a request meets is read off the request and the newest version alone |
| EvolutionOutcomes.NewestIsRecord | cyberbrain/knowledge/evolution.py:368-375 | The newest version that decides is the record whose version is the length of the log, with its digest and relations |
| EvolutionOutcomes.WrittenRecord | cyberbrain/knowledge/evolution.py:406-460 | The record a store upserts has its content, digest and relations, the next version, and is pending exactly when it has a predecessor |
| EvolutionOutcomes.LaterWritesKeepTheRest | cyberbrain/knowledge/evolution.py:565-626 | Superseding and activating change status, link and commit state of the two records and nothing else of any record |
| EvolutionOutcomes.SuccessorGuarded | cyberbrain/knowledge/evolution.py:565-591 | A commit stops with a conflict, having written nothing, exactly when the predecessor already has another successor |
| EvolutionOutcomes.ManyRefused | cyberbrain/knowledge/evolution.py:363-366 | Two or more kept pending or active records are a conflict, whatever put them there |
| EvolutionOutcomes.RecoveryRefusals | cyberbrain/knowledge/evolution.py:526-563 | Each conflict of a recovery, exactly, whatever put the records there |
| EvolutionOutcomes.KeyJoins | cyberbrain/knowledge/evolution.py:80-100 | The lock key ignores case and outer whitespace of the names |
| EvolutionOutcomes.KeyTells | cyberbrain/knowledge/evolution.py:80-100 | Without a bar in any name, equal lock keys mean equal names, context and partition up to a bar between the last two |
| EvolutionAttempts.RecoveriesKeepView | cyberbrain/knowledge/evolution.py:495-563 | Recoveries, and calls on other identities, never change an identity's log or newest version |
| EvolutionAttempts.RetryExactlyOnce | cyberbrain/knowledge/evolution.py:334-409 | Among calls on other identities, a store that stopped anywhere and is repeated leaves the log of one undisturbed attempt if and only if the upsert had not landed, the store is not forced, or it names an expected version; having landed it returns NO_CHANGE |
| EvolutionWitnesses.LegalServerExists | cyberbrain/knowledge/evolution.py:344-355 | Some server answers every query within its limits |
| EvolutionWitnesses.ForcedRetryStoresTwice | cyberbrain/knowledge/evolution.py:399-404 | From the empty repository: a forced store dies after its upsert, and its repetition leaves one entry more than one undisturbed store |
| EvolutionWitnesses.ExpectedRetryConflicts | cyberbrain/knowledge/evolution.py:372-373 | From the empty repository: a store naming the version it replaces dies after its upsert, and its repetition reports a changed source |
| EvolutionWitnesses.WhitespaceStaysPending | cyberbrain/knowledge/evolution.py:204-247 | From the empty repository: a crashed store under a name with a leading blank leaves a record that reconciliation counts and does not recover |
| EvolutionLimits.SecondActive | cyberbrain/knowledge/evolution.py:344-366 | From the empty repository: with eleven contexts, a legal answer makes a store insert a second active version |
| EvolutionLimits.OverlooksPending | cyberbrain/knowledge/evolution.py:505-524 | From the empty repository: with twenty-one contexts, a legal answer makes a call overlook its own pending version |
| EvolutionGuarantees.SearchLimitIsExact | cyberbrain/knowledge/evolution.py:344-366 | A store keeps the chain whatever the server answers if and only if at most ten active records share entity and partition |
| EvolutionGuarantees.ScrollLimitIsExact | cyberbrain/knowledge/evolution.py:505-524 | A pending version is picked up whatever the server answers if and only if at most twenty pending records share entity and partition |
| EvolutionGuarantees.CollectSpec | cyberbrain/knowledge/evolution.py:203-234 | Identities are collected exactly when none is blank and no two share a lock key, in answer order under stripped names |
| EvolutionGuarantees.CollectRefusals | cyberbrain/knowledge/evolution.py:203-226 | A collection is refused as blank only for a blank identity, as duplicate only for a shared lock key |
| EvolutionGuarantees.RecoverAllWorks | cyberbrain/knowledge/evolution.py:236-247 | Recovering a list of identities raises nothing, keeps every log, and clears exactly their pending records |
| EvolutionGuarantees.ServiceStripsOnce | cyberbrain/knowledge/evolution.py:206-211 | Stripping the identity fields twice is stripping them once, as `ReconcileExact` asks |
| EvolutionGuarantees.ReconcileExact | cyberbrain/knowledge/evolution.py:174-247 | Reconciliation raises exactly for too many, blank or colliding pending identities, each error for its own cause, and then has changed nothing; otherwise it reports the number found, keeps every log, and leaves pending exactly those whose names are not stripped |
| EvolutionGuarantees.ReconcileAgain | cyberbrain/knowledge/evolution.py:174-247 | Over stripped identities a second reconciliation finds nothing and returns 0 |
| EvolutionService.DriveIsLegal | cyberbrain/knowledge/evolution.py:343-355 | The service over any server that answers within its limits satisfies the assumptions of all these guarantees |
| EvolutionService.KnowledgeEvolutionService.Store | cyberbrain/knowledge/evolution.py:332-493 | The method's writes, death and result are the stepwise run of the store; over a server that answers within its limits and at most ten contexts it answers and leaves what `AttemptEffect` says, and given five writes it returns |
| EvolutionService.KnowledgeEvolutionService.RecoverPending | cyberbrain/knowledge/evolution.py:495-563 | Recovery, death or conflict, as the stepwise run prescribes |
| EvolutionService.KnowledgeEvolutionService.CommitStagedEvolution | cyberbrain/knowledge/evolution.py:565-591 | Supersede first, activate second, dead after either |
| EvolutionService.KnowledgeEvolutionService.ActivateStaged | cyberbrain/knowledge/evolution.py:593-605 | Exactly status, state and previous id of the staged record change, or nothing if the process is dead |
| EvolutionService.KnowledgeEvolutionService.ReconcilePending | cyberbrain/knowledge/evolution.py:174-247 | Startup reconciliation as one object operation, equal to the function of `ReconcileExact` |
| InboxRuns.UpsertAllRows | cyberbrain/dreaming/reason_task_inbox.py:195-299 | Registering a task set resets exactly its rows, keeping completed ones completed, and leaves every other row alone |
| InboxRuns.RetireListReport | cyberbrain/dreaming/reason_task_inbox.py:668-712 | Eligible and blocked ids partition the list by their state at the start, the count is the eligible runs' rows, and a real run deletes exactly those |
| InboxRuns.SortedIdsSpec | cyberbrain/dreaming/reason_task_inbox.py:664-666 | Retirement works on the distinct ids in ascending order |
| InboxGuarantees.StepKeepsInv | cyberbrain/dreaming/reason_task_inbox.py:166-712 | Every transaction keeps the row invariant: a claimed row holds the newest token, completed rows and no others have a result for their own task, no row belongs to a retired run |
| InboxGuarantees.LeaseIsExclusive | cyberbrain/dreaming/reason_task_inbox.py:408-421 | At one instant at most one token can submit for a task, and it is the latest claimer's |
| InboxGuarantees.DeadForever | cyberbrain/dreaming/reason_task_inbox.py:412-421 | A token that cannot submit can never submit again, whatever follows |
| InboxGuarantees.TransactionKillsToken | cyberbrain/dreaming/reason_task_inbox.py:255-289 | Re-registering, publishing, reclaiming, submitting, completing, marking or retiring a task kills every token issued before |
| InboxOutcomes.RegisterAnswer | cyberbrain/dreaming/reason_task_inbox.py:129-175 | Registration is refused exactly for an empty name, a negative wait, repeated or foreign task ids, or a retired run, and then changes nothing |
| InboxOutcomes.RegisterEffect | cyberbrain/dreaming/reason_task_inbox.py:161-299 | Otherwise every listed row waits afresh under the new request and deadline, or stays completed with its result; ages stay, other rows stay, and the run is on record with its number of tasks |
| InboxOutcomes.PublishOutcome | cyberbrain/dreaming/reason_task_inbox.py:204-299 | Publishing does the same for one task, under its own deadline if it brings one |
| InboxOutcomes.ClaimOutcome | cyberbrain/dreaming/reason_task_inbox.py:301-384 | A claim takes the oldest open task, finds none exactly when none is open, and the new token, and no other, may submit until the lease or the deadline ends |
| InboxOutcomes.SubmitOutcome | cyberbrain/dreaming/reason_task_inbox.py:386-459 | A submission succeeds exactly for the newest token before lease end and deadline and a result that cites only the task's evidence; that result is stored with route mcp, and nothing else changes |
| InboxOutcomes.FallbackOutcome | cyberbrain/dreaming/reason_task_inbox.py:461-528 | The fallback writer returns the stored winner if there is one, else stores its own result exactly when it fits, and nothing else changes |
| InboxOutcomes.MarkOutcome | cyberbrain/dreaming/reason_task_inbox.py:608-624 | The legacy mark closes an unfinished task for claims and submissions and leaves a completed one alone |
| InboxOutcomes.RetireRefusal | cyberbrain/dreaming/reason_task_inbox.py:648-667 | Retirement is refused exactly for a cutoff over an hour ahead, no id, over a hundred different ids, or a blank one |
| InboxOutcomes.RetireEffect | cyberbrain/dreaming/reason_task_inbox.py:668-712 | It names exactly the known, complete runs untouched since the cutoff with no lease running, counts their rows, and, unless dry, deletes those rows and retires those runs and nothing else |
| InboxGuarantees.WinnerStays | cyberbrain/dreaming/reason_task_inbox.py:255-289 | Over every run a completed row keeps result, route and token while it exists |
| InboxGuarantees.SubmittedOnce | cyberbrain/dreaming/reason_task_inbox.py:431-452 | Between two successful submissions for one task its row was deleted |
| InboxGuarantees.RetireOutcome | cyberbrain/dreaming/reason_task_inbox.py:648-712 | Dry run and real run from one state report alike, a dry run changes nothing, a real run deletes exactly the eligible runs' rows |
| InboxGuarantees.DeletedRowsAreIdle | cyberbrain/dreaming/reason_task_inbox.py:683-708 | Only retirement deletes rows, and never one with a live lease |
| InboxGuarantees.NoReplay | cyberbrain/dreaming/reason_task_inbox.py:640-646 | Once a run is retired no row carries its id again under any later calls |
| InboxService.FirstIsUnique | cyberbrain/dreaming/reason_task_inbox.py:319-336 | The claim query's order is total, so the claimed row is determined |
| InboxService.DreamReasonTaskInbox.RegisterRun | cyberbrain/dreaming/reason_task_inbox.py:129-202 | The method equals the registration transaction, with its refusals |
| InboxService.DreamReasonTaskInbox.SelectClaimable | cyberbrain/dreaming/reason_task_inbox.py:319-336 | Finds the oldest claimable row, ties by task id, or none exactly when none is claimable |
| InboxService.DreamReasonTaskInbox.ClaimTask | cyberbrain/dreaming/reason_task_inbox.py:301-384 | The method leases exactly that row to the new token |
| InboxService.DreamReasonTaskInbox.SubmitClaims | cyberbrain/dreaming/reason_task_inbox.py:386-459 | The method equals the submission transaction, with its refusals |
| InboxService.DreamReasonTaskInbox.CompleteWithFallback | cyberbrain/dreaming/reason_task_inbox.py:461-528 | The method equals the fallback transaction |
| InboxService.DreamReasonTaskInbox.MarkAsFallback | cyberbrain/dreaming/reason_task_inbox.py:608-624 | The method marks the row unless it is completed, whatever other parties did between its lookup and its update |
| InboxService.DreamReasonTaskInbox.RetireFinalizedRuns | cyberbrain/dreaming/reason_task_inbox.py:648-712 | The method equals the retirement transaction, run by run |
| Timestamps.TextOrderIsTimeOrder | cyberbrain/dreaming/reason_task_inbox.py:120-122 | Byte order of the stored texts, with the fraction left out when zero, is order on the time line |
| Timestamps.ReadsBack | cyberbrain/dreaming/reason_task_inbox.py:412-417 | Reading a stored text gives the instant back |
| Timestamps.GuardsAgree | cyberbrain/dreaming/reason_task_inbox.py:319-358 | The text guards of the claim query and the instant guards of the submission decide alike |
| Orchestration.PlanIsSourced | cyberbrain/dreaming/orchestration.py:121-204 | The whole plan asks only about the request's topics, from the request's own evidence on them |
| Orchestration.TopicPlanCitesSome | cyberbrain/dreaming/orchestration.py:150-164 | Every task cites something if and only if tasks may carry evidence or none of it speaks of a replacement |
| Orchestration.TopicPlanIsSmall | cyberbrain/dreaming/orchestration.py:30-36 | At most seven tasks a topic, of at most four items, under the default policy |
| OrchestrationOutcomes.TopicPlanIs | cyberbrain/dreaming/orchestration.py:121-204 | A topic's tasks in full: overlapping pairs of the newest items, one task on all that speaks of replacements, lessons from neighbours among decisions, validations and newest items each once, and a task for each of the oldest caveats |
| OrchestrationOutcomes.OrderedIsStable | cyberbrain/dreaming/orchestration.py:129-130 | Items of one time keep the order in which they came |
| OrchestrationOutcomes.TaskIs | cyberbrain/dreaming/orchestration.py:207-222 | A task carries its draft's topic, kind and evidence and the request's id, and is named by request, number and kind |
| Orchestration.LatestIsLatest | cyberbrain/dreaming/orchestration.py:129-130 | The latest evidence is the end of the sorted list, newest first, and nothing left out comes after any of it |
| Orchestration.TaskIdsDiffer | cyberbrain/dreaming/orchestration.py:215-222 | Task ids of one request with different sequence numbers differ |
| Orchestration.TaskIdTrimmed | cyberbrain/dreaming/orchestration.py:215-222 | Task ids of a stripped request id are unchanged by the stripping every inbox operation starts with |
| Orchestration.BuildTasks | cyberbrain/dreaming/orchestration.py:121-204 | One numbered task per planned draft in order, no two with one id |
| Orchestration.AssembleResults | cyberbrain/dreaming/orchestration.py:59-119 | The loops compute the assembly that the lemmas below describe |
| Orchestration.AssemblyIsExact | cyberbrain/dreaming/orchestration.py:95-119 | A successful assembly refused no claim, counts every claim as candidate or dropped, and its candidates are exactly the relevant claims that are not advice |
| OrchestrationOutcomes.AssembledExactly | cyberbrain/dreaming/orchestration.py:59-119 | Results assemble if and only if tasks and results are distinct and match and every claim is acceptable; the candidates are then the wanted claims in the order of tasks and claims, and the two counters count the advice and the other irrelevant ones |
| OrchestrationOutcomes.FaultIs | cyberbrain/dreaming/orchestration.py:225-234 | A claim is refused exactly when it is blank, its confidence lies outside 0 to 1, it cites nothing, or it cites evidence the task did not supply, in this order |
| Orchestration.MatchedNoSetError | cyberbrain/dreaming/orchestration.py:66-88 | Results matched to distinct tasks never trip the duplicate, missing or unexpected checks |
| Orchestration.MatchedAssemble | cyberbrain/dreaming/orchestration.py:224-234 | If the results are also grounded, only a blank claim or one citing nothing is refused |
| RunReasoner.EventForeign | cyberbrain/dreaming/reason_task_inbox.py:129-712 | Any transaction of another party keeps this run's rows, their requests and their winners |
| RunReasoner.EventSettles | cyberbrain/dreaming/reason_task_inbox.py:431-528 | A completed row was completed before with the same result and route, or by a submission or fallback that handed in that very result |
| RunReasoner.SubmissionCounts | cyberbrain/dreaming/run_reasoner.py:57-65 | A fitting result that another party submits in a turn under a live token is the stored one when the turn is over |
| RunReasoner.PollsAreClose | cyberbrain/dreaming/run_reasoner.py:62-65 | Turns before the deadline are no further apart than a poll and what the clock adds |
| RunReasoner.MCPFirstDreamReasoner.Wait | cyberbrain/dreaming/run_reasoner.py:57-72 | The wait gives the environment every turn before the deadline, a poll apart, and ends at the deadline or with the first turn that leaves every row of the run completed |
| RunReasoner.DurableAreMatched | cyberbrain/dreaming/run_reasoner.py:67-68 | Durable results carry their task's id, and for fresh tasks cite only its evidence |
| RunReasoner.MCPFirstDreamReasoner.ResolveTask | cyberbrain/dreaming/run_reasoner.py:74-88 | Under interference the result handed on is the durable one, and was there before, handed in by another party, or the fallback's own answer, asked for only after the whole waiting time; otherwise that answer was invalid |
| RunReasoner.MCPFirstDreamReasoner.Reason | cyberbrain/dreaming/run_reasoner.py:49-68 | A registered run waits as above, then ends with an invalid fallback answer, asked for after the full wait, or assembles, task by task in order, the durable results, each with one of those origins; whatever result any turn of the wait left stored is the one it uses; no task-set check fires |
| Contradictions.ClashIsSymmetric | cyberbrain/reasoning/engine.py:65-128 | The conflict relation is symmetric |
| Contradictions.CheckFindsClashes | cyberbrain/reasoning/engine.py:65-128 | The three checks report exactly the clashes: live edges valid at a common instant that deny each other |
| Contradictions.IdsAgree | cyberbrain/relations/models.py:145-151 | Relation ids are equal exactly for equal kind and ends, those of a contradiction in either order |
| Contradictions.ConflictMembers | cyberbrain/reasoning/engine.py:55-133 | A full comparison lists exactly the clashes between the two edge lists |
| Contradictions.AllAreRepresented | cyberbrain/reasoning/engine.py:308-317 | The merged list is empty exactly when nothing clashes |
| InferencePaths.IntervalIsIntersection | cyberbrain/reasoning/engine.py:235-241 | An instant lies in a path's interval exactly when every premise is valid then |
| InferencePaths.ExtensionIsGood | cyberbrain/reasoning/engine.py:230-241 | One more edge keeps a path simple and valid exactly when it passes the engine's two tests |
| InferencePaths.AnchorIsLast | cyberbrain/reasoning/engine.py:166-169 | A target's record is that of the last live edge that mentions it |
| InferencePaths.AnchorIsGiven | cyberbrain/reasoning/engine.py:167-169 | A target no edge mentions keeps the record given |
| InferencePaths.JustifiedIsAdmitted | cyberbrain/reasoning/engine.py:263-273 | Every derived edge passes the edge validator its premises passed |
| InferenceRuns.AllPathsAreGood | cyberbrain/reasoning/engine.py:218-287 | The frontiers hold exactly the simple paths with a common interval, of two edges up to the depth |
| InferenceRuns.TrialsCount | cyberbrain/reasoning/engine.py:173-229 | An unstopped derivation makes one comparison per live edge and one per continuation of a path |
| InferenceGuarantees.FlagHasCause | cyberbrain/reasoning/engine.py:175-248 | A raised flag has a trial at which the claims made so far use up one budget, the comparisons the other, or the proof is oversized |
| InferenceGuarantees.CauseRaisesFlag | cyberbrain/reasoning/engine.py:175-248 | Such a trial raises the flag |
| InferenceGuarantees.DerivationStops | cyberbrain/reasoning/engine.py:171-289 | A stopped derivation has made every claim of the trials before the first that could stop it and no other; of trials with one claim only the first is kept |
| InferenceGuarantees.DerivationIsSound | cyberbrain/reasoning/engine.py:154-289 | Every derived edge is a proposed dependency between the ends of a path, with its interval, all its evidence, the record of its last edge and its edges' ids in order, or a proposed reversal of a live contradiction, all else as in its premise, at a record known for its target; no claim is made twice, and both budgets hold |
| InferenceGuarantees.DerivationIsComplete | cyberbrain/reasoning/engine.py:211-289 | With the flag down every simple path with a common interval is claimed by such a dependency, and every anchored contradiction reversed |
| InferenceGuarantees.FlagIsExact | cyberbrain/reasoning/engine.py:173-287 | The flag is raised when the full work exceeds its budget, a proof is oversized or there are more claims than the inference budget, and otherwise only when the claims equal it |
| InferenceGuarantees.TotalsReordered | cyberbrain/reasoning/engine.py:160-287 | Neither the full work, nor the claims, nor oversized proofs depend on the order of the edges |
| InferenceGuarantees.FlagIsStable | cyberbrain/reasoning/engine.py:160-289 | Unless the claims exactly use up the inference budget, reordering the edges does not move the flag |
| InferenceEngine.BoundedReasoningEngine.ReverseContradictions | cyberbrain/reasoning/engine.py:171-209 | The first rule's loop consumes exactly the first rule's trials |
| InferenceEngine.BoundedReasoningEngine.GrowPaths | cyberbrain/reasoning/engine.py:211-287 | The second rule's loops, stopping early or not, consume exactly the second rule's trials |
| InferenceEngine.BoundedReasoningEngine.DeriveInferencesBounded | cyberbrain/reasoning/engine.py:147-289 | Equals the bounded run; sound and within both budgets always; stops at the first trial that can stop it, with every claim made before; complete after exactly the full work when the flag is down; the flag as in `FlagIsExact` |
| InferenceEngine.BoundedReasoningEngine.DetectContradictionsBounded | cyberbrain/reasoning/engine.py:46-133 | The flag is raised exactly when the full comparison exceeds the budget; without it the list is complete, with it it holds the conflicts of exactly as many comparisons as the budget allows |
| InferenceEngine.BoundedReasoningEngine.MergeInternal | cyberbrain/reasoning/engine.py:308-317 | Removing repetitions keeps a representative of every conflict and adds none twice |
| Counterfactuals.IncompleteIsExact | cyberbrain/reasoning/engine.py:332-345 | The sandbox is incomplete when a comparison, the full work, an oversized proof or too many claims force it, and otherwise only when the claims equal the inference budget |
| Counterfactuals.VerdictIsStable | cyberbrain/reasoning/engine.py:291-349 | Unless the claims exactly use up the inference budget, reordering either list changes neither incompleteness nor verdict |
| Counterfactuals.OrderCanDecide | cyberbrain/reasoning/engine.py:173-177 | When they do, two coherent admitted edges are consistent one way round and incomplete the other |
| InferenceEngine.BoundedReasoningEngine.EvaluateCounterfactual | cyberbrain/reasoning/engine.py:291-359 | Incomplete exactly when a budget runs out; consistent exactly when none does and no hypothetical edge clashes with a base or hypothetical one; what the two comparisons detect is listed once, every listed conflict is real, and every clash is represented when no budget ran out |
| GateModel.MergeKeepsFingerprint | cyberbrain/dreaming/gate.py:176-222 | Merging candidates that agree on partitions and unknown ids keeps the first one's fingerprint |
| GateModel.FirstOccurrencesAbsorb | cyberbrain/dreaming/gate.py:79-81 | Removing repeated ids merge by merge equals removing them once at the end |
| GateModel.PromotionNeedsEvidence | cyberbrain/dreaming/gate.py:290-394 | Under the default policy a promotion cites only requested ids, two different ones, one verified, with confidence at least 13/35 and a promotable classification |
| GateModel.PromotionBoundIsTight | cyberbrain/dreaming/gate.py:25-35 | Some candidate with confidence exactly 13/35 is promoted |
| GateVerdicts.JudgedRightly | cyberbrain/dreaming/gate.py:290-414 | A judgement in full: its reason is decided by unknown ids, count, classification and the two thresholds, its strength and confidence follow from the cited evidence, and the rest is the candidate's own |
| GateVerdicts.StrengthFormula | cyberbrain/dreaming/gate.py:370-389 | The strength in two-hundredths: 30 an id up to three, 15 a type up to two, 56 and 24 times the share of strongly verified and of verified positions |
| GateVerdicts.ReviewedExactly | cyberbrain/dreaming/gate.py:346-358 | Review if and only if there is enough known evidence and the classification asks for it or the confidence lies between the thresholds |
| GateVerdicts.RejectedExactly | cyberbrain/dreaming/gate.py:307-361 | Reject if and only if an id is unknown, too little is cited, the reasoner says so, or the confidence is below both thresholds |
| GateVerdicts.SurerIsNeverLower | cyberbrain/dreaming/gate.py:338-394 | On the same evidence a surer reasoner never gets a lower decision |
| GateVerdicts.DefaultDecides | cyberbrain/dreaming/gate.py:24-35 | The default policy promotes from 0.78 and reviews from 0.45 on |
| GateVerdicts.DefaultResembles | cyberbrain/dreaming/gate.py:266-288 | By default candidates resemble each other exactly when their signatures are equal, both have five tokens and 18 of 25 are common |
| GateVerdicts.LastItemCounts | cyberbrain/dreaming/gate.py:67-69 | Of several requested items with one id the last is the evidence |
| EvidenceGate.PlacementIsUnique | cyberbrain/dreaming/gate.py:74-173 | Which candidate leads and which merges into whom is determined by the candidates as they came |
| EvidenceGate.GatheredEvidence | cyberbrain/dreaming/gate.py:76-93 | A leader's final evidence is its group's evidence in order without repetition; all but evidence and confidence is its own |
| EvidenceGate.GatheredFingerprint | cyberbrain/dreaming/gate.py:176-222 | A leader's fingerprint survives all merges |
| EvidenceGate.LeaderConserves | cyberbrain/dreaming/gate.py:70-174 | A leader has its group's evidence, the greatest confidence, and one judgement at its index, right for that evidence and confidence as in `JudgedRightly`; a second reason tells the kind of the last merge |
| EvidenceGate.FollowerConserves | cyberbrain/dreaming/gate.py:109-118 | Any other candidate is rejected with its own evidence and no score, naming an earlier leader that has all its evidence and at least its confidence |
| EvidenceGate.FingerprintsSurvive | cyberbrain/dreaming/gate.py:75-173 | Surviving candidates have pairwise different fingerprints, those they came with |
| EvidenceGate.PromotedAreLeaders | cyberbrain/dreaming/gate.py:70-174 | Every promotion of a whole evaluation names a leader whose group cites known, verified evidence |
| GateGroups.GroupsAreExact | cyberbrain/dreaming/gate.py:70-174 | A candidate merges into the earlier leader that is the same claim, without one into the first that is a near claim, and leads exactly when there is neither |
| GateGroups.FingerprintSays | cyberbrain/dreaming/gate.py:177-222 | Same claim: same normalised text, type, classification, polarity, context but for execution labels, unknown ids and partitions of evidence |
| GateGroups.ResemblanceSays | cyberbrain/dreaming/gate.py:224-288 | Near claim: the same but for the text, whose tokens resemble each other, and with each partition cited equally often |
| EvidenceGate.DreamEvidenceGate.NearDuplicateIndex | cyberbrain/dreaming/gate.py:266-288 | The first kept leader that resembles the candidate, or none exactly when none does |
| EvidenceGate.DreamEvidenceGate.EvidenceStrength | cyberbrain/dreaming/gate.py:370-389 | The counting loop computes the weighted share of ids, verifications and types |
| EvidenceGate.DreamEvidenceGate.Evaluate | cyberbrain/dreaming/gate.py:59-174 | The overwriting loop leaves exactly the candidates and judgements that the grouping of the original candidates demands |
| QueueModel.StepKeepsInv | cyberbrain/dreaming/queue.py:97-334 | Every queue operation keeps waiting jobs below and running jobs between one and the maximum of attempts, and one job per session |
| QueueModel.DrainingDecreases | cyberbrain/dreaming/queue.py:168-334 | Every claim, failure, retry, finish and restart recovery lowers the sum of 3(max - attempts) + rank |
| QueueModel.FailDecreasesExactlyWhenRunning | cyberbrain/dreaming/queue.py:323-334 | Marking failed lowers it exactly for a running job |
| QueueModel.RunIsBounded | cyberbrain/dreaming/queue.py:168-334 | A run of such steps is no longer than the measure it started with |
| QueueModel.ClaimsAreBounded | cyberbrain/dreaming/queue.py:186-199 | Without deferral or reset a job's attempts count its claims, and never exceed the maximum |
| QueueModel.NewSessionIsFound | cyberbrain/dreaming/queue.py:97-128 | After enqueuing a new session the next claim at any instant from 0 on finds a job |
| QueueModel.PendingUntilClaimed | cyberbrain/dreaming/queue.py:168-334 | In any run of a worker a waiting job stays as it is until it is claimed |
| QueueModel.NewSessionIsServed | cyberbrain/dreaming/queue.py:97-205 | When a worker has nothing left to do, the job of a session enqueued as new has been claimed |
| DreamWorker.DreamQueue.Enqueue | cyberbrain/dreaming/queue.py:97-128 | A new session gets a waiting job without attempts or error, created now and due at once; a known one keeps status, attempts, error, creation and due time under new topics; no other job changes |
| DreamWorker.DreamQueue.ClaimNext | cyberbrain/dreaming/queue.py:168-205 | Takes the oldest due job, or none exactly when none is due; the job runs with one attempt more, no error, and all else as it was |
| DreamWorker.DreamQueue.Select | cyberbrain/dreaming/queue.py:213-223 | Up to the limit retryable jobs, least recently updated first, none left out that would come earlier |
| DreamWorker.DreamQueue.RetryFailed | cyberbrain/dreaming/queue.py:207-233 | Exactly the selected jobs wait again, otherwise unchanged; below the limit no failed job with attempts left remains; refused for a senseless maximum |
| DreamWorker.DreamQueue.RequeueAllFailed | cyberbrain/dreaming/queue.py:235-264 | Exactly the selected failed jobs get a fresh set of attempts and are due at once; below the limit no failed job remains |
| DreamWorker.DreamQueue.RecoverProcessing | cyberbrain/dreaming/queue.py:266-286 | Exactly the running jobs wait again or fail when out of attempts, and are counted |
| DreamWorker.DreamQueue.Defer | cyberbrain/dreaming/queue.py:311-318 | A running job is put off and its attempt given back |
| DreamWorker.Worker.ProcessScopedJob | cyberbrain/dreaming/worker.py:83-158 | A claimed job ends processed, put off with its attempt given back, or failed with the first thousand characters of its error, its session marked to match; no other job or session changes |
| DreamWorker.Worker.ProcessNext | cyberbrain/dreaming/worker.py:68-72 | Claim and end together keep the invariant, lower the measure or, when deferred, leave it, and keep processed jobs' sessions processed |
| DreamWorker.Worker.RunUntilIdle | cyberbrain/dreaming/main.py:20-36 | Without new work the loop is busy for at most the initial measure after the last round that can defer; it retries one failed job, and only when none is due; when idle every job is processed, out of attempts or not yet due, and every job that was waiting at the start and is due has been claimed |
| AssociativeRecall.BoundedAssociativeRecall.Create | cyberbrain/dreaming/associative.py:25-42 | Accepts exactly depths 0 to 2 and positive limits |
| AssociativeRecall.BoundedAssociativeRecall.AssociationQueries | cyberbrain/dreaming/associative.py:92-110 | Exactly the new names of the items, once each up to case |
| AssociativeRecall.BoundedAssociativeRecall.Expand | cyberbrain/dreaming/associative.py:44-90 | Within the limit, no seed or repeated id, no repeated query, nearer items first, every item recalled by a query an item one level up names; below the limit every name was asked for and every answer kept |
| AssociativeRecall.ChainsAreFound | cyberbrain/dreaming/associative.py:53-90 | The end of every chain of associations within the depth is found, at no greater depth than the chain is long |
| AssociativeRecall.FindsExactlyTheReachable | cyberbrain/dreaming/associative.py:44-90 | With consistent retrieval, a search that did not fill up finds exactly the ids reachable within the depth |

## Left out

- RunRefinesLog: a run's steps are those whose limited queries see every match, because beyond the limits the refinement is false; `SearchLimitIsExact` and `ScrollLimitIsExact` give the boundary and `SecondActive` a run across it.
- EventRefines: for the same steps.
- CallsFailOnlyByArgument: for the same steps.
- ReachableShape: for the same runs.
- StepKeepsChain: for the same steps.
- BeginResult: for a pending scroll that sees every match.
- KeptAreMatches: for answers that the query limit did not cut short.
- ExecFinishes: for at most ten contexts per entity and partition, which can be read off before the call.
- ExecStores: for at most ten contexts per entity and partition.
- Store: its result is described for at most ten contexts per entity and partition.
- RetryAlone: for at most ten contexts per entity and partition; the review authority is the same in both attempts.
- RetryExactlyOnce: for steps whose limited queries see every match; the review authority is the same in all attempts.
- RecoverAllWorks: for recoveries whose pending scroll sees every match.
- ReconcileExact: does not claim that nothing remains pending, because that is false for names with outer whitespace; it gives exactly what remains, for pending scrolls that see every match.
- ReconcileAgain: for stripped names, because a record under another name is found again every time.
- EventForeign: other parties do not register the run's task ids again and do not really retire the run; either would take its rows away.
- Reason: polling time is a count of ticks; that the environment's clock and the sleeper agree with real time is not modelled. A vanished task row cannot occur under the assumed environment.
- RunUntilIdle: from some round on no job is deferred, because a job deferred again and again keeps the loop busy for ever.
- ChainsAreFound: asks that retrieval ignores case and that one id always stands for the same names; `Expand` asks for neither.
- FindsExactlyTheReachable: asks the same.
- DeriveInferencesBounded: takes "no edge runs from an entity to itself" as given; the edge validator refuses such edges (`cyberbrain/relations/models.py:133-134`).
- EvaluateCounterfactual: takes the same as given.
- Expand: which items of one depth fill a result that is cut off at the limit is not stated; the order of the queries of one depth decides it.
- AssembledExactly: candidates keep topic, kind, claim and index; their entity name, type, summary and classification are fixed texts of these.
- KeyTells: says nothing of names with a bar in them, which the key does not tell apart.
- Evaluate: repeating an evaluation on its own output is not claimed to change nothing; near-duplicate signatures count partitions with multiplicity, so they grow on merging.
- `DreamQueue.retry` sets any job pending without looking at its attempts; no worker calls it, and with it the retry bound does not hold.
- Tenancy, visibility and authority: an identity carries its partition, and a caller who may not see a row takes no step.
- Content normalisation, secret scanning, embeddings, relation admission and the relation index: contents and relation bundles arrive ready and are compared for equality.
- Summaries, provenance, importance and other record fields that no decision reads; review notes, rationales and numeric confidences of derived assertions; the mark that a derived assertion is counterfactual.
- Inbox strings arrive stripped of outer whitespace; JSON and schema validation is the datatypes, with the contract check on results kept as a predicate.
- The lock files and thread locks themselves: only their mutual exclusion and release by a crash.
- Uniqueness of run ids across scopes: a queue job's scope is part of its session key.
- Seen keys of the engine are tuples, not formatted strings, and candidate fingerprints are records, not JSON texts; both assume that the texts tell apart what the values tell apart.
- Metrics and the worker's result record beyond its status; an error raised by a metric after a job was marked processed.
- The remaining services: lifecycle scoring, token budgets, predictions, concept formation, migrations, backup, HTTP, MCP and storage clients.
