# SQL self-healing agent: verified model

A Dafny 4.11 model of the parts of the agent on which its safety rests, with proofs about all inputs, all runs and
all interleavings. `dafny verify dfyconfig.toml` checks the whole project.

The system receives FAILED and SUCCESS events for SQL tasks. For a FAILED event it opens an attempt, lets an untrusted
agent work in a budgeted loop, passes the proposed SQL through three gates, commits it and stores the answer. A SUCCESS
event confirms the current candidate, which then becomes an experience for later repairs. The agent, the language
model, the SQL parser and the file contents are adversarial or arbitrary here: they are script values, function values
and strings about which nothing is assumed unless a contract says so.

## What is modelled

| files | part of the system |
|---|---|
| `SessionStore`, `PhaseAnswers`, `RepairService`, `ServiceLaws`, `EventRuns`, `EventKeys` | the persisted session, event handling one event at a time, which answer an agent's script leads to, whole runs, crashes between any two writes, event keys |
| `EventProtocol`, `SessionLocks` | threads delivering the same event at once; the lock file |
| `RunStates`, `AgentContexts`, `ExecutionPlans`, `PlanLaws`, `ContextTrim`, `OnlineGate`, `RunScripts`, `AgentRunner`, `RunLaws` | the plan-execute loop and its budgets, plan validation, what observations and revisions do to a plan, context trimming, the gate step |
| `SqlRewrite`, `ActionResults`, `SqlDiff`, `Gates`, `SqlLaws` | applying a repair plan to SQL text, action by action, the diff, the validator, the three gates, what a released text satisfies |
| `Levenshtein`, `ColumnChoice`, `ColumnScores`, `PlannedRepairs` | edit distance, what a score means, the choice of a replacement column, what a planner's plan does to the SQL |
| `MemoryFiles`, `MemoryWriters`, `WriterLaws`, `WrittenFields`, `MemoryStores`, `MemoryRetrieval`, `RetrievalLaws`, `MemoryNotes`, `MemorySections`, `ConsolidationNotes`, `MemoryConsolidation`, `MergeLaws`, `MemorySignatures`, `FoundKeys`, `LostKeys`, `Names` | experience files, the keyword index, retrieval, consolidation, what is read back of a written file, what a signature means, which keys merging keeps and loses |
| `Models`, `Text`, `TextLaws` | repair plans, optional values, the service's messages, sets and permutations, string operations |

Objects that the program updates in place are classes (`Store`, `RepairAgentService`, `ExecutionPlan`, `CycleCheck`,
`GateRunner`, `AgentContext`, `AgentRunState`, `MemoryStore`); its loops are methods with invariants, each tied to a
function or a property; laws over runs are lemmas. `Store.written` lists the stored state after every atomic write, so
a statement about its elements is a statement about every point at which a crash may fall.

## Properties that fail, and where exactly they hold

- Counting replacements: a count of 1 means one occurrence exactly when no two occurrences overlap
  (`CountIsOccurrencesIffNoOverlap`). Identifiers never overlap; the dotted target `a.a` in `a.a.a` does
  (`DottedTargetsCanOverlap`).
- ADD_CAST replaces text, not identifiers: a hit is a whole token exactly when no word character touches it
  (`LiteralHitIsTokenIffIsolated`); `CastCanCutIdentifier` cuts `xa`.
- Equivalence of SQL texts is not transitive: two texts that parse are compared by their trees, all others by their
  normalised texts. It carries on over a third text except when exactly two of the three parse and these two differ in
  their trees or in their texts (`EquivalenceIsTransitiveIff`); an unparsed text can so lie between two different
  statements (`UnparsedTextConnects`).
- A section of a written experience is read back as it was written exactly when no line of its field is a title,
  provided that no section in front of it mentions its own title (`FieldIsReadBackIff`). Consolidation compares the
  modifications; if an earlier field mentions that title, the modification plays no part
  (`EarlierMarkHidesModification`).
- Concurrent duplicates can be answered differently exactly for the outcomes that are not `IsUnanimous`
  (`DisagreementIff`): NO_SQL always, a proposed candidate never, a request for a human unless it has a reason or the
  owner's fallback text as stop reason, a failure unless its message is recovery's fallback text (`AgreementByKind`).
- The lock file excludes exactly when no file was left behind and no holder stays longer than the stale limit
  (`ExclusionIff`, for two contenders or more and every bound on the holding time).
- A body is read back unchanged exactly when it has no carriage return (`RoundTrip`).
- No step can be selected exactly when every pending step waits for a stopped or unfinished one
  (`StuckIffEveryPendingStepIsBlocked`).
- A crash can lose a candidate: recovery answers SQL_READY with a SQL that the session does not hold. Among the states
  written while a FAILED event is handled, that is exactly the one between the two writes of its commit (`HandleAll`,
  `CandidateIsLostIff`). What recovery leaves behind has the answer as its candidate exactly when it was not lost
  (`RecoveredIsCurrentIffNotLost`), and a SUCCESS event with a lost text confirms exactly when the session's candidate
  happens to have the same text (`LostIsConfirmableIffSameText`).
- Merging experiences can lose a logical key that its own finder had found: `MergingLosesKey` says so of two files that
  the writer lays out, alike but for the attempt and an error summary that mentions the lost key behind a doubled
  keyword; `HidingInput` names two such experiences, attempts 1 and 2 of one session, which lose the key of attempt 3.
  A key is found after merging exactly when a survivor's own body mentions it or a key listed in a merged group's note
  covers it (`FoundAfterIff`); a key in a marker comment always is (`KeysAreConserved`).
- The repository's README says that a repeated SUCCESS event completes a memory write that failed. The code answers a
  processed SUCCESS event at once (repair_agent_service.py:329-330) and writes nothing; the model follows the code. A
  SUCCESS event counts as processed exactly when an earlier delivery of it was unmatched or could be closed
  (`ProcessedIffClosed`), and a delivery confirms exactly when it carries the current candidate and no earlier one was
  closed (`ConfirmsIff`). So an event that came too early, or whose memory write failed, confirms at no later step and
  writes no experience then (`ClosedNeverConfirms`).

## Model

| member | source | states |
|---|---|---|
| EventRuns.ConfirmedSqlIsPlanned | sql_self_healing_agent/orchestrator/repair_agent_service.py:253-290 | In every crash-free run from an empty store: any confirmed SQL is not dangerous, was answered SQL_READY to an earlier FAILED event, was proposed by the agent of that handling or regenerated in its gate step, cleared all its gates, and is equivalent to that handling's own plan applied to that event's SQL. |
| EventRuns.ConfirmedSqlIsOneRewrite | sql_self_healing_agent/orchestrator/agentic_failed_event_processor.py:279-282 | When the plans handed to the gates come from the planner, any confirmed SQL is equivalent to the failed SQL itself or to it with one place rewritten: the diagnosed entity becomes a known column, or is cast. |
| EventRuns.StoredAnswerIsPlanned | sql_self_healing_agent/orchestrator/repair_agent_service.py:104-122 | In every state that satisfies the store invariant, crash states included: a stored SQL_READY answer is the candidate of the event's own attempt, not dangerous, and equivalent to the plan recorded with that attempt, applied to the SQL of a FAILED event with that key. |
| PlannedRepairs.MatchingCandidateIsOneRewrite | sql_self_healing_agent/repair/sql_generator.py:109-144 | A candidate that matches a planner's plan is equivalent to the failed SQL with at most one place rewritten; every other match of the target overlaps that place; when a column is substituted for an identifier, that place is one token and the only one that is the identifier. |
| EventRuns.ConfirmedWasDelivered | sql_self_healing_agent/orchestrator/repair_agent_service.py:338-355 | The confirmed SQL was first delivered and only later reported by a SUCCESS event with that very text. |
| EventRuns.ConfirmedIsCurrent | sql_self_healing_agent/orchestrator/repair_agent_service.py:346-355 | A confirmed session confirms exactly its current candidate. |
| EventRuns.LatestWasDelivered | sql_self_healing_agent/orchestrator/repair_agent_service.py:270-290 | The current candidate of every reachable state was delivered as SQL_READY for a FAILED event, having cleared the gates of that handling with its own plan and evaluation. |
| EventRuns.LatestIsFreshlyDelivered | sql_self_healing_agent/orchestrator/repair_agent_service.py:274-290 | Along a run the session's candidate changes exactly when the first admitted delivery of an event is answered SQL_READY: it becomes that SQL, owned by the newest attempt. |
| EventRuns.ReplayIsExact | sql_self_healing_agent/orchestrator/repair_agent_service.py:104-111 | In every crash-free run, a FAILED event delivered again (equal normalised fields) gets the same answer and changes nothing stored, whatever events came in between. |
| EventRuns.StoredAnswerIsReplayed | sql_self_healing_agent/orchestrator/repair_agent_service.py:104-111 | In a run from any stored state, one that a crash left included: once an answer is stored for a FAILED event, every later admitted delivery of that event gets it and changes nothing stored. |
| EventRuns.AnswerIsStored | sql_self_healing_agent/orchestrator/repair_agent_service.py:164-181 | In such runs every admitted FAILED event leaves its answer stored under its key. |
| EventRuns.OneAttemptPerEvent | sql_self_healing_agent/session/session_store.py:129-157 | The number of attempts equals the number of different FAILED events admitted so far. |
| EventKeys.SameKeyIff | sql_self_healing_agent/session/event_key_builder.py:8-32 | Two events have one key exactly when id, status, the words of the SQL, and error text and log path up to line ends and outer blanks agree. |
| EventKeys.DifferentEventsOwnDifferentAttempts | sql_self_healing_agent/session/event_key_builder.py:18-32 | In a run from an empty store, admitted FAILED events that differ in id, SQL words, error text or log path own different attempts at every later time. |
| EventRuns.HandleAll | sql_self_healing_agent/orchestrator/repair_agent_service.py:78-96 | Any list of deliveries produces a run: every stored state satisfies the store invariant and every step is a proper handling of its delivery; from an empty store, a state written while a FAILED event is handled loses its candidate if and only if it is the one between the two saves of the commit. |
| EventRuns.RunWithCrashes | sql_self_healing_agent/session/session_store.py:95-168 | Any number of restarts, each on a state left between two atomic writes of the round before, keeps the store invariant. |
| EventRuns.AttemptsHaveDifferentEvents | sql_self_healing_agent/session/session_store.py:129-157 | In every state that satisfies the store invariant, crash states included, no two listed attempts belong to the same event. |
| EventRuns.CandidateIsLostIff | sql_self_healing_agent/agent/gates/candidate_committer.py:38-39 | For any of the windows that `HandleAll` establishes: recovery from the written state would answer a candidate that the session does not hold exactly between the two saves of the commit, the next save gives the session that candidate, and there is a commit exactly when the delivery is a fresh SQL_READY. |
| EventRuns.RecoveredIsCurrentIffNotLost | sql_self_healing_agent/orchestrator/repair_agent_service.py:119-123 | Recovery answers SQL_READY for an open candidate in every case; the answer is the session's candidate afterwards exactly when it was not lost. |
| EventRuns.LostIsConfirmableIffSameText | sql_self_healing_agent/orchestrator/repair_agent_service.py:338-345 | After recovery a SUCCESS event with the recovered SQL matches exactly when the session's candidate has that text. |
| EventRuns.ProcessedIffClosed | sql_self_healing_agent/orchestrator/repair_agent_service.py:326-345 | Along a run a SUCCESS event counts as processed exactly when an earlier admitted delivery of it was unmatched or could be closed. |
| EventRuns.ConfirmsIff | sql_self_healing_agent/orchestrator/repair_agent_service.py:329-355 | A delivery makes the current candidate the confirmed one exactly when it is an admitted SUCCESS event with the candidate's text that no earlier delivery closed; all others leave the confirmed pair. |
| EventRuns.ClosedNeverConfirms | sql_self_healing_agent/orchestrator/repair_agent_service.py:329-330 | A SUCCESS event once closed, too early or degraded, confirms at no later step: it is acknowledged and the stored state stays. |
| RepairService.RepairAgentService.HandleUpstreamEvent | sql_self_healing_agent/orchestrator/repair_agent_service.py:78-96 | Dispatch by kind, and a fresh FAILED event is answered as its script determines; a FAILED event with a stored result and a processed SUCCESS event write nothing; a switched-off agent or a missed lock changes nothing; only the state between the commit's two writes loses a candidate. |
| RepairService.RepairAgentService.HandleFailedEvent | sql_self_healing_agent/orchestrator/repair_agent_service.py:183-295 | A fresh event, and one whose recovery resumes, is answered as `RunIsAnswered` says for its script and its attempt; any other known event as `RecoveryTable` says. Records and results only grow, no record of another event changes, stored results never change, an attempt is added exactly for a new event, a fresh SQL_READY becomes the current candidate and belongs to the newest attempt, it cleared the gates of this handling, and the confirmed pair never changes. |
| RepairService.RepairAgentService.StartFailedEvent | sql_self_healing_agent/orchestrator/repair_agent_service.py:185-209 | The locked start either answers (replay, busy, recovered) or activates exactly this event with an attempt of its own and the session running. |
| RepairService.RepairAgentService.RecoverFailedEvent | sql_self_healing_agent/orchestrator/repair_agent_service.py:113-162 | Recovery answers by the stored attempt alone (missing, ready, ended, resumable, partial), changes no record of another event and keeps the candidate. |
| RepairService.RepairAgentService.DeliverCandidate | sql_self_healing_agent/orchestrator/repair_agent_service.py:274-292 | SQL_READY is answered exactly when the second lock is held, a gate result exists and every check of the committer passes; the whole stored state after either answer. |
| RepairService.RepairAgentService.RunAgent | sql_self_healing_agent/orchestrator/repair_agent_service.py:221-295 | The answer is the one that `RunIsAnswered` states for the agent's script, and the attempt is settled with it as stored result; a returned SQL is a draft that the agent proposed, judged with the first evaluation, or the text regenerated in the gate step, judged with the second; it cleared the gates for this event's SQL with this run's own plan. |
| PhaseAnswers.RunIsAnswered | sql_self_healing_agent/orchestrator/repair_agent_service.py:221-295 | Which answer an agent's script leads to, wherever its run ends: SQL_READY with the draft when the first turn that ends the run proposes the workspace's draft, within all limits, it clears the gates and lock and artifact are there; SQL_READY with the regenerated text when that one clears the second evaluation; SQL_READY in no other case; NO_SQL with the agent's reason, a human with the agent's reason or with the limit that was reached, NO_SQL or a human for refused texts. |
| PhaseAnswers.ShortProposalIsDelivered | sql_self_healing_agent/orchestrator/repair_agent_service.py:221-290 | An agent that works for fewer turns than every limit and then proposes the draft in its workspace gets SQL_READY with that draft when it clears the gates. |
| ServiceLaws.RecoveryTable | sql_self_healing_agent/orchestrator/repair_agent_service.py:113-162 | What an interrupted event is answered, by the status its attempt was left in. |
| ServiceLaws.EndedAttemptIs | sql_self_healing_agent/orchestrator/repair_agent_service.py:253-262 | An attempt without a candidate ends by the run's status, then by the gate that spoke last, with the run's reason or else its stop reason; its candidate and plan stay. |
| RepairService.RepairAgentService.Conclude | sql_self_healing_agent/orchestrator/repair_agent_service.py:249-295 | NO_SQL is answered exactly for a NO_SQL run, SQL_READY exactly for a ready run that the committer accepts under the second lock, a human is asked otherwise. |
| RepairService.RepairAgentService.EndWithoutCandidate | sql_self_healing_agent/orchestrator/repair_agent_service.py:253-268 | The whole stored state after a run without a candidate: the ended attempt, the session and the result. |
| RepairService.RepairAgentService.MarkPreviousAttempt | sql_self_healing_agent/orchestrator/repair_agent_service.py:215-220 | When the failed SQL is the current candidate, exactly its attempt is marked as failed upstream; otherwise nothing is written. |
| RepairService.RepairAgentService.Persist | sql_self_healing_agent/orchestrator/repair_agent_service.py:164-181 | The key is freed, the result file written and the record closed with a reference to it; nothing else changes. |
| RepairService.RepairAgentService.Human | sql_self_healing_agent/orchestrator/repair_agent_service.py:308-321 | Ends attempt and session for a human and stores exactly that answer. |
| RepairService.RepairAgentService.HandleSuccessEvent | sql_self_healing_agent/orchestrator/repair_agent_service.py:323-398 | The current candidate becomes the confirmed one, and an experience is written, exactly when the event is not yet processed and carries its text; a processed event is acknowledged and writes nothing. The event is processed afterwards exactly when it was before, is unmatched, or a lock for closing it is obtained. Each case has its answer and its error code in the record: unmatched, confirmed, confirmed with a degraded memory, no lock. |
| RepairService.Commit | sql_self_healing_agent/agent/gates/candidate_committer.py:18-39 | Commits exactly when every guard holds, and then writes the attempt first and the session second; refused commits write nothing. |
| SessionStore.Store.CreateAttempt | sql_self_healing_agent/session/session_store.py:129-157 | Creates attempt number n + 1 with its list predecessor as previous attempt, overwriting a file left by an interrupted creation; the store invariant holds after each write. |
| SessionStore.Store.AppendUpstreamEvent | sql_self_healing_agent/session/session_store.py:95-101 | Appends a record exactly when none with its key is there. |
| SessionStore.Store.FinishEvent | sql_self_healing_agent/session/session_store.py:114-127 | Closes one record and leaves every other part of the session as it was. |
| SessionStore.Store.LoadOrCreateForEvent | sql_self_healing_agent/session/session_store.py:41-60 | Returns the stored session, or stores a fresh one with the event's SQL. |
| SessionStore.AttachAttemptKeeps | sql_self_healing_agent/session/session_store.py:151-157 | Listing the attempt just written keeps the invariant: gap-free list, one owner per attempt, predecessors. |
| SessionStore.OrphanAttemptKeeps | sql_self_healing_agent/session/session_store.py:136-155 | An attempt file that is not listed yet, or left over, does not break the invariant. |
| SessionStore.UpdateAttemptKeeps | sql_self_healing_agent/session/session_store.py:164-168 | Rewriting an attempt with the same owner keeps the invariant as long as the current candidate stays the attempt's. |
| SessionStore.SetLatestKeeps | sql_self_healing_agent/agent/gates/candidate_committer.py:28-39 | Pointing the session to a stored candidate keeps the invariant. |
| EventProtocol.DuplicatesRunOnce | sql_self_healing_agent/orchestrator/repair_agent_service.py:183-211 | For any number of threads and any interleaving: one attempt, one agent start, and the event is inactive only once its attempt has ended on disk. |
| EventProtocol.OwnerIsUnique | sql_self_healing_agent/orchestrator/repair_agent_service.py:164-168 | At most one thread is between activating the event and discarding it. |
| EventProtocol.DeliveredCandidateIsStored | sql_self_healing_agent/orchestrator/repair_agent_service.py:274-290 | Once any thread was answered SQL_READY the session holds that candidate, although session copies are written back without the lock; the session may hold an earlier candidate at the start. |
| EventProtocol.EarlierCandidateIsKept | sql_self_healing_agent/orchestrator/repair_agent_service.py:274-290 | In every interleaving the earlier candidate is given up only for the one that this event's agent proposed. |
| EventProtocol.RunKeepsInv | sql_self_healing_agent/orchestrator/repair_agent_service.py:183-295 | The inductive invariant of the interleaved protocol holds after every sequence of steps. |
| EventProtocol.DisagreementIff | sql_self_healing_agent/orchestrator/repair_agent_service.py:253-268 | Two threads can get different answers for an outcome exactly when it is none of: a candidate, a human with a reason or with the owner's fallback text as stop reason, a failure with recovery's fallback text. |
| EventProtocol.AgreementByKind | sql_self_healing_agent/orchestrator/repair_agent_service.py:119-132 | The recovered answer is the owner's for exactly those outcomes. |
| EventProtocol.RaceEnds | sql_self_healing_agent/orchestrator/repair_agent_service.py:164-181 | The concrete interleaving: a duplicate enters between the discard and the result file and answers in its own way. |
| SessionLocks.PromptHoldersExclude | sql_self_healing_agent/session/session_lock.py:32-66 | When every holder leaves within the stale limit and no file was left behind, two contenders never hold the lock together. |
| SessionLocks.ExclusionIff | sql_self_healing_agent/session/session_lock.py:32-66 | For two contenders or more and any bound on how long a holder stays, holders exclude each other in all runs exactly when no file was left behind and the bound is at most the stale limit. |
| ExecutionPlans.ValidateNoCycle | sql_self_healing_agent/agent/planning/execution_plan_validator.py:56-74 | The depth-first search accepts exactly the graphs without a cycle, and the order of insertion is topological. |
| ExecutionPlans.CycleCheck.Visit | sql_self_healing_agent/agent/planning/execution_plan_validator.py:62-72 | One visit either finishes the node with all its dependencies or finds a cycle; the unfinished nodes shrink. |
| ExecutionPlans.TopologicalMeansAcyclic | sql_self_healing_agent/agent/planning/execution_plan_validator.py:56-74 | A topological order excludes every cycle, of any length. |
| ExecutionPlans.ValidateStructure | sql_self_healing_agent/agent/planning/execution_plan_validator.py:36-54 | Accepts exactly the well-formed plans; otherwise the error is the first rule that is broken, in the order of checking. |
| ExecutionPlans.ValidateTransition | sql_self_healing_agent/agent/planning/execution_plan_validator.py:22-34 | Accepts exactly the well-formed plans of a higher revision that keep every step and change its status only as allowed; otherwise the error is that of the plan itself, or else of the first old step that does not survive, or else of the revision. |
| ExecutionPlans.Replace | sql_self_healing_agent/agent/planning/execution_plan_updater.py:11-20 | Accepts exactly what the first or a later revision demands; a rejected proposal changes neither plan nor count and is rejected for the first rule it breaks; an accepted one counts once. |
| ExecutionPlans.ApplyObservation | sql_self_healing_agent/agent/planning/execution_plan_updater.py:22-39 | Only a step that the observation is bound to changes: it is completed exactly for SUCCEEDED, skipped exactly for SKIPPED, stopped with the summary as reason otherwise, counted once more with its artifacts merged; then the first pending step without unfinished dependencies is selected. |
| ExecutionPlans.BoundObservationIsRecorded | sql_self_healing_agent/agent/planning/execution_plan_updater.py:25-39 | With unique ids the step is found by its id, and the three outcomes and the untouched rest are stated by status. |
| PlanLaws.FailureStopsDependents | sql_self_healing_agent/agent/planning/execution_plan_updater.py:22-39 | Over any observations without replanning, each bound to the selected step or to none, from a plan that runs in order: after a step was observed to fail or to be blocked, neither it nor any step that depends on it, directly or through others, is selected again. |
| PlanLaws.PlanIsCarriedOut | sql_self_healing_agent/agent/planning/execution_plan_updater.py:22-39 | A plan whose steps depend on earlier ones is carried out in the order in which it is written, as long as every selected step succeeds or is skipped; when the last one is done, none is selected. |
| PlanLaws.InitialPlanIsCarriedOut | sql_self_healing_agent/agent/models/execution_plan.py:33-43 | The built-in plan so runs read_log, diagnose, query_metadata, retrieve_memory, generate_candidate, and then nothing. |
| RunLaws.FailedCallStopsDependents | sql_self_healing_agent/agent/runner/agent_runner.py:82-98 | The same over the turns of a run of the loop without replanning. |
| PlanLaws.DoneStaysDone | sql_self_healing_agent/agent/planning/execution_plan_validator.py:9-34 | However often a plan is revised, a completed step stays completed and a skipped one skipped. |
| PlanLaws.PendingIsNotCompletedByRevision | sql_self_healing_agent/agent/planning/execution_plan_validator.py:9-34 | No accepted revision turns a pending step into a completed or blocked one. |
| PlanLaws.ProductionIsForbiddenIff | sql_self_healing_agent/agent/planning/execution_plan_validator.py:47-48 | A step counts as production execution exactly when its id, title or tool name mentions the words, whatever the case of the letters. |
| ExecutionPlans.StuckIffEveryPendingStepIsBlocked | sql_self_healing_agent/agent/planning/execution_plan_updater.py:33-39 | In a well-formed plan no step can be selected exactly when every pending step waits, through pending steps, for a stopped or unfinished one. |
| ExecutionPlans.NeverStuckWithoutStoppedSteps | sql_self_healing_agent/agent/planning/execution_plan_updater.py:22-39 | With only pending, completed and skipped steps and one pending, a ready step is selected. |
| ExecutionPlans.ObservationKeepsWellFormed | sql_self_healing_agent/agent/planning/execution_plan_updater.py:22-39 | Observations keep ids unique, dependencies closed and the graph acyclic. |
| ExecutionPlans.ObservationKeepsOrder | sql_self_healing_agent/agent/planning/execution_plan_updater.py:22-39 | Without replacement, steps run only after their dependencies. |
| ExecutionPlans.InitialPlanRunsInOrder | sql_self_healing_agent/agent/models/execution_plan.py:33-43 | The built-in plan is well formed and starts in order. |
| AgentRunner.Run | sql_self_healing_agent/agent/runner/agent_runner.py:39-116 | Against any agent, clock and tools the loop ends within max_steps + 1 iterations, within all limits, with a sound plan; the views before its turns form the trace that the script determines, and the outcome is what the last turn, the limits or the compaction lead to; a ready candidate is the gated one; without replanning an ordered plan stays ordered. |
| RunScripts.EndsOnce | sql_self_healing_agent/agent/runner/agent_runner.py:39-116 | A run ends at exactly one turn: the first that is not taken or does not go on, whatever trace is compared with it. |
| RunScripts.StopReasonIsFirstUsedUp | sql_self_healing_agent/agent/runner/agent_runner.py:118-129 | The reported cause is the first one, in the order of checking, whose counter has used up its limit; repair rounds may reach theirs. |
| RunScripts.NoStopReasonIff | sql_self_healing_agent/agent/runner/agent_runner.py:118-129 | The run goes on exactly when nothing is used up. |
| RunScripts.CountersCount | sql_self_healing_agent/agent/runner/agent_runner.py:57-98 | Before every turn the counters are the numbers of turns, tool calls and sub-agent calls so far, and revisions at most the number of plan updates. |
| RunScripts.ShortRunIsTaken | sql_self_healing_agent/agent/runner/agent_runner.py:39-116 | A run that is shorter than every limit and quicker than the clock gets to its last turn and takes it. |
| RunScripts.RunKeepsOrder | sql_self_healing_agent/agent/runner/agent_runner.py:82-98 | Over a whole run without replanning, steps run only after their dependencies. |
| RunLaws.RepetitionIsStopped | sql_self_healing_agent/agent/planning/progress_detector.py:6-22 | An agent whose calls all look alike is stopped once max_no_progress_steps of them were repetitions, however many steps it has left. |
| RunLaws.RejectionIsStopped | sql_self_healing_agent/agent/runner/agent_runner.py:65-75 | An agent that submits only rejected plans is stopped once max_no_progress_steps were rejected; the plan stays as it was. |
| AgentRunner.TakeTurn | sql_self_healing_agent/agent/runner/agent_runner.py:46-115 | One iteration either ends soundly or uses one step and keeps the run's invariant. |
| AgentRunner.SubmitPlan | sql_self_healing_agent/agent/runner/agent_runner.py:65-81 | A plan change within budget keeps the plan sound; out of budget it stops before the updater could raise. |
| AgentRunner.InitialPlanIsSound | sql_self_healing_agent/agent/models/execution_plan.py:33-43 | Runs start from a sound plan. |
| ContextTrim.TrimObservations | sql_self_healing_agent/agent/context/context_manager.py:159-178 | The backward loop keeps exactly the newest entry of each marker that is not expendable, in order, at most the limit. |
| ContextTrim.TrimIsIdempotent | sql_self_healing_agent/agent/context/context_manager.py:159-178 | Trimming twice is trimming once. |
| RunLaws.IsKeptIff | sql_self_healing_agent/agent/context/context_manager.py:159-178 | Kept is the newest observation of those with one action type, status and summary, unless it is finished work with artifacts of another step. |
| RunLaws.TrimmedIsNewest | sql_self_healing_agent/agent/context/context_manager.py:159-178 | Beyond the limit the newest of what is kept stays: the trimmed context is its end. |
| RunLaws.TrimmedHoldsKept | sql_self_healing_agent/agent/context/context_manager.py:159-178 | Within the limit the trimmed context holds exactly what is kept. |
| OnlineGate.RunOnlineGate | sql_self_healing_agent/orchestrator/agentic_failed_event_processor.py:304-345 | The result is the one that the gates' verdicts on the draft and on the regenerated text determine, in both directions; a ready candidate is the draft or the text regenerated for it, its last run took all three gates in order on that very text, its hash matches, and at most one regeneration took place. |
| OnlineGate.RunRepair | sql_self_healing_agent/agent/gates/gate_runner.py:38-44 | A spent budget refuses and leaves the last result; otherwise the round is counted and the repaired text judged. |
| OnlineGate.RunGate | sql_self_healing_agent/agent/gates/gate_runner.py:46-61 | The draft becomes formal exactly when it clears the gates. |
| Gates.GateRunner.RunRequest | sql_self_healing_agent/agent/gates/gate_runner.py:20-36 | Passes exactly the candidates that clear the static and the semantic gate, at LOW or allowed MEDIUM risk, after running all three; rejects exactly those that the static gate or the evaluator rejects. |
| Gates.RunStaticGate | sql_self_healing_agent/agent/gates/static_validation_gate.py:13-43 | Passes exactly the statically allowed candidates and never asks for regeneration. |
| Gates.SemanticVerdict | sql_self_healing_agent/agent/gates/semantic_pre_reflection_gate.py:11-44 | Passes exactly RETURN_SQL at an allowed risk; asks for regeneration exactly with an instruction. |
| Gates.ThreeResults | sql_self_healing_agent/agent/gates/output_contract_gate.py:6-17 | After two passing gates the output gate passes and so does the aggregate. |
| Gates.MaxRiskIsMaximum | sql_self_healing_agent/agent/gates/risk_aggregator.py:7-32 | The aggregate risk is the maximum of the members' risks. |
| Gates.AggregateIsAtLeastEveryMember | sql_self_healing_agent/agent/gates/risk_aggregator.py:7-32 | The decision is at least as severe as every member's, and PASS exactly when all members pass at LOW. |
| Gates.AggregateIsMonotone | sql_self_healing_agent/agent/gates/risk_aggregator.py:7-32 | More results never soften risk or decision. |
| Gates.AggregateIgnoresOrder | sql_self_healing_agent/agent/gates/risk_aggregator.py:7-32 | Order does not matter. |
| SqlLaws.AggregateDecisionIs | sql_self_healing_agent/agent/gates/risk_aggregator.py:10-21 | Each decision by what the results contain: REJECT for a rejection or a blocked risk, HUMAN_REQUIRED otherwise for such a decision, a high risk or a medium one that is not allowed, a warning otherwise for a warning or a medium risk. |
| SqlLaws.OutputGatePassesIff | sql_self_healing_agent/agent/gates/output_contract_gate.py:6-17 | The output gate passes exactly when no earlier result blocks, the text is not blank and it is the one they judged. |
| Gates.ClearedMeansPlanned | sql_self_healing_agent/repair/validator.py:25-132 | A candidate that clears the gates with a plan and an evaluation is not blank, not dangerous, no new write, and equivalent to that plan's output. |
| SqlDiff.BuildDiff | sql_self_healing_agent/repair/sql_generator.py:225-280 | The summary says exactly how the candidate departs from the plan's output, in the parsed and in the text branch. |
| SqlDiff.Validate | sql_self_healing_agent/repair/validator.py:25-132 | Issues are exactly the violations, in report order; risk and release follow from them. |
| SqlDiff.AllowedCandidateIsPlanOutput | sql_self_healing_agent/repair/validator.py:25-132 | An allowed candidate is equivalent to the plan's exact output. |
| SqlDiff.PlanOutputKeepsStructure | sql_self_healing_agent/repair/sql_generator.py:225-280 | The plan's own output raises no WHERE, JOIN, GROUP BY, target, partition or count issue, in either branch. |
| SqlDiff.PlanOutputAllowedIff | sql_self_healing_agent/repair/validator.py:25-132 | The plan's own output is released exactly when it is not dangerous, adds no write, its insert target can be read, and no action is above the allowed risk. |
| SqlLaws.StaticallyAllowedIff | sql_self_healing_agent/repair/validator.py:25-132 | A candidate is released exactly when the plan can be applied and the candidate is not blank, is equivalent to the plan's output, is not dangerous, adds no write, keeps conditions, joins, groups, target and static partition, and no action's risk is above the allowed one. |
| SqlLaws.EquivalenceIsTransitiveIff | sql_self_healing_agent/repair/sql_generator.py:159-164 | Equivalence carries on over a third text exactly when not exactly two of the three parse, or these two agree in their trees and in their texts. |
| SqlLaws.UnparsedTextConnects | sql_self_healing_agent/repair/sql_generator.py:159-164 | A text that does not parse is equivalent to two statements that differ from each other. |
| SqlRewrite.ApplyRepairPlan | sql_self_healing_agent/repair/sql_generator.py:125-144 | The loop computes the chain of actions, each applied to exactly one place, or aborts. |
| SqlRewrite.ApplyChangedFragments | sql_self_healing_agent/repair/sql_generator.py:99-106 | The replay loop computes the chain of reported fragments. |
| SqlRewrite.ReplayReproducesPlan | sql_self_healing_agent/repair/sql_generator.py:99-144 | Replaying the reported changes reproduces the plan's output. |
| SqlRewrite.CountIsOccurrencesIffNoOverlap | sql_self_healing_agent/repair/sql_generator.py:109-122 | The substitution count is the number of occurrences exactly when none overlap. |
| SqlRewrite.IdentifiersNeverOverlap | sql_self_healing_agent/repair/sql_generator.py:109-122 | Whole-word matches of an identifier never overlap. |
| SqlRewrite.DottedTargetsCanOverlap | sql_self_healing_agent/repair/sql_generator.py:109-122 | A dotted target is counted once where it occurs twice. |
| SqlRewrite.IdentifierSpliceIsTokenSubstitution | sql_self_healing_agent/repair/sql_generator.py:109-122 | Replacing an identifier replaces exactly its tokens and keeps every other token and separator. |
| SqlRewrite.PlanRenamesOneTokenPerAction | sql_self_healing_agent/repair/sql_generator.py:125-144 | Through a whole plan of identifier actions, each step replaces one token, the only one that is the target, by the template expanded on it, and nothing else. |
| SqlRewrite.LiteralHitIsTokenIffIsolated | sql_self_healing_agent/repair/sql_generator.py:116-119 | A plain text hit is a token exactly when no word character touches it. |
| SqlRewrite.CastCanCutIdentifier | sql_self_healing_agent/repair/sql_generator.py:116-119 | A cast of `a` rewrites the inside of `xa`. |
| ActionResults.IdentifierActionIsAppliedIff | sql_self_healing_agent/repair/sql_generator.py:109-122 | REPLACE_COLUMN, REPLACE_TABLE and QUALIFY_COLUMN, for any target: an illegal template aborts; otherwise the action is applied exactly when searching whole words ignoring case, without overlap, finds the target once, and then exactly that place is replaced. |
| ActionResults.IdentifierActionRenamesIff | sql_self_healing_agent/repair/sql_generator.py:109-122 | With an identifier as target such an action is applied exactly when one token is the target ignoring case, and then that token gives way and nothing else. |
| ActionResults.LiteralActionIsAppliedIff | sql_self_healing_agent/repair/sql_generator.py:109-122 | ADD_CAST, ADD_PARTITION_FILTER, REWRITE_FUNCTION and FIX_SYNTAX never abort and are applied exactly when the literal search without overlap finds the target once. |
| ActionResults.NothingIsApplied | sql_self_healing_agent/repair/sql_generator.py:109-135 | An incomplete action and NO_SAFE_REPAIR refuse the plan. |
| ActionResults.MatchesAre | sql_self_healing_agent/repair/sql_generator.py:112-122 | A whole-word match is the text up to the case of its letters, with no word character beside it; a literal one is the text. |
| ActionResults.PlanAppliesActionByAction | sql_self_healing_agent/repair/sql_generator.py:125-144 | A plan is applied exactly when every action in turn is, each on what the ones before left. |
| Levenshtein.EditDistance | sql_self_healing_agent/metadata/mock_metadata_provider.py:12-19 | The two-row loop computes the distance. |
| Levenshtein.DistanceIsLeastEditCount | sql_self_healing_agent/metadata/mock_metadata_provider.py:12-19 | The distance is the least length of any sequence of single edits from left to right, in any order of edits. |
| Levenshtein.TriangleInequality | sql_self_healing_agent/metadata/mock_metadata_provider.py:12-19 | Metric law. |
| Levenshtein.DistanceSymmetric | sql_self_healing_agent/metadata/mock_metadata_provider.py:12-19 | Metric law. |
| Levenshtein.DistanceZeroIffEqual | sql_self_healing_agent/metadata/mock_metadata_provider.py:12-19 | Metric law. |
| Levenshtein.DistanceBounds | sql_self_healing_agent/metadata/mock_metadata_provider.py:12-19 | Between the length difference and the longer length. |
| ColumnChoice.FindColumnCandidates | sql_self_healing_agent/metadata/mock_metadata_provider.py:34-45 | The nested loops score every column of every table and rank them best first. |
| ColumnChoice.ScoreColumn | sql_self_healing_agent/metadata/mock_metadata_provider.py:36-44 | A score lies in [0, 1] and is 1 exactly for equal normalised names; what it means otherwise is `ScoreIsShareOfEdits`. |
| ColumnScores.ScoreIsShareOfEdits | sql_self_healing_agent/metadata/mock_metadata_provider.py:34-44 | What a score misses from 1 is the least number of edits divided by the length of the longer normalised name, 1 for two empty ones; the source is named by it. |
| ColumnScores.UnrelatedScoresZero | sql_self_healing_agent/metadata/mock_metadata_provider.py:34-44 | A column whose normalised name shares no character with the entity's scores 0. |
| ColumnScores.SubstitutedIsClose | sql_self_healing_agent/repair/repair_planner.py:61-73 | A substituted column is a column of one of the tables, shares a character with the entity, and at most six of ten characters must be edited. |
| ColumnScores.EveryColumnIsListed | sql_self_healing_agent/metadata/mock_metadata_provider.py:37-44 | Every column of every table is scored, at its own place. |
| ColumnScores.CastIsPlannedIff | sql_self_healing_agent/repair/repair_planner.py:28-60 | For a type mismatch a MEDIUM cast to BIGINT is planned exactly when the first column of the entity's folded name has a known type. |
| ColumnScores.PlannerRepairsOnly | sql_self_healing_agent/repair/repair_planner.py:19-64 | A repair is planned only for a missing column or a type mismatch, with entity and metadata, and not for a diagnosis that is not repairable or oscillates. |
| ColumnChoice.SortByScoreIsStable | sql_self_healing_agent/metadata/mock_metadata_provider.py:45 | Equal scores keep their order. |
| ColumnChoice.PlanReplacesExactlyTheClearWinner | sql_self_healing_agent/repair/repair_planner.py:65-73 | A column is substituted exactly when one candidate reaches 0.4 and beats all others in all tables by 0.05, and it is that one, at LOW risk and with its score as confidence, 0.95 at most. |
| ColumnChoice.PlanIgnoresColumnOrder | sql_self_healing_agent/repair/repair_planner.py:65-73 | Reordering columns, inside and across tables, never changes the plan. |
| ColumnChoice.PlanIgnoresTableOrder | sql_self_healing_agent/repair/repair_planner.py:65-73 | Handing the tables over in another order gives the same plan. |
| ColumnChoice.TiedCandidatesAreRefused | sql_self_healing_agent/repair/repair_planner.py:65-73 | Two columns with the entity's normalised name lead to no substitution. |
| MemoryFiles.ReadFrontmatter | sql_self_healing_agent/memory/memory_store.py:22-41 | The line loop computes the parsed frontmatter or fails. |
| MemoryFiles.HeaderIsSeen | sql_self_healing_agent/memory/memory_store.py:22-41 | For any laid out file the reader sees exactly the header lines. |
| MemoryFiles.BodyIsSeen | sql_self_healing_agent/memory/memory_store.py:43-46 | For any laid out file the reader sees exactly what follows the second fence. |
| MemoryWriters.RoundTrip | sql_self_healing_agent/memory/memory_writer.py:24-62 | For vocabulary keywords and any description, reading the written file gives those keywords and the trimmed one-line description; the body comes back exactly if and only if it has no carriage return. |
| MemoryWriters.RemovalLeavesNoFence | sql_self_healing_agent/memory/memory_writer.py:73-75 | Removing fences from the left leaves none: every run of dashes keeps its length modulo three. |
| MemoryWriters.SingleLineIsClean | sql_self_healing_agent/memory/memory_writer.py:73-75 | The description line has no line break and no fence, whatever the description. |
| WriterLaws.BodyFieldIs | sql_self_healing_agent/memory/memory_writer.py:77-79 | A field is its text with the fences replaced, cut at 20000 characters; without a fence it stays. |
| WriterLaws.FirstFenceIsReplaced | sql_self_healing_agent/memory/memory_writer.py:77-79 | The first fence is replaced, and what follows it is treated alike. |
| WriterLaws.SingleLineIs | sql_self_healing_agent/memory/memory_writer.py:73-75 | The description line has the words that are left without fences, joined by blanks, cut at 500 characters. |
| WrittenFields.FieldIsReadBackIff | sql_self_healing_agent/memory/memory_writer.py:28-61 | Each of the five written fields is read back from its section, trimmed, exactly when none of its lines is a title, unless something in front of the section mentions its title. |
| WriterLaws.LogicalKeysDiffer | sql_self_healing_agent/memory/memory_writer.py:60 | Experiences of different attempts have different logical keys within a session, and also across sessions whose ids have no colon. |
| MemoryStores.MemoryStore.BuildIndex | sql_self_healing_agent/memory/memory_store.py:54-62 | Each entry is the sorted list, without repetition, of the experiences carrying its keyword, and there are no other entries; fails exactly when a file cannot be read. |
| MemoryStores.MemoryStore.RebuildIndex | sql_self_healing_agent/memory/memory_store.py:54-62 | The stored index becomes that index, or stays when a file cannot be read. |
| MemoryStores.MemoryStore.SaveMarkdown | sql_self_healing_agent/memory/memory_store.py:64-67 | After every write the index agrees with the files. |
| MemoryStores.MemoryStore.FindByLogicalKey | sql_self_healing_agent/memory/memory_store.py:69-74 | The first listed experience that mentions the key, or none mentions it. |
| MemoryStores.MemoryStore.WriteConfirmedExperience | sql_self_healing_agent/memory/memory_writer.py:19-63 | Writing is idempotent per logical key: a known key changes no file and gives its experience, a new key adds exactly one file that is found by it. |
| MemoryStores.WrittenIsExperience | sql_self_healing_agent/memory/memory_writer.py:24-61 | What is written is readable and marks its key. |
| MemoryRetrieval.RetrieveKeywords | sql_self_healing_agent/memory/memory_retriever.py:15-51 | Retrieval through the index returns what filtering all experiences, ranking and cutting returns; scanned is returned plus discarded. |
| MemoryRetrieval.BestAreReturned | sql_self_healing_agent/memory/memory_retriever.py:36-44 | Results are relevant and ranked by the four-part key; a relevant experience is missing only behind a full result of better ones. |
| MemoryRetrieval.CandidatesScanAsAll | sql_self_healing_agent/memory/memory_retriever.py:17-20 | The index names enough candidates: scanning them equals scanning everything. |
| MemoryRetrieval.SortRankedIsRanked | sql_self_healing_agent/memory/memory_retriever.py:36-43 | The sort respects the four-part key. |
| RetrievalLaws.RanksBeforeIsLexicographic | sql_self_healing_agent/memory/memory_retriever.py:36-43 | More matched keywords first, then more query terms, then the newer file, then the smaller id. |
| RetrievalLaws.NewerComesFirst | sql_self_healing_agent/memory/memory_retriever.py:36-43 | Of two ranked experiences that match equally well, the first is not older. |
| RetrievalLaws.RelevantIff | sql_self_healing_agent/memory/memory_retriever.py:29-34 | An experience is relevant when it carries a keyword asked for; when `unknown` is asked for, exactly when there is no query or a term of it occurs in description or body, ignoring case. |
| RetrievalLaws.CutIs | sql_self_healing_agent/memory/memory_retriever.py:44 | A limit counts when it is given, not zero and below the maximum; a negative one drops that many at the end. |
| MemorySections.SectionIsKept | sql_self_healing_agent/memory/memory_consolidator.py:17-22 | A section reads the same after a note is appended to a body that does not end in a dangling title. |
| MemorySections.MarkedIsKept | sql_self_healing_agent/memory/memory_consolidator.py:56-58 | Every key in a marker comment is among the matches, whatever text precedes it. |
| FoundKeys.FoundAfterIff | sql_self_healing_agent/memory/memory_consolidator.py:50-63 | A key is found after consolidation exactly when some survivor's own body mentions it, or a key extracted from its merged group covers it. |
| FoundKeys.MergedFileMentions | sql_self_healing_agent/memory/memory_consolidator.py:55-63 | A merged file mentions a key exactly when its own body did or a listed key begins with it (or ends in the keyword, in front of the comment's closing dashes). |
| LostKeys.MergingLosesKey | sql_self_healing_agent/memory/memory_consolidator.py:55-63 | Two files as the writer lays them out, alike but for the attempt and the second's error summary, which repeats the marker's keyword in front of a key: that key, of any length, is found before merging and in no experience afterwards. |
| LostKeys.KeysOfPair | sql_self_healing_agent/memory/memory_consolidator.py:56-58 | Of two such bodies the second mentions the key and the first does not, and no key that the pattern extracts from either covers it. |
| LostKeys.HidingInput | sql_self_healing_agent/memory/memory_writer.py:24-61 | Attempts 1 and 2 of a session are such a pair for the key of attempt 3. |
| MemoryConsolidation.SignatureIsSignature | sql_self_healing_agent/memory/memory_consolidator.py:32-39 | The signature survives the appended note and determines the keywords, whatever the shape function. |
| MemorySignatures.SameSignatureIff | sql_self_healing_agent/memory/memory_consolidator.py:32-39 | Two experiences have one signature exactly when their keywords agree as multisets and their modification sections have one shape. |
| MemorySignatures.DifferentShapesStayApart | sql_self_healing_agent/memory/memory_consolidator.py:41-63 | Experiences whose modifications differ in shape are never merged with each other: two different files stay for them, each with its own shape. |
| MemorySignatures.DeletedHasTwin | sql_self_healing_agent/memory/memory_consolidator.py:41-63 | A file disappears only if another one with the same keywords and shape of modification stays. |
| MemorySignatures.ModificationIsReadBackIff | sql_self_healing_agent/memory/memory_consolidator.py:16-22 | If no earlier field mentions the title, the modification section of a written file is the trimmed modification field exactly when no line of that field is a title. |
| MemorySignatures.EarlierMarkHidesModification | sql_self_healing_agent/memory/memory_consolidator.py:16-22 | If an earlier field mentions the title, the section does not depend on the modification. |
| MemorySignatures.DifferentRepairsAreKept | sql_self_healing_agent/memory/memory_consolidator.py:41-66 | Two written experiences of modifications with different shapes both stay as they are, also with the same keywords. |
| MemoryConsolidation.Consolidate | sql_self_healing_agent/memory/memory_consolidator.py:41-66 | The run leaves exactly the survivors, keeps the index in step and reports merged = scanned - survivors; a dry run changes nothing; what two members of a group share is `SameSignatureIff`. |
| MemoryConsolidation.FindGroups | sql_self_healing_agent/memory/memory_consolidator.py:42-49 | The buckets give the groups with several members, each sorted, in the order of their least members. |
| MemoryConsolidation.MergeGroup | sql_self_healing_agent/memory/memory_consolidator.py:50-63 | One merge keeps the first member with all keys of the group in its note and deletes the others, counting them. |
| MergeLaws.MergedFileStates | sql_self_healing_agent/memory/memory_consolidator.py:54-63 | The kept file is the leader's text without trailing blanks, followed by a note that states the time and the number of merged files. |
| MergeLaws.KeysOfGroupAreMatched | sql_self_healing_agent/memory/memory_consolidator.py:55-58 | Only words that stand behind the keyword, up to a blank, in a member's body are collected as keys. |
| MemoryConsolidation.OneSurvivorPerSignature | sql_self_healing_agent/memory/memory_consolidator.py:42-63 | Exactly one survivor per signature, the least id, and every signature keeps one. |
| MemoryConsolidation.SecondRunMergesNothing | sql_self_healing_agent/memory/memory_consolidator.py:41-66 | A second run changes nothing. |
| MemoryConsolidation.KeysAreConserved | sql_self_healing_agent/memory/memory_consolidator.py:55-63 | Every marked key stays marked in its group's survivor and can be found. |
| MemoryConsolidation.KeywordsAreConserved | sql_self_healing_agent/memory/memory_consolidator.py:60-65 | A keyword has experiences afterwards exactly when it had some before. |

## Left out

- The language model, prompts, tools, sub-agents, hooks, tracing, metrics and the command line: the agent and its tools are scripts of arbitrary typed values, a blocking or raising hook is a flag.
- The SQL parser and the regular expressions for dangerous and write statements, partitions and blank text: arbitrary functions in `SqlEnv` and `GateEnv`; how a regular-expression replacement text expands is the `Templates` record.
- Case folding is ASCII; scores are real numbers; hashes are taken as injective, so payloads stand for them.
- Times and identifiers: timestamps, UUIDs and modification times are parameters; attempt ids are numbers, which stands for fixed-width names.
- The list of known keywords (keyword_vocab.json is not part of this model): any vocabulary of one-line keywords without commas, bars and fences.
- Evidence lists, checked invariants and the reasons' wording in gate results and plans; messages are taken as not blank.
- Post-reflection, diagnosis history and stage artifacts: an attempt has one `staged` flag, a failure among them is `bookkeepingFails`.
- Summaries written by the language model when a context is compacted, the deletion of workspace keys and the cleaning of memory results.
- The success writer's own guards and the texts it assembles: an experience's fields are arbitrary strings.
- Different tasks whose names map to the same directory, and different FAILED events of one task in flight together: session copies are then saved without the lock, and no invariant is claimed.
- Failing writes other than a crash between two of them.
- Regex diagnosis, log digests, sanitising, oscillation detection and retries: they would add only easy members.
- RepairService.RepairAgentService.RunAgent: handles one event at a time on session values; stale session copies in several threads are the subject of `EventProtocol`.
- RepairService.RepairAgentService.DeliverCandidate: the re-check of the record under the second lock cannot fail when one event is handled at a time and is not stated.
- EventRuns.ReplayIsExact: about runs from an empty store; after a crash a recovered event may be answered without a stored result, and `StoredAnswerIsReplayed` holds from the time its answer is stored.
- EventRuns.CandidateIsLostIff: about the event that is being handled, in a run from an empty store; `HandleUpstreamEvent` says the same from any state in which the event's candidate is not lost already.
- EventProtocol.DeliveredCandidateIsStored: about threads that deliver one FAILED event; a SUCCESS event of the same task in between is not part of that machine.
- MemoryStores.MemoryStore.FindByLogicalKey: keys are found as text, so a key that is a prefix of another finds the other's experience; fixed-width attempt ids exclude this.
