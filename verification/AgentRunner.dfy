/** The plan-execute loop: seven stop conditions, a budget, and an arbitrary agent and executor. */
module AgentRunner {
  import opened Options
  import opened RunStates
  import opened ExecutionPlans
  import opened ContextTrim
  import opened Gates
  import opened AgentContexts
  import opened OnlineGate
  import opened RunScripts

  /** What was submitted when the gate was entered. */
  datatype GateEntry = GateEntry(proposed: string, draftSql: Option<string>, draftArtifactRef: Option<ArtifactRef>,
                                 workspace: WorkspaceValue)

  ghost predicate IsConsistentEntry(e: GateEntry) {
    && e.workspace.available && e.workspace.summary == Some(e.proposed) && e.proposed != ""
    && e.draftSql == Some(e.proposed)
    && e.workspace.artifactRef.Some? && e.draftArtifactRef == e.workspace.artifactRef
  }

  // ---- Budgets ----

  ghost predicate NonNegative(limits: AgentRunLimits) {
    && limits.maxSteps >= 0 && limits.maxToolCalls >= 0 && limits.maxSubAgentCalls >= 0
    && limits.maxPlanRevisions >= 0 && limits.maxGateRepairRounds >= 0 && limits.maxNoProgressSteps >= 0
  }

  ghost predicate WithinLimits(state: AgentRunState, limits: AgentRunLimits)
    reads state
  {
    && 0 <= state.stepCount <= limits.maxSteps
    && 0 <= state.toolCallCount <= limits.maxToolCalls
    && 0 <= state.subAgentCallCount <= limits.maxSubAgentCalls
    && 0 <= state.planRevisionCount <= limits.maxPlanRevisions
    && 0 <= state.noProgressSteps <= limits.maxNoProgressSteps
  }

  // ---- The loop ----

  /** The plan can always be scheduled; its selected step exists. */
  ghost predicate PlanIsSound(plan: Plan) {
    WellFormed(plan.steps) && (Truthy(plan.currentStepId) ==> plan.currentStepId.value in StepIds(plan.steps))
  }

  lemma ObservationKeepsSound(plan: Plan, observation: Observation)
    requires PlanIsSound(plan)
    ensures PlanIsSound(AfterObservation(plan, observation))
  {
    ObservationKeepsWellFormed(plan, observation);
    var after := AfterObservation(plan, observation);
    NextReadyIsFirstReady(after.steps, 0);
    if after != plan && after.currentStepId.Some? {
      var k :| 0 <= k < |after.steps| && after.steps[k].stepId == after.currentStepId.value;
      assert StepIds(after.steps)[k] == after.currentStepId.value;
    }
  }

  /** False when the context that must survive compaction is missing. */
  method Compact(context: AgentContext) returns (ok: bool)
    modifies context`recentObservations
    ensures !ok ==> context.originalSql == "" || !context.candidate.status.NoCandidate?
                    || (Truthy(context.executionPlan.currentStepId)
                        && context.executionPlan.currentStepId.value !in StepIds(context.executionPlan.steps))
    ensures ok ==> context.originalSql != ""
    ensures ok ==>
      context.recentObservations
      == Trimmed(old(context.recentObservations), context.executionPlan.currentStepId, MAX_RECENT_OBSERVATIONS)
  {
    var plan := context.executionPlan;
    if context.originalSql == "" { return false; }
    if !context.candidate.status.NoCandidate? && !Truthy(context.candidate.formalSql)
      && !Truthy(context.candidate.draftSql) {
      return false;
    }
    if Truthy(plan.currentStepId) && plan.currentStepId.value !in StepIds(plan.steps) { return false; }
    context.recentObservations :=
      TrimObservations(context.recentObservations, plan.currentStepId, MAX_RECENT_OBSERVATIONS);
    return true;
  }

  /** What the run has come to. */
  ghost function ViewOf(context: AgentContext, state: AgentRunState): RunView
    reads context, context.executionPlan, state
  {
    RunView(context.executionPlan.View(), context.recentObservations, context.candidateValue,
            context.candidate.draftArtifactRef, state.stepCount, state.toolCallCount, state.subAgentCallCount,
            state.planRevisionCount, state.noProgressSteps)
  }

  /** Submits a plan; a rejected one leaves the current plan and the revision count alone. */
  method SubmitPlan(context: AgentContext, state: AgentRunState, limits: AgentRunLimits, proposed: Plan)
    returns (inBudget: bool)
    requires PlanIsSound(context.executionPlan.View())
    modifies context`executionPlan, context`recentObservations, state`planRevisionCount, state`noProgressSteps
    ensures inBudget <==> old(state.planRevisionCount) < limits.maxPlanRevisions
    ensures PlanIsSound(context.executionPlan.View())
    ensures context.executionPlan == old(context.executionPlan) || fresh(context.executionPlan)
    ensures context.executionPlan == old(context.executionPlan) ==>
              state.planRevisionCount == old(state.planRevisionCount)
    ensures context.executionPlan != old(context.executionPlan) ==>
              && context.executionPlan.View() == proposed.(revision := old(context.executionPlan.revision) + 1)
              && state.planRevisionCount == old(state.planRevisionCount) + 1
    ensures inBudget ==> state.planRevisionCount <= old(state.planRevisionCount) + 1
    ensures state.noProgressSteps == 0 || state.noProgressSteps == old(state.noProgressSteps)
            || state.noProgressSteps == old(state.noProgressSteps) + 1
    ensures state.planRevisionCount >= old(state.planRevisionCount)
    ensures !inBudget ==> state.planRevisionCount == old(state.planRevisionCount)
    ensures inBudget ==> ViewOf(context, state) == AfterUpdate(old(ViewOf(context, state)), proposed)
  {
    ghost var v := ViewOf(context, state);
    var outcome := Replace(context.executionPlan, proposed, state, limits);
    if outcome.BudgetExceeded? { return false; }
    ghost var w := UpdateIs(v, proposed, outcome.Replaced?,
                            if outcome.Rejected? then Some(outcome.error) else None);
    match outcome
    case Rejected(error) =>
      context.recentObservations := context.recentObservations
        + [UpdateObserved(ActionBlocked, RejectionText(Some(error)))];
      state.noProgressSteps := state.noProgressSteps + 1;
      return true;
    case Replaced(plan) =>
      context.executionPlan := plan;
      context.recentObservations := context.recentObservations
        + [UpdateObserved(ActionSucceeded, RevisionText(plan.revision))];
      state.noProgressSteps := 0;
      return true;
  }

  /** Runs one tool, sub-agent or proposal; false when the executor raises. */
  method Execute(context: AgentContext, state: AgentRunState, action: AgentAction, execution: Execution)
    returns (ok: bool)
    requires PlanIsSound(context.executionPlan.View())
    modifies context`candidateValue, context`candidate, context`recentObservations, context.executionPlan
    modifies state`noProgressSteps, state`toolCallCount, state`subAgentCallCount
    ensures ok <==> execution.Executed?
    ensures PlanIsSound(context.executionPlan.View())
    ensures ok ==>
              context.executionPlan.View()
              == AfterObservation(old(context.executionPlan.View()),
                                  Bound(old(context.executionPlan.View()), action, execution.observation))
    ensures ok ==>
              && ViewOf(context, state) == AfterExecution(old(ViewOf(context, state)), action, execution)
              && context.candidate == old(context.candidate).(draftArtifactRef := execution.draftArtifactRef)
    ensures !ok ==>
              && state.noProgressSteps == old(state.noProgressSteps) && state.toolCallCount == old(state.toolCallCount)
              && state.subAgentCallCount == old(state.subAgentCallCount)
              && context.executionPlan.View() == old(context.executionPlan.View())
  {
    if execution.ExecutionFails? { return false; }
    ghost var before := ViewOf(context, state);
    context.candidateValue := execution.candidateValue;
    context.candidate := context.candidate.(draftArtifactRef := execution.draftArtifactRef);
    var observation := execution.observation;
    if action.ToolCall? || action.RunSubAgent? {
      observation := observation.(planStepId := context.executionPlan.currentStepId);
    }
    Observe(context, state, observation);
    if action.ToolCall? {
      state.toolCallCount := state.toolCallCount + 1;
    } else if action.RunSubAgent? {
      state.subAgentCallCount := state.subAgentCallCount + 1;
    }
    IsAfterExecution(before, ViewOf(context, state), action, execution);
    return true;
  }

  /** Appends an observation and applies it to the plan; one like an earlier one is no progress. */
  method Observe(context: AgentContext, state: AgentRunState, observation: Observation)
    requires PlanIsSound(context.executionPlan.View())
    modifies context`recentObservations, context.executionPlan, state`noProgressSteps
    ensures PlanIsSound(context.executionPlan.View())
    ensures context.executionPlan.View() == AfterObservation(old(context.executionPlan.View()), observation)
    ensures context.recentObservations == old(context.recentObservations) + [observation]
    ensures state.noProgressSteps == if MadeProgress(observation, old(context.recentObservations)) then 0
                                     else old(state.noProgressSteps) + 1
  {
    var progress := MadeProgress(observation, context.recentObservations);
    context.recentObservations := context.recentObservations + [observation];
    state.noProgressSteps := if progress then 0 else state.noProgressSteps + 1;
    ObservationKeepsSound(context.executionPlan.View(), observation);
    ApplyObservation(context.executionPlan, observation);
  }

  ghost predicate StartsFresh(context: AgentContext, state: AgentRunState)
    reads context, state
  {
    && state.stepCount == state.toolCallCount == state.subAgentCallCount == state.planRevisionCount == 0
    && state.noProgressSteps == state.gateRepairRounds == 0
    && context.candidate.formalSql == None && context.candidate.status.NoCandidate?
  }

  /** Between two turns. */
  ghost predicate InRun(context: AgentContext, state: AgentRunState, limits: AgentRunLimits)
    reads context, context.executionPlan, state
  {
    && WithinLimits(state, limits) && state.gateRepairRounds == 0
    && context.candidate.formalSql == None && context.candidate.status.NoCandidate?
    && PlanIsSound(context.executionPlan.View())
  }

  /** After the last turn. */
  ghost predicate IsSoundEnd(env: GateEnv, context: AgentContext, state: AgentRunState, runner: GateRunner,
                             limits: AgentRunLimits,
                             script: RunScript, outcome: RunOutcome, entry: Option<GateEntry>)
    reads context, context.executionPlan, state, runner
  {
    && WithinLimits(state, limits) && state.gateRepairRounds <= 1
    && PlanIsSound(context.executionPlan.View())
    && outcome != Raised(PlanBudgetCause)
    && (outcome == Raised(CompactionCause) ==> context.originalSql == "")
    && (entry.Some? ==> IsConsistentEntry(entry.value) && IsProposed(script, entry.value.proposed))
    && (outcome.Returned? ==> state.status != Running)
    && (outcome.Returned? && outcome.result.status.CandidateReady? ==>
          entry.Some? && IsDeliverable(env, context, runner, script.gate, entry.value.proposed, outcome.result))
  }

  /** The artifact of a regenerated text. */
  function SecondRef(context: AgentContext): ArtifactRef {
    ArtifactRef(context.sessionId, context.attemptId, true)
  }

  /** The only way into the gates: with a draft that is the workspace's candidate and has its artifact. */
  method EnterGate(env: GateEnv, context: AgentContext, state: AgentRunState, runner: GateRunner, script: RunScript,
                   ghost entry: GateEntry)
    returns (outcome: RunOutcome)
    requires IsConsistentEntry(entry) && context.candidateValue == Some(entry.workspace)
    requires context.candidate.draftSql == entry.draftSql
             && context.candidate.draftArtifactRef == entry.draftArtifactRef
    requires context.candidate.formalSql == None
    modifies context`candidate, state`status, state`gateRepairRounds, runner
    ensures old(state.gateRepairRounds) <= state.gateRepairRounds
    ensures state.gateRepairRounds <= if old(state.gateRepairRounds) < 1 then old(state.gateRepairRounds) + 1
                                      else old(state.gateRepairRounds)
    ensures outcome.Raised? ==> outcome == Raised(GateCause)
    ensures outcome.Returned? ==> state.status != Running
    ensures outcome.Returned? && outcome.result.status.CandidateReady? ==>
              IsDeliverable(env, context, runner, script.gate, entry.proposed, outcome.result)
    ensures old(state.gateRepairRounds) < 1 ==>
              GateDecides(env, script.gate, context.originalSql, SecondRef(context), entry.proposed,
                          entry.draftArtifactRef, outcome)
  {
    var gated := RunOnlineGate(env, runner, context, state, script.gate);
    outcome := AfterGate(gated);
  }

  /** Hands the proposed candidate to the gates, if it is the one in the workspace. */
  method SubmitCandidate(env: GateEnv, limits: AgentRunLimits, context: AgentContext, state: AgentRunState,
                         runner: GateRunner,
                         script: RunScript, proposed: string)
    returns (outcome: RunOutcome, ghost entry: Option<GateEntry>)
    requires InRun(context, state, limits) && IsProposed(script, proposed)
    modifies context`candidate, state`status, state`stopReason, state`gateRepairRounds, runner
    ensures IsSoundEnd(env, context, state, runner, limits, script, outcome, entry)
    ensures if MayEnterGate(old(context.candidateValue), old(context.candidate.draftArtifactRef), proposed)
            then GateDecides(env, script.gate, context.originalSql, SecondRef(context), proposed,
                             old(context.candidate.draftArtifactRef), outcome)
            else outcome == Stop(HumanResult, NoCandidateArtifact)
  {
    entry := None;
    if !MayEnterGate(context.candidateValue, context.candidate.draftArtifactRef, proposed) {
      state.status, state.stopReason := RunStatus.HumanRequired, Some(NoCandidateArtifact);
      return Stop(HumanResult, NoCandidateArtifact), None;
    }
    context.candidate := context.candidate.(draftSql := context.candidateValue.value.summary, status := Draft);
    entry := Some(GateEntry(proposed, context.candidate.draftSql, context.candidate.draftArtifactRef,
                            context.candidateValue.value));
    outcome := EnterGate(env, context, state, runner, script, entry.value);
  }

  /** Executes an action that is neither a return nor a plan update. */
  method Perform(env: GateEnv, limits: AgentRunLimits, context: AgentContext, state: AgentRunState, runner: GateRunner,
                 script: RunScript, k: nat, action: AgentAction)
    returns (ended: Option<RunOutcome>, ghost entry: Option<GateEntry>)
    requires InRun(context, state, limits) && state.status == Running && HasRoom(state, limits)
    requires script.turn(k).reply == Acts(action) && (action.ToolCall? || action.RunSubAgent? || action.Propose?)
    modifies context, context.executionPlan, state, runner
    ensures ended.None? ==>
              InRun(context, state, limits) && state.status == Running && state.stepCount == old(state.stepCount)
    ensures ended.None? ==>
              && GoesOn(script.turn(k))
              && ViewOf(context, state) == AfterExecution(old(ViewOf(context, state)), action, script.turn(k).execution)
    ensures ended.Some? ==>
              TurnEnds(env, script.gate, context.originalSql, SecondRef(context), script.turn(k), ended.value)
    ensures ended.Some? ==> IsSoundEnd(env, context, state, runner, limits, script, ended.value, entry)
    ensures context.executionPlan == old(context.executionPlan)
    ensures ended.Some? ==>
              EndsWithPlan(old(context.executionPlan.View()), script.turn(k), context.executionPlan.View())
  {
    entry := None;
    var execution := script.turn(k).execution;
    var executed := Execute(context, state, action, execution);
    if !executed {
      state.status, state.stopReason := Failed, Some(AgentRuntimeError);
      return Some(Stop(FailedResult, AgentRuntimeError)), None;
    }
    if action.Propose? {
      var outcome: RunOutcome;
      outcome, entry := SubmitCandidate(env, limits, context, state, runner, script, action.candidateSql);
      return Some(outcome), entry;
    }
    return None, None;
  }

  /** Acts on a valid action, already counted as a step. */
  method Act(env: GateEnv, limits: AgentRunLimits, context: AgentContext, state: AgentRunState, runner: GateRunner,
             script: RunScript, k: nat, action: AgentAction)
    returns (ended: Option<RunOutcome>, ghost entry: Option<GateEntry>)
    requires InRun(context, state, limits) && state.status == Running && HasRoom(state, limits)
    requires script.turn(k).reply == Acts(action)
    modifies context, context.executionPlan, state, runner
    ensures ended.None? ==>
              InRun(context, state, limits) && state.status == Running && state.stepCount == old(state.stepCount)
    ensures ended.None? ==>
              && GoesOn(script.turn(k))
              && ViewOf(context, state) == AfterAction(old(ViewOf(context, state)), script.turn(k))
    ensures ended.Some? ==>
              TurnEnds(env, script.gate, context.originalSql, SecondRef(context), script.turn(k), ended.value)
    ensures ended.Some? ==> IsSoundEnd(env, context, state, runner, limits, script, ended.value, entry)
    ensures context.executionPlan == old(context.executionPlan) || fresh(context.executionPlan)
    ensures ended.Some? ==>
              EndsWithPlan(old(context.executionPlan.View()), script.turn(k), context.executionPlan.View())
  {
    entry := None;
    match action
    case ReturnNoSql(reason) =>
      state.status := NoSql;
      ended := Some(Finish(NoSqlResult, reason));
    case ReturnHumanRequired(reason) =>
      state.status := RunStatus.HumanRequired;
      ended := Some(Finish(HumanResult, reason));
    case UpdatePlan(plan) =>
      var inBudget := SubmitPlan(context, state, limits, plan);
      ended := if inBudget then None else Some(Raised(PlanBudgetCause));
    case _ =>
      ended, entry := Perform(env, limits, context, state, runner, script, k, action);
  }

  /** No counter but the step count has reached its limit. */
  ghost predicate HasRoom(state: AgentRunState, limits: AgentRunLimits)
    reads state
  {
    && state.toolCallCount < limits.maxToolCalls && state.subAgentCallCount < limits.maxSubAgentCalls
    && state.planRevisionCount < limits.maxPlanRevisions && state.noProgressSteps < limits.maxNoProgressSteps
  }

  /** Compacts the context when the run has a context manager; false when that fails. */
  method Prepare(context: AgentContext, ghost state: AgentRunState, compacts: bool) returns (ok: bool)
    requires context.candidate.status.NoCandidate? && PlanIsSound(context.executionPlan.View())
    modifies context`recentObservations
    ensures ok <==> (compacts ==> context.originalSql != "")
    ensures ok ==> ViewOf(context, state) == Compacted(old(ViewOf(context, state)), compacts)
  {
    ok := true;
    if compacts { ok := Compact(context); }
  }

  /** Asks the agent and acts on its reply. */
  method TakeReply(env: GateEnv, limits: AgentRunLimits, context: AgentContext, state: AgentRunState,
                   runner: GateRunner, script: RunScript, k: nat)
    returns (ended: Option<RunOutcome>, ghost entry: Option<GateEntry>)
    requires InRun(context, state, limits) && state.status == Running && HasRoom(state, limits)
    requires state.stepCount < limits.maxSteps
    modifies context, context.executionPlan, state, runner
    ensures ended.None? ==>
              InRun(context, state, limits) && state.status == Running && state.stepCount == old(state.stepCount) + 1
    ensures ended.None? ==>
              && GoesOn(script.turn(k))
              && ViewOf(context, state)
                 == AfterAction(old(ViewOf(context, state)).(stepCount := old(state.stepCount) + 1), script.turn(k))
    ensures ended.Some? ==>
              TurnEnds(env, script.gate, context.originalSql, SecondRef(context), script.turn(k), ended.value)
    ensures ended.Some? ==> IsSoundEnd(env, context, state, runner, limits, script, ended.value, entry)
    ensures context.executionPlan == old(context.executionPlan) || fresh(context.executionPlan)
    ensures ended.Some? ==>
              EndsWithPlan(old(context.executionPlan.View()), script.turn(k), context.executionPlan.View())
  {
    var reply := script.turn(k).reply;
    if reply.AgentFails? { return Some(Raised(AgentCause)), None; }
    if reply.InvalidAction? {
      state.status, state.stopReason := RunStatus.HumanRequired, Some(InvalidAgentAction);
      return Some(Stop(HumanResult, InvalidAgentAction)), None;
    }
    state.stepCount := state.stepCount + 1;
    ended, entry := Act(env, limits, context, state, runner, script, k, reply.action);
  }

  /** How turn `k` ends the run once its limits are checked. */
  ghost predicate TakenTurnEnds(env: GateEnv, context: AgentContext, script: RunScript, k: nat, outcome: RunOutcome) {
    if script.compacts && context.originalSql == "" then outcome == Raised(CompactionCause)
    else TurnEnds(env, script.gate, context.originalSql, SecondRef(context), script.turn(k), outcome)
  }

  /** One turn after the budget check; None means the loop goes on. */
  method TakeTurn(env: GateEnv, limits: AgentRunLimits, context: AgentContext, state: AgentRunState, runner: GateRunner,
                  script: RunScript, k: nat)
    returns (ended: Option<RunOutcome>, ghost entry: Option<GateEntry>)
    requires InRun(context, state, limits) && state.status == Running && StopReason(state.View(), limits) == None
    modifies context, context.executionPlan, state, runner
    ensures ended.None? ==>
              InRun(context, state, limits) && state.status == Running && state.stepCount == old(state.stepCount) + 1
    ensures ended.None? ==>
              && GoesOn(script.turn(k)) && (script.compacts ==> context.originalSql != "")
              && ViewOf(context, state) == AfterTurn(old(ViewOf(context, state)), script.turn(k), script.compacts)
    ensures ended.Some? ==> TakenTurnEnds(env, context, script, k, ended.value)
    ensures ended.Some? ==> IsSoundEnd(env, context, state, runner, limits, script, ended.value, entry)
    ensures context.executionPlan == old(context.executionPlan) || fresh(context.executionPlan)
    ensures ended.Some? ==>
              EndsWithPlan(old(context.executionPlan.View()), script.turn(k), context.executionPlan.View())
  {
    var ok := Prepare(context, state, script.compacts);
    if !ok { return Some(Raised(CompactionCause)), None; }
    ended, entry := TakeReply(env, limits, context, state, runner, script, k);
  }

  /** One round of the loop: the budget check and the turn. */
  method Iterate(env: GateEnv, limits: AgentRunLimits, context: AgentContext, state: AgentRunState, runner: GateRunner,
                 script: RunScript, k: nat, ghost trace: seq<RunView>)
    returns (ended: Option<RunOutcome>, ghost entry: Option<GateEntry>)
    requires InRun(context, state, limits) && state.status == Running
    requires IsTrace(script, limits, context.originalSql, trace) && |trace| == k + 1
             && trace[k] == ViewOf(context, state)
    modifies context, context.executionPlan, state, runner
    ensures ended.None? ==>
              InRun(context, state, limits) && state.status == Running && state.stepCount == old(state.stepCount) + 1
              && old(state.stepCount) < limits.maxSteps
    ensures ended.None? ==> IsTrace(script, limits, context.originalSql, trace + [ViewOf(context, state)])
    ensures ended.Some? ==>
              Ends(env, limits, script, context.originalSql, SecondRef(context), trace, ended.value)
    ensures ended.Some? ==> IsSoundEnd(env, context, state, runner, limits, script, ended.value, entry)
    ensures context.executionPlan == old(context.executionPlan) || fresh(context.executionPlan)
    ensures ended.Some? ==> KeepsOrder(script, trace[0].plan, context.executionPlan.View())
  {
    ghost var v := ViewOf(context, state);
    state.wallTimeMs := script.turn(k).wallTimeMs;
    var stop := StopReason(state.View(), limits);
    assert state.View() == UsageOf(v, script.turn(k).wallTimeMs) && ViewOf(context, state) == v;
    if stop.Some? {
      state.status, state.stopReason := RunStatus.HumanRequired, stop;
      RunKeepsOrder(script, limits, context.originalSql, trace, context.executionPlan.View());
      return Some(Stop(HumanResult, stop.value)), None;
    }
    ended, entry := TakeTurn(env, limits, context, state, runner, script, k);
    if ended.Some? {
      RunKeepsOrder(script, limits, context.originalSql, trace, context.executionPlan.View());
    } else {
      TraceGrows(script, limits, context.originalSql, trace, ViewOf(context, state));
    }
  }

  /** Runs the loop against any script; the trace is what the run came to before each turn. */
  method Run(env: GateEnv, limits: AgentRunLimits, context: AgentContext, state: AgentRunState, runner: GateRunner,
             script: RunScript)
    returns (outcome: RunOutcome, iterations: nat, ghost entry: Option<GateEntry>, ghost trace: seq<RunView>)
    requires StartsFresh(context, state) && NonNegative(limits) && PlanIsSound(context.executionPlan.View())
    modifies context, context.executionPlan, state, runner
    ensures IsSoundEnd(env, context, state, runner, limits, script, outcome, entry)
    ensures iterations <= limits.maxSteps + 1
    ensures trace != [] && trace[0] == old(ViewOf(context, state))
    ensures old(state.status).Running? ==>
              && |trace| == iterations
              && Ends(env, limits, script, context.originalSql, SecondRef(context), trace, outcome)
    ensures KeepsOrder(script, old(context.executionPlan.View()), context.executionPlan.View())
  {
    trace, iterations := [ViewOf(context, state)], 0;
    while state.status.Running?
      invariant old(state.status).Running? ==> state.status.Running?
      invariant iterations == state.stepCount == |trace| - 1 && InRun(context, state, limits)
      invariant trace[0] == old(ViewOf(context, state)) && trace[iterations] == ViewOf(context, state)
      invariant IsTrace(script, limits, context.originalSql, trace)
      invariant context.executionPlan == old(context.executionPlan) || fresh(context.executionPlan)
      decreases limits.maxSteps - state.stepCount
    {
      iterations := iterations + 1;
      var ended: Option<RunOutcome>;
      ended, entry := Iterate(env, limits, context, state, runner, script, iterations - 1, trace);
      if ended.Some? { return ended.value, iterations, entry, trace; }
      trace := trace + [ViewOf(context, state)];
    }
    RunKeepsOrder(script, limits, context.originalSql, trace, context.executionPlan.View());
    var reason := if state.stopReason.Some? then Some(StopText(state.stopReason.value)) else None;
    return Returned(AgentRunResult(FailedResult, None, None, reason, state.stopReason)), iterations, None, trace;
  }

  lemma InitialPlanIsSound()
    ensures PlanIsSound(InitialPlan())
  {
    InitialPlanRunsInOrder();
    assert StepIds(InitialPlan().steps)[0] == InitialPlan().currentStepId.value;
  }
}
