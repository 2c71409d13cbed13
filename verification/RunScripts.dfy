/** What the outside may do in a run, and how far a run gets: the loop as a sequence of views. */
module RunScripts {
  import opened Options
  import opened RunStates
  import opened Text
  import opened ExecutionPlans
  import opened ContextTrim
  import opened Gates
  import opened AgentContexts
  import opened OnlineGate

  // ---- What the outside may do in one turn ----

  datatype AgentAction =
    | ToolCall
    | RunSubAgent
    | UpdatePlan(plan: Plan)
    | Propose(candidateSql: string)
    | ReturnNoSql(reason: string)
    | ReturnHumanRequired(reason: string)

  datatype AgentReply = InvalidAction | AgentFails | Acts(action: AgentAction)

  /** Executing an action may raise; otherwise it yields an observation and may change the workspace candidate. */
  datatype Execution =
    | ExecutionFails
    | Executed(observation: Observation, candidateValue: Option<WorkspaceValue>, draftArtifactRef: Option<ArtifactRef>)

  datatype Turn = Turn(wallTimeMs: int, reply: AgentReply, execution: Execution)

  /** The replies of a run in order. Quantifying over all scripts covers every adaptive agent, executor and clock. */
  datatype RunScript = RunScript(turn: nat -> Turn, gate: GateScript, compacts: bool)

  datatype Cause = AgentCause | GateCause | PlanBudgetCause | CompactionCause

  datatype RunOutcome = Raised(cause: Cause) | Returned(result: AgentRunResult)

  /** The agent's own ending, with its reason. */
  function Finish(status: ResultStatus, reason: string): RunOutcome {
    Returned(AgentRunResult(status, None, None, Some(reason), None))
  }

  /** An ending forced on the agent; the cause is also the reason. */
  function Stop(status: ResultStatus, stop: StopCause): RunOutcome {
    Returned(AgentRunResult(status, None, None, Some(StopText(stop)), Some(stop)))
  }

  /** The agent asked for this candidate in some turn. */
  ghost predicate IsProposed(script: RunScript, candidateSql: string) {
    exists k: nat :: script.turn(k).reply == Acts(Propose(candidateSql))
  }

  /** The candidate may enter the gates only as the workspace holds it. */
  predicate MayEnterGate(value: Option<WorkspaceValue>, draftArtifactRef: Option<ArtifactRef>, proposed: string) {
    && value.Some? && value.value.available && Truthy(value.value.summary) && value.value.summary.value == proposed
    && value.value.artifactRef.Some? && draftArtifactRef == value.value.artifactRef
  }

  predicate MadeProgress(observation: Observation, previous: seq<Observation>) {
    forall o | o in previous ::
      !(o.actionType == observation.actionType && o.summary == observation.summary
        && o.artifactRefs == observation.artifactRefs && o.producedWorkspaceKeys == observation.producedWorkspaceKeys)
  }

  const MAX_RECENT_OBSERVATIONS: nat := 8

  // ---- Budgets ----

  /** The first limit reached, in order of checking. */
  function StopReason(usage: Usage, limits: AgentRunLimits): Option<StopCause> {
    if usage.stepCount >= limits.maxSteps then Some(MaxSteps)
    else if usage.toolCallCount >= limits.maxToolCalls then Some(MaxToolCalls)
    else if usage.subAgentCallCount >= limits.maxSubAgentCalls then Some(MaxSubAgentCalls)
    else if usage.wallTimeMs >= limits.maxWallTimeMs then Some(MaxWallTime)
    else if usage.planRevisionCount >= limits.maxPlanRevisions then Some(MaxPlanRevisions)
    else if usage.gateRepairRounds > limits.maxGateRepairRounds then Some(MaxGateRepairRounds)
    else if usage.noProgressSteps >= limits.maxNoProgressSteps then Some(NoProgress)
    else None
  }

  /** The counter of this cause has used up its limit; repair rounds may reach theirs. */
  predicate IsUsedUp(usage: Usage, limits: AgentRunLimits, cause: StopCause) {
    match cause
    case MaxSteps => limits.maxSteps <= usage.stepCount
    case MaxToolCalls => limits.maxToolCalls <= usage.toolCallCount
    case MaxSubAgentCalls => limits.maxSubAgentCalls <= usage.subAgentCallCount
    case MaxWallTime => limits.maxWallTimeMs <= usage.wallTimeMs
    case MaxPlanRevisions => limits.maxPlanRevisions <= usage.planRevisionCount
    case MaxGateRepairRounds => limits.maxGateRepairRounds < usage.gateRepairRounds
    case NoProgress => limits.maxNoProgressSteps <= usage.noProgressSteps
    case _ => false
  }

  const CHECKED: seq<StopCause> :=
    [MaxSteps, MaxToolCalls, MaxSubAgentCalls, MaxWallTime, MaxPlanRevisions, MaxGateRepairRounds, NoProgress]

  /** The reported cause is the first one checked that is used up. */
  lemma StopReasonIsFirstUsedUp(usage: Usage, limits: AgentRunLimits, i: nat)
    requires i < |CHECKED|
    ensures StopReason(usage, limits) == Some(CHECKED[i])
            <==> IsUsedUp(usage, limits, CHECKED[i]) && forall j :: 0 <= j < i ==> !IsUsedUp(usage, limits, CHECKED[j])
  {
    CheckedCauses();
  }

  /** The run goes on exactly when nothing is used up. */
  lemma NoStopReasonIff(usage: Usage, limits: AgentRunLimits)
    ensures StopReason(usage, limits).None? <==>
              forall j :: 0 <= j < |CHECKED| ==> !IsUsedUp(usage, limits, CHECKED[j])
  {
    CheckedCauses();
  }

  lemma CheckedCauses()
    ensures |CHECKED| == 7 && CHECKED[0] == MaxSteps && CHECKED[1] == MaxToolCalls && CHECKED[2] == MaxSubAgentCalls
    ensures CHECKED[3] == MaxWallTime && CHECKED[4] == MaxPlanRevisions && CHECKED[5] == MaxGateRepairRounds
    ensures CHECKED[6] == NoProgress
  {}

  // ---- The loop between two turns ----

  /** What a run has come to before a turn. */
  datatype RunView = RunView(
    plan: Plan,
    observations: seq<Observation>,
    candidateValue: Option<WorkspaceValue>,
    draftArtifactRef: Option<ArtifactRef>,
    stepCount: int,
    toolCallCount: int,
    subAgentCallCount: int,
    planRevisionCount: int,
    noProgressSteps: int)

  /** Before the first turn. */
  function StartView(): RunView {
    RunView(InitialPlan(), [], None, None, 0, 0, 0, 0, 0)
  }

  function UsageOf(v: RunView, wallTimeMs: int): Usage {
    Usage(v.stepCount, v.toolCallCount, v.subAgentCallCount, wallTimeMs, 0, v.planRevisionCount, v.noProgressSteps)
  }

  /** The turn leaves the loop running: a plan update, or a tool or sub-agent call that does not raise. */
  predicate GoesOn(turn: Turn) {
    && turn.reply.Acts?
    && (|| turn.reply.action.UpdatePlan?
        || ((turn.reply.action.ToolCall? || turn.reply.action.RunSubAgent?) && turn.execution.Executed?))
  }

  ghost function Compacted(v: RunView, compacts: bool): RunView {
    if compacts then v.(observations := Trimmed(v.observations, v.plan.currentStepId, MAX_RECENT_OBSERVATIONS)) else v
  }

  function UpdateObserved(status: ObservationStatus, summary: string): Observation {
    Observation("UPDATE_PLAN", status, summary, [], [], None)
  }

  function RevisionText(revision: int): string {
    "ExecutionPlan revision=" + Numeral(revision)
  }

  function RejectionText(error: Option<PlanError>): string {
    "ExecutionPlan rejected: " + if error.Some? then ErrorText(error.value) else ""
  }

  function AcceptedView(v: RunView, proposed: Plan): RunView {
    v.(plan := proposed.(revision := v.plan.revision + 1), planRevisionCount := v.planRevisionCount + 1,
       observations := v.observations + [UpdateObserved(ActionSucceeded, RevisionText(v.plan.revision + 1))],
       noProgressSteps := 0)
  }

  function RejectedView(v: RunView, error: Option<PlanError>): RunView {
    v.(observations := v.observations + [UpdateObserved(ActionBlocked, RejectionText(error))],
       noProgressSteps := v.noProgressSteps + 1)
  }

  /** A submitted plan takes effect, or leaves an observation why it was rejected. */
  ghost function AfterUpdate(v: RunView, proposed: Plan): RunView {
    if Accepts(v.plan, proposed, v.planRevisionCount) then AcceptedView(v, proposed)
    else RejectedView(v, RejectionOf(v.plan, proposed, v.planRevisionCount))
  }

  lemma UpdateIs(v: RunView, proposed: Plan, accepted: bool, error: Option<PlanError>) returns (w: RunView)
    requires accepted <==> Accepts(v.plan, proposed, v.planRevisionCount)
    requires !accepted ==> error == RejectionOf(v.plan, proposed, v.planRevisionCount)
    ensures w == AfterUpdate(v, proposed)
    ensures w == if accepted then AcceptedView(v, proposed) else RejectedView(v, error)
  {
    w := AfterUpdate(v, proposed);
  }

  /** Tool and sub-agent observations are bound to the selected step. */
  function Bound(plan: Plan, action: AgentAction, observation: Observation): Observation {
    if action.ToolCall? || action.RunSubAgent? then observation.(planStepId := plan.currentStepId) else observation
  }

  function AfterExecution(v: RunView, action: AgentAction, execution: Execution): RunView
    requires execution.Executed?
  {
    var bound := Bound(v.plan, action, execution.observation);
    v.(plan := AfterObservation(v.plan, bound), observations := v.observations + [bound],
       candidateValue := execution.candidateValue, draftArtifactRef := execution.draftArtifactRef,
       toolCallCount := v.toolCallCount + if action.ToolCall? then 1 else 0,
       subAgentCallCount := v.subAgentCallCount + if action.RunSubAgent? then 1 else 0,
       noProgressSteps := if MadeProgress(bound, v.observations) then 0 else v.noProgressSteps + 1)
  }

  lemma IsAfterExecution(v: RunView, w: RunView, action: AgentAction, execution: Execution)
    requires execution.Executed?
    requires var bound := Bound(v.plan, action, execution.observation);
             && w.plan == AfterObservation(v.plan, bound) && w.observations == v.observations + [bound]
             && w.noProgressSteps == if MadeProgress(bound, v.observations) then 0 else v.noProgressSteps + 1
    requires w.candidateValue == execution.candidateValue && w.draftArtifactRef == execution.draftArtifactRef
    requires w.stepCount == v.stepCount && w.planRevisionCount == v.planRevisionCount
    requires w.toolCallCount == v.toolCallCount + if action.ToolCall? then 1 else 0
    requires w.subAgentCallCount == v.subAgentCallCount + if action.RunSubAgent? then 1 else 0
    ensures w == AfterExecution(v, action, execution)
  {}

  ghost function AfterAction(v: RunView, turn: Turn): RunView
    requires GoesOn(turn)
  {
    if turn.reply.action.UpdatePlan? then AfterUpdate(v, turn.reply.action.plan)
    else AfterExecution(v, turn.reply.action, turn.execution)
  }

  /** What a turn that goes on makes of the run. */
  ghost function AfterTurn(v: RunView, turn: Turn, compacts: bool): RunView {
    var w := Compacted(v, compacts);
    if GoesOn(turn) then AfterAction(w.(stepCount := w.stepCount + 1), turn) else v
  }

  /** Turn `k` is taken from `v`: no limit is reached and the context can be compacted. */
  predicate IsTaken(script: RunScript, limits: AgentRunLimits, originalSql: string, v: RunView, k: nat) {
    && StopReason(UsageOf(v, script.turn(k).wallTimeMs), limits).None?
    && (script.compacts ==> originalSql != "")
  }

  /** Turn `k` is taken from `v`, goes on, and leaves `w`. */
  ghost predicate StepsTo(script: RunScript, limits: AgentRunLimits, originalSql: string, v: RunView, k: nat,
                          w: RunView) {
    && IsTaken(script, limits, originalSql, v, k) && GoesOn(script.turn(k))
    && w == AfterTurn(v, script.turn(k), script.compacts)
  }

  /** `trace[k]` is what the run has come to before turn `k`; every turn before the last is taken and goes on. */
  ghost predicate IsTrace(script: RunScript, limits: AgentRunLimits, originalSql: string, trace: seq<RunView>) {
    trace != [] && forall k :: 0 <= k < |trace| - 1 ==> StepsAt(script, limits, originalSql, trace, k)
  }

  ghost predicate StepsAt(script: RunScript, limits: AgentRunLimits, originalSql: string, trace: seq<RunView>, k: nat)
    requires k < |trace| - 1
  {
    StepsTo(script, limits, originalSql, trace[k], k, trace[k + 1])
  }

  /** How a turn that is taken ends the run. */
  ghost predicate TurnEnds(env: GateEnv, gate: GateScript, originalSql: string, secondRef: ArtifactRef, turn: Turn,
                           outcome: RunOutcome) {
    match turn.reply
    case AgentFails => outcome == Raised(AgentCause)
    case InvalidAction => outcome == Stop(HumanResult, InvalidAgentAction)
    case Acts(ReturnNoSql(reason)) => outcome == Finish(NoSqlResult, reason)
    case Acts(ReturnHumanRequired(reason)) => outcome == Finish(HumanResult, reason)
    case Acts(UpdatePlan(_)) => false
    case Acts(Propose(candidateSql)) => ProposalEnds(env, gate, originalSql, secondRef, candidateSql, turn, outcome)
    case Acts(_) => turn.execution.ExecutionFails? && outcome == Stop(FailedResult, AgentRuntimeError)
  }

  ghost predicate ProposalEnds(env: GateEnv, gate: GateScript, originalSql: string, secondRef: ArtifactRef,
                               proposed: string, turn: Turn, outcome: RunOutcome) {
    if turn.execution.ExecutionFails? then
      outcome == Stop(FailedResult, AgentRuntimeError)
    else if !MayEnterGate(turn.execution.candidateValue, turn.execution.draftArtifactRef, proposed) then
      outcome == Stop(HumanResult, NoCandidateArtifact)
    else
      GateDecides(env, gate, originalSql, secondRef, proposed, turn.execution.draftArtifactRef, outcome)
  }

  ghost predicate GateDecides(env: GateEnv, gate: GateScript, originalSql: string, secondRef: ArtifactRef,
                              draft: string, draftRef: Option<ArtifactRef>, outcome: RunOutcome) {
    exists gated :: GateEnds(env, gate, originalSql, draft, draftRef, secondRef, gated) && outcome == AfterGate(gated)
  }

  function AfterGate(gated: GateOutcome): RunOutcome {
    if gated.GateRaised? then Raised(GateCause) else Returned(gated.result)
  }

  /** The run ends at the last turn of its trace with this outcome. */
  ghost predicate Ends(env: GateEnv, limits: AgentRunLimits, script: RunScript, originalSql: string,
                       secondRef: ArtifactRef, trace: seq<RunView>, outcome: RunOutcome) {
    && IsTrace(script, limits, originalSql, trace)
    && EndsFrom(env, limits, script, originalSql, secondRef, trace[|trace| - 1], |trace| - 1, outcome)
  }

  /** Turn `k` ends the run: a limit is reached, the context cannot be compacted, or the turn itself ends it. */
  ghost predicate EndsFrom(env: GateEnv, limits: AgentRunLimits, script: RunScript, originalSql: string,
                           secondRef: ArtifactRef, v: RunView, k: nat, outcome: RunOutcome) {
    var stop := StopReason(UsageOf(v, script.turn(k).wallTimeMs), limits);
    if stop.Some? then outcome == Stop(HumanResult, stop.value)
    else if script.compacts && originalSql == "" then outcome == Raised(CompactionCause)
    else TurnEnds(env, script.gate, originalSql, secondRef, script.turn(k), outcome)
  }

  // ---- Where a run ends ----

  /** From one start there is one trace. */
  lemma {:induction false} TracesAgree(script: RunScript, limits: AgentRunLimits, originalSql: string,
                                       t: seq<RunView>, u: seq<RunView>, k: nat)
    requires IsTrace(script, limits, originalSql, t) && IsTrace(script, limits, originalSql, u)
    requires t[0] == u[0] && k < |t| && k < |u|
    ensures t[k] == u[k]
  {
    if k > 0 {
      TracesAgree(script, limits, originalSql, t, u, k - 1);
      StepOfTrace(script, limits, originalSql, t, k - 1);
      StepOfTrace(script, limits, originalSql, u, k - 1);
    }
  }

  lemma StepOfTrace(script: RunScript, limits: AgentRunLimits, originalSql: string, trace: seq<RunView>, k: nat)
    requires IsTrace(script, limits, originalSql, trace) && k < |trace| - 1
    ensures IsTaken(script, limits, originalSql, trace[k], k) && GoesOn(script.turn(k))
    ensures trace[k + 1] == AfterTurn(trace[k], script.turn(k), script.compacts)
  {
    assert StepsAt(script, limits, originalSql, trace, k);
  }

  /** A run ends at one turn only: the first that is not taken or does not go on. */
  lemma EndsOnce(env: GateEnv, limits: AgentRunLimits, script: RunScript, originalSql: string, secondRef: ArtifactRef,
                 trace: seq<RunView>, outcome: RunOutcome, other: seq<RunView>)
    requires Ends(env, limits, script, originalSql, secondRef, trace, outcome)
    requires IsTrace(script, limits, originalSql, other) && other[0] == trace[0]
    requires var k := |other| - 1; IsTaken(script, limits, originalSql, other[k], k) && !GoesOn(script.turn(k))
    ensures |other| == |trace|
            && TurnEnds(env, script.gate, originalSql, secondRef, script.turn(|other| - 1), outcome)
  {
    var n, k := |trace| - 1, |other| - 1;
    if n < k {
      TracesAgree(script, limits, originalSql, trace, other, n);
      StepOfTrace(script, limits, originalSql, other, n);
    } else {
      TracesAgree(script, limits, originalSql, trace, other, k);
      if k < n { StepOfTrace(script, limits, originalSql, trace, k); }
    }
  }

  /** A limit that is reached ends the run at once. */
  lemma StopsOnce(env: GateEnv, limits: AgentRunLimits, script: RunScript, originalSql: string, secondRef: ArtifactRef,
                  trace: seq<RunView>, outcome: RunOutcome, other: seq<RunView>, cause: StopCause)
    requires Ends(env, limits, script, originalSql, secondRef, trace, outcome)
    requires IsTrace(script, limits, originalSql, other) && other[0] == trace[0]
    requires var k := |other| - 1; StopReason(UsageOf(other[k], script.turn(k).wallTimeMs), limits) == Some(cause)
    ensures |other| == |trace| && outcome == Stop(HumanResult, cause)
  {
    var n, k := |trace| - 1, |other| - 1;
    if n < k {
      TracesAgree(script, limits, originalSql, trace, other, n);
      StepOfTrace(script, limits, originalSql, other, n);
    } else {
      TracesAgree(script, limits, originalSql, trace, other, k);
      if k < n { StepOfTrace(script, limits, originalSql, trace, k); }
    }
  }

  lemma TraceGrows(script: RunScript, limits: AgentRunLimits, originalSql: string, trace: seq<RunView>, w: RunView)
    requires IsTrace(script, limits, originalSql, trace)
    requires StepsTo(script, limits, originalSql, trace[|trace| - 1], |trace| - 1, w)
    ensures IsTrace(script, limits, originalSql, trace + [w])
  {
    var grown := trace + [w];
    forall k | 0 <= k < |grown| - 1 ensures StepsAt(script, limits, originalSql, grown, k) {
      if k < |trace| - 1 { assert StepsAt(script, limits, originalSql, trace, k); }
    }
  }

  // ---- Plans that run in order ----

  ghost predicate NeverReplans(script: RunScript) {
    forall k: nat :: KeepsPlan(script.turn(k))
  }

  /** No plan is submitted, and proposing a candidate is not bound to a step. */
  predicate KeepsPlan(turn: Turn) {
    turn.reply.Acts? ==>
      && !turn.reply.action.UpdatePlan?
      && (turn.reply.action.Propose? && turn.execution.Executed? ==> turn.execution.observation.planStepId == None)
  }

  /** The turn that ends a run leaves the plan, or applies the proposal's observation to it. */
  predicate EndsWithPlan(before: Plan, turn: Turn, after: Plan) {
    || after == before
    || (turn.reply.Acts? && turn.reply.action.Propose? && turn.execution.Executed?
        && after == AfterObservation(before, turn.execution.observation))
  }

  lemma PlanAfterTurn(v: RunView, turn: Turn, compacts: bool)
    requires GoesOn(turn) && KeepsPlan(turn)
    ensures AfterTurn(v, turn, compacts).plan
            == AfterObservation(v.plan, turn.execution.observation.(planStepId := v.plan.currentStepId))
  {}

  /** Without replanning, a plan that runs in order does so before every turn. */
  lemma {:induction false} TraceRunsInOrder(script: RunScript, limits: AgentRunLimits, originalSql: string,
                                            trace: seq<RunView>, k: nat)
    requires IsTrace(script, limits, originalSql, trace) && k < |trace|
    requires NeverReplans(script) && RunsInOrder(trace[0].plan)
    ensures RunsInOrder(trace[k].plan)
  {
    if k > 0 {
      TraceRunsInOrder(script, limits, originalSql, trace, k - 1);
      StepKeepsOrder(script, limits, originalSql, trace, k - 1);
    }
  }

  lemma StepKeepsOrder(script: RunScript, limits: AgentRunLimits, originalSql: string, trace: seq<RunView>, k: nat)
    requires IsTrace(script, limits, originalSql, trace) && k < |trace| - 1
    requires NeverReplans(script) && RunsInOrder(trace[k].plan)
    ensures RunsInOrder(trace[k + 1].plan)
  {
    StepOfTrace(script, limits, originalSql, trace, k);
    TurnKeepsOrder(script, trace[k], k);
  }

  lemma TurnKeepsOrder(script: RunScript, v: RunView, k: nat)
    requires GoesOn(script.turn(k)) && NeverReplans(script) && RunsInOrder(v.plan)
    ensures RunsInOrder(AfterTurn(v, script.turn(k), script.compacts).plan)
  {
    var turn := script.turn(k);
    assert KeepsPlan(turn);
    PlanAfterTurn(v, turn, script.compacts);
    ObservationKeepsOrder(v.plan, turn.execution.observation.(planStepId := v.plan.currentStepId));
  }

  /** Without replanning, a plan that runs in order at first does so afterwards. */
  ghost predicate KeepsOrder(script: RunScript, before: Plan, after: Plan) {
    NeverReplans(script) && RunsInOrder(before) ==> RunsInOrder(after)
  }

  lemma RunKeepsOrder(script: RunScript, limits: AgentRunLimits, originalSql: string, trace: seq<RunView>, after: Plan)
    requires IsTrace(script, limits, originalSql, trace)
    requires EndsWithPlan(trace[|trace| - 1].plan, script.turn(|trace| - 1), after)
    ensures KeepsOrder(script, trace[0].plan, after)
  {
    if NeverReplans(script) && RunsInOrder(trace[0].plan) {
      TraceRunsInOrder(script, limits, originalSql, trace, |trace| - 1);
      assert KeepsPlan(script.turn(|trace| - 1));
    }
  }

  // ---- Counting ----

  datatype Kind = Tools | SubAgents | Updates

  predicate Is(action: AgentAction, kind: Kind) {
    match kind
    case Tools => action.ToolCall?
    case SubAgents => action.RunSubAgent?
    case Updates => action.UpdatePlan?
  }

  /** How many of the first `k` turns have an action of this kind. */
  function Count(script: RunScript, kind: Kind, k: nat): nat {
    if k == 0 then 0
    else
      var reply := script.turn(k - 1).reply;
      Count(script, kind, k - 1) + if reply.Acts? && Is(reply.action, kind) then 1 else 0
  }

  ghost predicate HasCounts(v: RunView, steps: nat, tools: nat, subAgents: nat, updates: nat) {
    && v.stepCount == steps && v.toolCallCount == tools && v.subAgentCallCount == subAgents
    && 0 <= v.planRevisionCount <= updates && 0 <= v.noProgressSteps <= steps
  }

  /** Nothing has been used yet. */
  ghost predicate IsStart(v: RunView) {
    HasCounts(v, 0, 0, 0, 0)
  }

  lemma StartIsStart()
    ensures IsStart(StartView())
  {}

  /** What one turn adds to the counters. */
  ghost predicate Counted(v: RunView, action: AgentAction, w: RunView) {
    && w.stepCount == v.stepCount + 1
    && w.toolCallCount == v.toolCallCount + (if Is(action, Tools) then 1 else 0)
    && w.subAgentCallCount == v.subAgentCallCount + (if Is(action, SubAgents) then 1 else 0)
    && v.planRevisionCount <= w.planRevisionCount <= v.planRevisionCount + (if Is(action, Updates) then 1 else 0)
    && (w.noProgressSteps == 0 || w.noProgressSteps == v.noProgressSteps + 1)
  }

  lemma TurnIsCounted(v: RunView, turn: Turn, compacts: bool)
    requires GoesOn(turn)
    ensures Counted(v, turn.reply.action, AfterTurn(v, turn, compacts))
  {}

  lemma StepIsCounted(script: RunScript, limits: AgentRunLimits, originalSql: string, trace: seq<RunView>, k: nat)
    requires IsTrace(script, limits, originalSql, trace) && k < |trace| - 1
    ensures script.turn(k).reply.Acts? && Counted(trace[k], script.turn(k).reply.action, trace[k + 1])
  {
    StepOfTrace(script, limits, originalSql, trace, k);
    TurnIsCounted(trace[k], script.turn(k), script.compacts);
  }

  /** Every turn is one step, every call counts once, and only plan updates count as revisions. */
  lemma {:induction false} CountersCount(script: RunScript, limits: AgentRunLimits, originalSql: string,
                                         trace: seq<RunView>, k: nat)
    requires IsTrace(script, limits, originalSql, trace) && k < |trace| && IsStart(trace[0])
    ensures HasCounts(trace[k], k, Count(script, Tools, k), Count(script, SubAgents, k), Count(script, Updates, k))
  {
    if k > 0 {
      CountersCount(script, limits, originalSql, trace, k - 1);
      StepIsCounted(script, limits, originalSql, trace, k - 1);
    }
  }

  lemma {:induction false} CountIsBounded(script: RunScript, kind: Kind, k: nat)
    ensures Count(script, kind, k) <= k
  {
    if k > 0 { CountIsBounded(script, kind, k - 1); }
  }

  /** A turn before which nothing is near its limit is taken. */
  lemma FewTurnsAreTaken(script: RunScript, limits: AgentRunLimits, originalSql: string, trace: seq<RunView>)
    requires IsTrace(script, limits, originalSql, trace) && IsStart(trace[0])
    requires IsShort(script, limits, originalSql, |trace| - 1)
    ensures IsTaken(script, limits, originalSql, trace[|trace| - 1], |trace| - 1)
  {
    var k := |trace| - 1;
    CountersCount(script, limits, originalSql, trace, k);
    CountIsBounded(script, Tools, k);
    CountIsBounded(script, SubAgents, k);
    CountIsBounded(script, Updates, k);
  }

  /** `k` turns are fewer than every limit and the clock does not run out. */
  predicate IsShort(script: RunScript, limits: AgentRunLimits, originalSql: string, k: nat) {
    && (forall j :: 0 <= j <= k ==> script.turn(j).wallTimeMs < limits.maxWallTimeMs)
    && k < limits.maxSteps && k < limits.maxToolCalls && k < limits.maxSubAgentCalls
    && k < limits.maxPlanRevisions && k < limits.maxNoProgressSteps && 0 <= limits.maxGateRepairRounds
    && (script.compacts ==> originalSql != "")
  }

  /** A run that is shorter than every limit and quicker than the clock gets to its last turn and takes it. */
  lemma {:induction false} ShortRunIsTaken(start: RunView, script: RunScript, limits: AgentRunLimits,
                                           originalSql: string, k: nat)
    returns (trace: seq<RunView>)
    requires IsStart(start) && IsShort(script, limits, originalSql, k)
    requires forall j :: 0 <= j < k ==> GoesOn(script.turn(j))
    ensures |trace| == k + 1 && trace[0] == start && IsTrace(script, limits, originalSql, trace)
    ensures IsTaken(script, limits, originalSql, trace[k], k)
  {
    if k == 0 {
      trace := [start];
    } else {
      var front := ShortRunIsTaken(start, script, limits, originalSql, k - 1);
      var w := AfterTurn(front[k - 1], script.turn(k - 1), script.compacts);
      TraceGrows(script, limits, originalSql, front, w);
      trace := front + [w];
    }
    FewTurnsAreTaken(script, limits, originalSql, trace);
  }
}
