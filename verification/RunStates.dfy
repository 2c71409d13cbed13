/** The counters of one agent run, their limits, and what an action leaves behind. */
module RunStates {
  import opened Options

  datatype AgentRunLimits = AgentRunLimits(
    maxSteps: int,
    maxToolCalls: int,
    maxSubAgentCalls: int,
    maxWallTimeMs: int,
    maxPlanRevisions: int,
    maxGateRepairRounds: int,
    maxNoProgressSteps: int)

  datatype StopCause =
    | MaxSteps | MaxToolCalls | MaxSubAgentCalls | MaxWallTime | MaxPlanRevisions | MaxGateRepairRounds | NoProgress
    | InvalidAgentAction | AgentRuntimeError | NoCandidateArtifact

  function StopText(cause: StopCause): string {
    match cause
    case MaxSteps => "MAX_STEPS" case MaxToolCalls => "MAX_TOOL_CALLS" case MaxSubAgentCalls => "MAX_SUB_AGENT_CALLS"
    case MaxWallTime => "MAX_WALL_TIME" case MaxPlanRevisions => "MAX_PLAN_REVISIONS"
    case MaxGateRepairRounds => "MAX_GATE_REPAIR_ROUNDS" case NoProgress => "NO_PROGRESS"
    case InvalidAgentAction => "INVALID_AGENT_ACTION" case AgentRuntimeError => "AGENT_RUNTIME_ERROR"
    case NoCandidateArtifact => "NO_CANDIDATE_ARTIFACT"
  }

  /** What a run has used of its limits. */
  datatype Usage = Usage(
    stepCount: int,
    toolCallCount: int,
    subAgentCallCount: int,
    wallTimeMs: int,
    gateRepairRounds: int,
    planRevisionCount: int,
    noProgressSteps: int)

  datatype RunStatus = Running | Succeeded | NoSql | HumanRequired | Failed

  class AgentRunState {
    var stepCount: int
    var toolCallCount: int
    var subAgentCallCount: int
    var wallTimeMs: int
    var gateRepairRounds: int
    var planRevisionCount: int
    var noProgressSteps: int
    var status: RunStatus
    var stopReason: Option<StopCause>

    function View(): Usage
      reads this
    {
      Usage(stepCount, toolCallCount, subAgentCallCount, wallTimeMs, gateRepairRounds, planRevisionCount,
            noProgressSteps)
    }

    constructor ()
      ensures stepCount == toolCallCount == subAgentCallCount == wallTimeMs == gateRepairRounds == 0
      ensures planRevisionCount == noProgressSteps == 0 && status == Running && stopReason == None
    {
      stepCount, toolCallCount, subAgentCallCount, wallTimeMs, gateRepairRounds := 0, 0, 0, 0, 0;
      planRevisionCount, noProgressSteps, status, stopReason := 0, 0, Running, None;
    }
  }

  datatype ObservationStatus = ActionSucceeded | ActionFailed | ActionBlocked | ActionSkipped

  datatype Observation = Observation(
    actionType: string,
    status: ObservationStatus,
    summary: string,
    artifactRefs: seq<string>,
    producedWorkspaceKeys: seq<string>,
    planStepId: Option<string>)
}
