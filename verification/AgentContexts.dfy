/** The mutable state one agent run works on. */
module AgentContexts {
  import opened Options
  import opened RunStates
  import opened ExecutionPlans
  import opened Gates

  datatype ArtifactRef = ArtifactRef(sessionId: string, attemptId: nat, sanitized: bool)

  datatype WorkspaceValue = WorkspaceValue(available: bool, summary: Option<string>, artifactRef: Option<ArtifactRef>)

  datatype CandidateStatus = NoCandidate | Draft | GateRejected | ReadyToCommit

  datatype CandidateState = CandidateState(
    draftSql: Option<string>,
    draftArtifactRef: Option<ArtifactRef>,
    formalSql: Option<string>,
    status: CandidateStatus,
    gateFeedback: seq<GateFeedback>)

  class AgentContext {
    const sessionId: string
    const attemptId: nat
    const originalSql: string
    var executionPlan: ExecutionPlan
    var candidateValue: Option<WorkspaceValue>
    var candidate: CandidateState
    var recentObservations: seq<Observation>

    constructor (sessionId: string, attemptId: nat, originalSql: string)
      ensures this.sessionId == sessionId && this.attemptId == attemptId && this.originalSql == originalSql
      ensures fresh(executionPlan) && executionPlan.View() == InitialPlan()
      ensures candidateValue == None && candidate == CandidateState(None, None, None, NoCandidate, [])
      ensures recentObservations == []
    {
      this.sessionId, this.attemptId, this.originalSql := sessionId, attemptId, originalSql;
      executionPlan := new ExecutionPlan(InitialPlan());
      candidateValue, recentObservations := None, [];
      candidate := CandidateState(None, None, None, NoCandidate, []);
    }
  }

  datatype ResultStatus = CandidateReady | NoSqlResult | HumanResult | FailedResult

  datatype AgentRunResult = AgentRunResult(
    status: ResultStatus,
    candidateSql: Option<string>,
    candidateArtifactRef: Option<ArtifactRef>,
    reason: Option<string>,
    stopReason: Option<StopCause>)
}
