/** What the agent phase of a FAILED event answers, by where its run ends. */
module PhaseAnswers {
  import opened Options
  import opened Messages
  import opened RunStates
  import opened SessionStore
  import opened AgentContexts
  import opened OnlineGate
  import opened RunScripts
  import Gates

  // ---- What comes from outside ----

  /** Everything one handling of a FAILED event takes from outside. */
  datatype PhaseScript = PhaseScript(
    firstLock: bool,
    processorFails: bool,
    run: RunScript,
    bookkeepingFails: bool,
    secondLock: bool,
    artifactExists: bool)

  function SafeTaskId(id: string): string {
    var safe := seq(|id|, i requires 0 <= i < |id| =>
      var c := id[i];
      if 'A' <= c <= 'Z' || 'a' <= c <= 'z' || '0' <= c <= '9' || c == '.' || c == '_' || c == '-' then c else '_');
    if safe == "" then "task" else safe
  }

  /** The run as the service starts it: with its own risk setting. */
  function WithRisk(run: RunScript, allowMediumRisk: bool): RunScript {
    run.(gate := run.gate.(allowMediumRisk := allowMediumRisk))
  }

  // ---- From the run's outcome to the answer ----

  /** Everything the committer checks before it writes. */
  predicate CommitAllowed(s: Session, a: Attempt, candidate: CandidateState, gate: Gates.GateResult,
                          sessionId: string, artifactExists: bool) {
    && candidate.status.ReadyToCommit? && Truthy(candidate.formalSql) && Gates.Passes(gate)
    && s.attemptIds != [] && a.attemptId == s.attemptIds[|s.attemptIds| - 1]
    && gate.candidateHash == Gates.Sha256(candidate.formalSql.value)
    && candidate.draftArtifactRef.Some?
    && candidate.draftArtifactRef.value.sessionId == sessionId
    && candidate.draftArtifactRef.value.attemptId == a.attemptId
    && candidate.draftArtifactRef.value.sanitized && artifactExists
  }

  predicate IsReady(outcome: RunOutcome) {
    outcome.Returned? && outcome.result.status.CandidateReady? && Truthy(outcome.result.candidateSql)
  }

  /** Which answer a run leads to: NO_SQL and SQL_READY each under exactly one condition, a human otherwise. */
  ghost predicate ConcludesAs(s: Session, a: Attempt, event: Event, script: PhaseScript, outcome: RunOutcome,
                              candidate: CandidateState, gate: Option<Gates.GateResult>, r: ExternalResult) {
    var usable := outcome.Returned? && !script.bookkeepingFails;
    && (r.NoSqlResult? <==> usable && outcome.result.status.NoSqlResult?)
    && (r.NoSqlResult? ==> r.message == outcome.result.reason)
    && (r.SqlReadyResult? <==>
          && usable && IsReady(outcome) && script.secondLock && gate.Some?
          && CommitAllowed(s, a, candidate, gate.value, SafeTaskId(event.id), script.artifactExists))
    && (r.SqlReadyResult? ==> outcome.result.candidateSql == Some(r.sql))
    && (r.NoSqlResult? || r.SqlReadyResult? || r.HumanRequiredResult?)
    && (!usable ==> r == HumanRequiredResult(INTERNAL))
    && (usable && (outcome.result.status.HumanResult? || outcome.result.status.FailedResult?) ==>
          r == HumanRequiredResult(Explained(outcome.result.reason)))
  }

  /** The reason given for a missing candidate, or a fixed text. */
  function Explained(reason: Option<string>): string {
    if Truthy(reason) then reason.value else NO_SAFE_CANDIDATE
  }

  /** A ready outcome comes with all that the committer asks of the run. */
  predicate IsCommittable(result: AgentRunResult, candidate: CandidateState, gate: Option<Gates.GateResult>) {
    && result.candidateSql.Some? && candidate.formalSql == result.candidateSql && candidate.status.ReadyToCommit?
    && candidate.draftArtifactRef == result.candidateArtifactRef
    && gate.Some? && Gates.Passes(gate.value) && gate.value.candidateHash == Gates.Sha256(result.candidateSql.value)
  }

  // ---- From the script to the answer ----

  /** The last turn before which the trace stands. */
  function LastTurn(script: PhaseScript, trace: seq<RunView>): Turn
    requires trace != []
  {
    script.run.turn(|trace| - 1)
  }

  /** The run that the service starts for the event gets to the last turn of the trace. */
  ghost predicate GetsTo(policy: Policy, limits: AgentRunLimits, event: Event, script: PhaseScript,
                         trace: seq<RunView>) {
    && IsTrace(WithRisk(script.run, policy.allowMediumRisk), limits, event.sql, trace)
    && trace[0] == StartView()
  }

  /** It gets there within all limits. */
  ghost predicate TakesTurn(policy: Policy, limits: AgentRunLimits, event: Event, script: PhaseScript,
                            trace: seq<RunView>) {
    && GetsTo(policy, limits, event, script, trace)
    && IsTaken(WithRisk(script.run, policy.allowMediumRisk), limits, event.sql, trace[|trace| - 1], |trace| - 1)
  }

  /** The agent proposes the draft that the workspace holds, and the gates are opened for it. */
  ghost predicate Proposes(policy: Policy, limits: AgentRunLimits, event: Event, script: PhaseScript,
                           trace: seq<RunView>, draft: string) {
    && TakesTurn(policy, limits, event, script, trace) && GateOpens(script.run.gate, event.sql)
    && var turn := LastTurn(script, trace);
       && turn.reply == Acts(Propose(draft)) && turn.execution.Executed?
       && MayEnterGate(turn.execution.candidateValue, turn.execution.draftArtifactRef, draft)
  }

  /** The gate script as the service runs it. */
  function GateOf(policy: Policy, script: PhaseScript): GateScript {
    WithRisk(script.run, policy.allowMediumRisk).gate
  }

  predicate CanDeliver(script: PhaseScript) {
    !script.bookkeepingFails && script.secondLock && script.artifactExists
  }

  /** The draft clears the gates at the first evaluation, and its artifact is this attempt's own. */
  ghost predicate ReleasesDraft(policy: Policy, limits: AgentRunLimits, event: Event, script: PhaseScript, id: nat,
                                trace: seq<RunView>, draft: string) {
    && Proposes(policy, limits, event, script, trace, draft)
    && LastTurn(script, trace).execution.draftArtifactRef == Some(ArtifactRef(SafeTaskId(event.id), id, true))
    && FirstClears(policy.env, GateOf(policy, script), event.sql, draft) && CanDeliver(script)
  }

  /** The evaluator asks for another text, and the regenerated one clears the gates at the second evaluation. */
  ghost predicate ReleasesSecond(policy: Policy, limits: AgentRunLimits, event: Event, script: PhaseScript,
                                 trace: seq<RunView>, draft: string, sql: string) {
    var gate := GateOf(policy, script);
    && Proposes(policy, limits, event, script, trace, draft)
    && AsksAgain(policy.env, gate, event.sql, draft) && !gate.regenerationRaises
    && gate.regenerated == Some(sql) && sql != "" && !gate.secondBlocked
    && SecondClears(policy.env, gate, event.sql, sql) && CanDeliver(script)
  }

  /** The draft does not clear the gates and no other text is asked for. */
  ghost predicate RefusesDraft(policy: Policy, limits: AgentRunLimits, event: Event, script: PhaseScript,
                               trace: seq<RunView>, draft: string) {
    var gate := GateOf(policy, script);
    && Proposes(policy, limits, event, script, trace, draft)
    && !FirstClears(policy.env, gate, event.sql, draft) && !AsksAgain(policy.env, gate, event.sql, draft)
  }

  ghost predicate RejectsDraft(policy: Policy, event: Event, script: PhaseScript, draft: string) {
    var gate := GateOf(policy, script);
    gate.existingPlan.Some? && Gates.RejectedBy(policy.env, policy.allowMediumRisk, event.sql, draft,
                                                gate.existingPlan.value, gate.firstReflection)
  }

  /** The agent ends the run itself, with this action. */
  ghost predicate Gives(policy: Policy, limits: AgentRunLimits, event: Event, script: PhaseScript,
                        trace: seq<RunView>, action: AgentAction) {
    TakesTurn(policy, limits, event, script, trace) && LastTurn(script, trace).reply == Acts(action)
  }

  /** The run is stopped before the last turn of the trace, for this cause. */
  ghost predicate IsStopped(policy: Policy, limits: AgentRunLimits, event: Event, script: PhaseScript,
                            trace: seq<RunView>, cause: StopCause) {
    && GetsTo(policy, limits, event, script, trace)
    && StopReason(UsageOf(trace[|trace| - 1], LastTurn(script, trace).wallTimeMs), limits) == Some(cause)
  }

  /** The text that is to replace a draft is refused, too; none is refused for the draft's sake. */
  ghost predicate RefusesSecond(policy: Policy, limits: AgentRunLimits, event: Event, script: PhaseScript,
                                trace: seq<RunView>, draft: string) {
    var gate := GateOf(policy, script);
    && Proposes(policy, limits, event, script, trace, draft)
    && AsksAgain(policy.env, gate, event.sql, draft) && !gate.regenerationRaises
    && (Truthy(gate.regenerated) ==>
          !gate.secondBlocked && !SecondClears(policy.env, gate, event.sql, gate.regenerated.value))
  }

  /** No text, a rejected one, and one that clears the gates at MEDIUM risk only lead to NO_SQL. */
  ghost predicate DropsSecond(policy: Policy, event: Event, script: PhaseScript) {
    var gate := GateOf(policy, script);
    Truthy(gate.regenerated) ==>
      gate.existingPlan.Some?
      && (Gates.ClearedBy(policy.env, policy.allowMediumRisk, event.sql, gate.regenerated.value,
                          gate.existingPlan.value, gate.secondReflection)
          || Gates.RejectedBy(policy.env, policy.allowMediumRisk, event.sql, gate.regenerated.value,
                              gate.existingPlan.value, gate.secondReflection))
  }

  /** The run releases this text, as a draft or as a regenerated one. */
  ghost predicate IsReleased(policy: Policy, limits: AgentRunLimits, event: Event, script: PhaseScript, id: nat,
                             sql: string) {
    || (exists trace :: ReleasesDraft(policy, limits, event, script, id, trace, sql))
    || (exists trace, draft :: ReleasesSecond(policy, limits, event, script, trace, draft, sql))
  }

  /** `r` is what the script determines, wherever its run ends; SQL_READY is given for released texts only. */
  ghost predicate AnswersRun(policy: Policy, limits: AgentRunLimits, event: Event, script: PhaseScript, id: nat,
                             r: ExternalResult) {
    && (r.SqlReadyResult? ==> IsReleased(policy, limits, event, script, id, r.sql))
    && (forall trace, draft :: ReleasesDraft(policy, limits, event, script, id, trace, draft) ==>
          r == SqlReadyResult(draft))
    && (forall trace, draft, sql :: ReleasesSecond(policy, limits, event, script, trace, draft, sql) ==>
          r == SqlReadyResult(sql))
    && (!script.bookkeepingFails ==> AnswersRefusals(policy, limits, event, script, r))
  }

  ghost predicate AnswersRefusals(policy: Policy, limits: AgentRunLimits, event: Event, script: PhaseScript,
                                  r: ExternalResult) {
    && (forall trace, reason :: Gives(policy, limits, event, script, trace, ReturnNoSql(reason)) ==>
          r == ExternalResult.NoSqlResult(Some(reason)))
    && (forall trace, reason :: Gives(policy, limits, event, script, trace, ReturnHumanRequired(reason)) ==>
          r == HumanRequiredResult(Explained(Some(reason))))
    && (forall trace, cause :: IsStopped(policy, limits, event, script, trace, cause) ==>
          r == HumanRequiredResult(StopText(cause)))
    && (forall trace, draft :: RefusesDraft(policy, limits, event, script, trace, draft) ==>
          if RejectsDraft(policy, event, script, draft) then r.NoSqlResult? else r.HumanRequiredResult?)
    && (forall trace, draft :: RefusesSecond(policy, limits, event, script, trace, draft) ==>
          if DropsSecond(policy, event, script) then r.NoSqlResult? else r.HumanRequiredResult?)
  }

  /** The run's own end, as the service sees it. */
  ghost predicate RunEnds(policy: Policy, limits: AgentRunLimits, event: Event, script: PhaseScript, id: nat,
                          trace: seq<RunView>, outcome: RunOutcome) {
    && Ends(policy.env, limits, WithRisk(script.run, policy.allowMediumRisk), event.sql,
            ArtifactRef(SafeTaskId(event.id), id, true), trace, outcome)
    && trace[0] == StartView()
  }

  /** A turn that is taken and does not go on is where the run ended. */
  lemma TakenTurnDecides(policy: Policy, limits: AgentRunLimits, event: Event, script: PhaseScript, id: nat,
                         trace: seq<RunView>, outcome: RunOutcome, other: seq<RunView>)
    requires RunEnds(policy, limits, event, script, id, trace, outcome)
    requires TakesTurn(policy, limits, event, script, other) && !GoesOn(LastTurn(script, other))
    ensures TurnEnds(policy.env, GateOf(policy, script), event.sql, ArtifactRef(SafeTaskId(event.id), id, true),
                     LastTurn(script, other), outcome)
  {
    var run := WithRisk(script.run, policy.allowMediumRisk);
    assert forall k: nat :: run.turn(k) == script.run.turn(k);
    EndsOnce(policy.env, limits, run, event.sql, ArtifactRef(SafeTaskId(event.id), id, true), trace, outcome, other);
  }

  /** So the gates decided about a draft that was proposed. */
  lemma ProposalDecides(policy: Policy, limits: AgentRunLimits, event: Event, script: PhaseScript, id: nat,
                        trace: seq<RunView>, outcome: RunOutcome, other: seq<RunView>, draft: string)
    requires RunEnds(policy, limits, event, script, id, trace, outcome)
    requires Proposes(policy, limits, event, script, other, draft)
    ensures GateDecides(policy.env, GateOf(policy, script), event.sql, ArtifactRef(SafeTaskId(event.id), id, true),
                        draft, LastTurn(script, other).execution.draftArtifactRef, outcome)
  {
    TakenTurnDecides(policy, limits, event, script, id, trace, outcome, other);
  }

  lemma ReadyIsDelivered(s: Session, a: Attempt, event: Event, script: PhaseScript, outcome: RunOutcome,
                         candidate: CandidateState, gate: Option<Gates.GateResult>, r: ExternalResult, sql: string)
    requires ConcludesAs(s, a, event, script, outcome, candidate, gate, r) && CanDeliver(script) && sql != ""
    requires outcome == Returned(Ready(sql, Some(ArtifactRef(SafeTaskId(event.id), a.attemptId, true))))
    requires IsCommittable(outcome.result, candidate, gate)
    requires s.attemptIds != [] && a.attemptId == s.attemptIds[|s.attemptIds| - 1]
    ensures r == SqlReadyResult(sql)
  {
    assert CommitAllowed(s, a, candidate, gate.value, SafeTaskId(event.id), script.artifactExists);
  }

  lemma DraftIsAnswered(policy: Policy, limits: AgentRunLimits, event: Event, script: PhaseScript, s: Session,
                        a: Attempt, trace: seq<RunView>, outcome: RunOutcome, candidate: CandidateState,
                        gate: Option<Gates.GateResult>, r: ExternalResult, other: seq<RunView>, draft: string)
    requires RunEnds(policy, limits, event, script, a.attemptId, trace, outcome)
    requires ConcludesAs(s, a, event, script, outcome, candidate, gate, r)
    requires IsReady(outcome) ==> IsCommittable(outcome.result, candidate, gate)
    requires s.attemptIds != [] && a.attemptId == s.attemptIds[|s.attemptIds| - 1]
    requires ReleasesDraft(policy, limits, event, script, a.attemptId, other, draft)
    ensures r == SqlReadyResult(draft)
  {
    ProposalDecides(policy, limits, event, script, a.attemptId, trace, outcome, other, draft);
    ReadyIsDelivered(s, a, event, script, outcome, candidate, gate, r, draft);
  }

  lemma SecondIsAnswered(policy: Policy, limits: AgentRunLimits, event: Event, script: PhaseScript, s: Session,
                         a: Attempt, trace: seq<RunView>, outcome: RunOutcome, candidate: CandidateState,
                         gate: Option<Gates.GateResult>, r: ExternalResult, other: seq<RunView>, draft: string,
                         sql: string)
    requires RunEnds(policy, limits, event, script, a.attemptId, trace, outcome)
    requires ConcludesAs(s, a, event, script, outcome, candidate, gate, r)
    requires IsReady(outcome) ==> IsCommittable(outcome.result, candidate, gate)
    requires s.attemptIds != [] && a.attemptId == s.attemptIds[|s.attemptIds| - 1]
    requires ReleasesSecond(policy, limits, event, script, other, draft, sql)
    ensures r == SqlReadyResult(sql)
  {
    ProposalDecides(policy, limits, event, script, a.attemptId, trace, outcome, other, draft);
    ReadyIsDelivered(s, a, event, script, outcome, candidate, gate, r, sql);
  }

  lemma RefusalsAreAnswered(policy: Policy, limits: AgentRunLimits, event: Event, script: PhaseScript, s: Session,
                            a: Attempt, trace: seq<RunView>, outcome: RunOutcome, candidate: CandidateState,
                            gate: Option<Gates.GateResult>, r: ExternalResult)
    requires RunEnds(policy, limits, event, script, a.attemptId, trace, outcome)
    requires ConcludesAs(s, a, event, script, outcome, candidate, gate, r) && !script.bookkeepingFails
    ensures AnswersRefusals(policy, limits, event, script, r)
  {
    forall other, reason | Gives(policy, limits, event, script, other, ReturnNoSql(reason))
      ensures r == ExternalResult.NoSqlResult(Some(reason))
    {
      TakenTurnDecides(policy, limits, event, script, a.attemptId, trace, outcome, other);
    }
    forall other, reason | Gives(policy, limits, event, script, other, ReturnHumanRequired(reason))
      ensures r == HumanRequiredResult(Explained(Some(reason)))
    {
      TakenTurnDecides(policy, limits, event, script, a.attemptId, trace, outcome, other);
    }
    forall other, cause | IsStopped(policy, limits, event, script, other, cause)
      ensures r == HumanRequiredResult(StopText(cause))
    {
      StopDecides(policy, limits, event, script, a.attemptId, trace, outcome, other, cause);
    }
    forall other, draft | RefusesDraft(policy, limits, event, script, other, draft)
      ensures if RejectsDraft(policy, event, script, draft) then r.NoSqlResult? else r.HumanRequiredResult?
    {
      ProposalDecides(policy, limits, event, script, a.attemptId, trace, outcome, other, draft);
    }
    forall other, draft | RefusesSecond(policy, limits, event, script, other, draft)
      ensures if DropsSecond(policy, event, script) then r.NoSqlResult? else r.HumanRequiredResult?
    {
      SecondRefusalIsAnswered(policy, limits, event, script, s, a, trace, outcome, candidate, gate, r, other, draft);
    }
  }

  lemma SecondRefusalIsAnswered(policy: Policy, limits: AgentRunLimits, event: Event, script: PhaseScript, s: Session,
                                a: Attempt, trace: seq<RunView>, outcome: RunOutcome, candidate: CandidateState,
                                gate: Option<Gates.GateResult>, r: ExternalResult, other: seq<RunView>,
                                draft: string)
    requires RunEnds(policy, limits, event, script, a.attemptId, trace, outcome)
    requires ConcludesAs(s, a, event, script, outcome, candidate, gate, r) && !script.bookkeepingFails
    requires RefusesSecond(policy, limits, event, script, other, draft)
    ensures if DropsSecond(policy, event, script) then r.NoSqlResult? else r.HumanRequiredResult?
  {
    ProposalDecides(policy, limits, event, script, a.attemptId, trace, outcome, other, draft);
    AskingIsRejecting(policy.env, GateOf(policy, script), event.sql, draft);
  }

  /** A draft for which another text is asked does not clear the gates; it counts as rejected. */
  lemma AskingIsRejecting(env: Gates.GateEnv, gate: GateScript, failedSql: string, draft: string)
    requires AsksAgain(env, gate, failedSql, draft)
    ensures !FirstClears(env, gate, failedSql, draft)
    ensures Gates.RejectedBy(env, gate.allowMediumRisk, failedSql, draft, gate.existingPlan.value,
                             gate.firstReflection)
  {}

  /** A SQL_READY answer comes from a turn that released its text. */
  lemma ReadyIsReleased(policy: Policy, limits: AgentRunLimits, event: Event, script: PhaseScript, s: Session,
                        a: Attempt, trace: seq<RunView>, outcome: RunOutcome, candidate: CandidateState,
                        gate: Option<Gates.GateResult>, r: ExternalResult)
    requires RunEnds(policy, limits, event, script, a.attemptId, trace, outcome)
    requires ConcludesAs(s, a, event, script, outcome, candidate, gate, r) && r.SqlReadyResult?
    requires IsCommittable(outcome.result, candidate, gate)
    ensures IsReleased(policy, limits, event, script, a.attemptId, r.sql)
  {
    var run := WithRisk(script.run, policy.allowMediumRisk);
    var turn := run.turn(|trace| - 1);
    assert turn == LastTurn(script, trace);
    assert TurnEnds(policy.env, run.gate, event.sql, ArtifactRef(SafeTaskId(event.id), a.attemptId, true), turn,
                    outcome);
    var draft := ReadyIsProposed(policy.env, run.gate, event.sql,
                                 ArtifactRef(SafeTaskId(event.id), a.attemptId, true), turn, outcome);
    if r.sql == draft && FirstClears(policy.env, run.gate, event.sql, draft) {
      assert ReleasesDraft(policy, limits, event, script, a.attemptId, trace, draft);
    } else {
      assert ReleasesSecond(policy, limits, event, script, trace, draft, r.sql);
    }
  }

  lemma ReadyIsProposed(env: Gates.GateEnv, gate: GateScript, failedSql: string, secondRef: ArtifactRef, turn: Turn,
                        outcome: RunOutcome)
    returns (draft: string)
    requires TurnEnds(env, gate, failedSql, secondRef, turn, outcome)
    requires outcome.Returned? && outcome.result.status.CandidateReady?
    ensures turn.reply == Acts(Propose(draft)) && turn.execution.Executed?
    ensures MayEnterGate(turn.execution.candidateValue, turn.execution.draftArtifactRef, draft)
    ensures GateOpens(gate, failedSql)
    ensures if FirstClears(env, gate, failedSql, draft)
            then outcome.result == Ready(draft, turn.execution.draftArtifactRef)
            else
              && AsksAgain(env, gate, failedSql, draft) && !gate.regenerationRaises && Truthy(gate.regenerated)
              && !gate.secondBlocked && SecondClears(env, gate, failedSql, gate.regenerated.value)
              && outcome.result == Ready(gate.regenerated.value, Some(secondRef))
  {
    draft := turn.reply.action.candidateSql;
  }

  lemma StopDecides(policy: Policy, limits: AgentRunLimits, event: Event, script: PhaseScript, id: nat,
                    trace: seq<RunView>, outcome: RunOutcome, other: seq<RunView>, cause: StopCause)
    requires RunEnds(policy, limits, event, script, id, trace, outcome)
    requires IsStopped(policy, limits, event, script, other, cause)
    ensures outcome == Stop(HumanResult, cause)
  {
    var run := WithRisk(script.run, policy.allowMediumRisk);
    assert forall k: nat :: run.turn(k) == script.run.turn(k);
    StopsOnce(policy.env, limits, run, event.sql, ArtifactRef(SafeTaskId(event.id), id, true), trace, outcome, other,
              cause);
  }

  /** Whatever the run comes to, the answer is the one that the script determines. */
  lemma RunIsAnswered(policy: Policy, limits: AgentRunLimits, event: Event, script: PhaseScript, s: Session,
                      a: Attempt, trace: seq<RunView>, outcome: RunOutcome, candidate: CandidateState,
                      gate: Option<Gates.GateResult>, r: ExternalResult)
    requires RunEnds(policy, limits, event, script, a.attemptId, trace, outcome)
    requires ConcludesAs(s, a, event, script, outcome, candidate, gate, r)
    requires IsReady(outcome) ==> IsCommittable(outcome.result, candidate, gate)
    requires s.attemptIds != [] && a.attemptId == s.attemptIds[|s.attemptIds| - 1]
    ensures AnswersRun(policy, limits, event, script, a.attemptId, r)
  {
    forall other, draft | ReleasesDraft(policy, limits, event, script, a.attemptId, other, draft)
      ensures r == SqlReadyResult(draft)
    {
      DraftIsAnswered(policy, limits, event, script, s, a, trace, outcome, candidate, gate, r, other, draft);
    }
    forall other, draft, sql | ReleasesSecond(policy, limits, event, script, other, draft, sql)
      ensures r == SqlReadyResult(sql)
    {
      SecondIsAnswered(policy, limits, event, script, s, a, trace, outcome, candidate, gate, r, other, draft, sql);
    }
    if r.SqlReadyResult? {
      ReadyIsReleased(policy, limits, event, script, s, a, trace, outcome, candidate, gate, r);
    }
    if !script.bookkeepingFails {
      RefusalsAreAnswered(policy, limits, event, script, s, a, trace, outcome, candidate, gate, r);
    }
  }

  /**
    * An agent that works for a few turns, all within the limits, and then proposes the draft in the workspace gets
    * SQL_READY with that draft when it clears the gates.
    */
  lemma ShortProposalIsDelivered(policy: Policy, limits: AgentRunLimits, event: Event, script: PhaseScript, id: nat,
                                 r: ExternalResult, k: nat, draft: string)
    requires AnswersRun(policy, limits, event, script, id, r) && CanDeliver(script)
    requires IsShort(script.run, limits, event.sql, k) && forall j :: 0 <= j < k ==> GoesOn(script.run.turn(j))
    requires var turn, own := script.run.turn(k), ArtifactRef(SafeTaskId(event.id), id, true);
             && turn.reply == Acts(Propose(draft)) && turn.execution.Executed?
             && turn.execution.draftArtifactRef == Some(own)
             && turn.execution.candidateValue == Some(WorkspaceValue(true, Some(draft), Some(own)))
    requires draft != "" && GateOpens(script.run.gate, event.sql)
             && FirstClears(policy.env, GateOf(policy, script), event.sql, draft)
    ensures r == SqlReadyResult(draft)
  {
    var run := WithRisk(script.run, policy.allowMediumRisk);
    assert forall j: nat :: run.turn(j) == script.run.turn(j);
    StartIsStart();
    var trace := ShortRunIsTaken(StartView(), run, limits, event.sql, k);
    assert ReleasesDraft(policy, limits, event, script, id, trace, draft);
  }
}
