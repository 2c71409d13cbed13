/** The gate step of a run: one pass through the gates and at most one regenerated candidate. */
module OnlineGate {
  import opened Options
  import opened RepairModels
  import opened RunStates
  import opened SqlDiff
  import opened Gates
  import opened AgentContexts

  /** Everything the gate step takes from outside: the collected plan, the evaluator, the generator, failures. */
  datatype GateScript = GateScript(
    evidenceMissing: bool,
    existingPlan: Option<RepairPlan>,
    allowMediumRisk: bool,
    firstBlocked: bool,
    firstReflection: Reflection,
    regenerationRaises: bool,
    regenerated: Option<string>,
    secondBlocked: bool,
    secondReflection: Reflection)

  datatype GateOutcome = GateRaised | GateReturned(result: AgentRunResult)

  /** The text that a run of this script may release: the draft judged first, or the regenerated text judged second. */
  predicate MayRelease(script: GateScript, draft: string, sql: string, reflection: Reflection) {
    || (sql == draft && reflection == script.firstReflection)
    || (script.regenerated == Some(sql) && reflection == script.secondReflection)
  }

  /**
    * `sql` is the draft or the text regenerated for it, and it cleared all gates with this script's own plan and with
    * the evaluator's answer about it.
    */
  ghost predicate ClearedInRun(env: GateEnv, allowMediumRisk: bool, script: GateScript, failedSql: string,
                               draft: string, sql: string) {
    && script.existingPlan.Some?
    && exists reflection :: MayRelease(script, draft, sql, reflection)
                            && ClearedBy(env, allowMediumRisk, failedSql, sql, script.existingPlan.value, reflection)
  }

  /** Nothing fails before the first text is judged. */
  predicate GateOpens(script: GateScript, failedSql: string) {
    !script.evidenceMissing && failedSql != "" && !script.firstBlocked
  }

  ghost predicate FirstClears(env: GateEnv, script: GateScript, failedSql: string, draft: string) {
    && script.existingPlan.Some?
    && ClearedBy(env, script.allowMediumRisk, failedSql, draft, script.existingPlan.value, script.firstReflection)
  }

  /** The regenerated text is released at LOW risk only. */
  ghost predicate SecondClears(env: GateEnv, script: GateScript, failedSql: string, sql: string) {
    && script.existingPlan.Some?
    && ClearedBy(env, false, failedSql, sql, script.existingPlan.value, script.secondReflection)
  }

  /** The draft is statically allowed, but the evaluator asks for another text and says how. */
  ghost predicate AsksAgain(env: GateEnv, script: GateScript, failedSql: string, draft: string) {
    && script.existingPlan.Some?
    && StaticallyAllowed(env, script.allowMediumRisk, failedSql, draft, script.existingPlan.value)
    && script.firstReflection.Reflected? && script.firstReflection.decision.Regenerate?
    && Truthy(script.firstReflection.instruction)
  }

  /** A text that is not released leads to NO_SQL, and to a human when it is neither cleared nor rejected. */
  ghost predicate Refuses(env: GateEnv, script: GateScript, failedSql: string, sql: string, reflection: Reflection,
                          result: AgentRunResult) {
    && (result.status.HumanResult? || result.status.NoSqlResult?) && result.candidateSql.None?
    && (result.status.NoSqlResult? <==>
          script.existingPlan.Some?
          && (ClearedBy(env, script.allowMediumRisk, failedSql, sql, script.existingPlan.value, reflection)
              || RejectedBy(env, script.allowMediumRisk, failedSql, sql, script.existingPlan.value, reflection)))
  }

  function Ready(sql: string, ref: Option<ArtifactRef>): AgentRunResult {
    AgentRunResult(CandidateReady, Some(sql), ref, None, None)
  }

  /** How the gate step ends for a draft, in every case. */
  ghost predicate GateEnds(env: GateEnv, script: GateScript, failedSql: string, draft: string,
                           draftRef: Option<ArtifactRef>, secondRef: ArtifactRef, outcome: GateOutcome) {
    if !GateOpens(script, failedSql) then
      outcome.GateRaised?
    else if FirstClears(env, script, failedSql, draft) then
      outcome == GateReturned(Ready(draft, draftRef))
    else if AsksAgain(env, script, failedSql, draft) && script.regenerationRaises then
      outcome.GateRaised?
    else if !AsksAgain(env, script, failedSql, draft) || !Truthy(script.regenerated) then
      outcome.GateReturned? && Refuses(env, script, failedSql, draft, script.firstReflection, outcome.result)
    else if script.secondBlocked then
      outcome.GateRaised?
    else if SecondClears(env, script, failedSql, script.regenerated.value) then
      outcome == GateReturned(Ready(script.regenerated.value, Some(secondRef)))
    else
      outcome.GateReturned?
      && Refuses(env, script, failedSql, script.regenerated.value, script.secondReflection, outcome.result)
  }

  /**
    * What a caller may rely on when a candidate is ready: everything the committer checks, and that it cleared the
    * gates.
    */
  ghost predicate IsDeliverable(env: GateEnv, context: AgentContext, runner: GateRunner, script: GateScript,
                                draft: string, result: AgentRunResult)
    reads context, runner
  {
    && result.status.CandidateReady? && result.candidateSql.Some?
    && context.candidate.status.ReadyToCommit? && context.candidate.formalSql == result.candidateSql
    && result.candidateArtifactRef == context.candidate.draftArtifactRef
    && runner.lastResult.Some? && Passes(runner.lastResult.value)
    && runner.lastResult.value.candidateHash == Sha256(result.candidateSql.value)
    && runner.executionOrder == [StaticValidationGate, SemanticPreReflectionGate, OutputContractGate]
    && ClearedInRun(env, script.allowMediumRisk, script, context.originalSql, draft, result.candidateSql.value)
  }

  function StatusOf(decision: Decision): (RunStatus, ResultStatus) {
    if decision == Decision.HumanRequired then (RunStatus.HumanRequired, HumanResult) else (NoSql, NoSqlResult)
  }

  function ReasonOf(r: GateResult): Option<string> {
    if r.feedback != [] then Some(r.feedback[0].message) else Some("gate decision")
  }

  /** The first pass: on success the draft becomes the formal candidate. */
  method RunGate(env: GateEnv, runner: GateRunner, context: AgentContext, state: AgentRunState,
                 request: GateRequest, reflection: Reflection)
    returns (result: AgentRunResult)
    modifies runner, context`candidate, state`status
    ensures runner.lastResult.Some?
    ensures context.candidate.draftSql == old(context.candidate.draftSql)
    ensures context.candidate.draftArtifactRef == old(context.candidate.draftArtifactRef)
    ensures result.status.CandidateReady? <==>
              && request.existingPlan.Some?
              && ClearedBy(env, request.allowMediumRisk, request.originalSql, request.candidateSql,
                           request.existingPlan.value, reflection)
    ensures result.status.CandidateReady? ==>
              && context.candidate.formalSql == context.candidate.draftSql == result.candidateSql
              && context.candidate.status.ReadyToCommit?
              && result.candidateArtifactRef == context.candidate.draftArtifactRef
              && Passes(runner.lastResult.value)
              && runner.lastResult.value.candidateHash == Sha256(request.candidateSql)
              && runner.executionOrder == [StaticValidationGate, SemanticPreReflectionGate, OutputContractGate]
    ensures !result.status.CandidateReady? ==> context.candidate.formalSql == old(context.candidate.formalSql)
    ensures WantsRegeneration(runner.lastResult.value) ==> !result.status.CandidateReady?
    ensures WantsRegeneration(runner.lastResult.value) <==>
              && request.existingPlan.Some?
              && StaticallyAllowed(env, request.allowMediumRisk, request.originalSql, request.candidateSql,
                                   request.existingPlan.value)
              && reflection.Reflected? && reflection.decision.Regenerate? && Truthy(reflection.instruction)
    ensures result.status.CandidateReady? ==>
              result == AgentRunResult(CandidateReady, old(context.candidate.draftSql),
                                       old(context.candidate.draftArtifactRef), None, None)
    ensures !result.status.CandidateReady? ==>
              && result.candidateSql.None?
              && (result.status.NoSqlResult? <==>
                    request.existingPlan.Some?
                    && RejectedBy(env, request.allowMediumRisk, request.originalSql, request.candidateSql,
                                  request.existingPlan.value, reflection))
    ensures !result.status.FailedResult?
    ensures state.status == if result.status.CandidateReady? then Succeeded
                            else if result.status.HumanResult? then RunStatus.HumanRequired else NoSql
  {
    var r := runner.RunRequest(env, request, reflection);
    context.candidate := context.candidate.(gateFeedback := context.candidate.gateFeedback + r.feedback);
    if r.decision.Pass? || (r.decision.PassWithWarning? && request.allowMediumRisk) {
      context.candidate := context.candidate.(formalSql := context.candidate.draftSql, status := ReadyToCommit);
      state.status := Succeeded;
      return AgentRunResult(CandidateReady, context.candidate.formalSql, context.candidate.draftArtifactRef, None,
                            None);
    }
    context.candidate := context.candidate.(status := GateRejected);
    state.status := StatusOf(r.decision).0;
    return AgentRunResult(StatusOf(r.decision).1, None, None, ReasonOf(r), None);
  }

  /** The repair pass; a spent budget leaves the runner's last result as it was. */
  method RunRepair(env: GateEnv, runner: GateRunner, state: AgentRunState, request: GateRequest, repaired: string,
                   reflection: Reflection)
    returns (r: GateResult)
    modifies runner, state`gateRepairRounds
    ensures old(state.gateRepairRounds) >= 1 ==>
              r.decision == Decision.HumanRequired && state.gateRepairRounds == old(state.gateRepairRounds)
              && runner.lastResult == old(runner.lastResult)
    ensures old(state.gateRepairRounds) < 1 ==>
              && state.gateRepairRounds == old(state.gateRepairRounds) + 1
              && runner.lastResult == Some(r) && r.candidateHash == Sha256(repaired)
              && (r.decision.Pass? ==>
                    runner.executionOrder == [StaticValidationGate, SemanticPreReflectionGate, OutputContractGate])
              && (r.decision.Pass? <==>
                    request.existingPlan.Some?
                    && ClearedBy(env, false, request.originalSql, repaired, request.existingPlan.value, reflection))
              && (Passes(r) <==>
                    request.existingPlan.Some?
                    && ClearedBy(env, request.allowMediumRisk, request.originalSql, repaired,
                                 request.existingPlan.value, reflection))
              && (r.decision.Reject? <==>
                    request.existingPlan.Some?
                    && RejectedBy(env, request.allowMediumRisk, request.originalSql, repaired,
                                  request.existingPlan.value, reflection))
  {
    if state.gateRepairRounds >= 1 {
      return MakeResult(GateRunnerGate, repaired, Decision.HumanRequired, High,
                        Some("GATE_REPAIR_BUDGET_EXHAUSTED"), Some("repair budget exhausted"));
    }
    state.gateRepairRounds := state.gateRepairRounds + 1;
    r := runner.RunRequest(env, request.(candidateSql := repaired), reflection);
  }

  /**
    * The whole gate step. A candidate comes out ready only if the text that is ready, the draft or the one regenerated
    * for it, went through all gates.
    */
  method RunOnlineGate(env: GateEnv, runner: GateRunner, context: AgentContext, state: AgentRunState,
                       script: GateScript)
    returns (outcome: GateOutcome)
    requires !Truthy(context.candidate.formalSql)
    modifies runner, context`candidate, state`status, state`gateRepairRounds
    ensures outcome.GateReturned? && outcome.result.status.CandidateReady? ==>
              && old(context.candidate.draftSql).Some?
              && IsDeliverable(env, context, runner, script, old(context.candidate.draftSql).value, outcome.result)
    ensures old(state.gateRepairRounds) <= state.gateRepairRounds
    ensures state.gateRepairRounds <= if old(state.gateRepairRounds) < 1 then old(state.gateRepairRounds) + 1
                                      else old(state.gateRepairRounds)
    ensures outcome.GateReturned? ==> !outcome.result.status.FailedResult? && state.status != Running
    ensures old(state.gateRepairRounds) < 1 && Truthy(old(context.candidate.draftSql)) ==>
              GateEnds(env, script, context.originalSql, old(context.candidate.draftSql).value,
                       old(context.candidate.draftArtifactRef),
                       ArtifactRef(context.sessionId, context.attemptId, true), outcome)
  {
    if script.evidenceMissing || context.originalSql == "" || !Truthy(context.candidate.draftSql) { return GateRaised; }
    var candidateSql := context.candidate.draftSql.value;
    var request := GateRequest(context.originalSql, candidateSql, script.existingPlan, script.allowMediumRisk);
    if script.firstBlocked { return GateRaised; }
    var first := RunGate(env, runner, context, state, request, script.firstReflection);
    if first.status.CandidateReady? {
      assert MayRelease(script, candidateSql, candidateSql, script.firstReflection);
      assert ClearedInRun(env, script.allowMediumRisk, script, context.originalSql, candidateSql, candidateSql);
    }
    if !WantsRegeneration(runner.lastResult.value) || state.gateRepairRounds >= 1 { return GateReturned(first); }
    if script.regenerationRaises { return GateRaised; }
    if !Truthy(script.regenerated) { return GateReturned(first); }
    var candidate := script.regenerated.value;
    var ref := ArtifactRef(context.sessionId, context.attemptId, true);
    context.candidate :=
      context.candidate.(draftSql := Some(candidate), draftArtifactRef := Some(ref), gateFeedback := []);
    if script.secondBlocked { return GateRaised; }
    var repaired := RunRepair(env, runner, state, request, candidate, script.secondReflection);
    if repaired.decision.Pass? {
      assert MayRelease(script, candidateSql, candidate, script.secondReflection);
      context.candidate := context.candidate.(formalSql := Some(candidate), status := ReadyToCommit);
      state.status := Succeeded;
      return GateReturned(AgentRunResult(CandidateReady, Some(candidate), Some(ref), None, None));
    }
    context.candidate := context.candidate.(status := GateRejected);
    state.status := StatusOf(repaired.decision).0;
    return GateReturned(AgentRunResult(StatusOf(repaired.decision).1, None, None, ReasonOf(repaired), None));
  }
}
