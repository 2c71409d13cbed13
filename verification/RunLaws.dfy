/** What a run's counters, observations and plan do over many turns. */
module RunLaws {
  import opened Options
  import opened RunStates
  import opened ExecutionPlans
  import opened PlanLaws
  import opened ContextTrim
  import opened RunScripts

  // ---- Progress ----

  /** The same action with the same summary, artifacts and workspace keys. */
  predicate IsRepeated(o: Observation, p: Observation) {
    && o.actionType == p.actionType && o.summary == p.summary && o.artifactRefs == p.artifactRefs
    && o.producedWorkspaceKeys == p.producedWorkspaceKeys
  }

  /** An observation is progress exactly when no earlier one is like it. */
  lemma ProgressIsNews(o: Observation, previous: seq<Observation>)
    ensures MadeProgress(o, previous) <==> forall i :: 0 <= i < |previous| ==> !IsRepeated(o, previous[i])
  {
    if MadeProgress(o, previous) {
      forall i | 0 <= i < |previous| ensures !IsRepeated(o, previous[i]) { assert previous[i] in previous; }
    }
  }

  /** The agent calls tools in every turn before `k`, and every call is observed like `o`. */
  ghost predicate RepeatsItself(script: RunScript, k: nat, o: Observation) {
    !script.compacts && forall j :: 0 <= j < k ==> RepeatsAt(script, j, o)
  }

  ghost predicate RepeatsAt(script: RunScript, j: nat, o: Observation) {
    var turn := script.turn(j);
    && turn.reply == Acts(AgentAction.ToolCall) && turn.execution.Executed?
    && IsRepeated(turn.execution.observation, o)
  }

  ghost predicate AllLike(observations: seq<Observation>, o: Observation) {
    forall i :: 0 <= i < |observations| ==> IsRepeated(observations[i], o)
  }

  /** A run that repeats itself makes progress once; after that every turn counts against it. */
  lemma {:induction false} RepetitionIsNoProgress(script: RunScript, limits: AgentRunLimits, originalSql: string,
                                                  trace: seq<RunView>, k: nat, o: Observation)
    requires IsTrace(script, limits, originalSql, trace) && k < |trace|
    requires trace[0].observations == [] && trace[0].noProgressSteps == 0 && RepeatsItself(script, k, o)
    ensures |trace[k].observations| == k && AllLike(trace[k].observations, o)
    ensures trace[k].noProgressSteps == if k == 0 then 0 else k - 1
  {
    if k > 0 {
      RepetitionIsNoProgress(script, limits, originalSql, trace, k - 1, o);
      assert RepeatsAt(script, k - 1, o);
      StepOfTrace(script, limits, originalSql, trace, k - 1);
      RepeatedTurn(trace[k - 1], script.turn(k - 1), o);
    }
  }

  lemma RepeatedTurn(v: RunView, turn: Turn, o: Observation)
    requires turn.reply == Acts(AgentAction.ToolCall) && turn.execution.Executed?
             && IsRepeated(turn.execution.observation, o)
    requires AllLike(v.observations, o)
    ensures var w := AfterTurn(v, turn, false);
            && |w.observations| == |v.observations| + 1 && AllLike(w.observations, o)
            && w.noProgressSteps == if v.observations == [] then 0 else v.noProgressSteps + 1
  {
    var bound := Bound(v.plan, turn.reply.action, turn.execution.observation);
    ProgressIsNews(bound, v.observations);
    if v.observations != [] { assert IsRepeated(bound, v.observations[0]); }
  }

  /** So it is stopped, however many steps it has left. */
  lemma RepetitionIsStopped(script: RunScript, limits: AgentRunLimits, originalSql: string, trace: seq<RunView>,
                            o: Observation)
    requires IsTrace(script, limits, originalSql, trace) && trace[0].observations == [] && IsStart(trace[0])
    requires RepeatsItself(script, |trace| - 1, o) && |trace| - 2 >= limits.maxNoProgressSteps && |trace| >= 2
    ensures StopReason(UsageOf(trace[|trace| - 1], script.turn(|trace| - 1).wallTimeMs), limits).Some?
  {
    var k := |trace| - 1;
    RepetitionIsNoProgress(script, limits, originalSql, trace, k, o);
    NoStopReasonIff(UsageOf(trace[k], script.turn(k).wallTimeMs), limits);
    CheckedCauses();
    assert IsUsedUp(UsageOf(trace[k], script.turn(k).wallTimeMs), limits, CHECKED[6]);
  }

  /** Before every turn up to `k` the agent submits a plan that is rejected. */
  ghost predicate OnlyRejected(script: RunScript, trace: seq<RunView>, k: nat)
    requires k <= |trace|
  {
    forall j :: 0 <= j < k ==> RejectedAt(script, trace, j)
  }

  ghost predicate RejectedAt(script: RunScript, trace: seq<RunView>, j: nat)
    requires j < |trace|
  {
    var reply := script.turn(j).reply;
    reply.Acts? && reply.action.UpdatePlan?
    && !Accepts(trace[j].plan, reply.action.plan, trace[j].planRevisionCount)
  }

  /** A rejected plan changes nothing but the count of turns without progress. */
  lemma {:induction false} RejectionIsNoProgress(script: RunScript, limits: AgentRunLimits, originalSql: string,
                                                 trace: seq<RunView>, k: nat)
    requires IsTrace(script, limits, originalSql, trace) && k < |trace| && OnlyRejected(script, trace, k)
    requires trace[0].noProgressSteps == 0
    ensures trace[k].noProgressSteps == k && trace[k].plan == trace[0].plan
    ensures trace[k].planRevisionCount == trace[0].planRevisionCount
  {
    if k > 0 {
      RejectionIsNoProgress(script, limits, originalSql, trace, k - 1);
      assert RejectedAt(script, trace, k - 1);
      RejectedStep(script, limits, originalSql, trace, k - 1);
    }
  }

  lemma RejectedStep(script: RunScript, limits: AgentRunLimits, originalSql: string, trace: seq<RunView>, j: nat)
    requires IsTrace(script, limits, originalSql, trace) && j < |trace| - 1 && RejectedAt(script, trace, j)
    ensures trace[j + 1].plan == trace[j].plan && trace[j + 1].planRevisionCount == trace[j].planRevisionCount
    ensures trace[j + 1].noProgressSteps == trace[j].noProgressSteps + 1
  {
    StepOfTrace(script, limits, originalSql, trace, j);
    RejectedTurn(trace[j], script.turn(j), script.compacts);
  }

  lemma RejectedTurn(v: RunView, turn: Turn, compacts: bool)
    requires turn.reply.Acts? && turn.reply.action.UpdatePlan?
             && !Accepts(v.plan, turn.reply.action.plan, v.planRevisionCount)
    ensures var w := AfterTurn(v, turn, compacts);
            && w.plan == v.plan && w.planRevisionCount == v.planRevisionCount
            && w.noProgressSteps == v.noProgressSteps + 1
  {}

  /** So an agent that submits only rejected plans is stopped, too. */
  lemma RejectionIsStopped(script: RunScript, limits: AgentRunLimits, originalSql: string, trace: seq<RunView>)
    requires IsTrace(script, limits, originalSql, trace) && OnlyRejected(script, trace, |trace| - 1)
    requires trace[0].noProgressSteps == 0 && |trace| - 1 >= limits.maxNoProgressSteps
    ensures StopReason(UsageOf(trace[|trace| - 1], script.turn(|trace| - 1).wallTimeMs), limits).Some?
  {
    var k := |trace| - 1;
    RejectionIsNoProgress(script, limits, originalSql, trace, k);
    NoStopReasonIff(UsageOf(trace[k], script.turn(k).wallTimeMs), limits);
    CheckedCauses();
  }

  /** An accepted plan is progress: it clears that count, counts as one revision and replaces the plan. */
  lemma AcceptedTurn(v: RunView, turn: Turn, compacts: bool)
    requires turn.reply.Acts? && turn.reply.action.UpdatePlan?
             && Accepts(v.plan, turn.reply.action.plan, v.planRevisionCount)
    ensures var w := AfterTurn(v, turn, compacts);
            && w.plan == turn.reply.action.plan.(revision := v.plan.revision + 1)
            && w.planRevisionCount == v.planRevisionCount + 1 && w.noProgressSteps == 0
  {}

  // ---- Failed steps ----

  /** The plans of a run without replanning, and the observations between them. */
  lemma TraceIsObserved(script: RunScript, limits: AgentRunLimits, originalSql: string, trace: seq<RunView>)
    returns (plans: seq<Plan>, observations: seq<Observation>)
    requires IsTrace(script, limits, originalSql, trace) && NeverReplans(script)
    ensures IsObserved(plans, observations) && |plans| == |trace|
    ensures forall i :: 0 <= i < |trace| ==> plans[i] == trace[i].plan
    ensures forall i :: 0 <= i < |observations| ==> IsObservationAt(script, trace, observations[i], i)
  {
    plans := seq(|trace|, i requires 0 <= i < |trace| => trace[i].plan);
    observations := seq(|trace| - 1, i requires 0 <= i < |trace| - 1 => ObservationAt(script, trace, i));
    forall i | 0 <= i < |observations|
      ensures ObservesAt(plans, observations, i) && IsObservationAt(script, trace, observations[i], i)
    {
      StepOfTrace(script, limits, originalSql, trace, i);
      assert KeepsPlan(script.turn(i));
      PlanAfterTurn(trace[i], script.turn(i), script.compacts);
    }
  }

  /** What turn `i` is observed as, bound to the step selected then. */
  function ObservationAt(script: RunScript, trace: seq<RunView>, i: nat): Observation
    requires i < |trace|
  {
    var execution := script.turn(i).execution;
    if execution.Executed? then execution.observation.(planStepId := trace[i].plan.currentStepId)
    else Observation("", ActionFailed, "", [], [], None)
  }

  ghost predicate IsObservationAt(script: RunScript, trace: seq<RunView>, o: Observation, i: nat)
    requires i < |trace|
  {
    script.turn(i).execution.Executed? && o == ObservationAt(script, trace, i)
  }

  /**
    * In a run without replanning, a step whose call fails or is blocked is never selected again, and neither is any
    * step that depends on it, directly or through others.
    */
  lemma FailedCallStopsDependents(script: RunScript, limits: AgentRunLimits, originalSql: string, trace: seq<RunView>,
                                  i: nat, k: nat, j: nat, p: seq<string>, dependent: string)
    requires IsTrace(script, limits, originalSql, trace) && NeverReplans(script) && RunsInOrder(trace[0].plan)
    requires i < j < |trace| && UniqueIds(trace[i].plan.steps) && k < |trace[i].plan.steps|
    requires trace[i].plan.currentStepId == Some(trace[i].plan.steps[k].stepId)
             && Truthy(trace[i].plan.currentStepId)
    requires var execution := script.turn(i).execution;
             && execution.Executed?
             && (execution.observation.status.ActionFailed? || execution.observation.status.ActionBlocked?)
    requires LeadsTo(trace[i].plan.steps, p, dependent, trace[i].plan.steps[k].stepId)
    ensures trace[j].plan.currentStepId != Some(dependent)
  {
    var plans, observations := TraceIsObserved(script, limits, originalSql, trace);
    assert IsObservationAt(script, trace, observations[i], i);
    FailureStopsDependents(plans, observations, i, k, j, p, dependent);
  }

  // ---- The observations that stay in the context ----

  /** Same kind of action, same outcome, same summary. */
  predicate HaveOneMarker(o: Observation, p: Observation) {
    o.actionType == p.actionType && o.status == p.status && o.summary == p.summary
  }

  /** Kept is the newest of those alike, unless it is finished work with artifacts of another step. */
  lemma IsKeptIff(log: seq<Observation>, i: nat, currentStepId: Option<string>)
    requires i < |log|
    ensures IsKept(log, i, currentStepId) <==>
              && (forall j :: i < j < |log| ==> !HaveOneMarker(log[j], log[i]))
              && !(log[i].status.ActionSucceeded? && log[i].artifactRefs != [] && log[i].planStepId != currentStepId)
  {
    if IsNewest(log, i) {
      forall j | i < j < |log| ensures !HaveOneMarker(log[j], log[i]) { assert Marker(log[j]) != Marker(log[i]); }
    }
    if forall j :: i < j < |log| ==> !HaveOneMarker(log[j], log[i]) {
      forall j | i < j < |log| ensures Marker(log[j]) != Marker(log[i]) {
        assert !HaveOneMarker(log[j], log[i]);
      }
    }
  }

  lemma {:induction false} KeptAreKept(log: seq<Observation>, i: nat, currentStepId: Option<string>)
    requires i <= |log|
    ensures forall o :: o in KeptFrom(log, i, currentStepId) <==>
              exists j :: i <= j < |log| && IsKept(log, j, currentStepId) && log[j] == o
    decreases |log| - i
  {
    if i < |log| { KeptAreKept(log, i + 1, currentStepId); }
  }

  /** Beyond the bound the newest of them stay: the trimmed context is the end of what is kept. */
  lemma TrimmedIsNewest(log: seq<Observation>, currentStepId: Option<string>, limit: nat)
    returns (front: seq<Observation>)
    ensures var trimmed := Trimmed(log, currentStepId, limit);
            && KeptFrom(log, 0, currentStepId) == front + trimmed
            && |trimmed| <= limit && (front != [] ==> |trimmed| == limit)
  {
    var kept := KeptFrom(log, 0, currentStepId);
    front := if |kept| <= limit then [] else kept[..|kept| - limit];
  }

  /** Within the bound, the trimmed context holds exactly what is kept. */
  lemma TrimmedHoldsKept(log: seq<Observation>, currentStepId: Option<string>, limit: nat, o: Observation)
    requires |KeptFrom(log, 0, currentStepId)| <= limit
    ensures o in Trimmed(log, currentStepId, limit) <==>
              exists j :: 0 <= j < |log| && IsKept(log, j, currentStepId) && log[j] == o
  {
    KeptAreKept(log, 0, currentStepId);
  }
}
