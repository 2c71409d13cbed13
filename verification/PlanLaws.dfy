/** What observations and replanning can do to a plan over a whole run. */
module PlanLaws {
  import opened Options
  import opened RunStates
  import opened Text
  import opened TextLaws
  import opened ExecutionPlans

  // ---- Observations without replanning ----

  /** Each observation is bound to the step selected at its time, or to none. */
  ghost predicate IsObserved(plans: seq<Plan>, observations: seq<Observation>) {
    |plans| == |observations| + 1 && forall i :: 0 <= i < |observations| ==> ObservesAt(plans, observations, i)
  }

  ghost predicate ObservesAt(plans: seq<Plan>, observations: seq<Observation>, i: nat)
    requires i < |observations| && i + 1 < |plans|
  {
    && (observations[i].planStepId == plans[i].currentStepId || observations[i].planStepId == None)
    && plans[i + 1] == AfterObservation(plans[i], observations[i])
  }

  lemma {:induction false} EveryPlanRunsInOrder(plans: seq<Plan>, observations: seq<Observation>, i: nat)
    requires IsObserved(plans, observations) && RunsInOrder(plans[0]) && i < |plans|
    ensures RunsInOrder(plans[i]) && SameShape(plans[0].steps, plans[i].steps)
  {
    if i > 0 {
      EveryPlanRunsInOrder(plans, observations, i - 1);
      NextPlanRunsInOrder(plans, observations, i - 1);
      SameShapeTransitive(plans[0].steps, plans[i - 1].steps, plans[i].steps);
    }
  }

  lemma NextPlanRunsInOrder(plans: seq<Plan>, observations: seq<Observation>, i: nat)
    requires IsObserved(plans, observations) && i < |observations| && RunsInOrder(plans[i])
    ensures RunsInOrder(plans[i + 1]) && SameShape(plans[i].steps, plans[i + 1].steps)
  {
    assert ObservesAt(plans, observations, i);
    ObservationKeepsOrder(plans[i], observations[i]);
    ObservationKeepsShape(plans[i], observations[i]);
  }

  lemma SameShapeTransitive(a: seq<Step>, b: seq<Step>, c: seq<Step>)
    requires SameShape(a, b) && SameShape(b, c)
    ensures SameShape(a, c)
  {}

  /** Only an observation that is bound to a step of the plan changes it. */
  lemma UnboundObservationKeepsPlan(plan: Plan, observation: Observation)
    requires UniqueIds(plan.steps) && AfterObservation(plan, observation) != plan
    ensures exists k: nat :: IsBoundTo(observation, plan.steps, k)
  {
    var k := FindStep(plan.steps, observation.planStepId.value);
    assert IsBoundTo(observation, plan.steps, k.value);
  }

  /** Step `k` has stopped: its observation failed or was blocked. */
  predicate HasStopped(plan: Plan, k: nat) {
    k < |plan.steps| && plan.steps[k].status.Stopped?
  }

  /** A stopped step is not selected, so no observation reaches it again. */
  lemma StoppedStays(plan: Plan, observation: Observation, k: nat)
    requires RunsInOrder(plan) && HasStopped(plan, k)
    requires observation.planStepId == plan.currentStepId || observation.planStepId == None
    ensures HasStopped(AfterObservation(plan, observation), k)
  {
    if Truthy(observation.planStepId) {
      var j := SelectedStep(plan);
      SelectedIsObserved(plan, j, observation);
    }
  }

  lemma StoppedStaysAt(plans: seq<Plan>, observations: seq<Observation>, i: nat, k: nat)
    requires IsObserved(plans, observations) && i < |observations| && RunsInOrder(plans[0]) && HasStopped(plans[i], k)
    ensures HasStopped(plans[i + 1], k)
  {
    EveryPlanRunsInOrder(plans, observations, i);
    assert ObservesAt(plans, observations, i);
    StoppedStays(plans[i], observations[i], k);
  }

  lemma {:induction false} StoppedForGood(plans: seq<Plan>, observations: seq<Observation>, i: nat, j: nat, k: nat)
    requires IsObserved(plans, observations) && RunsInOrder(plans[0]) && i <= j < |plans| && HasStopped(plans[i], k)
    ensures HasStopped(plans[j], k)
  {
    if i < j {
      StoppedForGood(plans, observations, i, j - 1, k);
      StoppedStaysAt(plans, observations, j - 1, k);
    }
  }

  /** `p` leads from one step to another along dependencies; a single step leads to itself. */
  ghost predicate LeadsTo(steps: seq<Step>, p: seq<string>, from: string, to: string)
    requires UniqueIds(steps)
  {
    IsPath(GraphOf(steps), p) && p[0] == from && p[|p| - 1] == to
  }

  ghost predicate PassesOn(steps: seq<Step>, p: seq<string>, i: nat)
    requires i + 1 < |p|
  {
    Settled(steps, p[i]) ==> Settled(steps, p[i + 1])
  }

  /** In a plan that runs in order, what a settled step depends on is settled. */
  lemma SettledPassesOn(plan: Plan, p: seq<string>, i: nat)
    requires RunsInOrder(plan) && IsPath(GraphOf(plan.steps), p) && i + 1 < |p|
    ensures PassesOn(plan.steps, p, i)
  {
    if Settled(plan.steps, p[i]) {
      var k := FindStep(plan.steps, p[i]).value;
      assert p[i + 1] in GraphOf(plan.steps)[p[i]];
      assert RanInOrder(plan.steps, plan.steps[k]);
    }
  }

  lemma {:induction false} SettledAllAlong(steps: seq<Step>, p: seq<string>, first: nat, i: nat)
    requires first <= i < |p| && Settled(steps, p[first])
    requires forall j :: 0 <= j < |p| - 1 ==> PassesOn(steps, p, j)
    ensures Settled(steps, p[i])
  {
    if first < i {
      SettledAllAlong(steps, p, first, i - 1);
      assert PassesOn(steps, p, i - 1);
    }
  }

  /** A ready step depends, directly or through others, on settled steps only. */
  lemma ReadyDependsOnSettled(plan: Plan, k: nat, p: seq<string>)
    requires RunsInOrder(plan) && k < |plan.steps| && Ready(plan.steps, plan.steps[k])
    requires IsPath(GraphOf(plan.steps), p) && p[0] == plan.steps[k].stepId && |p| >= 2
    ensures Settled(plan.steps, p[|p| - 1])
  {
    FirstDependencyIsSettled(plan.steps, k, p);
    forall j | 0 <= j < |p| - 1 ensures PassesOn(plan.steps, p, j) { SettledPassesOn(plan, p, j); }
    SettledAllAlong(plan.steps, p, 1, |p| - 1);
  }

  lemma FirstDependencyIsSettled(steps: seq<Step>, k: nat, p: seq<string>)
    requires UniqueIds(steps) && k < |steps| && Ready(steps, steps[k])
    requires IsPath(GraphOf(steps), p) && p[0] == steps[k].stepId && |p| >= 2
    ensures Settled(steps, p[1])
  {
    assert p[0 + 1] in GraphOf(steps)[p[0]];
  }

  lemma StoppedIsNotSelected(plan: Plan, k: nat, p: seq<string>, selected: string)
    requires RunsInOrder(plan) && HasStopped(plan, k)
    requires LeadsTo(plan.steps, p, selected, plan.steps[k].stepId)
    ensures plan.currentStepId != Some(selected)
  {
    if plan.currentStepId == Some(selected) {
      var j := SelectedStep(plan);
      StoppedIsNotReady(plan.steps, k, j);
      if |p| >= 2 { ReadyDependsOnSettled(plan, j, p); }
    }
  }

  lemma StoppedIsNotReady(steps: seq<Step>, k: nat, j: nat)
    requires UniqueIds(steps) && k < |steps| && j < |steps| && steps[k].status.Stopped? && Ready(steps, steps[j])
    ensures steps[j].stepId != steps[k].stepId && !Settled(steps, steps[k].stepId)
  {
    FindUnique(steps, k);
    FindUnique(steps, j);
  }

  /**
    * Without replanning, a step that is observed to fail or to be blocked is never selected again, and neither is any
    * step that depends on it, directly or through others.
    */
  lemma FailureStopsDependents(plans: seq<Plan>, observations: seq<Observation>, i: nat, k: nat, j: nat,
                               p: seq<string>, dependent: string)
    requires IsObserved(plans, observations) && RunsInOrder(plans[0]) && i < |observations| && i < j < |plans|
    requires UniqueIds(plans[i].steps) && IsBoundTo(observations[i], plans[i].steps, k)
    requires observations[i].status.ActionFailed? || observations[i].status.ActionBlocked?
    requires LeadsTo(plans[i].steps, p, dependent, plans[i].steps[k].stepId)
    ensures plans[j].currentStepId != Some(dependent)
  {
    assert ObservesAt(plans, observations, i);
    BoundObservationIsRecorded(plans[i], observations[i], k);
    StoppedForGood(plans, observations, i + 1, j, k);
    EveryPlanRunsInOrder(plans, observations, i);
    EveryPlanRunsInOrder(plans, observations, j);
    SameShapeSameGraph(plans[0].steps, plans[i].steps);
    SameShapeSameGraph(plans[0].steps, plans[j].steps);
    assert plans[j].steps[k].stepId == plans[i].steps[k].stepId;
    StoppedIsNotSelected(plans[j], k, p, dependent);
  }

  // ---- Carrying out a plan ----

  /** Every step depends on steps in front of it only. */
  ghost predicate DependsBackwards(steps: seq<Step>) {
    forall i :: 0 <= i < |steps| ==> DependsOnFront(steps, i)
  }

  ghost predicate DependsOnFront(steps: seq<Step>, i: nat)
    requires i < |steps|
  {
    forall d :: d in steps[i].dependsOn ==> exists j :: 0 <= j < i && steps[j].stepId == d
  }

  predicate IsDone(step: Step) {
    step.status.Completed? || step.status.Skipped?
  }

  /** The first `n` steps are done, the others wait, and the next one is selected. */
  ghost predicate IsCarriedOutTo(plan: Plan, n: nat) {
    && n <= |plan.steps| && (forall i :: 0 <= i < n ==> IsDone(plan.steps[i]))
    && (forall i :: n <= i < |plan.steps| ==> plan.steps[i].status.Pending?)
    && plan.currentStepId == if n < |plan.steps| then Some(plan.steps[n].stepId) else None
  }

  /** When the front is done, the next step is the first ready one. */
  lemma NextIsReady(steps: seq<Step>, n: nat)
    requires UniqueIds(steps) && DependsBackwards(steps) && n <= |steps|
    requires forall i :: 0 <= i < n ==> IsDone(steps[i])
    requires n < |steps| ==> steps[n].status.Pending?
    ensures NextReady(steps, 0) == if n < |steps| then Some(steps[n].stepId) else NextReady(steps, n)
  {
    if n < |steps| {
      FrontIsSettled(steps, n);
      assert Ready(steps, steps[n]);
    }
    DoneIsSkipped(steps, 0, n);
  }

  lemma FrontIsSettled(steps: seq<Step>, n: nat)
    requires UniqueIds(steps) && DependsBackwards(steps) && n < |steps|
    requires forall i :: 0 <= i < n ==> IsDone(steps[i])
    ensures forall d :: d in steps[n].dependsOn ==> Settled(steps, d)
  {
    assert DependsOnFront(steps, n);
    forall d | d in steps[n].dependsOn ensures Settled(steps, d) {
      var j :| 0 <= j < n && steps[j].stepId == d;
      FindUnique(steps, j);
    }
  }

  lemma {:induction false} DoneIsSkipped(steps: seq<Step>, i: nat, n: nat)
    requires i <= n <= |steps| && forall j :: i <= j < n ==> IsDone(steps[j])
    ensures NextReady(steps, i) == NextReady(steps, n)
    decreases n - i
  {
    if i < n { DoneIsSkipped(steps, i + 1, n); }
  }

  /** One more step succeeds or is skipped. */
  lemma NextIsCarriedOut(plan: Plan, observation: Observation, n: nat)
    requires UniqueIds(plan.steps) && DependsBackwards(plan.steps) && IsCarriedOutTo(plan, n) && n < |plan.steps|
    requires plan.steps[n].stepId != "" && observation.planStepId == plan.currentStepId
    requires observation.status.ActionSucceeded? || observation.status.ActionSkipped?
    ensures IsCarriedOutTo(AfterObservation(plan, observation), n + 1)
    ensures SameShape(plan.steps, AfterObservation(plan, observation).steps)
  {
    var after := AfterObservation(plan, observation);
    BoundObservationIsRecorded(plan, observation, n);
    SelectedIsObserved(plan, n, observation);
    ObservationKeepsShape(plan, observation);
    SameShapeDependsBackwards(plan.steps, after.steps);
    NextIsReady(after.steps, n + 1);
  }

  lemma SameShapeDependsBackwards(a: seq<Step>, b: seq<Step>)
    requires SameShape(a, b) && UniqueIds(a) && DependsBackwards(a)
    ensures UniqueIds(b) && DependsBackwards(b)
  {
    forall i | 0 <= i < |b| ensures DependsOnFront(b, i) {
      assert DependsOnFront(a, i);
      forall d | d in b[i].dependsOn ensures exists j :: 0 <= j < i && b[j].stepId == d {
        var j :| 0 <= j < i && a[j].stepId == d;
        assert b[j].stepId == d;
      }
    }
  }

  /** A plan whose steps depend on earlier ones is carried out in the order in which it is written. */
  lemma {:induction false} PlanIsCarriedOut(plans: seq<Plan>, observations: seq<Observation>, n: nat)
    requires IsObserved(plans, observations) && n <= |observations| && n <= |plans[0].steps|
    requires UniqueIds(plans[0].steps) && DependsBackwards(plans[0].steps) && IsCarriedOutTo(plans[0], 0)
    requires forall i :: 0 <= i < |plans[0].steps| ==> plans[0].steps[i].stepId != ""
    requires forall i :: 0 <= i < n ==> GoesWell(plans, observations, i)
    ensures IsCarriedOutTo(plans[n], n) && SameShape(plans[0].steps, plans[n].steps)
  {
    if n > 0 {
      PlanIsCarriedOut(plans, observations, n - 1);
      assert ObservesAt(plans, observations, n - 1) && GoesWell(plans, observations, n - 1);
      SameShapeDependsBackwards(plans[0].steps, plans[n - 1].steps);
      NextIsCarriedOut(plans[n - 1], observations[n - 1], n - 1);
      SameShapeTransitive(plans[0].steps, plans[n - 1].steps, plans[n].steps);
    }
  }

  /** Observation `i` is bound to the selected step, which succeeds or is skipped. */
  ghost predicate GoesWell(plans: seq<Plan>, observations: seq<Observation>, i: nat)
    requires i < |observations| && i < |plans|
  {
    && observations[i].planStepId == plans[i].currentStepId
    && (observations[i].status.ActionSucceeded? || observations[i].status.ActionSkipped?)
  }

  /** The five calls of the initial plan are selected one after the other, and then none. */
  lemma InitialPlanIsCarriedOut(plans: seq<Plan>, observations: seq<Observation>, n: nat)
    requires IsObserved(plans, observations) && plans[0] == InitialPlan() && n <= |observations| && n <= 5
    requires forall i :: 0 <= i < n ==> GoesWell(plans, observations, i)
    ensures plans[n].currentStepId
            == if n == 0 then Some("read_log") else if n == 1 then Some("diagnose")
               else if n == 2 then Some("query_metadata") else if n == 3 then Some("retrieve_memory")
               else if n == 4 then Some("generate_candidate") else None
  {
    InitialPlanDependsBackwards();
    InitialPlanIsWellFormed();
    InitialSteps();
    PlanIsCarriedOut(plans, observations, n);
  }

  lemma InitialSteps()
    ensures var steps := InitialPlan().steps;
            && |steps| == 5 && steps[0].stepId == "read_log" && steps[1].stepId == "diagnose"
            && steps[2].stepId == "query_metadata" && steps[3].stepId == "retrieve_memory"
            && steps[4].stepId == "generate_candidate"
    ensures forall i :: 0 <= i < 5 ==> InitialPlan().steps[i].stepId != ""
    ensures IsCarriedOutTo(InitialPlan(), 0)
  {}

  lemma InitialPlanDependsBackwards()
    ensures DependsBackwards(InitialPlan().steps)
  {
    var calls, steps := InitialCalls(), InitialPlan().steps;
    InitialCallsDependBackwards();
    forall i | 0 <= i < |steps| ensures DependsOnFront(steps, i) {
      forall d | d in steps[i].dependsOn ensures exists j :: 0 <= j < i && steps[j].stepId == d {
        var j :| 0 <= j < i && calls[j].id == d;
        assert steps[j].stepId == d;
      }
    }
  }

  // ---- Forbidden steps ----

  /** A step is forbidden for production SQL by its id, its title or its tool, whatever the case of the letters. */
  lemma ProductionIsForbiddenIff(step: Step)
    ensures ForbidsProduction(step) <==>
              || Mentions(step.stepId, "execute_sql")
              || Mentions(step.title, "\U{6267}\U{884C}\U{751F}\U{4EA7} sql")
              || (Truthy(step.toolName) && Mentions(step.toolName.value, "execute")
                  && Mentions(step.toolName.value, "sql"))
  {
    LowerCase("execute_sql");
    LowerCase("\U{6267}\U{884C}\U{751F}\U{4EA7} sql");
    LowerCase("execute");
    LowerCase("sql");
    FoldedSearchIgnoresCase(step.stepId, "execute_sql");
    FoldedSearchIgnoresCase(step.title, "\U{6267}\U{884C}\U{751F}\U{4EA7} sql");
    if step.toolName.Some? {
      FoldedSearchIgnoresCase(step.toolName.value, "execute");
      FoldedSearchIgnoresCase(step.toolName.value, "sql");
    }
  }

  lemma LowerCase(word: string)
    requires forall i :: 0 <= i < |word| ==> !('A' <= word[i] <= 'Z')
    ensures Folded(word) == word
  {}

  // ---- Replanning ----

  /** The permitted changes, one by one. */
  lemma TransitionTable(before: StepStatus, after: StepStatus)
    ensures MayBecome(before, after) <==>
              (before, after) in {(Pending, Pending), (Pending, InProgress), (Pending, Skipped),
                                  (InProgress, InProgress), (InProgress, Completed), (InProgress, Stopped),
                                  (InProgress, Skipped), (Stopped, Stopped), (Stopped, InProgress),
                                  (Completed, Completed), (Skipped, Skipped)}
  {}

  /** Plans that follow each other by accepted revisions. */
  ghost predicate IsRevised(plans: seq<Plan>) {
    && plans != []
    && forall i :: 0 <= i < |plans| - 1 ==> RevisesAt(plans, i)
  }

  ghost predicate RevisesAt(plans: seq<Plan>, i: nat)
    requires i + 1 < |plans|
  {
    UniqueIds(plans[i + 1].steps) && Succeeds(plans[i].steps, plans[i + 1].steps)
  }

  /** However often the plan is revised, a completed step stays completed and a skipped one skipped. */
  lemma {:induction false} DoneStaysDone(plans: seq<Plan>, i: nat, j: nat, k: nat) returns (m: nat)
    requires IsRevised(plans) && i <= j < |plans| && k < |plans[i].steps|
    requires plans[i].steps[k].status.Completed? || plans[i].steps[k].status.Skipped?
    ensures m < |plans[j].steps| && plans[j].steps[m].stepId == plans[i].steps[k].stepId
    ensures plans[j].steps[m].status == plans[i].steps[k].status
  {
    if i == j {
      m := k;
    } else {
      var n := DoneStaysDone(plans, i, j - 1, k);
      assert RevisesAt(plans, j - 1) && Survives(plans[j - 1].steps[n], plans[j].steps);
      m :| 0 <= m < |plans[j].steps| && plans[j].steps[m].stepId == plans[j - 1].steps[n].stepId
           && MayBecome(plans[j - 1].steps[n].status, plans[j].steps[m].status);
    }
  }

  /** A revision completes no pending step: only an observation does. */
  lemma PendingIsNotCompletedByRevision(before: seq<Step>, after: seq<Step>, i: nat, k: nat)
    requires UniqueIds(after) && Succeeds(before, after) && i < |before| && k < |after|
    requires after[k].stepId == before[i].stepId && before[i].status.Pending?
    ensures !after[k].status.Completed? && !after[k].status.Stopped?
  {
    assert Survives(before[i], after);
  }
}
