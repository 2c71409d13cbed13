/** Execution plans: the depth-first cycle check, the validator and the updater. */
module ExecutionPlans {
  import opened Options
  import opened Text
  import opened RunStates

  // ---- Plans ----

  datatype StepStatus = Pending | InProgress | Completed | Stopped | Skipped

  datatype StepAction = ToolCallStep | SubAgentStep | ProposeStep

  datatype Step = Step(
    stepId: string,
    title: string,
    action: StepAction,
    toolName: Option<string>,
    hasSubAgentRequest: bool,
    status: StepStatus,
    dependsOn: seq<string>,
    executionCount: nat,
    resultRefs: seq<string>,
    failureReason: Option<string>)

  datatype Plan = Plan(revision: int, steps: seq<Step>, currentStepId: Option<string>)

  function StepIds(steps: seq<Step>): (ids: seq<string>)
    ensures |ids| == |steps| && forall i :: 0 <= i < |steps| ==> ids[i] == steps[i].stepId
  {
    seq(|steps|, i requires 0 <= i < |steps| => steps[i].stepId)
  }

  ghost predicate UniqueIds(steps: seq<Step>) {
    forall i, j :: 0 <= i < j < |steps| ==> steps[i].stepId != steps[j].stepId
  }

  ghost predicate DependenciesExist(steps: seq<Step>) {
    forall i, d :: 0 <= i < |steps| && d in steps[i].dependsOn ==> d in StepIds(steps)
  }

  // ---- The dependency graph ----

  type Graph = map<string, seq<string>>

  ghost predicate Closed(graph: Graph) {
    forall n, d :: n in graph && d in graph[n] ==> d in graph
  }

  /** Consecutive nodes of `p` are dependency edges. */
  ghost predicate IsPath(graph: Graph, p: seq<string>) {
    && p != []
    && (forall i :: 0 <= i < |p| ==> p[i] in graph)
    && forall i :: 0 <= i < |p| - 1 ==> p[i + 1] in graph[p[i]]
  }

  ghost predicate IsCycle(graph: Graph, p: seq<string>) {
    IsPath(graph, p) && |p| >= 2 && p[0] == p[|p| - 1]
  }

  ghost predicate Cyclic(graph: Graph) {
    exists p :: IsCycle(graph, p)
  }

  /** Every node comes after all nodes it depends on, and no node is listed twice. */
  ghost predicate IsTopological(graph: Graph, order: seq<string>) {
    && (forall i :: 0 <= i < |order| ==> order[i] in graph)
    && (forall i, j :: 0 <= i < j < |order| ==> order[i] != order[j])
    && forall i, d :: 0 <= i < |order| && d in graph[order[i]] ==> d in order[..i]
  }

  ghost function IndexIn(order: seq<string>, n: string): (i: nat)
    requires n in order
    ensures i < |order| && order[i] == n
  {
    var i :| 0 <= i < |order| && order[i] == n; i
  }

  lemma EdgeGoesDown(graph: Graph, order: seq<string>, a: string, b: string)
    requires IsTopological(graph, order) && a in order && a in graph && b in graph[a]
    ensures b in order && IndexIn(order, b) < IndexIn(order, a)
  {
    var i := IndexIn(order, a);
    assert b in order[..i];
    var j :| 0 <= j < i && order[..i][j] == b;
    assert order[j] == b;
  }

  lemma {:induction false} PathGoesDown(graph: Graph, order: seq<string>, p: seq<string>)
    requires IsTopological(graph, order) && IsPath(graph, p) && p[0] in order
    ensures p[|p| - 1] in order
    ensures |p| >= 2 ==> IndexIn(order, p[|p| - 1]) < IndexIn(order, p[0])
  {
    if |p| >= 2 {
      EdgeGoesDown(graph, order, p[0], p[1]);
      PathGoesDown(graph, order, p[1..]);
    }
  }

  /** A topological order of all nodes rules out every cycle. */
  lemma TopologicalMeansAcyclic(graph: Graph, order: seq<string>)
    requires IsTopological(graph, order) && forall n :: n in graph ==> n in order
    ensures !Cyclic(graph)
  {
    forall p ensures !IsCycle(graph, p) {
      if IsPath(graph, p) && |p| >= 2 { PathGoesDown(graph, order, p); }
    }
  }

  // ---- The depth-first check ----

  /** `visiting` holds the path being explored, `visited` the finished nodes in topological order. */
  ghost predicate IsSearch(graph: Graph, visiting: set<string>, visited: set<string>, stack: seq<string>,
                           order: seq<string>) {
    && Closed(graph)
    && (forall n :: n in visiting <==> n in stack)
    && (forall n :: n in visited <==> n in order)
    && visiting !! visited && visiting <= graph.Keys
    && IsTopological(graph, order)
    && (stack != [] ==> IsPath(graph, stack))
  }

  /** `node` may be visited next: it is the start or a dependency of the top of the stack. */
  ghost predicate Continues(graph: Graph, stack: seq<string>, node: string) {
    node in graph && (stack != [] ==> stack[|stack| - 1] in graph && node in graph[stack[|stack| - 1]])
  }

  lemma Push(graph: Graph, visiting: set<string>, visited: set<string>, stack: seq<string>, order: seq<string>,
             node: string)
    requires IsSearch(graph, visiting, visited, stack, order) && Continues(graph, stack, node)
    requires node !in visiting && node !in visited
    ensures IsSearch(graph, visiting + {node}, visited, stack + [node], order)
    ensures graph.Keys - (visiting + {node}) - visited < graph.Keys - visiting - visited
  {
    assert node in graph.Keys - visiting - visited;
  }

  lemma Pop(graph: Graph, visiting: set<string>, visited: set<string>, stack: seq<string>, order: seq<string>,
            node: string)
    requires IsSearch(graph, visiting + {node}, visited, stack + [node], order)
    requires node !in visiting && (forall n :: n in visiting <==> n in stack)
    requires forall d :: d in graph[node] ==> d in visited
    ensures IsSearch(graph, visiting, visited + {node}, stack, order + [node])
  {
    var longer := order + [node];
    forall i, d | 0 <= i < |longer| && longer[i] in graph && d in graph[longer[i]] ensures d in longer[..i] {
      if i < |order| { assert longer[..i] == order[..i]; } else { assert longer[..i] == order; }
    }
    if stack != [] {
      var path := stack + [node];
      assert forall i :: 0 <= i < |stack| ==> path[i] == stack[i];
      forall i | 0 <= i < |stack| - 1 ensures stack[i + 1] in graph[stack[i]] { assert path[i + 1] in graph[path[i]]; }
    }
  }

  /** The sets shared by the recursive visits. `stack` and `order` record how they were filled. */
  class CycleCheck {
    const graph: Graph
    var visiting: set<string>
    var visited: set<string>
    ghost var stack: seq<string>
    ghost var order: seq<string>

    ghost predicate Valid()
      reads this
    {
      IsSearch(graph, visiting, visited, stack, order)
    }

    constructor (graph: Graph)
      requires Closed(graph)
      ensures this.graph == graph && Valid() && stack == [] && order == []
    {
      this.graph := graph;
      visiting, visited, stack, order := {}, {}, [], [];
    }

    /** Visits `node` and everything it depends on; false when a cycle was met. */
    method Visit(node: string) returns (acyclic: bool)
      requires Valid() && Continues(graph, stack, node)
      modifies this
      ensures acyclic ==> Valid() && visiting == old(visiting) && stack == old(stack)
      ensures acyclic ==> node in visited && old(visited) <= visited && old(order) <= order
      ensures !acyclic ==> Cyclic(graph)
      decreases graph.Keys - visiting - visited
    {
      if node in visiting {
        CycleOnStack(graph, stack, node);
        return false;
      }
      if node in visited { return true; }
      ghost var visiting0, stack0 := visiting, stack;
      Push(graph, visiting, visited, stack, order, node);
      visiting, stack := visiting + {node}, stack + [node];
      var dependencies := graph[node];
      for i := 0 to |dependencies|
        invariant Valid() && visiting == visiting0 + {node} && stack == stack0 + [node]
        invariant old(visited) <= visited && old(order) <= order
        invariant forall k :: 0 <= k < i ==> dependencies[k] in visited
      {
        var ok := Visit(dependencies[i]);
        if !ok { return false; }
      }
      Pop(graph, visiting0, visited, stack0, order, node);
      visiting, visited := visiting - {node}, visited + {node};
      stack, order := stack0, order + [node];
      assert visiting == visiting0;
      return true;
    }
  }

  lemma CycleOnStack(graph: Graph, stack: seq<string>, node: string)
    requires stack != [] && IsPath(graph, stack) && node in stack && Continues(graph, stack, node)
    ensures Cyclic(graph)
  {
    var k :| 0 <= k < |stack| && stack[k] == node;
    var p := stack[k..] + [node];
    assert IsCycle(graph, p);
  }

  /** Accepts exactly the acyclic graphs, and on acceptance has found a topological order of all nodes. */
  method ValidateNoCycle(graph: Graph, nodes: seq<string>) returns (acyclic: bool, ghost order: seq<string>)
    requires Closed(graph) && forall n :: n in nodes <==> n in graph
    ensures acyclic <==> !Cyclic(graph)
    ensures acyclic ==> IsTopological(graph, order) && forall n :: n in graph ==> n in order
  {
    var check := new CycleCheck(graph);
    for i := 0 to |nodes|
      invariant check.graph == graph && check.Valid() && check.stack == []
      invariant fresh(check)
      invariant forall k :: 0 <= k < i ==> nodes[k] in check.visited
    {
      var ok := check.Visit(nodes[i]);
      if !ok { return false, []; }
    }
    TopologicalMeansAcyclic(graph, check.order);
    return true, check.order;
  }

  // ---- The validator ----

  function GraphOf(steps: seq<Step>): (graph: Graph)
    requires UniqueIds(steps)
    ensures forall n :: n in graph <==> n in StepIds(steps)
    ensures forall i :: 0 <= i < |steps| ==> graph[steps[i].stepId] == steps[i].dependsOn
  {
    var graph := map i | 0 <= i < |steps| :: steps[i].stepId := steps[i].dependsOn;
    assert forall i :: 0 <= i < |steps| ==> StepIds(steps)[i] in graph;
    graph
  }

  /** What every accepted plan satisfies: it can be scheduled. */
  ghost predicate WellFormed(steps: seq<Step>) {
    && steps != [] && UniqueIds(steps) && DependenciesExist(steps)
    && !Cyclic(GraphOf(steps))
  }

  predicate ForbidsProduction(step: Step) {
    || Contains(Folded(step.stepId), "execute_sql")
    || Contains(Folded(step.title), "\U{6267}\U{884C}\U{751F}\U{4EA7} sql")
    || (Truthy(step.toolName) && Contains(Folded(step.toolName.value), "execute")
        && Contains(Folded(step.toolName.value), "sql"))
  }

  predicate HasWork(step: Step) {
    && (step.action.ToolCallStep? ==> Truthy(step.toolName))
    && (step.action.SubAgentStep? ==> step.hasSubAgentRequest)
  }

  ghost predicate Structured(plan: Plan) {
    && WellFormed(plan.steps)
    && (forall i :: 0 <= i < |plan.steps| ==> !ForbidsProduction(plan.steps[i]) && HasWork(plan.steps[i]))
    && (Truthy(plan.currentStepId) ==> plan.currentStepId.value in StepIds(plan.steps))
  }

  datatype PlanError =
    | EmptyPlan | DuplicateStepId | MissingDependency | PlanCycle | ProductionExecution
    | MissingToolName | MissingSubAgentRequest | MissingCurrentStep
    | NegativeRevision | DeletedStep | InvalidTransition | RevisionNotIncreased

  function ErrorText(error: PlanError): string {
    match error
    case EmptyPlan => "execution plan cannot be empty"
    case DuplicateStepId => "step_id must be unique"
    case MissingDependency => "dependency does not exist"
    case PlanCycle => "execution plan contains a cycle"
    case ProductionExecution => "production SQL execution is forbidden"
    case MissingToolName => "TOOL_CALL plan step requires tool_name"
    case MissingSubAgentRequest => "RUN_SUB_AGENT plan step requires sub_agent_request"
    case MissingCurrentStep => "current step does not exist"
    case NegativeRevision => "initial revision cannot be negative"
    case DeletedStep => "existing steps cannot be deleted"
    case InvalidTransition => "invalid step state transition"
    case RevisionNotIncreased => "revision must increase"
  }

  /** The rule of this name is broken. */
  ghost predicate Breaks(plan: Plan, error: PlanError) {
    var steps := plan.steps;
    match error
    case EmptyPlan => steps == []
    case DuplicateStepId => !UniqueIds(steps)
    case MissingDependency => !DependenciesExist(steps)
    case PlanCycle => UniqueIds(steps) && DependenciesExist(steps) && Cyclic(GraphOf(steps))
    case ProductionExecution => exists i :: 0 <= i < |steps| && ForbidsProduction(steps[i])
    case MissingToolName => exists i :: 0 <= i < |steps| && LacksTool(steps[i])
    case MissingSubAgentRequest => exists i :: 0 <= i < |steps| && LacksRequest(steps[i])
    case MissingCurrentStep => Truthy(plan.currentStepId) && plan.currentStepId.value !in StepIds(steps)
    case _ => false
  }

  predicate LacksTool(step: Step) {
    step.action.ToolCallStep? && !Truthy(step.toolName)
  }

  predicate LacksRequest(step: Step) {
    step.action.SubAgentStep? && !step.hasSubAgentRequest
  }

  /** The rules on a single plan in the order in which they are checked. */
  const RULES: seq<PlanError> :=
    [EmptyPlan, DuplicateStepId, MissingDependency, PlanCycle, ProductionExecution, MissingToolName,
     MissingSubAgentRequest, MissingCurrentStep]

  ghost function FirstBroken(plan: Plan, rules: seq<PlanError>): Option<PlanError> {
    if rules == [] then None
    else if Breaks(plan, rules[0]) then Some(rules[0])
    else FirstBroken(plan, rules[1..])
  }

  lemma {:induction false} FirstBrokenIs(plan: Plan, rules: seq<PlanError>, i: nat)
    requires i < |rules| && Breaks(plan, rules[i]) && forall j :: 0 <= j < i ==> !Breaks(plan, rules[j])
    ensures FirstBroken(plan, rules) == Some(rules[i])
  {
    if i > 0 { FirstBrokenIs(plan, rules[1..], i - 1); }
  }

  lemma {:induction false} NoneBrokenIff(plan: Plan, rules: seq<PlanError>)
    ensures FirstBroken(plan, rules).None? <==> forall j :: 0 <= j < |rules| ==> !Breaks(plan, rules[j])
  {
    if rules != [] {
      var rest := rules[1..];
      NoneBrokenIff(plan, rest);
      if j :| 0 <= j < |rules| && Breaks(plan, rules[j]) {
        if j > 0 { assert rest[j - 1] == rules[j]; }
      }
      if j :| 0 <= j < |rest| && Breaks(plan, rest[j]) { assert rules[j + 1] == rest[j]; }
    }
  }

  lemma RulesInOrder()
    ensures |RULES| == 8 && RULES[0] == EmptyPlan && RULES[1] == DuplicateStepId && RULES[2] == MissingDependency
    ensures RULES[3] == PlanCycle && RULES[4] == ProductionExecution && RULES[5] == MissingToolName
    ensures RULES[6] == MissingSubAgentRequest && RULES[7] == MissingCurrentStep
  {}

  /** The steps can be scheduled exactly when none of the first four rules is broken. */
  lemma WellFormedIff(plan: Plan)
    ensures WellFormed(plan.steps) <==>
              && !Breaks(plan, EmptyPlan) && !Breaks(plan, DuplicateStepId) && !Breaks(plan, MissingDependency)
              && !Breaks(plan, PlanCycle)
  {}

  ghost predicate IsScheduleError(steps: seq<Step>, error: PlanError) {
    match error
    case EmptyPlan => steps == []
    case DuplicateStepId => steps != [] && !UniqueIds(steps)
    case MissingDependency => steps != [] && UniqueIds(steps) && !DependenciesExist(steps)
    case PlanCycle => steps != [] && UniqueIds(steps) && DependenciesExist(steps) && Cyclic(GraphOf(steps))
    case _ => false
  }

  lemma ScheduleRule(plan: Plan, error: PlanError)
    requires IsScheduleError(plan.steps, error)
    ensures FirstBroken(plan, RULES) == Some(error) && !Structured(plan)
  {
    RulesInOrder();
    var i := if error.EmptyPlan? then 0 else if error.DuplicateStepId? then 1 else if error.MissingDependency? then 2
             else 3;
    FirstBrokenIs(plan, RULES, i);
  }

  /** The first rule on the content of schedulable steps that is broken. */
  function ContentError(plan: Plan): Option<PlanError> {
    var steps := plan.steps;
    if exists i | 0 <= i < |steps| :: ForbidsProduction(steps[i]) then Some(ProductionExecution)
    else if exists i | 0 <= i < |steps| :: LacksTool(steps[i]) then Some(MissingToolName)
    else if exists i | 0 <= i < |steps| :: LacksRequest(steps[i]) then Some(MissingSubAgentRequest)
    else if Truthy(plan.currentStepId) && plan.currentStepId.value !in StepIds(steps) then Some(MissingCurrentStep)
    else None
  }

  lemma ContentIsBroken(plan: Plan)
    ensures ContentError(plan) == Some(ProductionExecution) <==> Breaks(plan, ProductionExecution)
    ensures ContentError(plan) == Some(MissingToolName) <==>
              Breaks(plan, MissingToolName) && !Breaks(plan, ProductionExecution)
    ensures ContentError(plan) == Some(MissingSubAgentRequest) <==>
              && Breaks(plan, MissingSubAgentRequest) && !Breaks(plan, ProductionExecution)
              && !Breaks(plan, MissingToolName)
    ensures ContentError(plan) == Some(MissingCurrentStep) <==>
              && Breaks(plan, MissingCurrentStep) && !Breaks(plan, ProductionExecution)
              && !Breaks(plan, MissingToolName) && !Breaks(plan, MissingSubAgentRequest)
    ensures ContentError(plan).None? <==>
              && !Breaks(plan, ProductionExecution) && !Breaks(plan, MissingToolName)
              && !Breaks(plan, MissingSubAgentRequest) && !Breaks(plan, MissingCurrentStep)
  {}

  lemma ContentRule(plan: Plan)
    requires WellFormed(plan.steps)
    ensures FirstBroken(plan, RULES) == ContentError(plan)
  {
    RulesInOrder();
    WellFormedIff(plan);
    ContentIsBroken(plan);
    if ContentError(plan).None? {
      NoneBrokenIff(plan, RULES);
    } else {
      var error := ContentError(plan).value;
      var i := if error.ProductionExecution? then 4 else if error.MissingToolName? then 5
               else if error.MissingSubAgentRequest? then 6 else 7;
      FirstBrokenIs(plan, RULES, i);
    }
  }

  lemma ContentErrorIff(plan: Plan)
    requires WellFormed(plan.steps)
    ensures ContentError(plan).None? <==> Structured(plan)
  {
    if ContentError(plan).None? {
      forall i | 0 <= i < |plan.steps| ensures !ForbidsProduction(plan.steps[i]) && HasWork(plan.steps[i]) {
        assert !LacksTool(plan.steps[i]) && !LacksRequest(plan.steps[i]);
      }
    }
  }

  /** None exactly for schedulable steps; a cycle is reported only where there is one. */
  method ValidateSchedule(steps: seq<Step>) returns (error: Option<PlanError>)
    ensures error.None? <==> WellFormed(steps)
    ensures error == Some(PlanCycle)
            <==> steps != [] && UniqueIds(steps) && DependenciesExist(steps) && Cyclic(GraphOf(steps))
    ensures error.Some? ==> IsScheduleError(steps, error.value)
  {
    if steps == [] { return Some(EmptyPlan); }
    var ids := StepIds(steps);
    if exists i, j | 0 <= i < j < |ids| :: ids[i] == ids[j] { return Some(DuplicateStepId); }
    for i := 0 to |steps|
      invariant forall k, d :: 0 <= k < i && d in steps[k].dependsOn ==> d in ids
    {
      if exists d | d in steps[i].dependsOn :: d !in ids { return Some(MissingDependency); }
    }
    var acyclic, _ := ValidateNoCycle(GraphOf(steps), ids);
    return if acyclic then None else Some(PlanCycle);
  }

  /** None exactly for structured plans; otherwise the first rule that is broken. */
  method ValidateStructure(plan: Plan) returns (error: Option<PlanError>)
    ensures error.None? <==> Structured(plan)
    ensures error == FirstBroken(plan, RULES)
  {
    error := ValidateSchedule(plan.steps);
    if error.Some? {
      ScheduleRule(plan, error.value);
    } else {
      ContentRule(plan);
      ContentErrorIff(plan);
      error := ContentError(plan);
    }
  }

  predicate MayBecome(before: StepStatus, after: StepStatus) {
    match before
    case Pending => after.Pending? || after.InProgress? || after.Skipped?
    case InProgress => after.InProgress? || after.Completed? || after.Stopped? || after.Skipped?
    case Stopped => after.Stopped? || after.InProgress?
    case Completed => after.Completed?
    case Skipped => after.Skipped?
  }

  ghost predicate Survives(step: Step, after: seq<Step>) {
    exists j :: 0 <= j < |after| && after[j].stepId == step.stepId && MayBecome(step.status, after[j].status)
  }

  /** Every old step survives, with a permitted change of status. */
  ghost predicate Succeeds(before: seq<Step>, after: seq<Step>) {
    forall i :: 0 <= i < |before| ==> Survives(before[i], after)
  }

  /** Ids are unique, so the found step is the only one that may continue an old one. */
  lemma SurvivesIff(step: Step, after: seq<Step>)
    requires UniqueIds(after)
    ensures var k := FindStep(after, step.stepId);
            Survives(step, after) <==> k.Some? && MayBecome(step.status, after[k.value].status)
  {}

  /** Why the first old step that does not survive, from position `i` on, does not. */
  function StepError(before: seq<Step>, after: seq<Step>, i: nat): Option<PlanError>
    requires i <= |before|
    decreases |before| - i
  {
    if i == |before| then None
    else
      var k := FindStep(after, before[i].stepId);
      if k.None? then Some(DeletedStep)
      else if !MayBecome(before[i].status, after[k.value].status) then Some(InvalidTransition)
      else StepError(before, after, i + 1)
  }

  ghost function TransitionError(before: Plan, after: Plan): Option<PlanError> {
    if FirstBroken(after, RULES).Some? then FirstBroken(after, RULES)
    else if StepError(before.steps, after.steps, 0).Some? then StepError(before.steps, after.steps, 0)
    else if after.revision <= before.revision then Some(RevisionNotIncreased)
    else None
  }

  method ValidateSteps(before: seq<Step>, after: seq<Step>) returns (error: Option<PlanError>)
    requires UniqueIds(after)
    ensures error.None? <==> Succeeds(before, after)
    ensures error == StepError(before, after, 0)
  {
    for i := 0 to |before|
      invariant forall j :: 0 <= j < i ==> Survives(before[j], after)
      invariant StepError(before, after, 0) == StepError(before, after, i)
    {
      var k := FindStep(after, before[i].stepId);
      SurvivesIff(before[i], after);
      if k.None? { return Some(DeletedStep); }
      if !MayBecome(before[i].status, after[k.value].status) { return Some(InvalidTransition); }
    }
    return None;
  }

  method ValidateTransition(before: Plan, after: Plan) returns (error: Option<PlanError>)
    ensures error.None?
            <==> Structured(after) && Succeeds(before.steps, after.steps) && after.revision > before.revision
    ensures error == TransitionError(before, after)
  {
    error := ValidateStructure(after);
    if error.Some? { return; }
    error := ValidateSteps(before.steps, after.steps);
    if error.Some? { return; }
    if after.revision <= before.revision { error := Some(RevisionNotIncreased); }
  }

  /** The step with the given id. */
  function FindStep(steps: seq<Step>, id: string): (k: Option<nat>)
    ensures k.Some? ==> k.value < |steps| && steps[k.value].stepId == id
    ensures k.None? ==> forall i :: 0 <= i < |steps| ==> steps[i].stepId != id
  {
    if steps == [] then None
    else if steps[|steps| - 1].stepId == id then Some(|steps| - 1)
    else FindStep(steps[..|steps| - 1], id)
  }

  // ---- The updater ----

  class ExecutionPlan {
    var revision: int
    var steps: seq<Step>
    var currentStepId: Option<string>

    function View(): Plan
      reads this
    {
      Plan(revision, steps, currentStepId)
    }

    constructor (plan: Plan)
      ensures View() == plan
    {
      revision, steps, currentStepId := plan.revision, plan.steps, plan.currentStepId;
    }
  }

  /** BudgetExceeded is the error outside the plan-rejection family: nobody catches it in the run loop. */
  datatype ReplaceOutcome = BudgetExceeded | Rejected(error: PlanError) | Replaced(plan: ExecutionPlan)

  /** A first submission must be a structured plan, a later one must also continue the current plan. */
  ghost predicate Accepts(current: Plan, proposed: Plan, revisions: int) {
    var updated := proposed.(revision := current.revision + 1);
    Structured(updated) && if revisions == 0 then updated.revision >= 0 else Succeeds(current.steps, proposed.steps)
  }

  /** Why a submission is rejected: the first rule that it breaks. */
  ghost function RejectionOf(current: Plan, proposed: Plan, revisions: int): Option<PlanError> {
    var updated := proposed.(revision := current.revision + 1);
    if revisions != 0 then TransitionError(current, updated)
    else if FirstBroken(updated, RULES).Some? then FirstBroken(updated, RULES)
    else if updated.revision < 0 then Some(NegativeRevision)
    else None
  }

  method Replace(current: ExecutionPlan, proposed: Plan, state: AgentRunState, limits: AgentRunLimits)
    returns (outcome: ReplaceOutcome)
    modifies state`planRevisionCount
    ensures outcome.BudgetExceeded? <==> old(state.planRevisionCount) >= limits.maxPlanRevisions
    ensures outcome.Replaced? ==>
              && fresh(outcome.plan) && Structured(outcome.plan.View())
              && outcome.plan.View() == proposed.(revision := current.revision + 1)
              && state.planRevisionCount == old(state.planRevisionCount) + 1
              && (old(state.planRevisionCount) != 0 ==> Succeeds(current.steps, proposed.steps))
    ensures !outcome.Replaced? ==> state.planRevisionCount == old(state.planRevisionCount)
    ensures !outcome.BudgetExceeded? ==>
              (outcome.Replaced? <==> Accepts(current.View(), proposed, old(state.planRevisionCount)))
    ensures outcome.Rejected? ==>
              RejectionOf(current.View(), proposed, old(state.planRevisionCount)) == Some(outcome.error)
  {
    if state.planRevisionCount >= limits.maxPlanRevisions { return BudgetExceeded; }
    var updated := proposed.(revision := current.revision + 1);
    var error: Option<PlanError>;
    if state.planRevisionCount == 0 {
      error := ValidateStructure(updated);
      if error.None? && updated.revision < 0 { error := Some(NegativeRevision); }
    } else {
      error := ValidateTransition(current.View(), updated);
    }
    if error.Some? { return Rejected(error.value); }
    state.planRevisionCount := state.planRevisionCount + 1;
    var plan := new ExecutionPlan(updated);
    return Replaced(plan);
  }

  predicate Settled(steps: seq<Step>, id: string) {
    var k := FindStep(steps, id);
    k.Some? && (steps[k.value].status.Completed? || steps[k.value].status.Skipped?)
  }

  predicate Ready(steps: seq<Step>, step: Step) {
    step.status.Pending? && forall d | d in step.dependsOn :: Settled(steps, d)
  }

  /** The first pending step, from position `i` on, whose dependencies are settled. */
  function NextReady(steps: seq<Step>, i: nat): Option<string>
    requires i <= |steps|
    decreases |steps| - i
  {
    if i == |steps| then None
    else if Ready(steps, steps[i]) then Some(steps[i].stepId)
    else NextReady(steps, i + 1)
  }

  /** Keeps the first of equal elements. */
  function Dedupe(xs: seq<string>): seq<string> {
    if xs == [] then []
    else
      var front := Dedupe(xs[..|xs| - 1]);
      if xs[|xs| - 1] in front then front else front + [xs[|xs| - 1]]
  }

  function Observed(step: Step, observation: Observation): Step {
    var counted := step.(executionCount := step.executionCount + 1,
                         resultRefs := Dedupe(step.resultRefs + observation.artifactRefs));
    match observation.status
    case ActionSucceeded => counted.(status := Completed, failureReason := None)
    case ActionSkipped => counted.(status := Skipped)
    case _ => counted.(status := Stopped, failureReason := Some(observation.summary))
  }

  function AfterObservation(plan: Plan, observation: Observation): Plan {
    if !Truthy(observation.planStepId) then plan
    else
      var k := FindStep(plan.steps, observation.planStepId.value);
      if k.None? then plan
      else
        var steps := plan.steps[k.value := Observed(plan.steps[k.value], observation)];
        plan.(steps := steps, currentStepId := NextReady(steps, 0))
  }

  /** The step was executed once more, with this outcome. */
  ghost predicate Records(step: Step, observation: Observation, after: Step) {
    && after.stepId == step.stepId && after.title == step.title && after.action == step.action
    && after.toolName == step.toolName && after.hasSubAgentRequest == step.hasSubAgentRequest
    && after.dependsOn == step.dependsOn && after.executionCount == step.executionCount + 1
    && (after.status.Completed? <==> observation.status.ActionSucceeded?)
    && (after.status.Skipped? <==> observation.status.ActionSkipped?)
    && (after.status.Stopped? <==> observation.status.ActionFailed? || observation.status.ActionBlocked?)
    && (after.status.Completed? ==> after.failureReason == None)
    && (after.status.Skipped? ==> after.failureReason == step.failureReason)
    && (after.status.Stopped? ==> after.failureReason == Some(observation.summary))
    && (forall ref :: ref in after.resultRefs <==> ref in step.resultRefs || ref in observation.artifactRefs)
    && forall i, j :: 0 <= i < j < |after.resultRefs| ==> after.resultRefs[i] != after.resultRefs[j]
  }

  /** Step `k` is recorded, every other step stays as it was, and the first ready step is selected. */
  ghost predicate RecordsOnly(before: Plan, k: nat, observation: Observation, after: Plan)
    requires k < |before.steps|
  {
    && |after.steps| == |before.steps| && after.revision == before.revision
    && Records(before.steps[k], observation, after.steps[k])
    && (forall i :: 0 <= i < |after.steps| && i != k ==> after.steps[i] == before.steps[i])
    && (after.currentStepId.None? ==> forall i :: 0 <= i < |after.steps| ==> !Ready(after.steps, after.steps[i]))
    && (after.currentStepId.Some? ==>
          exists i :: 0 <= i < |after.steps| && SelectsFirst(after, i))
  }

  ghost predicate SelectsFirst(plan: Plan, i: nat)
    requires i < |plan.steps|
  {
    && plan.currentStepId == Some(plan.steps[i].stepId) && Ready(plan.steps, plan.steps[i])
    && forall j :: 0 <= j < i ==> !Ready(plan.steps, plan.steps[j])
  }

  /** The observation is bound to step `k`. */
  ghost predicate IsBoundTo(observation: Observation, steps: seq<Step>, k: nat) {
    && k < |steps| && Truthy(observation.planStepId) && observation.planStepId.value == steps[k].stepId
    && UniqueIds(steps)
  }

  /** Elements stay in the order of their first mention. */
  lemma {:induction false} DedupeKeepsFirst(xs: seq<string>, ys: seq<string>)
    ensures Dedupe(xs) <= Dedupe(xs + ys)
    decreases |ys|
  {
    if ys == [] {
      assert xs + ys == xs;
    } else {
      DedupeKeepsFirst(xs, ys[..|ys| - 1]);
      assert (xs + ys)[..|xs + ys| - 1] == xs + ys[..|ys| - 1];
    }
  }

  lemma {:induction false} DedupeKeepsEach(xs: seq<string>)
    ensures forall x :: x in Dedupe(xs) <==> x in xs
    ensures forall i, j :: 0 <= i < j < |Dedupe(xs)| ==> Dedupe(xs)[i] != Dedupe(xs)[j]
  {
    if xs != [] {
      var front, last := xs[..|xs| - 1], xs[|xs| - 1];
      DedupeKeepsEach(front);
      assert xs == front + [last];
    }
  }

  lemma ObservedIsRecorded(step: Step, observation: Observation)
    ensures Records(step, observation, Observed(step, observation))
  {
    DedupeKeepsEach(step.resultRefs + observation.artifactRefs);
  }

  lemma {:induction false} NextReadyIsFirst(steps: seq<Step>, i: nat) returns (k: nat)
    requires i <= |steps| && NextReady(steps, i).Some?
    ensures i <= k < |steps| && NextReady(steps, i) == Some(steps[k].stepId) && Ready(steps, steps[k])
    ensures forall j :: i <= j < k ==> !Ready(steps, steps[j])
    decreases |steps| - i
  {
    if Ready(steps, steps[i]) { k := i; } else { k := NextReadyIsFirst(steps, i + 1); }
  }

  /** A bound observation is recorded with its step, and nothing else of the plan but the selection changes. */
  lemma BoundObservationIsRecorded(plan: Plan, observation: Observation, k: nat)
    requires IsBoundTo(observation, plan.steps, k)
    ensures RecordsOnly(plan, k, observation, AfterObservation(plan, observation))
  {
    SelectedIsObserved(plan, k, observation);
    ObservedIsRecorded(plan.steps[k], observation);
    SelectionIsFirst(AfterObservation(plan, observation));
  }

  lemma SelectionIsFirst(plan: Plan)
    requires plan.currentStepId == NextReady(plan.steps, 0)
    ensures plan.currentStepId.None? ==> forall i :: 0 <= i < |plan.steps| ==> !Ready(plan.steps, plan.steps[i])
    ensures plan.currentStepId.Some? ==> exists i :: 0 <= i < |plan.steps| && SelectsFirst(plan, i)
  {
    NextReadyIsFirstReady(plan.steps, 0);
    if plan.currentStepId.Some? {
      var i := NextReadyIsFirst(plan.steps, 0);
      assert SelectsFirst(plan, i);
    }
  }

  method ApplyObservation(plan: ExecutionPlan, observation: Observation)
    requires DependenciesExist(plan.steps)
    modifies plan
    ensures plan.View() == AfterObservation(old(plan.View()), observation)
    ensures forall k: nat :: IsBoundTo(observation, old(plan.steps), k) ==>
              RecordsOnly(old(plan.View()), k, observation, plan.View())
  {
    ghost var before := plan.View();
    forall k: nat | IsBoundTo(observation, before.steps, k)
      ensures RecordsOnly(before, k, observation, AfterObservation(before, observation))
    {
      BoundObservationIsRecorded(before, observation, k);
    }
    if !Truthy(observation.planStepId) { return; }
    var k := FindStep(plan.steps, observation.planStepId.value);
    if k.None? { return; }
    var step := plan.steps[k.value];
    step := step.(executionCount := step.executionCount + 1);
    step := step.(resultRefs := Dedupe(step.resultRefs + observation.artifactRefs));
    if observation.status.ActionSucceeded? {
      step := step.(status := Completed, failureReason := None);
    } else if observation.status.ActionSkipped? {
      step := step.(status := Skipped);
    } else {
      step := step.(status := Stopped, failureReason := Some(observation.summary));
    }
    plan.steps := plan.steps[k.value := step];
    plan.currentStepId := NextReady(plan.steps, 0);
  }

  // ---- Scheduling is never stuck without a stopped step ----

  lemma {:induction false} NextReadyIsFirstReady(steps: seq<Step>, i: nat)
    requires i <= |steps|
    ensures NextReady(steps, i).None? <==> forall k :: i <= k < |steps| ==> !Ready(steps, steps[k])
    ensures NextReady(steps, i).Some? ==>
              exists k :: i <= k < |steps| && steps[k].stepId == NextReady(steps, i).value && Ready(steps, steps[k])
    decreases |steps| - i
  {
    if i < |steps| && !Ready(steps, steps[i]) { NextReadyIsFirstReady(steps, i + 1); }
  }

  predicate HasStatus(steps: seq<Step>, id: string, pending: bool) {
    var k := FindStep(steps, id);
    k.Some? && if pending then steps[k.value].status.Pending?
               else steps[k.value].status.Stopped? || steps[k.value].status.InProgress?
  }

  /** `p` leads from a pending step through pending dependencies to a stopped or unfinished one. */
  ghost predicate IsBlockingChain(steps: seq<Step>, p: seq<string>)
    requires UniqueIds(steps)
  {
    && |p| >= 2 && IsPath(GraphOf(steps), p)
    && (forall i :: 0 <= i < |p| - 1 ==> HasStatus(steps, p[i], true))
    && HasStatus(steps, p[|p| - 1], false)
  }

  lemma FindUnique(steps: seq<Step>, i: nat)
    requires UniqueIds(steps) && i < |steps|
    ensures FindStep(steps, steps[i].stepId) == Some(i)
  {}

  lemma ChainHeadIsNotReady(steps: seq<Step>, i: nat, p: seq<string>)
    requires WellFormed(steps) && i < |steps| && IsBlockingChain(steps, p) && p[0] == steps[i].stepId
    ensures !Ready(steps, steps[i])
  {
    FindUnique(steps, i);
    assert p[0 + 1] in GraphOf(steps)[p[0]];
    assert p[1] in steps[i].dependsOn;
    assert HasStatus(steps, p[1], |p| > 2);
  }

  /** From a pending step, unsettled dependencies lead to a blocking chain when nothing is ready. */
  lemma {:induction false} ChainFrom(steps: seq<Step>, seen: seq<string>, i: nat) returns (p: seq<string>)
    requires WellFormed(steps) && i < |steps| && steps[i].status.Pending?
    requires forall k :: 0 <= k < |steps| ==> !Ready(steps, steps[k])
    requires seen != [] && seen[|seen| - 1] == steps[i].stepId && IsPath(GraphOf(steps), seen)
    ensures IsBlockingChain(steps, p) && p[0] == steps[i].stepId
    decreases GraphOf(steps).Keys - (set n | n in seen)
  {
    var d, k := UnsettledDependency(steps, i);
    if steps[k].status.Pending? {
      ExtendPath(GraphOf(steps), seen, d);
      var rest := ChainFrom(steps, seen + [d], k);
      p := [steps[i].stepId] + rest;
      PrependToChain(steps, i, rest);
    } else {
      p := [steps[i].stepId, d];
      ShortChain(steps, i, d, k);
    }
  }

  lemma ShortChain(steps: seq<Step>, i: nat, d: string, k: nat)
    requires WellFormed(steps) && i < |steps| && steps[i].status.Pending?
    requires d in GraphOf(steps) && d in GraphOf(steps)[steps[i].stepId] && FindStep(steps, d) == Some(k) && k < |steps|
    requires steps[k].status.Stopped? || steps[k].status.InProgress?
    ensures IsBlockingChain(steps, [steps[i].stepId, d])
  {
    FindUnique(steps, i);
    assert StepIds(steps)[i] in GraphOf(steps);
    TwoStepPath(GraphOf(steps), steps[i].stepId, d);
  }

  lemma TwoStepPath(graph: Graph, a: string, d: string)
    requires a in graph && d in graph && d in graph[a]
    ensures IsPath(graph, [a, d])
  {}

  lemma UnsettledDependency(steps: seq<Step>, i: nat) returns (d: string, k: nat)
    requires WellFormed(steps) && i < |steps| && steps[i].status.Pending? && !Ready(steps, steps[i])
    ensures d in GraphOf(steps) && d in GraphOf(steps)[steps[i].stepId] && FindStep(steps, d) == Some(k) && k < |steps|
    ensures steps[k].stepId == d && !steps[k].status.Completed? && !steps[k].status.Skipped?
  {
    d :| d in steps[i].dependsOn && !Settled(steps, d);
    assert d in StepIds(steps);
    k := FindStep(steps, d).value;
  }

  lemma PrependToChain(steps: seq<Step>, i: nat, rest: seq<string>)
    requires WellFormed(steps) && i < |steps| && steps[i].status.Pending?
    requires IsBlockingChain(steps, rest) && rest[0] in GraphOf(steps)[steps[i].stepId]
    ensures IsBlockingChain(steps, [steps[i].stepId] + rest)
  {
    var p := [steps[i].stepId] + rest;
    FindUnique(steps, i);
    forall j | 0 <= j < |p| - 1
      ensures p[j] in GraphOf(steps) && p[j + 1] in GraphOf(steps)[p[j]] && HasStatus(steps, p[j], true)
    {
      if j > 0 { assert p[j] == rest[j - 1] && p[j + 1] == rest[j - 1 + 1]; }
    }
  }

  lemma ExtendPath(graph: Graph, seen: seq<string>, d: string)
    requires !Cyclic(graph) && IsPath(graph, seen) && d in graph && d in graph[seen[|seen| - 1]]
    ensures IsPath(graph, seen + [d]) && d !in seen
    ensures graph.Keys - (set n | n in seen + [d]) < graph.Keys - (set n | n in seen)
  {
    if d in seen { CycleOnStack(graph, seen, d); }
    assert d in graph.Keys - (set n | n in seen);
  }

  lemma StuckMeansBlocked(steps: seq<Step>, i: nat)
    requires WellFormed(steps) && NextReady(steps, 0).None? && i < |steps| && steps[i].status.Pending?
    ensures exists p :: IsBlockingChain(steps, p) && p[0] == steps[i].stepId
  {
    NextReadyIsFirstReady(steps, 0);
    var p := ChainFromStep(steps, i);
  }

  lemma ChainFromStep(steps: seq<Step>, i: nat) returns (p: seq<string>)
    requires WellFormed(steps) && i < |steps| && steps[i].status.Pending?
    requires forall k :: 0 <= k < |steps| ==> !Ready(steps, steps[k])
    ensures IsBlockingChain(steps, p) && p[0] == steps[i].stepId
  {
    assert StepIds(steps)[i] in GraphOf(steps);
    p := ChainFrom(steps, [steps[i].stepId], i);
  }

  lemma ReadyMeansUnblocked(steps: seq<Step>, k: nat, p: seq<string>)
    requires WellFormed(steps) && k < |steps| && Ready(steps, steps[k])
    ensures !(IsBlockingChain(steps, p) && p[0] == steps[k].stepId)
  {
    if IsBlockingChain(steps, p) && p[0] == steps[k].stepId { ChainHeadIsNotReady(steps, k, p); }
  }

  /**
    * Nothing can be selected exactly when every pending step waits, through pending steps, for a stopped or
    * unfinished one.
    */
  lemma StuckIffEveryPendingStepIsBlocked(steps: seq<Step>)
    requires WellFormed(steps)
    ensures NextReady(steps, 0).None? <==>
              forall i :: 0 <= i < |steps| && steps[i].status.Pending?
                ==> exists p :: IsBlockingChain(steps, p) && p[0] == steps[i].stepId
  {
    if NextReady(steps, 0).None? {
      forall i | 0 <= i < |steps| && steps[i].status.Pending?
        ensures exists p :: IsBlockingChain(steps, p) && p[0] == steps[i].stepId
      {
        StuckMeansBlocked(steps, i);
      }
    } else {
      NextReadyIsFirstReady(steps, 0);
      var k :| 0 <= k < |steps| && Ready(steps, steps[k]);
      forall p ensures !(IsBlockingChain(steps, p) && p[0] == steps[k].stepId) {
        ReadyMeansUnblocked(steps, k, p);
      }
    }
  }

  /** With only pending, completed and skipped steps left, a bound observation always selects a ready step. */
  lemma NeverStuckWithoutStoppedSteps(plan: Plan, observation: Observation)
    requires WellFormed(plan.steps)
    requires Truthy(observation.planStepId) && observation.planStepId.value in StepIds(plan.steps)
    requires var steps := AfterObservation(plan, observation).steps;
             && (forall i :: 0 <= i < |steps| ==> !steps[i].status.Stopped? && !steps[i].status.InProgress?)
             && (exists i :: 0 <= i < |steps| && steps[i].status.Pending?)
    ensures var after := AfterObservation(plan, observation);
            after.currentStepId.Some? &&
            exists k :: 0 <= k < |after.steps| && after.steps[k].stepId == after.currentStepId.value
              && Ready(after.steps, after.steps[k])
  {
    ObservationKeepsWellFormed(plan, observation);
    var steps := AfterObservation(plan, observation).steps;
    SomeStepIsReady(steps);
    NextReadyIsFirstReady(steps, 0);
  }

  lemma SomeStepIsReady(steps: seq<Step>)
    requires WellFormed(steps)
    requires forall i :: 0 <= i < |steps| ==> !steps[i].status.Stopped? && !steps[i].status.InProgress?
    requires exists i :: 0 <= i < |steps| && steps[i].status.Pending?
    ensures NextReady(steps, 0).Some?
  {
    forall p ensures !IsBlockingChain(steps, p) { NoChainWithoutStopped(steps, p); }
    StuckIffEveryPendingStepIsBlocked(steps);
  }

  lemma NoChainWithoutStopped(steps: seq<Step>, p: seq<string>)
    requires UniqueIds(steps)
    requires forall i :: 0 <= i < |steps| ==> !steps[i].status.Stopped? && !steps[i].status.InProgress?
    ensures !IsBlockingChain(steps, p)
  {
    if |p| >= 2 { assert !HasStatus(steps, p[|p| - 1], false); }
  }

  ghost predicate SameShape(before: seq<Step>, after: seq<Step>) {
    && |before| == |after|
    && forall i :: 0 <= i < |after| ==> after[i].stepId == before[i].stepId && after[i].dependsOn == before[i].dependsOn
  }

  lemma SameShapeSameGraph(before: seq<Step>, after: seq<Step>)
    requires SameShape(before, after) && UniqueIds(before)
    ensures StepIds(after) == StepIds(before) && UniqueIds(after) && GraphOf(after) == GraphOf(before)
  {
    assert StepIds(after) == StepIds(before);
    forall n | n in GraphOf(before) ensures GraphOf(after)[n] == GraphOf(before)[n] {
      var i :| 0 <= i < |before| && StepIds(before)[i] == n;
      assert GraphOf(after)[after[i].stepId] == after[i].dependsOn;
      assert GraphOf(before)[before[i].stepId] == before[i].dependsOn;
    }
  }

  /** An observation changes statuses only: the plan stays schedulable. */
  lemma ObservationKeepsWellFormed(plan: Plan, observation: Observation)
    requires WellFormed(plan.steps)
    ensures WellFormed(AfterObservation(plan, observation).steps)
    ensures StepIds(AfterObservation(plan, observation).steps) == StepIds(plan.steps)
  {
    var before, after := plan.steps, AfterObservation(plan, observation).steps;
    ObservationKeepsShape(plan, observation);
    SameShapeSameGraph(before, after);
    SameShapeDependencies(before, after);
  }

  lemma ObservationKeepsShape(plan: Plan, observation: Observation)
    ensures SameShape(plan.steps, AfterObservation(plan, observation).steps)
  {
    forall step ensures Observed(step, observation).stepId == step.stepId
                        && Observed(step, observation).dependsOn == step.dependsOn {}
  }

  lemma SameShapeDependencies(before: seq<Step>, after: seq<Step>)
    requires SameShape(before, after) && StepIds(after) == StepIds(before) && DependenciesExist(before)
    ensures DependenciesExist(after)
  {
    forall i, d | 0 <= i < |after| && d in after[i].dependsOn ensures d in StepIds(after) {
      assert d in before[i].dependsOn;
    }
  }

  // ---- Without replacement, steps run only after their dependencies ----

  /** Whatever has run, ran once and after its dependencies. */
  ghost predicate RanInOrder(steps: seq<Step>, step: Step) {
    && (step.status.Pending? <==> step.executionCount == 0) && step.executionCount <= 1
    && (step.status.Pending? || forall d :: d in step.dependsOn ==> Settled(steps, d))
  }

  ghost predicate StepsRanInOrder(steps: seq<Step>) {
    forall i :: 0 <= i < |steps| ==> RanInOrder(steps, steps[i])
  }

  ghost predicate SelectedIsReady(plan: Plan) {
    plan.currentStepId.Some? ==>
      exists k :: 0 <= k < |plan.steps| && plan.steps[k].stepId == plan.currentStepId.value
        && Ready(plan.steps, plan.steps[k])
  }

  ghost predicate RunsInOrder(plan: Plan) {
    WellFormed(plan.steps) && StepsRanInOrder(plan.steps) && SelectedIsReady(plan)
  }

  lemma SettledStaysSettled(steps: seq<Step>, k: nat, step: Step, d: string)
    requires UniqueIds(steps) && k < |steps| && steps[k].status.Pending? && step.stepId == steps[k].stepId
    requires Settled(steps, d)
    ensures Settled(steps[k := step], d)
  {
    var j := FindStep(steps, d).value;
    var after := steps[k := step];
    assert after[j] == steps[j] && UniqueIds(after);
    FindUnique(after, j);
  }

  lemma ExecutionKeepsOrder(steps: seq<Step>, k: nat, observation: Observation)
    requires UniqueIds(steps) && StepsRanInOrder(steps) && k < |steps| && Ready(steps, steps[k])
    ensures StepsRanInOrder(steps[k := Observed(steps[k], observation)])
  {
    var step := Observed(steps[k], observation);
    var after := steps[k := step];
    forall i | 0 <= i < |after| ensures RanInOrder(after, after[i]) {
      assert RanInOrder(steps, steps[i]) && after[i].dependsOn == steps[i].dependsOn;
      forall d | d in after[i].dependsOn && Settled(steps, d) ensures Settled(after, d) {
        SettledStaysSettled(steps, k, step, d);
      }
    }
  }

  /** Observations bound to the selected step keep the order. */
  lemma ObservationKeepsOrder(plan: Plan, observation: Observation)
    requires RunsInOrder(plan)
    requires observation.planStepId == plan.currentStepId || observation.planStepId == None
    ensures RunsInOrder(AfterObservation(plan, observation))
  {
    ObservationKeepsWellFormed(plan, observation);
    if Truthy(observation.planStepId) {
      var k := SelectedStep(plan);
      SelectedIsObserved(plan, k, observation);
      ExecutionKeepsOrder(plan.steps, k, observation);
      NextIsReady(AfterObservation(plan, observation));
    }
  }

  lemma SelectedStep(plan: Plan) returns (k: nat)
    requires SelectedIsReady(plan) && plan.currentStepId.Some?
    ensures k < |plan.steps| && plan.steps[k].stepId == plan.currentStepId.value && Ready(plan.steps, plan.steps[k])
  {
    k :| 0 <= k < |plan.steps| && plan.steps[k].stepId == plan.currentStepId.value
      && Ready(plan.steps, plan.steps[k]);
  }

  lemma NextIsReady(plan: Plan)
    requires plan.currentStepId == NextReady(plan.steps, 0)
    ensures SelectedIsReady(plan)
  {
    NextReadyIsFirstReady(plan.steps, 0);
  }

  /** The observation lands on the selected step. */
  lemma SelectedIsObserved(plan: Plan, k: nat, observation: Observation)
    requires UniqueIds(plan.steps) && k < |plan.steps|
    requires Truthy(observation.planStepId) && observation.planStepId.value == plan.steps[k].stepId
    ensures var after := AfterObservation(plan, observation);
            && after.steps == plan.steps[k := Observed(plan.steps[k], observation)]
            && after.currentStepId == NextReady(after.steps, 0)
  {
    FindUnique(plan.steps, k);
  }

  // ---- The plan a run starts with ----

  datatype ToolCall = ToolCall(id: string, tool: string, dependsOn: seq<string>)

  function PendingSteps(calls: seq<ToolCall>): (steps: seq<Step>)
    ensures |steps| == |calls|
    ensures forall i :: 0 <= i < |steps| ==>
              steps[i] == Step(calls[i].id, calls[i].id, ToolCallStep, Some(calls[i].tool), false, Pending,
                               calls[i].dependsOn, 0, [], None)
  {
    seq(|calls|, i requires 0 <= i < |calls| =>
      Step(calls[i].id, calls[i].id, ToolCallStep, Some(calls[i].tool), false, Pending, calls[i].dependsOn, 0, [],
           None))
  }

  function InitialCalls(): seq<ToolCall> {
    [ToolCall("read_log", "build_log_digest", []),
     ToolCall("diagnose", "diagnose", ["read_log"]),
     ToolCall("query_metadata", "query_metadata", ["diagnose"]),
     ToolCall("retrieve_memory", "retrieve_memory", ["diagnose"]),
     ToolCall("generate_candidate", "generate_candidate", ["diagnose", "query_metadata", "retrieve_memory"])]
  }

  function InitialPlan(): Plan {
    Plan(0, PendingSteps(InitialCalls()), Some(InitialCalls()[0].id))
  }

  /** Steps that depend only on earlier steps can be scheduled. */
  lemma BackwardDependenciesAreWellFormed(steps: seq<Step>)
    requires steps != [] && UniqueIds(steps)
    requires forall i, d :: 0 <= i < |steps| && d in steps[i].dependsOn ==> d in StepIds(steps)[..i]
    ensures WellFormed(steps)
  {
    var ids, graph := StepIds(steps), GraphOf(steps);
    forall i, d | 0 <= i < |ids| && d in graph[ids[i]] ensures d in ids[..i] {
      assert graph[steps[i].stepId] == steps[i].dependsOn;
    }
    TopologicalMeansAcyclic(graph, ids);
  }

  lemma InitialCallsDependBackwards()
    ensures var calls := InitialCalls();
            && (forall i, j :: 0 <= i < j < |calls| ==> calls[i].id != calls[j].id)
            && (forall i, d :: 0 <= i < |calls| && d in calls[i].dependsOn ==>
                exists j :: 0 <= j < i && calls[j].id == d)
  {
    var calls := InitialCalls();
    assert |calls[0].id| == 8 && |calls[1].id| == 8 && calls[0].id[0] != calls[1].id[0];
    assert |calls[2].id| == 14 && |calls[3].id| == 15 && |calls[4].id| == 18;
  }

  lemma InitialPlanIsWellFormed()
    ensures WellFormed(InitialPlan().steps)
  {
    var calls, steps := InitialCalls(), InitialPlan().steps;
    InitialCallsDependBackwards();
    forall i, d | 0 <= i < |steps| && d in steps[i].dependsOn ensures d in StepIds(steps)[..i] {
      var j :| 0 <= j < i && calls[j].id == d;
      assert StepIds(steps)[..i][j] == d;
    }
    BackwardDependenciesAreWellFormed(steps);
  }

  lemma FreshPlanRunsInOrder(plan: Plan)
    requires WellFormed(plan.steps) && plan.currentStepId == Some(plan.steps[0].stepId) && plan.steps[0].dependsOn == []
    requires forall i :: 0 <= i < |plan.steps| ==> plan.steps[i].status.Pending? && plan.steps[i].executionCount == 0
    ensures RunsInOrder(plan)
  {
    assert Ready(plan.steps, plan.steps[0]);
  }

  lemma InitialPlanRunsInOrder()
    ensures RunsInOrder(InitialPlan())
  {
    InitialPlanIsWellFormed();
    FreshPlanRunsInOrder(InitialPlan());
  }
}
