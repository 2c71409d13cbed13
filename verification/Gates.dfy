/** The three candidate gates, their aggregation and the gate run with one regeneration round. */
module Gates {
  import opened Options
  import opened RepairModels
  import opened SqlRewrite
  import opened SqlDiff

  // ---- Results ----

  datatype Decision = Pass | PassWithWarning | HumanRequired | Reject

  datatype GateName = StaticValidationGate | SemanticPreReflectionGate | OutputContractGate | GateRunnerGate

  /** SHA-256, taken as injective. */
  datatype Digest = Sha256(text: string)

  datatype Severity = Warning | Error | Block

  datatype GateFeedback = GateFeedback(gateName: GateName, code: string, severity: Severity, message: string)

  datatype GateResult = GateResult(
    decision: Decision,
    risk: RiskLevel,
    gateName: GateName,
    candidateHash: Digest,
    feedback: seq<GateFeedback>)

  predicate Passes(r: GateResult) {
    r.decision.Pass? || r.decision.PassWithWarning?
  }

  /** A result for `sql`; feedback is attached only when there is both a code and a message. */
  function MakeResult(gate: GateName, sql: string, decision: Decision, risk: RiskLevel,
                      code: Option<string>, message: Option<string>): GateResult {
    var severity := if risk.Blocked? then Block
                    else if decision.Reject? || decision.HumanRequired? then Error else Warning;
    GateResult(decision, risk, gate, Sha256(sql),
               if Truthy(code) && Truthy(message) then [GateFeedback(gate, code.value, severity, message.value)]
                 else [])
  }

  // ---- Aggregation ----

  function RiskRank(r: RiskLevel): nat {
    match r case Low => 0 case Medium => 1 case High => 2 case Blocked => 3
  }

  function DecisionRank(d: Decision): nat {
    match d case Pass => 0 case PassWithWarning => 1 case HumanRequired => 2 case Reject => 3
  }

  function MaxRisk(results: seq<GateResult>): RiskLevel
    requires results != []
  {
    if |results| == 1 then results[0].risk
    else
      var rest := MaxRisk(results[1..]);
      if RiskRank(results[0].risk) >= RiskRank(rest) then results[0].risk else rest
  }

  function AllFeedback(results: seq<GateResult>): seq<GateFeedback> {
    if results == [] then [] else results[0].feedback + AllFeedback(results[1..])
  }

  function DecisionOf(results: seq<GateResult>, allowMediumRisk: bool): Decision
    requires results != []
  {
    var risk := MaxRisk(results);
    var decisions := set r | r in results :: r.decision;
    if risk.Blocked? || Reject in decisions then Reject
    else if risk.High? || HumanRequired in decisions then HumanRequired
    else if risk.Medium? then if allowMediumRisk then PassWithWarning else HumanRequired
    else if PassWithWarning in decisions then PassWithWarning
    else Pass
  }

  /** None stands for the error raised without results. */
  function AggregateResults(results: seq<GateResult>, allowMediumRisk: bool): Option<GateResult> {
    if results == [] then None
    else Some(GateResult(DecisionOf(results, allowMediumRisk), MaxRisk(results), GateRunnerGate,
                         results[0].candidateHash, AllFeedback(results)))
  }

  lemma {:induction false} MaxRiskIsMaximum(results: seq<GateResult>)
    requires results != []
    ensures forall r :: r in results ==> RiskRank(r.risk) <= RiskRank(MaxRisk(results))
    ensures exists r :: r in results && r.risk == MaxRisk(results)
  {
    if |results| == 1 {
      assert results[0] in results;
    } else {
      MaxRiskIsMaximum(results[1..]);
      assert results[0] in results;
      var r :| r in results[1..] && r.risk == MaxRisk(results[1..]);
      assert r in results;
    }
  }

  /** The decision is at least as severe as every member's, and PASS needs every member to pass at LOW. */
  lemma AggregateIsAtLeastEveryMember(results: seq<GateResult>, allowMediumRisk: bool)
    requires results != []
    ensures forall r :: r in results ==> DecisionRank(r.decision) <= DecisionRank(DecisionOf(results, allowMediumRisk))
    ensures DecisionOf(results, allowMediumRisk).Pass? <==> forall r :: r in results ==> r.decision.Pass? && r.risk.Low?
  {
    MaxRiskIsMaximum(results);
    forall r | r in results
      ensures DecisionRank(r.decision) <= DecisionRank(DecisionOf(results, allowMediumRisk))
    {
      assert r.decision in set q | q in results :: q.decision;
    }
  }

  /** Only which results are present matters, not their order or number; adding results never softens the outcome. */
  lemma AggregateIsMonotone(fewer: seq<GateResult>, more: seq<GateResult>, allowMediumRisk: bool)
    requires fewer != [] && forall r :: r in fewer ==> r in more
    ensures more != []
    ensures RiskRank(MaxRisk(fewer)) <= RiskRank(MaxRisk(more))
    ensures DecisionRank(DecisionOf(fewer, allowMediumRisk)) <= DecisionRank(DecisionOf(more, allowMediumRisk))
  {
    assert fewer[0] in more;
    MaxRiskIsMaximum(fewer);
    MaxRiskIsMaximum(more);
    AggregateIsAtLeastEveryMember(more, allowMediumRisk);
  }

  lemma AggregateIgnoresOrder(a: seq<GateResult>, b: seq<GateResult>, allowMediumRisk: bool)
    requires a != [] && multiset(a) == multiset(b)
    ensures b != [] && MaxRisk(a) == MaxRisk(b) && DecisionOf(a, allowMediumRisk) == DecisionOf(b, allowMediumRisk)
  {
    assert forall r :: r in a <==> r in multiset(a);
    assert forall r :: r in b <==> r in multiset(b);
    AggregateIsMonotone(a, b, allowMediumRisk);
    AggregateIsMonotone(b, a, allowMediumRisk);
  }

  lemma {:induction false} FeedbackComesFromMembers(results: seq<GateResult>)
    ensures forall f :: f in AllFeedback(results) ==> exists r :: r in results && f in r.feedback
  {
    if results != [] {
      FeedbackComesFromMembers(results[1..]);
      assert results[0] in results;
    }
  }

  // ---- The gates ----

  datatype GateRequest = GateRequest(
    originalSql: string,
    candidateSql: string,
    existingPlan: Option<RepairPlan>,
    allowMediumRisk: bool)

  /** Empty after stripping; which characters are blank is left open to the environment. */
  datatype GateEnv = GateEnv(sql: SqlEnv, isBlank: string -> bool)

  datatype StaticGateOutcome = StaticGateOutcome(
    result: GateResult,
    repairPlan: Option<RepairPlan>,
    diff: Option<SqlDiffSummary>,
    validation: Option<ValidationResult>)

  /**
    * The static verdict as a statement about the candidate: some diff describes it and some validation of it allows
    * it.
    */
  ghost predicate StaticallyAllowed(env: GateEnv, allowMediumRisk: bool, failedSql: string, candidate: string,
                                    plan: RepairPlan) {
    && !env.isBlank(candidate)
    && !ApplyActions(env.sql.templates, failedSql, plan.actions).Aborted?
    && exists diff, v :: Describes(env.sql, failedSql, candidate, plan, diff)
                         && Judges(env.sql, allowMediumRisk, failedSql, candidate, plan, diff, v) && v.allowReturnSql
  }

  lemma DiffIsUnique(env: SqlEnv, failedSql: string, candidate: string, plan: RepairPlan, d: SqlDiffSummary,
                     e: SqlDiffSummary)
    requires Describes(env, failedSql, candidate, plan, d) && Describes(env, failedSql, candidate, plan, e)
    ensures d == e
  {}

  lemma VerdictIsUnique(env: SqlEnv, allowMediumRisk: bool, failedSql: string, candidate: string, plan: RepairPlan,
                        diff: SqlDiffSummary, v: ValidationResult, w: ValidationResult)
    requires Judges(env, allowMediumRisk, failedSql, candidate, plan, diff, v)
    requires Judges(env, allowMediumRisk, failedSql, candidate, plan, diff, w)
    ensures v.allowReturnSql == w.allowReturnSql && v.risk == w.risk && v.passed == w.passed
  {
    assert v.issues != [] ==> v.issues[0] in w.issues;
    assert w.issues != [] ==> w.issues[0] in v.issues;
  }

  /** Being statically allowed is what the validator says about the one diff there is. */
  lemma AllowedIsTheVerdict(env: GateEnv, allowMediumRisk: bool, failedSql: string, candidate: string, plan: RepairPlan,
                            diff: SqlDiffSummary, v: ValidationResult)
    requires !env.isBlank(candidate) && !ApplyActions(env.sql.templates, failedSql, plan.actions).Aborted?
    requires Describes(env.sql, failedSql, candidate, plan, diff)
    requires Judges(env.sql, allowMediumRisk, failedSql, candidate, plan, diff, v)
    ensures StaticallyAllowed(env, allowMediumRisk, failedSql, candidate, plan) <==> v.allowReturnSql
    ensures v.allowReturnSql <==> v.passed && (v.risk.Low? || (v.risk.Medium? && allowMediumRisk))
  {
    if StaticallyAllowed(env, allowMediumRisk, failedSql, candidate, plan) {
      var d, w :| Describes(env.sql, failedSql, candidate, plan, d)
                  && Judges(env.sql, allowMediumRisk, failedSql, candidate, plan, d, w) && w.allowReturnSql;
      DiffIsUnique(env.sql, failedSql, candidate, plan, d, diff);
      VerdictIsUnique(env.sql, allowMediumRisk, failedSql, candidate, plan, d, v, w);
    }
  }

  /** The validator finds something to object to. */
  ghost predicate StaticallyRejected(env: GateEnv, failedSql: string, candidate: string, plan: RepairPlan) {
    && !env.isBlank(candidate)
    && !ApplyActions(env.sql.templates, failedSql, plan.actions).Aborted?
    && exists diff, code :: Describes(env.sql, failedSql, candidate, plan, diff)
                            && Violates(env.sql, failedSql, candidate, plan, diff, code)
  }

  /** What the one validation there is says about release, release at LOW risk, and rejection. */
  lemma StaticVerdict(env: GateEnv, allowMediumRisk: bool, failedSql: string, candidate: string, plan: RepairPlan,
                      diff: SqlDiffSummary, v: ValidationResult)
    requires !env.isBlank(candidate) && !ApplyActions(env.sql.templates, failedSql, plan.actions).Aborted?
    requires Describes(env.sql, failedSql, candidate, plan, diff)
    requires Judges(env.sql, allowMediumRisk, failedSql, candidate, plan, diff, v)
    ensures StaticallyAllowed(env, false, failedSql, candidate, plan) <==> v.risk.Low?
    ensures StaticallyRejected(env, failedSql, candidate, plan) <==> v.risk.Blocked?
  {
    var strict := v.(allowReturnSql := v.risk.Low?);
    assert Judges(env.sql, false, failedSql, candidate, plan, diff, strict);
    AllowedIsTheVerdict(env, false, failedSql, candidate, plan, diff, strict);
    if StaticallyRejected(env, failedSql, candidate, plan) {
      var d, code :| Describes(env.sql, failedSql, candidate, plan, d)
                     && Violates(env.sql, failedSql, candidate, plan, d, code);
      DiffIsUnique(env.sql, failedSql, candidate, plan, d, diff);
      assert code in v.issues;
    }
    if v.risk.Blocked? { assert v.issues[0] in v.issues; }
  }

  predicate WantsRegeneration(r: GateResult) {
    exists f | f in r.feedback :: f.code == "SEMANTIC_REGENERATE"
  }

  function IssueName(code: IssueCode): (s: string)
    ensures s != "" && s != "SEMANTIC_REGENERATE"
  {
    match code
    case DangerousSql => "DANGEROUS_SQL"
    case WriteIntroduced => "WRITE_INTRODUCED"
    case UnsupportedWriteSql => "UNSUPPORTED_WRITE_SQL"
    case InsertTargetUnverified => "INSERT_TARGET_UNVERIFIED"
    case WhereWeakened => "WHERE_WEAKENED"
    case JoinConditionChanged => "JOIN_CONDITION_CHANGED"
    case GroupByChanged => "GROUP_BY_CHANGED"
    case UnauthorizedChange => "UNAUTHORIZED_CHANGE"
    case PlanActionCountMismatch => "PLAN_ACTION_COUNT_MISMATCH"
  }

  function StaticDecision(allowMediumRisk: bool, v: ValidationResult): Decision {
    if v.risk.Blocked? then Reject
    else if v.risk.High? then HumanRequired
    else if v.risk.Medium? then if allowMediumRisk && v.allowReturnSql then PassWithWarning else HumanRequired
    else if !v.allowReturnSql || !v.passed then Reject
    else Pass
  }

  /** The static gate passes exactly the statically allowed candidates and never asks for regeneration. */
  method RunStaticGate(env: GateEnv, request: GateRequest) returns (outcome: StaticGateOutcome)
    ensures outcome.result.gateName == StaticValidationGate
            && outcome.result.candidateHash == Sha256(request.candidateSql)
    ensures Passes(outcome.result) <==>
              request.existingPlan.Some? && StaticallyAllowed(env, request.allowMediumRisk, request.originalSql,
                                                              request.candidateSql, request.existingPlan.value)
    ensures Passes(outcome.result) ==>
              && outcome.repairPlan == request.existingPlan && outcome.diff.Some? && outcome.validation.Some?
              && (outcome.result.risk.Low? || (outcome.result.risk.Medium? && request.allowMediumRisk))
              && (outcome.result.decision.PassWithWarning? ==> request.allowMediumRisk)
    ensures !WantsRegeneration(outcome.result)
    ensures outcome.result.decision.Pass? <==>
              request.existingPlan.Some? && StaticallyAllowed(env, false, request.originalSql, request.candidateSql,
                                                              request.existingPlan.value)
    ensures outcome.result.decision.Reject? <==>
              request.existingPlan.Some? && StaticallyRejected(env, request.originalSql, request.candidateSql,
                                                               request.existingPlan.value)
    ensures outcome.result.decision.Pass? ==> outcome.result.risk.Low?
  {
    var unavailable := StaticGateOutcome(
      MakeResult(StaticValidationGate, request.candidateSql, HumanRequired, High,
                 Some("PLAN_OR_DIFF_UNAVAILABLE"), Some("no legal plan or diff")), None, None, None);
    if request.existingPlan.None? || env.isBlank(request.candidateSql) { return unavailable; }
    var plan := request.existingPlan.value;
    var diff := BuildDiff(env.sql, request.originalSql, request.candidateSql, plan);
    if diff.None? { return unavailable; }
    var v := Validate(env.sql, request.allowMediumRisk, request.originalSql, request.candidateSql, plan, diff.value);
    var decision := StaticDecision(request.allowMediumRisk, v);
    var code := if v.issues != [] then Some(IssueName(v.issues[0]))
                else if decision.HumanRequired? then Some("RISK_REQUIRES_REVIEW") else None;
    outcome := StaticGateOutcome(
      MakeResult(StaticValidationGate, request.candidateSql, decision, v.risk, code, Some("static validation")),
      Some(plan), diff, Some(v));
    AllowedIsTheVerdict(env, request.allowMediumRisk, request.originalSql, request.candidateSql, plan, diff.value, v);
    StaticVerdict(env, request.allowMediumRisk, request.originalSql, request.candidateSql, plan, diff.value, v);
  }

  datatype PreReflectionDecision = ReturnSql | Regenerate | BlockSql | ManualRequired

  /** The evaluator's answer is arbitrary; it may also fail. */
  datatype Reflection =
    | ReflectionFailed
    | Reflected(decision: PreReflectionDecision, risk: RiskLevel, instruction: Option<string>, reason: string)

  function RunSemanticGate(request: GateRequest, outcome: StaticGateOutcome, reflection: Reflection): GateResult {
    var gate, sql := SemanticPreReflectionGate, request.candidateSql;
    if outcome.repairPlan.None? || outcome.diff.None? || outcome.validation.None? then
      MakeResult(gate, sql, HumanRequired, High, Some("STATIC_EVIDENCE_MISSING"), Some("no static evidence"))
    else if reflection.ReflectionFailed? then
      MakeResult(gate, sql, HumanRequired, High, Some("SEMANTIC_GATE_FAILED"), Some("reflection failed"))
    else
      var risk := reflection.risk;
      var decision :=
        if reflection.decision.ReturnSql? && risk.Low? then Pass
        else if reflection.decision.ReturnSql? && risk.Medium? then
          if request.allowMediumRisk then PassWithWarning else HumanRequired
        else if reflection.decision.Regenerate? then Reject
        else if reflection.decision.ManualRequired? || risk.High? || risk.Medium? then HumanRequired
        else Reject;
      MakeResult(gate, sql, decision, risk,
        if decision.Pass? then None
        else if reflection.decision.Regenerate? then Some("SEMANTIC_REGENERATE")
          else Some("SEMANTIC_REFLECTION_BLOCKED"),
        if decision.Pass? then None
        else if reflection.decision.Regenerate? then reflection.instruction
        else Some(if reflection.reason != "" then reflection.reason else "not released"))
  }

  predicate SemanticallyAllowed(allowMediumRisk: bool, reflection: Reflection) {
    && reflection.Reflected? && reflection.decision.ReturnSql?
    && (reflection.risk.Low? || (reflection.risk.Medium? && allowMediumRisk))
  }

  /** The evaluator wants another text, blocks this one, or returns it although it calls it blocked. */
  predicate SemanticallyRejected(reflection: Reflection) {
    && reflection.Reflected?
    && (|| reflection.decision.Regenerate?
        || (reflection.decision.BlockSql? && (reflection.risk.Low? || reflection.risk.Blocked?))
        || (reflection.decision.ReturnSql? && reflection.risk.Blocked?))
  }

  predicate Blocks(request: GateRequest, r: GateResult) {
    || r.decision.Reject? || r.decision.HumanRequired?
    || r.risk.High? || r.risk.Blocked?
    || (r.risk.Medium? && !request.allowMediumRisk)
  }

  function RunOutputGate(env: GateEnv, request: GateRequest, previous: seq<GateResult>): GateResult {
    var gate, sql := OutputContractGate, request.candidateSql;
    if exists r | r in previous :: Blocks(request, r) then
      MakeResult(gate, sql, HumanRequired, High, Some("PRIOR_GATE_NOT_PASS"), Some("a prior gate did not pass"))
    else if env.isBlank(sql) || exists r | r in previous :: r.candidateHash != Sha256(sql) then
      MakeResult(gate, sql, HumanRequired, High, Some("OUTPUT_CONTRACT_INVALID"), Some("empty or changed candidate"))
    else
      MakeResult(gate, sql, Pass, Low, None, None)
  }

  // ---- The pipeline ----

  /** `candidate` went through all three gates for `failedSql`. */
  ghost predicate ClearedBy(env: GateEnv, allowMediumRisk: bool, failedSql: string, candidate: string,
                            plan: RepairPlan, reflection: Reflection) {
    && StaticallyAllowed(env, allowMediumRisk, failedSql, candidate, plan)
    && SemanticallyAllowed(allowMediumRisk, reflection)
  }

  /** `candidate` is turned down for good, not handed to a human. */
  ghost predicate RejectedBy(env: GateEnv, allowMediumRisk: bool, failedSql: string, candidate: string,
                             plan: RepairPlan, reflection: Reflection) {
    || StaticallyRejected(env, failedSql, candidate, plan)
    || (StaticallyAllowed(env, allowMediumRisk, failedSql, candidate, plan) && SemanticallyRejected(reflection))
  }

  lemma RejectedStaticallyIsNotAllowed(env: GateEnv, request: GateRequest)
    requires request.existingPlan.Some?
             && StaticallyAllowed(env, request.allowMediumRisk, request.originalSql, request.candidateSql,
                                  request.existingPlan.value)
    ensures !StaticallyRejected(env, request.originalSql, request.candidateSql, request.existingPlan.value)
    ensures !env.isBlank(request.candidateSql)
  {
    var allow, failed, sql, plan :=
      request.allowMediumRisk, request.originalSql, request.candidateSql, request.existingPlan.value;
    var diff, v :| Describes(env.sql, failed, sql, plan, diff)
                   && Judges(env.sql, allow, failed, sql, plan, diff, v) && v.allowReturnSql;
    StaticVerdict(env, allow, failed, sql, plan, diff, v);
  }

  /**
    * What clearing the gates with a plan means: the candidate is equivalent to that plan's output for the failed SQL.
    */
  lemma ClearedMeansPlanned(env: GateEnv, allowMediumRisk: bool, failedSql: string, candidate: string, plan: RepairPlan,
                            reflection: Reflection)
    requires ClearedBy(env, allowMediumRisk, failedSql, candidate, plan, reflection)
    ensures MatchesPlan(env.sql, failedSql, candidate, plan)
    ensures !env.isBlank(candidate) && !env.sql.isDangerous(candidate)
    ensures env.sql.isWrite(candidate) ==> env.sql.isWrite(failedSql)
  {
    AllowedMeansPlanned(env, allowMediumRisk, failedSql, candidate, plan);
  }

  lemma AllowedMeansPlanned(env: GateEnv, allowMediumRisk: bool, failedSql: string, candidate: string, plan: RepairPlan)
    requires StaticallyAllowed(env, allowMediumRisk, failedSql, candidate, plan)
    ensures MatchesPlan(env.sql, failedSql, candidate, plan)
    ensures !env.isBlank(candidate) && !env.sql.isDangerous(candidate)
    ensures env.sql.isWrite(candidate) ==> env.sql.isWrite(failedSql)
  {
    var diff, v :| Describes(env.sql, failedSql, candidate, plan, diff)
                   && Judges(env.sql, allowMediumRisk, failedSql, candidate, plan, diff, v) && v.allowReturnSql;
    AllowedCandidateIsPlanOutput(env.sql, allowMediumRisk, failedSql, candidate, plan, diff, v);
  }

  predicate IsPrefixOfPipeline(order: seq<GateName>) {
    order <= [StaticValidationGate, SemanticPreReflectionGate, OutputContractGate]
  }

  class GateRunner {
    var lastResult: Option<GateResult>
    var executionOrder: seq<GateName>

    constructor ()
      ensures lastResult == None && executionOrder == []
    {
      lastResult, executionOrder := None, [];
    }

    /** Runs the gates in order until one does not pass. */
    method RunRequest(env: GateEnv, request: GateRequest, reflection: Reflection) returns (r: GateResult)
      modifies this
      ensures lastResult == Some(r) && r.candidateHash == Sha256(request.candidateSql)
      ensures IsPrefixOfPipeline(executionOrder) && executionOrder != []
      ensures Passes(r) <==> request.existingPlan.Some?
                             && ClearedBy(env, request.allowMediumRisk, request.originalSql, request.candidateSql,
                                          request.existingPlan.value, reflection)
      ensures Passes(r) ==> |executionOrder| == 3 && (r.risk.Low? || (r.risk.Medium? && request.allowMediumRisk))
      ensures r.decision.Pass? ==> r.risk.Low?
      ensures r.decision.Pass? <==> request.existingPlan.Some?
                                    && ClearedBy(env, false, request.originalSql, request.candidateSql,
                                                 request.existingPlan.value, reflection)
      ensures r.decision.Reject? <==> request.existingPlan.Some?
                                      && RejectedBy(env, request.allowMediumRisk, request.originalSql,
                                                    request.candidateSql, request.existingPlan.value, reflection)
      ensures r.decision.PassWithWarning? ==> request.allowMediumRisk
      ensures WantsRegeneration(r) <==>
                && request.existingPlan.Some?
                && StaticallyAllowed(env, request.allowMediumRisk, request.originalSql, request.candidateSql,
                                     request.existingPlan.value)
                && reflection.Reflected? && reflection.decision.Regenerate? && Truthy(reflection.instruction)
    {
      executionOrder := [StaticValidationGate];
      var checked := RunStaticGate(env, request);
      if checked.result.decision.Reject? || checked.result.decision.HumanRequired? {
        lastResult := Some(checked.result);
        return checked.result;
      }
      RejectedStaticallyIsNotAllowed(env, request);
      r := RunAfterStaticGate(env, request, checked, reflection);
    }

    /** The two gates behind a static gate that passed. */
    method RunAfterStaticGate(env: GateEnv, request: GateRequest, checked: StaticGateOutcome, reflection: Reflection)
      returns (r: GateResult)
      requires executionOrder == [StaticValidationGate] && Passes(checked.result) && !env.isBlank(request.candidateSql)
      requires checked.repairPlan.Some? && checked.diff.Some? && checked.validation.Some?
      requires checked.result.candidateHash == Sha256(request.candidateSql)
      requires checked.result.risk.Low? || (checked.result.risk.Medium? && request.allowMediumRisk)
      requires checked.result.decision.PassWithWarning? ==> request.allowMediumRisk
      requires checked.result.decision.Pass? ==> checked.result.risk.Low?
      requires !WantsRegeneration(checked.result)
      modifies this
      ensures lastResult == Some(r) && r.candidateHash == Sha256(request.candidateSql)
      ensures IsPrefixOfPipeline(executionOrder) && executionOrder != []
      ensures Passes(r) <==> SemanticallyAllowed(request.allowMediumRisk, reflection)
      ensures Passes(r) ==> |executionOrder| == 3 && (r.risk.Low? || (r.risk.Medium? && request.allowMediumRisk))
      ensures r.decision.Pass? <==> checked.result.decision.Pass? && SemanticallyAllowed(false, reflection)
      ensures r.decision.Pass? ==> r.risk.Low?
      ensures r.decision.Reject? <==> SemanticallyRejected(reflection)
      ensures r.decision.PassWithWarning? ==> request.allowMediumRisk
      ensures WantsRegeneration(r)
              <==> reflection.Reflected? && reflection.decision.Regenerate? && Truthy(reflection.instruction)
    {
      executionOrder := executionOrder + [SemanticPreReflectionGate];
      var semantic := RunSemanticGate(request, checked, reflection);
      SemanticVerdict(request, checked, reflection);
      if semantic.decision.Reject? || semantic.decision.HumanRequired? {
        lastResult := Some(semantic);
        return semantic;
      }
      executionOrder := executionOrder + [OutputContractGate];
      var output := RunOutputGate(env, request, [checked.result, semantic]);
      r := AggregateResults([checked.result, semantic, output], request.allowMediumRisk).value;
      ThreeResults(env, request, checked.result, semantic, output, r);
      lastResult := Some(r);
    }
  }

  /** When the first two gates pass, so does the third, and the aggregate passes. */
  lemma ThreeResults(env: GateEnv, request: GateRequest, first: GateResult, second: GateResult, third: GateResult,
                     r: GateResult)
    requires Passes(first) && Passes(second) && !env.isBlank(request.candidateSql)
    requires first.candidateHash == Sha256(request.candidateSql) == second.candidateHash
    requires first.risk.Low? || (first.risk.Medium? && request.allowMediumRisk)
    requires second.risk.Low? || (second.risk.Medium? && request.allowMediumRisk)
    requires first.decision.PassWithWarning? || second.decision.PassWithWarning? ==> request.allowMediumRisk
    requires third == RunOutputGate(env, request, [first, second])
    requires AggregateResults([first, second, third], request.allowMediumRisk) == Some(r)
    ensures third.decision.Pass? && Passes(r) && r.candidateHash == Sha256(request.candidateSql)
    ensures r.risk.Low? || (r.risk.Medium? && request.allowMediumRisk)
    ensures r.decision.Pass? ==> r.risk.Low?
    ensures (first.decision.Pass? ==> first.risk.Low?) && (second.decision.Pass? ==> second.risk.Low?) ==>
              (r.decision.Pass? <==> first.decision.Pass? && second.decision.Pass?)
    ensures r.decision.PassWithWarning? ==> request.allowMediumRisk
    ensures WantsRegeneration(r) ==> WantsRegeneration(first) || WantsRegeneration(second)
  {
    var all := [first, second, third];
    assert third == MakeResult(OutputContractGate, request.candidateSql, Pass, Low, None, None);
    ThreeRisks(first, second, third);
    ThreeDecisions(first, second, third);
    FeedbackComesFromMembers(all);
  }

  lemma ThreeRisks(first: GateResult, second: GateResult, third: GateResult)
    requires third.risk.Low? && RiskRank(first.risk) <= 1 && RiskRank(second.risk) <= 1
    ensures MaxRisk([first, second, third]) == if first.risk.Medium? || second.risk.Medium? then Medium else Low
  {
    assert [first, second, third][1..] == [second, third] && [second, third][1..] == [third];
    assert MaxRisk([third]) == Low && MaxRisk([second, third]) == second.risk;
  }

  lemma ThreeDecisions(first: GateResult, second: GateResult, third: GateResult)
    ensures (set q | q in [first, second, third] :: q.decision) == {first.decision, second.decision, third.decision}
  {
    var all := [first, second, third];
    assert all[0] in all && all[1] in all && all[2] in all;
  }

  lemma SemanticVerdict(request: GateRequest, outcome: StaticGateOutcome, reflection: Reflection)
    requires outcome.repairPlan.Some? && outcome.diff.Some? && outcome.validation.Some?
    ensures var r := RunSemanticGate(request, outcome, reflection);
            && r.candidateHash == Sha256(request.candidateSql)
            && (Passes(r) <==> SemanticallyAllowed(request.allowMediumRisk, reflection))
            && (r.decision.Pass? <==> SemanticallyAllowed(false, reflection))
            && (r.decision.Reject? <==> SemanticallyRejected(reflection))
            && (r.decision.Pass? ==> r.risk.Low?)
            && (Passes(r) ==> r.risk.Low? || (r.risk.Medium? && request.allowMediumRisk))
            && (r.decision.PassWithWarning? ==> request.allowMediumRisk)
            && (WantsRegeneration(r)
                <==> reflection.Reflected? && reflection.decision.Regenerate? && Truthy(reflection.instruction))
            && (WantsRegeneration(r) ==> r.decision.Reject?)
  {
    var r := RunSemanticGate(request, outcome, reflection);
    if reflection.Reflected? && reflection.decision.Regenerate? && Truthy(reflection.instruction) {
      assert r.feedback[0].code == "SEMANTIC_REGENERATE";
    } else if r.feedback != [] {
      assert |r.feedback[0].code| != |"SEMANTIC_REGENERATE"|;
    }
  }
}
