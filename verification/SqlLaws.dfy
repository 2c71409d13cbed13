/** When a candidate is released, said of the candidate itself, and how far equivalence of texts carries. */
module SqlLaws {
  import opened Options
  import opened RepairModels
  import opened SqlRewrite
  import opened SqlDiff
  import opened Gates

  // ---- Equivalence ----

  /** Two texts that both parse are compared by their trees. */
  lemma ParsedTextsAreComparedByTree(env: SqlEnv, a: string, b: string)
    requires env.parse(a).Some? && env.parse(b).Some?
    ensures SqlEquivalent(env, a, b) <==> env.parse(a).value.canonical == env.parse(b).value.canonical
  {}

  /** All others are compared by their normalised texts. */
  lemma OtherTextsAreComparedByText(env: SqlEnv, a: string, b: string)
    requires env.parse(a).None? || env.parse(b).None?
    ensures SqlEquivalent(env, a, b) <==> env.normalizedText(a) == env.normalizedText(b)
  {}

  /** How many of three texts parse. */
  function Parsing(env: SqlEnv, a: string, b: string, c: string): nat {
    (if env.parse(a).Some? then 1 else 0) + (if env.parse(b).Some? then 1 else 0)
    + (if env.parse(c).Some? then 1 else 0)
  }

  /** If both texts parse, they agree in their trees and in their normalised texts. */
  predicate AgreeTwice(env: SqlEnv, a: string, b: string) {
    env.parse(a).Some? && env.parse(b).Some? ==>
      && env.parse(a).value.canonical == env.parse(b).value.canonical
      && env.normalizedText(a) == env.normalizedText(b)
  }

  /** Equivalence carries on over a third text unless exactly two of the three parse and do not agree twice. */
  lemma EquivalenceIsTransitiveIff(env: SqlEnv, a: string, b: string, c: string)
    requires SqlEquivalent(env, a, b) && SqlEquivalent(env, b, c)
    ensures SqlEquivalent(env, a, c) <==>
              || Parsing(env, a, b, c) != 2
              || (AgreeTwice(env, a, b) && AgreeTwice(env, b, c) && AgreeTwice(env, a, c))
  {}

  /** A text that does not parse can lie between two different statements. */
  lemma UnparsedTextConnects(env: SqlEnv, a: string, b: string, c: string)
    requires env.parse(a).Some? && env.parse(b).None? && env.parse(c).Some?
    requires env.normalizedText(a) == env.normalizedText(b) == env.normalizedText(c)
    requires env.parse(a).value.canonical != env.parse(c).value.canonical
    ensures Parsing(env, a, b, c) == 2
    ensures SqlEquivalent(env, a, b) && SqlEquivalent(env, b, c) && !SqlEquivalent(env, a, c)
  {}

  // ---- Release ----

  /** The candidate keeps the conditions, joins and groups of the plan's output. */
  ghost predicate KeepsClauses(env: SqlEnv, output: string, candidate: string, protected: Option<Parsed>) {
    var tree := env.parse(candidate);
    if Comparable(protected, tree) then
      var (p, c) := (protected.value.views.value, tree.value.views.value);
      && (forall term :: term in p.whereTerms ==> term in c.whereTerms)
      && p.joinConditions == c.joinConditions && p.groupExpressions == c.groupExpressions
    else
      var (p, c) := (env.normalizedText(output), env.normalizedText(candidate));
      && (env.mentionsWhere(p) ==> env.mentionsWhere(c)) && (env.mentionsJoin(p) ==> env.mentionsJoin(c))
      && (env.mentionsGroupBy(p) <==> env.mentionsGroupBy(c))
  }

  /** Its target is known to be the plan's target: all trees can be read, and target and static partition agree. */
  ghost predicate KeepsTarget(env: SqlEnv, failedSql: string, output: string, candidate: string,
                              protected: Option<Parsed>) {
    && env.parse(failedSql).Some? && Comparable(protected, env.parse(candidate))
    && protected.value.views.value.insertTarget == env.parse(candidate).value.views.value.insertTarget
    && env.staticPartition(output) == env.staticPartition(candidate)
  }

  /** The tree of the plan's output, or of the failed SQL when the output does not parse. */
  function OutputTree(env: SqlEnv, failedSql: string, output: string): Option<Parsed> {
    if env.parse(output).Some? then env.parse(output) else env.parse(failedSql)
  }

  /** Everything that a released candidate satisfies. */
  ghost predicate IsReleasable(env: GateEnv, allowMediumRisk: bool, failedSql: string, candidate: string,
                               plan: RepairPlan, output: string) {
    var tree := OutputTree(env.sql, failedSql, output);
    && !env.isBlank(candidate) && SqlEquivalent(env.sql, output, candidate)
    && !env.sql.isDangerous(candidate)
    && (env.sql.isWrite(candidate) ==> env.sql.isWrite(failedSql) && env.sql.isInsert(candidate))
    && (env.sql.isInsert(candidate) ==> KeepsTarget(env.sql, failedSql, output, candidate, tree))
    && KeepsClauses(env.sql, output, candidate, tree)
    && (forall i :: 0 <= i < |plan.actions| ==> !plan.actions[i].risk.HighAction?)
    && (!allowMediumRisk ==>
          forall i :: 0 <= i < |plan.actions| ==>
            plan.actions[i].risk.LowAction? && !plan.actions[i].actionType.AddCast?)
  }

  /** No violation is exactly what the list of conditions says. */
  lemma NoViolationIff(env: GateEnv, failedSql: string, candidate: string, plan: RepairPlan, output: string,
                       diff: SqlDiffSummary)
    requires ApplyActions(env.sql.templates, failedSql, plan.actions).Applied?
             && ApplyActions(env.sql.templates, failedSql, plan.actions).sql == output
    requires Describes(env.sql, failedSql, candidate, plan, diff)
    ensures (forall code :: !Violates(env.sql, failedSql, candidate, plan, diff, code)) <==>
              && SqlEquivalent(env.sql, output, candidate) && !env.sql.isDangerous(candidate)
              && (env.sql.isWrite(candidate) ==> env.sql.isWrite(failedSql) && env.sql.isInsert(candidate))
              && (env.sql.isInsert(candidate) ==>
                    KeepsTarget(env.sql, failedSql, output, candidate, OutputTree(env.sql, failedSql, output)))
              && KeepsClauses(env.sql, output, candidate, OutputTree(env.sql, failedSql, output))
  {
    var applied := ApplyActions(env.sql.templates, failedSql, plan.actions);
    WhatThePlanProtects(env.sql, failedSql, candidate, plan, applied);
    ReplayReproducesPlan(env.sql.templates, failedSql, plan.actions);
    EachViolation(env.sql, failedSql, candidate, plan, diff);
  }

  /** The nine checks, one by one. */
  lemma EachViolation(env: SqlEnv, failedSql: string, candidate: string, plan: RepairPlan, diff: SqlDiffSummary)
    ensures (forall code :: !Violates(env, failedSql, candidate, plan, diff, code)) <==>
              && !env.isDangerous(candidate)
              && (env.isWrite(candidate) ==> env.isWrite(failedSql))
              && (env.isWrite(candidate) ==> env.isInsert(candidate))
              && (env.isInsert(candidate) ==>
                    diff.parseSuccess && !diff.changedInsertTarget && !diff.changedStaticPartition)
              && !diff.removedWhere && !diff.removedJoinCondition && !diff.changedGroupBy
              && MatchesPlan(env, failedSql, candidate, plan) && diff.changedFragmentCount == |plan.actions|
  {
    if forall code :: !Violates(env, failedSql, candidate, plan, diff, code) {
      assert !Violates(env, failedSql, candidate, plan, diff, DangerousSql);
      assert !Violates(env, failedSql, candidate, plan, diff, WriteIntroduced);
      assert !Violates(env, failedSql, candidate, plan, diff, UnsupportedWriteSql);
      assert !Violates(env, failedSql, candidate, plan, diff, InsertTargetUnverified);
      assert !Violates(env, failedSql, candidate, plan, diff, WhereWeakened);
      assert !Violates(env, failedSql, candidate, plan, diff, JoinConditionChanged);
      assert !Violates(env, failedSql, candidate, plan, diff, GroupByChanged);
      assert !Violates(env, failedSql, candidate, plan, diff, UnauthorizedChange);
      assert !Violates(env, failedSql, candidate, plan, diff, PlanActionCountMismatch);
    }
  }

  /** What the action risks allow. */
  lemma RisksAllow(allowMediumRisk: bool, plan: RepairPlan, v: ValidationResult)
    requires RiskFollows(allowMediumRisk, plan, v) && v.issues == []
    ensures v.allowReturnSql <==>
              && (forall i :: 0 <= i < |plan.actions| ==> !plan.actions[i].risk.HighAction?)
              && (!allowMediumRisk ==>
                    forall i :: 0 <= i < |plan.actions| ==>
                      plan.actions[i].risk.LowAction? && !plan.actions[i].actionType.AddCast?)
  {}

  /** A description of the candidate and the validator's verdict on it exist. */
  lemma DiffAndVerdict(env: SqlEnv, allowMediumRisk: bool, failedSql: string, candidate: string, plan: RepairPlan)
    returns (diff: SqlDiffSummary, v: ValidationResult)
    requires !ApplyActions(env.templates, failedSql, plan.actions).Aborted?
    ensures Describes(env, failedSql, candidate, plan, diff)
    ensures Judges(env, allowMediumRisk, failedSql, candidate, plan, diff, v)
  {
    diff := DiffOf(env, failedSql, candidate, plan);
    var issues := Reported(Violations(env, failedSql, candidate, plan, diff), 9);
    ReportedAreTheViolations(env, failedSql, candidate, plan, diff);
    v := VerdictOf(allowMediumRisk, plan, issues);
  }

  lemma DiffOf(env: SqlEnv, failedSql: string, candidate: string, plan: RepairPlan) returns (diff: SqlDiffSummary)
    ensures Describes(env, failedSql, candidate, plan, diff)
  {
    var protected, protectedSql := ProtectedTree(env, failedSql, plan), ProtectedSql(env, failedSql, plan);
    var a, b, c, d := Departure(env, protected, protectedSql, candidate);
    var changes := if MatchesPlan(env, failedSql, candidate, plan)
                   then ApplyActions(env.templates, failedSql, plan.actions).changes else [];
    diff := SqlDiffSummary(|changes|, changes, a, b, c, d,
                           env.staticPartition(protectedSql) != env.staticPartition(candidate),
                           env.parse(failedSql).Some? && Comparable(protected, env.parse(candidate)));
  }

  lemma Departure(env: SqlEnv, protected: Option<Parsed>, protectedSql: string, candidate: string)
    returns (removedWhere: bool, removedJoin: bool, changedGroup: bool, changedTarget: bool)
    ensures DepartsBy(env, protected, protectedSql, candidate, removedWhere, removedJoin, changedGroup, changedTarget)
  {
    var tree := env.parse(candidate);
    if Comparable(protected, tree) {
      var (p, c) := (protected.value.views.value, tree.value.views.value);
      removedWhere := exists term :: term in p.whereTerms && term !in c.whereTerms;
      removedJoin, changedGroup := p.joinConditions != c.joinConditions, p.groupExpressions != c.groupExpressions;
      changedTarget := p.insertTarget != c.insertTarget;
    } else {
      var (p, c) := (env.normalizedText(protectedSql), env.normalizedText(candidate));
      removedWhere := env.mentionsWhere(p) && !env.mentionsWhere(c);
      removedJoin := env.mentionsJoin(p) && !env.mentionsJoin(c);
      changedGroup, changedTarget := env.mentionsGroupBy(p) != env.mentionsGroupBy(c), false;
    }
  }

  lemma VerdictOf(allowMediumRisk: bool, plan: RepairPlan, issues: seq<IssueCode>) returns (v: ValidationResult)
    ensures v.issues == issues && RiskFollows(allowMediumRisk, plan, v)
  {
    var risk := if issues != [] then Blocked else if HasHighAction(plan) then High
                else if HasMediumAction(plan) then Medium else Low;
    v := ValidationResult(risk, issues == [], issues, risk.Low? || (risk.Medium? && allowMediumRisk));
  }

  /**
    * The static gate releases a candidate exactly when the plan can be applied and the candidate satisfies every one of
    * the conditions on its text, its tree and the plan's risks.
    */
  lemma StaticallyAllowedIff(env: GateEnv, allowMediumRisk: bool, failedSql: string, candidate: string,
                             plan: RepairPlan)
    ensures var applied := ApplyActions(env.sql.templates, failedSql, plan.actions);
            StaticallyAllowed(env, allowMediumRisk, failedSql, candidate, plan) <==>
              applied.Applied? && IsReleasable(env, allowMediumRisk, failedSql, candidate, plan, applied.sql)
  {
    var applied := ApplyActions(env.sql.templates, failedSql, plan.actions);
    if !applied.Aborted? && !env.isBlank(candidate) {
      var diff, v := DiffAndVerdict(env.sql, allowMediumRisk, failedSql, candidate, plan);
      AllowedIsTheVerdict(env, allowMediumRisk, failedSql, candidate, plan, diff, v);
      VerdictIsRelease(env, allowMediumRisk, failedSql, candidate, plan, diff, v);
    }
  }

  lemma VerdictIsRelease(env: GateEnv, allowMediumRisk: bool, failedSql: string, candidate: string, plan: RepairPlan,
                         diff: SqlDiffSummary, v: ValidationResult)
    requires !env.isBlank(candidate) && Describes(env.sql, failedSql, candidate, plan, diff)
    requires Judges(env.sql, allowMediumRisk, failedSql, candidate, plan, diff, v)
    ensures var applied := ApplyActions(env.sql.templates, failedSql, plan.actions);
            v.allowReturnSql <==>
              applied.Applied? && IsReleasable(env, allowMediumRisk, failedSql, candidate, plan, applied.sql)
  {
    var applied := ApplyActions(env.sql.templates, failedSql, plan.actions);
    EmptyIffNoViolation(env.sql, failedSql, candidate, plan, diff, v.issues);
    if applied.Applied? {
      NoViolationIff(env, failedSql, candidate, plan, applied.sql, diff);
      if v.issues == [] { RisksAllow(allowMediumRisk, plan, v); }
    } else {
      assert Violates(env.sql, failedSql, candidate, plan, diff, UnauthorizedChange);
    }
  }

  lemma EmptyIffNoViolation(env: SqlEnv, failedSql: string, candidate: string, plan: RepairPlan, diff: SqlDiffSummary,
                            issues: seq<IssueCode>)
    requires ListsViolations(env, failedSql, candidate, plan, diff, issues)
    ensures issues == [] <==> forall code :: !Violates(env, failedSql, candidate, plan, diff, code)
  {
    if issues != [] { assert issues[0] in issues; }
  }

  // ---- Aggregation ----

  /** The aggregate decision, by what the results contain. */
  lemma AggregateDecisionIs(results: seq<GateResult>, allowMediumRisk: bool)
    requires results != []
    ensures var d := DecisionOf(results, allowMediumRisk);
            && (d.Reject? <==> exists r :: r in results && (r.decision.Reject? || r.risk.Blocked?))
            && (d.HumanRequired? <==>
                  && !d.Reject?
                  && exists r :: r in results && (r.decision.HumanRequired? || r.risk.High?
                                                  || (r.risk.Medium? && !allowMediumRisk)))
            && (d.PassWithWarning? <==>
                  && !d.Reject? && !d.HumanRequired?
                  && exists r :: r in results && (r.decision.PassWithWarning? || r.risk.Medium?))
  {
    MaxRiskIsMaximum(results);
    forall r | r in results ensures r.decision in (set q | q in results :: q.decision) {}
  }

  /** The output gate passes exactly when no earlier result blocks and the text is the one they judged. */
  lemma OutputGatePassesIff(env: GateEnv, request: GateRequest, previous: seq<GateResult>)
    ensures var r := RunOutputGate(env, request, previous);
            && (r.decision.Pass? <==>
                  && !env.isBlank(request.candidateSql)
                  && forall q :: q in previous ==>
                       && Passes(q) && q.candidateHash == Sha256(request.candidateSql)
                       && (q.risk.Low? || (q.risk.Medium? && request.allowMediumRisk)))
            && (!r.decision.Pass? ==> r.decision.HumanRequired? && r.risk.High?)
            && r.candidateHash == Sha256(request.candidateSql)
  {}
}
