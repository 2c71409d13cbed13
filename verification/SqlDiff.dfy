/** Comparing a candidate with the plan's exact output, and the validator that blocks what differs. */
module SqlDiff {
  import opened Options
  import opened RepairModels
  import opened SqlRewrite

  // ---- The SQL parser and the text patterns, left arbitrary ----

  /** What the comparison reads off a syntax tree. */
  datatype Views = Views(
    whereTerms: set<string>,
    joinConditions: seq<Option<string>>,
    groupExpressions: seq<string>,
    insertTarget: Option<string>)

  /** A parsed statement; `views` is None when reading the tree raises. */
  datatype Parsed = Parsed(canonical: string, views: Option<Views>)

  datatype SqlEnv = SqlEnv(
    templates: Templates,
    parse: string -> Option<Parsed>,
    normalizedText: string -> string,
    mentionsWhere: string -> bool,
    mentionsJoin: string -> bool,
    mentionsGroupBy: string -> bool,
    staticPartition: string -> Option<string>,
    isDangerous: string -> bool,
    isWrite: string -> bool,
    isInsert: string -> bool)

  predicate SqlEquivalent(env: SqlEnv, left: string, right: string) {
    var (l, r) := (env.parse(left), env.parse(right));
    if l.Some? && r.Some? then l.value.canonical == r.value.canonical
    else env.normalizedText(left) == env.normalizedText(right)
  }

  /** The plan's exact output, when every action hits exactly once. */
  function Expected(env: SqlEnv, failedSql: string, plan: RepairPlan): Option<string> {
    match ApplyActions(env.templates, failedSql, plan.actions)
    case Applied(sql, _) => Some(sql)
    case _ => None
  }

  predicate MatchesPlan(env: SqlEnv, failedSql: string, candidate: string, plan: RepairPlan) {
    var expected := Expected(env, failedSql, plan);
    expected.Some? && SqlEquivalent(env, expected.value, candidate)
  }

  // ---- The diff ----

  datatype SqlDiffSummary = SqlDiffSummary(
    changedFragmentCount: nat,
    changedFragments: seq<ChangedFragment>,
    removedWhere: bool,
    removedJoinCondition: bool,
    changedGroupBy: bool,
    changedInsertTarget: bool,
    changedStaticPartition: bool,
    parseSuccess: bool)

  /** The text whose structure the candidate must keep: the plan's output, else the failed SQL. */
  function ProtectedSql(env: SqlEnv, failedSql: string, plan: RepairPlan): string {
    var expected := Expected(env, failedSql, plan);
    if expected.Some? then expected.value else failedSql
  }

  function ProtectedTree(env: SqlEnv, failedSql: string, plan: RepairPlan): Option<Parsed> {
    var expected := Expected(env, failedSql, plan);
    var tree := env.parse(if expected.Some? then expected.value else "");
    if tree.Some? then tree else env.parse(failedSql)
  }

  predicate Comparable(protected: Option<Parsed>, candidate: Option<Parsed>) {
    protected.Some? && candidate.Some? && protected.value.views.Some? && candidate.value.views.Some?
  }

  /** How `candidate` departs from the protected text: by syntax tree, or by keywords when a tree is missing. */
  ghost predicate DepartsBy(env: SqlEnv, protected: Option<Parsed>, protectedSql: string, candidate: string,
                            removedWhere: bool, removedJoin: bool, changedGroup: bool, changedTarget: bool) {
    var tree := env.parse(candidate);
    if Comparable(protected, tree) then
      var (p, c) := (protected.value.views.value, tree.value.views.value);
      && (removedWhere <==> exists term :: term in p.whereTerms && term !in c.whereTerms)
      && (removedJoin <==> p.joinConditions != c.joinConditions)
      && (changedGroup <==> p.groupExpressions != c.groupExpressions)
      && (changedTarget <==> p.insertTarget != c.insertTarget)
    else
      var (p, c) := (env.normalizedText(protectedSql), env.normalizedText(candidate));
      && (removedWhere <==> env.mentionsWhere(p) && !env.mentionsWhere(c))
      && (removedJoin <==> env.mentionsJoin(p) && !env.mentionsJoin(c))
      && (changedGroup <==> env.mentionsGroupBy(p) != env.mentionsGroupBy(c))
      && !changedTarget
  }

  /** `diff` says how the candidate departs from what the plan protects. */
  ghost predicate Describes(env: SqlEnv, failedSql: string, candidate: string, plan: RepairPlan, diff: SqlDiffSummary) {
    var protected, protectedSql := ProtectedTree(env, failedSql, plan), ProtectedSql(env, failedSql, plan);
    && diff.changedFragmentCount == |diff.changedFragments|
    && diff.changedFragments == (if MatchesPlan(env, failedSql, candidate, plan)
                                 then ApplyActions(env.templates, failedSql, plan.actions).changes else [])
    && diff.changedStaticPartition == (env.staticPartition(protectedSql) != env.staticPartition(candidate))
    && (diff.parseSuccess <==> env.parse(failedSql).Some? && Comparable(protected, env.parse(candidate)))
    && DepartsBy(env, protected, protectedSql, candidate, diff.removedWhere, diff.removedJoinCondition,
                 diff.changedGroupBy, diff.changedInsertTarget)
  }

  method CompareStructure(env: SqlEnv, protectedTree: Option<Parsed>, protectedSql: string, candidate: string)
    returns (removedWhere: bool, removedJoin: bool, changedGroup: bool, changedTarget: bool, compared: bool)
    ensures DepartsBy(env, protectedTree, protectedSql, candidate, removedWhere, removedJoin, changedGroup,
                      changedTarget)
    ensures compared <==> Comparable(protectedTree, env.parse(candidate))
  {
    var candidateTree := env.parse(candidate);
    removedWhere, removedJoin, changedGroup, changedTarget := false, false, false, false;
    compared := Comparable(protectedTree, candidateTree);
    if compared {
      var (p, c) := (protectedTree.value.views.value, candidateTree.value.views.value);
      removedWhere := !(p.whereTerms <= c.whereTerms);
      removedJoin := p.joinConditions != c.joinConditions;
      changedGroup := p.groupExpressions != c.groupExpressions;
      changedTarget := p.insertTarget != c.insertTarget;
    } else {
      var protectedText, candidateText := env.normalizedText(protectedSql), env.normalizedText(candidate);
      removedWhere := env.mentionsWhere(protectedText) && !env.mentionsWhere(candidateText);
      removedJoin := env.mentionsJoin(protectedText) && !env.mentionsJoin(candidateText);
      changedGroup := env.mentionsGroupBy(protectedText) != env.mentionsGroupBy(candidateText);
    }
  }

  /** The plan's outcome fixes what is protected and what matches. */
  lemma WhatThePlanProtects(env: SqlEnv, failedSql: string, candidate: string, plan: RepairPlan, applied: Applied)
    requires applied == ApplyActions(env.templates, failedSql, plan.actions) && !applied.Aborted?
    ensures ProtectedSql(env, failedSql, plan) == if applied.Applied? then applied.sql else failedSql
    ensures var tree := env.parse(if applied.Applied? then applied.sql else "");
            ProtectedTree(env, failedSql, plan) == if tree.Some? then tree else env.parse(failedSql)
    ensures MatchesPlan(env, failedSql, candidate, plan)
            <==> applied.Applied? && SqlEquivalent(env, applied.sql, candidate)
  {}

  /** A summary made from the plan's outcome describes the candidate. */
  lemma SummaryDescribes(env: SqlEnv, failedSql: string, candidate: string, plan: RepairPlan, applied: Applied,
                         protected: Option<Parsed>, protectedSql: string, diff: SqlDiffSummary)
    requires applied == ApplyActions(env.templates, failedSql, plan.actions) && !applied.Aborted?
    requires protectedSql == if applied.Applied? then applied.sql else failedSql
    requires var tree := env.parse(if applied.Applied? then applied.sql else "");
             protected == if tree.Some? then tree else env.parse(failedSql)
    requires diff.changedFragmentCount == |diff.changedFragments|
    requires diff.changedFragments
             == if applied.Applied? && SqlEquivalent(env, applied.sql, candidate) then applied.changes else []
    requires diff.changedStaticPartition == (env.staticPartition(protectedSql) != env.staticPartition(candidate))
    requires diff.parseSuccess <==> env.parse(failedSql).Some? && Comparable(protected, env.parse(candidate))
    requires DepartsBy(env, protected, protectedSql, candidate, diff.removedWhere, diff.removedJoinCondition,
                       diff.changedGroupBy, diff.changedInsertTarget)
    ensures Describes(env, failedSql, candidate, plan, diff)
  {
    WhatThePlanProtects(env, failedSql, candidate, plan, applied);
  }

  /** None when applying the plan raises. */
  method BuildDiff(env: SqlEnv, failedSql: string, candidate: string, plan: RepairPlan)
    returns (result: Option<SqlDiffSummary>)
    ensures result.None? <==> ApplyActions(env.templates, failedSql, plan.actions).Aborted?
    ensures result.Some? ==> Describes(env, failedSql, candidate, plan, result.value)
  {
    var applied := ApplyRepairPlan(env.templates, failedSql, plan);
    if applied.Aborted? { return None; }
    var expectedTree := env.parse(if applied.Applied? then applied.sql else "");
    var failedTree := env.parse(failedSql);
    var planMatch := applied.Applied? && SqlEquivalent(env, applied.sql, candidate);
    var protectedTree := if expectedTree.Some? then expectedTree else failedTree;
    var protectedSql := if applied.Applied? then applied.sql else failedSql;
    var removedWhere, removedJoin, changedGroup, changedTarget, compared :=
      CompareStructure(env, protectedTree, protectedSql, candidate);
    var changes := if planMatch then applied.changes else [];
    var diff := SqlDiffSummary(|changes|, changes, removedWhere, removedJoin, changedGroup, changedTarget,
                               env.staticPartition(protectedSql) != env.staticPartition(candidate),
                               failedTree.Some? && compared);
    SummaryDescribes(env, failedSql, candidate, plan, applied, protectedTree, protectedSql, diff);
    result := Some(diff);
  }

  // ---- The validator ----

  datatype IssueCode =
    | DangerousSql | WriteIntroduced | UnsupportedWriteSql | InsertTargetUnverified
    | WhereWeakened | JoinConditionChanged | GroupByChanged
    | UnauthorizedChange | PlanActionCountMismatch

  datatype RiskLevel = Low | Medium | High | Blocked

  datatype ValidationResult = ValidationResult(risk: RiskLevel, passed: bool, issues: seq<IssueCode>,
                                               allowReturnSql: bool)

  /** When an issue is raised. */
  ghost predicate Violates(env: SqlEnv, failedSql: string, candidate: string, plan: RepairPlan, diff: SqlDiffSummary,
                           code: IssueCode) {
    match code
    case DangerousSql => env.isDangerous(candidate)
    case WriteIntroduced => env.isWrite(candidate) && !env.isWrite(failedSql)
    case UnsupportedWriteSql => env.isWrite(candidate) && !env.isInsert(candidate)
    case InsertTargetUnverified =>
      env.isInsert(candidate) && (!diff.parseSuccess || diff.changedInsertTarget || diff.changedStaticPartition)
    case WhereWeakened => diff.removedWhere
    case JoinConditionChanged => diff.removedJoinCondition
    case GroupByChanged => diff.changedGroupBy
    case UnauthorizedChange => !MatchesPlan(env, failedSql, candidate, plan)
    case PlanActionCountMismatch => diff.changedFragmentCount != |plan.actions|
  }

  function Rank(code: IssueCode): nat {
    match code
    case DangerousSql => 0 case WriteIntroduced => 1 case UnsupportedWriteSql => 2 case InsertTargetUnverified => 3
    case WhereWeakened => 4 case JoinConditionChanged => 5 case GroupByChanged => 6
    case UnauthorizedChange => 7 case PlanActionCountMismatch => 8
  }

  ghost predicate InReportOrder(issues: seq<IssueCode>) {
    forall i, j :: 0 <= i < j < |issues| ==> Rank(issues[i]) < Rank(issues[j])
  }

  ghost predicate HasHighAction(plan: RepairPlan) {
    exists i :: 0 <= i < |plan.actions| && plan.actions[i].risk.HighAction?
  }

  ghost predicate HasMediumAction(plan: RepairPlan) {
    exists i :: 0 <= i < |plan.actions| && (plan.actions[i].risk.MediumAction? || plan.actions[i].actionType.AddCast?)
  }

  /** The issues are exactly the violations, in report order. */
  ghost predicate ListsViolations(env: SqlEnv, failedSql: string, candidate: string, plan: RepairPlan,
                                  diff: SqlDiffSummary, issues: seq<IssueCode>) {
    && InReportOrder(issues)
    && forall code :: code in issues <==> Violates(env, failedSql, candidate, plan, diff, code)
  }

  /** Any issue blocks; otherwise the riskiest action decides. */
  ghost predicate RiskFollows(allowMediumRisk: bool, plan: RepairPlan, v: ValidationResult) {
    && (v.passed <==> v.issues == [])
    && (v.risk.Blocked? <==> v.issues != [])
    && (v.risk.High? <==> v.issues == [] && HasHighAction(plan))
    && (v.risk.Medium? <==> v.issues == [] && !HasHighAction(plan) && HasMediumAction(plan))
    && (v.allowReturnSql <==> v.risk.Low? || (v.risk.Medium? && allowMediumRisk))
  }

  ghost predicate Judges(env: SqlEnv, allowMediumRisk: bool, failedSql: string, candidate: string, plan: RepairPlan,
                         diff: SqlDiffSummary, v: ValidationResult) {
    ListsViolations(env, failedSql, candidate, plan, diff, v.issues) && RiskFollows(allowMediumRisk, plan, v)
  }

  function Report(issues: seq<IssueCode>, enabled: bool, code: IssueCode): seq<IssueCode> {
    if enabled then issues + [code] else issues
  }

  function CodeAt(rank: nat): (code: IssueCode)
    requires rank < 9
    ensures Rank(code) == rank
  {
    [DangerousSql, WriteIntroduced, UnsupportedWriteSql, InsertTargetUnverified, WhereWeakened,
     JoinConditionChanged, GroupByChanged, UnauthorizedChange, PlanActionCountMismatch][rank]
  }

  /** The violated codes of rank below `n`, in report order. */
  ghost function Reported(violated: set<IssueCode>, n: nat): seq<IssueCode>
    requires n <= 9
  {
    if n == 0 then [] else Report(Reported(violated, n - 1), CodeAt(n - 1) in violated, CodeAt(n - 1))
  }

  lemma {:induction false} ReportedIsOrdered(violated: set<IssueCode>, n: nat)
    requires n <= 9
    ensures InReportOrder(Reported(violated, n))
    ensures forall code :: code in Reported(violated, n) <==> code in violated && Rank(code) < n
  {
    if n > 0 {
      ReportedIsOrdered(violated, n - 1);
      ReportKeepsOrder(Reported(violated, n - 1), CodeAt(n - 1) in violated, CodeAt(n - 1));
      forall code | Rank(code) == n - 1 ensures code == CodeAt(n - 1) {
        RankIsInjective(code, CodeAt(n - 1));
      }
    }
  }

  lemma RankIsInjective(a: IssueCode, b: IssueCode)
    requires Rank(a) == Rank(b)
    ensures a == b
  {}

  lemma ReportKeepsOrder(issues: seq<IssueCode>, enabled: bool, code: IssueCode)
    requires InReportOrder(issues) && forall c :: c in issues ==> Rank(c) < Rank(code)
    ensures InReportOrder(Report(issues, enabled, code))
    ensures forall c :: c in Report(issues, enabled, code) <==> c in issues || (enabled && c == code)
  {
    assert forall i :: 0 <= i < |issues| ==> issues[i] in issues;
  }

  /** The next code: enabled exactly when it is violated. */
  lemma ReportNext(violated: set<IssueCode>, issues: seq<IssueCode>, code: IssueCode, enabled: bool)
    requires issues == Reported(violated, Rank(code))
    requires enabled <==> code in violated
    ensures Report(issues, enabled, code) == Reported(violated, Rank(code) + 1)
  {
    assert CodeAt(Rank(code)) == code;
  }

  ghost function Violations(env: SqlEnv, failedSql: string, candidate: string, plan: RepairPlan,
                            diff: SqlDiffSummary): set<IssueCode> {
    set code: IssueCode | Violates(env, failedSql, candidate, plan, diff, code)
  }

  lemma ReportedAreTheViolations(env: SqlEnv, failedSql: string, candidate: string, plan: RepairPlan,
                                 diff: SqlDiffSummary)
    ensures ListsViolations(env, failedSql, candidate, plan, diff,
                            Reported(Violations(env, failedSql, candidate, plan, diff), 9))
  {
    var violated := Violations(env, failedSql, candidate, plan, diff);
    ReportedIsOrdered(violated, 9);
    forall code ensures code in Reported(violated, 9) <==> Violates(env, failedSql, candidate, plan, diff, code) {
      assert Rank(code) < 9;
    }
  }

  method WriteIssues(env: SqlEnv, failedSql: string, candidate: string, ghost plan: RepairPlan, diff: SqlDiffSummary)
    returns (issues: seq<IssueCode>)
    ensures issues == Reported(Violations(env, failedSql, candidate, plan, diff), 4)
  {
    ghost var violated := Violations(env, failedSql, candidate, plan, diff);
    var failedWrite, candidateWrite, candidateInsert :=
      env.isWrite(failedSql), env.isWrite(candidate), env.isInsert(candidate);
    issues := [];
    ReportNext(violated, issues, DangerousSql, env.isDangerous(candidate));
    issues := Report(issues, env.isDangerous(candidate), DangerousSql);
    ReportNext(violated, issues, WriteIntroduced, candidateWrite && !failedWrite);
    issues := Report(issues, candidateWrite && !failedWrite, WriteIntroduced);
    ReportNext(violated, issues, UnsupportedWriteSql, candidateWrite && !candidateInsert);
    issues := Report(issues, candidateWrite && !candidateInsert, UnsupportedWriteSql);
    var unverified := candidateInsert
      && (!diff.parseSuccess || diff.changedInsertTarget || diff.changedStaticPartition);
    ReportNext(violated, issues, InsertTargetUnverified, unverified);
    issues := Report(issues, unverified, InsertTargetUnverified);
  }

  method StructuralIssues(diff: SqlDiffSummary, before: seq<IssueCode>, ghost violated: set<IssueCode>)
    returns (issues: seq<IssueCode>)
    requires before == Reported(violated, 4)
    requires WhereWeakened in violated <==> diff.removedWhere
    requires JoinConditionChanged in violated <==> diff.removedJoinCondition
    requires GroupByChanged in violated <==> diff.changedGroupBy
    ensures issues == Reported(violated, 7)
  {
    issues := before;
    var checks := [(diff.removedWhere, WhereWeakened), (diff.removedJoinCondition, JoinConditionChanged),
                   (diff.changedGroupBy, GroupByChanged)];
    for i := 0 to |checks|
      invariant issues == Reported(violated, 4 + i)
    {
      ReportNext(violated, issues, checks[i].1, checks[i].0);
      issues := Report(issues, checks[i].0, checks[i].1);
    }
  }

  method PlanIssues(env: SqlEnv, failedSql: string, candidate: string, plan: RepairPlan, diff: SqlDiffSummary,
                    before: seq<IssueCode>)
    returns (issues: seq<IssueCode>)
    requires before == Reported(Violations(env, failedSql, candidate, plan, diff), 7)
    ensures issues == Reported(Violations(env, failedSql, candidate, plan, diff), 9)
  {
    ghost var violated := Violations(env, failedSql, candidate, plan, diff);
    issues := before;
    var applied := ApplyRepairPlan(env.templates, failedSql, plan);
    var authorized := applied.Applied? && SqlEquivalent(env, applied.sql, candidate);
    ReportNext(violated, issues, UnauthorizedChange, !authorized);
    issues := Report(issues, !authorized, UnauthorizedChange);
    ReportNext(violated, issues, PlanActionCountMismatch, diff.changedFragmentCount != |plan.actions|);
    issues := Report(issues, diff.changedFragmentCount != |plan.actions|, PlanActionCountMismatch);
  }

  method Validate(env: SqlEnv, allowMediumRisk: bool, failedSql: string, candidate: string, plan: RepairPlan,
                  diff: SqlDiffSummary)
    returns (v: ValidationResult)
    requires !ApplyActions(env.templates, failedSql, plan.actions).Aborted?
    ensures Judges(env, allowMediumRisk, failedSql, candidate, plan, diff, v)
  {
    var issues := WriteIssues(env, failedSql, candidate, plan, diff);
    issues := StructuralIssues(diff, issues, Violations(env, failedSql, candidate, plan, diff));
    issues := PlanIssues(env, failedSql, candidate, plan, diff, issues);
    ReportedAreTheViolations(env, failedSql, candidate, plan, diff);
    v := Verdict(allowMediumRisk, plan, issues);
  }

  method Verdict(allowMediumRisk: bool, plan: RepairPlan, issues: seq<IssueCode>) returns (v: ValidationResult)
    ensures v.issues == issues && RiskFollows(allowMediumRisk, plan, v)
  {
    var high := exists i | 0 <= i < |plan.actions| :: plan.actions[i].risk.HighAction?;
    var medium := exists i | 0 <= i < |plan.actions| ::
                    plan.actions[i].risk.MediumAction? || plan.actions[i].actionType.AddCast?;
    var risk := if issues != [] then Blocked else if high then High else if medium then Medium else Low;
    v := ValidationResult(risk, issues == [], issues, risk.Low? || (risk.Medium? && allowMediumRisk));
  }

  // ---- Agreement ----

  lemma EquivalenceIsReflexiveAndSymmetric(env: SqlEnv, a: string, b: string)
    ensures SqlEquivalent(env, a, a)
    ensures SqlEquivalent(env, a, b) <==> SqlEquivalent(env, b, a)
  {}

  /** Whatever the parser, an allowed candidate is equivalent to the plan's exact output,
      reports exactly the plan's changes, and those changes replay to that output. */
  lemma AllowedCandidateIsPlanOutput(env: SqlEnv, allowMediumRisk: bool, failedSql: string, candidate: string,
                                     plan: RepairPlan, diff: SqlDiffSummary, v: ValidationResult)
    requires Describes(env, failedSql, candidate, plan, diff)
    requires Judges(env, allowMediumRisk, failedSql, candidate, plan, diff, v) && v.allowReturnSql
    ensures Expected(env, failedSql, plan).Some?
    ensures SqlEquivalent(env, Expected(env, failedSql, plan).value, candidate)
    ensures |diff.changedFragments| == |plan.actions|
    ensures ReplayOf(env.templates, failedSql, diff.changedFragments)
            == Applied(Expected(env, failedSql, plan).value, [])
    ensures !env.isDangerous(candidate) && (env.isWrite(candidate) ==> env.isWrite(failedSql))
    ensures env.isInsert(candidate) ==>
              env.staticPartition(Expected(env, failedSql, plan).value) == env.staticPartition(candidate)
  {
    assert !Violates(env, failedSql, candidate, plan, diff, UnauthorizedChange);
    assert !Violates(env, failedSql, candidate, plan, diff, PlanActionCountMismatch);
    assert !Violates(env, failedSql, candidate, plan, diff, DangerousSql);
    assert !Violates(env, failedSql, candidate, plan, diff, WriteIntroduced);
    assert !Violates(env, failedSql, candidate, plan, diff, InsertTargetUnverified);
    ReplayReproducesPlan(env.templates, failedSql, plan.actions);
  }

  /** The plan's own output never counts as changing structure, in the tree branch or in the text branch. */
  lemma PlanOutputKeepsStructure(env: SqlEnv, failedSql: string, candidate: string, plan: RepairPlan,
                                 diff: SqlDiffSummary)
    requires Expected(env, failedSql, plan) == Some(candidate)
    requires Describes(env, failedSql, candidate, plan, diff)
    ensures !diff.removedWhere && !diff.removedJoinCondition && !diff.changedGroupBy
    ensures !diff.changedInsertTarget && !diff.changedStaticPartition
    ensures diff.changedFragmentCount == |plan.actions|
    ensures diff.parseSuccess <==> env.parse(failedSql).Some? && env.parse(candidate).Some?
                                   && env.parse(candidate).value.views.Some?
  {
    ReplayReproducesPlan(env.templates, failedSql, plan.actions);
    EquivalenceIsReflexiveAndSymmetric(env, candidate, candidate);
    var protected, tree := ProtectedTree(env, failedSql, plan), env.parse(candidate);
    assert Comparable(protected, tree) ==> protected == tree;
  }

  /** Exactly when the validator lets the plan's own output through. */
  lemma PlanOutputAllowedIff(env: SqlEnv, allowMediumRisk: bool, failedSql: string, candidate: string,
                             plan: RepairPlan, diff: SqlDiffSummary, v: ValidationResult)
    requires Expected(env, failedSql, plan) == Some(candidate)
    requires Describes(env, failedSql, candidate, plan, diff)
    requires Judges(env, allowMediumRisk, failedSql, candidate, plan, diff, v)
    ensures v.allowReturnSql <==>
              && !env.isDangerous(candidate)
              && (env.isWrite(candidate) ==> env.isWrite(failedSql) && env.isInsert(candidate))
              && (env.isInsert(candidate) ==> env.parse(failedSql).Some? && env.parse(candidate).Some?
                                              && env.parse(candidate).value.views.Some?)
              && !HasHighAction(plan) && (HasMediumAction(plan) ==> allowMediumRisk)
  {
    PlanOutputKeepsStructure(env, failedSql, candidate, plan, diff);
    EquivalenceIsReflexiveAndSymmetric(env, candidate, candidate);
    assert MatchesPlan(env, failedSql, candidate, plan);
    assert v.issues != [] ==> v.issues[0] in v.issues;
    assert forall code :: code in v.issues ==>
             code in {DangerousSql, WriteIntroduced, UnsupportedWriteSql, InsertTargetUnverified};
    assert Violates(env, failedSql, candidate, plan, diff, DangerousSql) ==> DangerousSql in v.issues;
    assert Violates(env, failedSql, candidate, plan, diff, WriteIntroduced) ==> WriteIntroduced in v.issues;
    assert Violates(env, failedSql, candidate, plan, diff, UnsupportedWriteSql) ==> UnsupportedWriteSql in v.issues;
    assert Violates(env, failedSql, candidate, plan, diff, InsertTargetUnverified) ==>
             InsertTargetUnverified in v.issues;
  }
}
