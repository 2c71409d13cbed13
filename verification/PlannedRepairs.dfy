/** What the planner's own plans do to the failed SQL. */
module PlannedRepairs {
  import opened Options
  import opened RepairModels
  import opened ColumnChoice
  import opened SqlRewrite
  import opened SqlDiff

  ghost predicate HasColumnNamed(tables: seq<Table>, name: string) {
    exists i :: 0 <= i < |AllColumns(tables)| && AllColumns(tables)[i].1.name == name
  }

  /** The action's target is the diagnosed entity, and it brings in nothing but a known column or a cast. */
  ghost predicate IsPlannerAction(input: PlannerInput, action: RepairAction) {
    && input.tables.Some? && Truthy(input.diagnosis.primaryEntity)
    && action.targetFragment == input.diagnosis.primaryEntity
    && action.replacementFragment.Some?
    && match action.actionType
       case ReplaceColumn => HasColumnNamed(input.tables.value, action.replacementFragment.value)
       case AddCast => action.replacementFragment.value == "CAST(" + action.targetFragment.value + " AS BIGINT)"
       case _ => false
  }

  lemma PlannerActions(alphabet: Alphabet, input: PlannerInput)
    ensures var plan := PlanRepair(alphabet, input);
            if plan.repairable then |plan.actions| == 1 && IsPlannerAction(input, plan.actions[0])
            else plan.actions == []
  {
    var plan := PlanRepair(alphabet, input);
    if plan.repairable && AsksForColumn(input) {
      var entity, columns := input.diagnosis.primaryEntity.value, AllColumns(input.tables.value);
      var cs := CandidatesFor(alphabet, entity, columns);
      ChoiceIsClearWinner(cs, Choose(SortByScore(cs)).value);
      var i :| 0 <= i < |cs| && cs[i] == Choose(SortByScore(cs)).value;
      assert columns[i].1.name == plan.actions[0].replacementFragment.value;
    }
  }

  /**
    * `rewritten` is the failed SQL itself when the planner asked for a human, and otherwise the failed SQL with one
    * mention of the diagnosed entity rewritten: a column becomes a known column, or is cast. A column that is one
    * identifier is one token.
    */
  ghost predicate IsPlannedRewrite(templates: Templates, alphabet: Alphabet, input: PlannerInput, failedSql: string,
                                   rewritten: string) {
    var plan := PlanRepair(alphabet, input);
    if plan.actions == [] then rewritten == failedSql
    else
      && |plan.actions| == 1 && IsPlannerAction(input, plan.actions[0])
      && (exists p: nat :: RewritesAt(templates, plan.actions[0], failedSql, rewritten, p))
      && (plan.actions[0].actionType.ReplaceColumn? && AllWord(input.diagnosis.primaryEntity.value) ==>
            RenamesOneToken(templates, plan.actions[0], Tokens(failedSql), Tokens(rewritten)))
  }

  /** A candidate that matches a planner's plan is equivalent to the failed SQL with at most one place rewritten. */
  lemma MatchingCandidateIsOneRewrite(env: SqlEnv, alphabet: Alphabet, input: PlannerInput, failedSql: string,
                                      candidate: string)
    returns (rewritten: string)
    requires MatchesPlan(env, failedSql, candidate, PlanRepair(alphabet, input))
    ensures SqlEquivalent(env, rewritten, candidate)
    ensures IsPlannedRewrite(env.templates, alphabet, input, failedSql, rewritten)
  {
    var plan := PlanRepair(alphabet, input);
    rewritten := Expected(env, failedSql, plan).value;
    PlannerActions(alphabet, input);
    if plan.actions != [] {
      var action := plan.actions[0];
      SingleAction(env.templates, failedSql, action);
      assert plan.actions == [action];
      var p := ActionRewritesOnePlace(env.templates, failedSql, action);
      if RenamesIdentifier(action) { ActionRenamesOneToken(env.templates, failedSql, action); }
    }
  }

  lemma SingleAction(templates: Templates, sql: string, action: RepairAction)
    ensures var applied := ApplyActions(templates, sql, [action]);
            applied.Applied? ==>
              && ReplaceAction(templates, sql, action).Replaced? && ReplaceAction(templates, sql, action).count == 1
              && applied.sql == ReplaceAction(templates, sql, action).sql
  {
    assert [action][1..] == [];
  }
}
