/** What a column's score means, which columns are scored, and what the planner never does. */
module ColumnScores {
  import opened Options
  import opened RepairModels
  import opened Levenshtein
  import opened ColumnChoice

  // ---- Names ----

  /** Names are normalised character by character: letters and digits are folded, all others dropped. */
  lemma {:induction false} NormalizeDistributes(alphabet: Alphabet, a: string, b: string)
    ensures NormalizeName(alphabet, a + b) == NormalizeName(alphabet, a) + NormalizeName(alphabet, b)
  {
    if a == [] {
      assert a + b == b;
    } else {
      NormalizeDistributes(alphabet, a[1..], b);
      assert (a + b)[1..] == a[1..] + b;
    }
  }

  lemma NormalizeOneCharacter(alphabet: Alphabet, c: char)
    ensures NormalizeName(alphabet, "") == ""
    ensures NormalizeName(alphabet, [c]) == if alphabet.isAlnum(c) then alphabet.casefold(c) else ""
  {
    assert NormalizeName(alphabet, [c][1..]) == "";
  }

  lemma {:induction false} CasefoldDistributes(alphabet: Alphabet, a: string, b: string)
    ensures Casefold(alphabet, a + b) == Casefold(alphabet, a) + Casefold(alphabet, b)
    ensures |a| == 1 ==> Casefold(alphabet, a) == alphabet.casefold(a[0])
  {
    if a == [] {
      assert a + b == b;
    } else {
      CasefoldDistributes(alphabet, a[1..], b);
      assert (a + b)[1..] == a[1..] + b;
    }
  }

  // ---- Scores ----

  /** The length of the longer text, and 1 for two empty ones. */
  ghost predicate IsLonger(a: string, b: string, longer: nat) {
    longer >= |a| && longer >= |b| && longer >= 1 && (longer == |a| || longer == |b| || longer == 1)
  }

  lemma DistanceIsTheLeast(a: string, b: string, d: nat)
    requires IsLeastEditCount(a, b, d)
    ensures Distance(a, b) == d
  {
    DistanceIsLeastEditCount(a, b);
    var p :| IsRewriting(p, a, b) && |p| - 1 == d;
    var q :| IsRewriting(q, a, b) && |q| - 1 == Distance(a, b);
    assert d <= |q| - 1 && Distance(a, b) <= |p| - 1;
  }

  lemma ShareOf(score: real, d: nat, m: nat)
    requires m >= 1 && score == 1.0 - d as real / m as real
    ensures Misses(score, m, d) && (d == m ==> score == 0.0)
  {
    var q := d as real / m as real;
    assert 1.0 - score == q;
  }

  /** `score` misses the share `d` of `longer`. */
  predicate Misses(score: real, longer: nat, d: nat) {
    (1.0 - score) * longer as real == d as real
  }

  lemma ScoreMisses(a: string, b: string)
    ensures Misses(Score(a, b), MaxLength(a, b), Distance(a, b))
    ensures Distance(a, b) == MaxLength(a, b) ==> Score(a, b) == 0.0
  {
    var score, d, m := UnfoldScore(a, b);
    if a == b { NoShare(m); } else { ShareOf(score, d, m); }
  }

  lemma UnfoldScore(a: string, b: string) returns (score: real, d: nat, m: nat)
    ensures score == Score(a, b) && d == Distance(a, b) && m == MaxLength(a, b) && m >= 1
    ensures a == b ==> score == 1.0 && d == 0
    ensures a != b ==> score == 1.0 - d as real / m as real
  {
    DistanceZeroIffEqual(a, b);
    score, d, m := Score(a, b), Distance(a, b), MaxLength(a, b);
  }

  lemma NoShare(m: nat)
    ensures Misses(1.0, m, 0)
  {}

  lemma LongerIsUnique(a: string, b: string, longer: nat)
    requires IsLonger(a, b, longer)
    ensures MaxLength(a, b) == longer
  {}

  /** What is missing from a full score is the share of characters that must be edited. */
  lemma ScoreIsShareOfEdits(alphabet: Alphabet, name: string, tableName: string, column: Column, longer: nat, d: nat)
    requires IsLonger(NormalizeName(alphabet, name), NormalizeName(alphabet, column.name), longer)
    requires IsLeastEditCount(NormalizeName(alphabet, name), NormalizeName(alphabet, column.name), d)
    ensures Misses(CandidateFor(alphabet, name, tableName, column).score, longer, d)
    ensures var c := CandidateFor(alphabet, name, tableName, column);
            && c.originalName == name && c.candidateName == column.name && c.tableName == tableName
            && c.dataType == column.dataType && c.source == if d == 0 then Normalized else ByEditDistance(d)
  {
    var a, b := NormalizeName(alphabet, name), NormalizeName(alphabet, column.name);
    DistanceIsTheLeast(a, b, d);
    DistanceZeroIffEqual(a, b);
    LongerIsUnique(a, b, longer);
    ScoreMisses(a, b);
  }

  // ---- Which columns are scored ----

  /** The number of columns in the first `t` tables. */
  function ColumnsBefore(tables: seq<Table>, t: nat): nat
    requires t <= |tables|
  {
    if t == 0 then 0 else ColumnsBefore(tables, t - 1) + |tables[t - 1].columns|
  }

  lemma {:induction false} ColumnsBeforeRest(tables: seq<Table>, t: nat)
    requires 0 < t <= |tables|
    ensures ColumnsBefore(tables, t) == |tables[0].columns| + ColumnsBefore(tables[1..], t - 1)
  {
    if t > 1 { ColumnsBeforeRest(tables, t - 1); }
  }

  /** Every column of every table is listed at its own place, and nothing else is. */
  lemma {:induction false} EveryColumnIsListed(tables: seq<Table>, t: nat, k: nat)
    requires t < |tables| && k < |tables[t].columns|
    ensures ColumnsBefore(tables, t) + k < |AllColumns(tables)|
    ensures AllColumns(tables)[ColumnsBefore(tables, t) + k] == (tables[t].tableName, tables[t].columns[k])
  {
    if t > 0 {
      EveryColumnIsListed(tables[1..], t - 1, k);
      ColumnsBeforeRest(tables, t);
    }
  }

  lemma {:induction false} ListIsAsLong(tables: seq<Table>)
    ensures |AllColumns(tables)| == ColumnsBefore(tables, |tables|)
  {
    if tables != [] {
      ListIsAsLong(tables[1..]);
      ColumnsBeforeRest(tables, |tables|);
    }
  }

  lemma {:induction false} ListedIsColumn(tables: seq<Table>, i: nat) returns (t: nat, k: nat)
    requires i < |AllColumns(tables)|
    ensures t < |tables| && k < |tables[t].columns|
    ensures AllColumns(tables)[i] == (tables[t].tableName, tables[t].columns[k])
  {
    if i < |tables[0].columns| {
      t, k := 0, i;
    } else {
      t, k := ListedIsColumn(tables[1..], i - |tables[0].columns|);
      t := t + 1;
    }
  }

  /** Every ranked candidate is some column with that column's score. */
  lemma RankedIsColumn(alphabet: Alphabet, name: string, tables: seq<Table>, c: Candidate) returns (t: nat, k: nat)
    requires c in SortByScore(CandidatesFor(alphabet, name, AllColumns(tables)))
    ensures t < |tables| && k < |tables[t].columns|
    ensures c == CandidateFor(alphabet, name, tables[t].tableName, tables[t].columns[k])
  {
    var cs := CandidatesFor(alphabet, name, AllColumns(tables));
    SortByScoreIsSorted(cs);
    assert c in multiset(SortByScore(cs)) && c in multiset(cs);
    var i :| 0 <= i < |cs| && cs[i] == c;
    t, k := ListedIsColumn(tables, i);
  }

  // ---- What is substituted ----

  ghost predicate ShareCharacter(a: string, b: string) {
    exists c :: c in a && c in b
  }

  /** Without a common character every character of the longer text must be edited. */
  lemma {:induction false} DisjointDistance(a: string, b: string)
    requires !ShareCharacter(a, b)
    ensures Distance(a, b) >= |a| && Distance(a, b) >= |b|
    decreases |a| + |b|
  {
    if a != [] && b != [] {
      var x, y := a[..|a| - 1], b[..|b| - 1];
      assert a[|a| - 1] in a && b[|b| - 1] in b;
      DisjointParts(a, b);
      DisjointDistance(x, b);
      DisjointDistance(a, y);
      DisjointDistance(x, y);
    }
  }

  lemma DisjointParts(a: string, b: string)
    requires a != [] && b != [] && !ShareCharacter(a, b)
    ensures !ShareCharacter(a[..|a| - 1], b) && !ShareCharacter(a, b[..|b| - 1])
            && !ShareCharacter(a[..|a| - 1], b[..|b| - 1])
  {}

  /** A column whose name shares no character with the entity's scores nothing. */
  lemma UnrelatedScoresZero(alphabet: Alphabet, name: string, tableName: string, column: Column)
    requires !ShareCharacter(NormalizeName(alphabet, name), NormalizeName(alphabet, column.name))
    requires NormalizeName(alphabet, name) != "" || NormalizeName(alphabet, column.name) != ""
    ensures CandidateFor(alphabet, name, tableName, column).score == 0.0
  {
    var a, b := NormalizeName(alphabet, name), NormalizeName(alphabet, column.name);
    var longer := if |a| >= |b| then |a| else |b|;
    DisjointDistance(a, b);
    DistanceBounds(a, b);
    LongerIsUnique(a, b, longer);
    ScoreMisses(a, b);
  }

  /** The column that a plan substitutes. */
  ghost predicate Substitutes(plan: RepairPlan, name: string) {
    plan.repairable && |plan.actions| == 1 && plan.actions[0].actionType == ReplaceColumn
    && plan.actions[0].replacementFragment == Some(name)
  }

  /** The names share a character or are both empty, and at most six of ten characters must be edited. */
  ghost predicate AreClose(a: string, b: string, longer: nat, d: nat) {
    && (ShareCharacter(a, b) || a == b == "")
    && (IsLonger(a, b, longer) && IsLeastEditCount(a, b, d) ==> 10 * d <= 6 * longer)
  }

  /** A substituted column is close to the entity. */
  lemma SubstitutedIsClose(alphabet: Alphabet, input: PlannerInput, longer: nat, d: nat) returns (t: nat, k: nat)
    requires AsksForColumn(input) && PlanRepair(alphabet, input).repairable
    ensures var tables := input.tables.value;
            && t < |tables| && k < |tables[t].columns|
            && Substitutes(PlanRepair(alphabet, input), tables[t].columns[k].name)
            && AreClose(NormalizeName(alphabet, input.diagnosis.primaryEntity.value),
                        NormalizeName(alphabet, tables[t].columns[k].name), longer, d)
  {
    var entity, tables := input.diagnosis.primaryEntity.value, input.tables.value;
    var cs := CandidatesFor(alphabet, entity, AllColumns(tables));
    PlanFollowsChoice(alphabet, input);
    var c := Choose(SortByScore(cs)).value;
    t, k := RankedIsColumn(alphabet, entity, tables, c);
    GoodScoreIsClose(alphabet, entity, tables[t].tableName, tables[t].columns[k], longer, d);
  }

  lemma GoodScoreIsClose(alphabet: Alphabet, name: string, tableName: string, column: Column, longer: nat, d: nat)
    requires CandidateFor(alphabet, name, tableName, column).score >= 0.4
    ensures AreClose(NormalizeName(alphabet, name), NormalizeName(alphabet, column.name), longer, d)
  {
    var a, b := NormalizeName(alphabet, name), NormalizeName(alphabet, column.name);
    if !ShareCharacter(a, b) && (a != "" || b != "") { UnrelatedScoresZero(alphabet, name, tableName, column); }
    if IsLonger(a, b, longer) && IsLeastEditCount(a, b, d) {
      ScoreIsShareOfEdits(alphabet, name, tableName, column, longer, d);
      ShareIsSmall(CandidateFor(alphabet, name, tableName, column).score, longer, d);
    }
  }

  lemma ShareIsSmall(score: real, longer: nat, d: nat)
    requires score >= 0.4 && Misses(score, longer, d)
    ensures 10 * d <= 6 * longer
  {
    Smaller(1.0 - score, 0.6, longer as real);
  }

  lemma Smaller(x: real, y: real, m: real)
    requires x <= y && m >= 0.0
    ensures x * m <= y * m
  {}

  // ---- All branches of the planner ----

  /** The column found by folded name is the first one of that name. */
  lemma {:induction false} FirstNamedIsFirst(alphabet: Alphabet, entity: string, columns: seq<(string, Column)>)
    ensures var found := FirstColumnNamed(alphabet, entity, columns);
            && (found.None? ==> forall i :: 0 <= i < |columns| ==> !IsNamed(alphabet, entity, columns[i].1))
            && (found.Some? ==> exists i :: 0 <= i < |columns| && IsFirstNamed(alphabet, entity, columns, i)
                                  && columns[i].1 == found.value)
  {
    if columns != [] {
      if IsNamed(alphabet, entity, columns[0].1) {
        assert IsFirstNamed(alphabet, entity, columns, 0);
      } else {
        var rest := columns[1..];
        FirstNamedIsFirst(alphabet, entity, rest);
        if FirstColumnNamed(alphabet, entity, rest).Some? {
          var i :| 0 <= i < |rest| && IsFirstNamed(alphabet, entity, rest, i)
                   && rest[i].1 == FirstColumnNamed(alphabet, entity, rest).value;
          LaterIsFirstNamed(alphabet, entity, columns, i);
        } else {
          forall i | 0 <= i < |columns| ensures !IsNamed(alphabet, entity, columns[i].1) {
            if i > 0 { assert columns[i] == rest[i - 1]; }
          }
        }
      }
    }
  }

  predicate IsNamed(alphabet: Alphabet, entity: string, column: Column) {
    Casefold(alphabet, column.name) == Casefold(alphabet, entity)
  }

  ghost predicate IsFirstNamed(alphabet: Alphabet, entity: string, columns: seq<(string, Column)>, i: nat)
    requires i < |columns|
  {
    IsNamed(alphabet, entity, columns[i].1) && forall j :: 0 <= j < i ==> !IsNamed(alphabet, entity, columns[j].1)
  }

  lemma LaterIsFirstNamed(alphabet: Alphabet, entity: string, columns: seq<(string, Column)>, i: nat)
    requires columns != [] && !IsNamed(alphabet, entity, columns[0].1) && i < |columns[1..]|
    requires IsFirstNamed(alphabet, entity, columns[1..], i)
    ensures IsFirstNamed(alphabet, entity, columns, i + 1) && columns[i + 1] == columns[1..][i]
  {
    forall j | 0 <= j < i + 1 ensures !IsNamed(alphabet, entity, columns[j].1) {
      if j > 0 { assert columns[j] == columns[1..][j - 1]; }
    }
  }

  /** The planner repairs nothing but a missing column and a type mismatch, and never against the evidence. */
  lemma PlannerRepairsOnly(alphabet: Alphabet, input: PlannerInput)
    ensures PlanRepair(alphabet, input).repairable ==>
              && !input.oscillating && input.diagnosis.isRepairable
              && Truthy(input.diagnosis.primaryEntity) && input.tables.Some?
              && (input.diagnosis.errorType.ColumnNotFound? || input.diagnosis.errorType.TypeMismatch?)
    ensures !PlanRepair(alphabet, input).repairable ==> PlanRepair(alphabet, input).actions == []
  {}

  predicate AsksForCast(input: PlannerInput) {
    && !input.oscillating && input.diagnosis.isRepairable && input.diagnosis.errorType.TypeMismatch?
    && Truthy(input.diagnosis.primaryEntity) && input.tables.Some?
  }

  /** The entity is cast, at medium risk. */
  predicate IsCast(plan: RepairPlan, entity: string) {
    && |plan.actions| == 1 && plan.actions[0].actionType == AddCast && plan.actions[0].targetFragment == Some(entity)
    && plan.actions[0].replacementFragment == Some("CAST(" + entity + " AS BIGINT)")
    && plan.actions[0].risk.MediumAction? && plan.confidence == 0.8
  }

  /** A cast is planned exactly when the first column of the entity's name has a known type. */
  lemma CastIsPlannedIff(alphabet: Alphabet, input: PlannerInput)
    requires AsksForCast(input)
    ensures var entity, columns := input.diagnosis.primaryEntity.value, AllColumns(input.tables.value);
            var plan := PlanRepair(alphabet, input);
            && (plan.repairable <==> exists i :: 0 <= i < |columns| && IsFirstNamed(alphabet, entity, columns, i)
                                       && Truthy(columns[i].1.dataType))
            && (plan.repairable ==> IsCast(plan, entity))
  {
    var entity, columns := input.diagnosis.primaryEntity.value, AllColumns(input.tables.value);
    FirstNamedIsFirst(alphabet, entity, columns);
    var plan, found := CastPlan(alphabet, input);
    if found.Some? {
      var i :| 0 <= i < |columns| && IsFirstNamed(alphabet, entity, columns, i) && columns[i].1 == found.value;
      forall j | 0 <= j < |columns| && IsFirstNamed(alphabet, entity, columns, j) ensures j == i {}
    }
  }

  lemma CastPlan(alphabet: Alphabet, input: PlannerInput) returns (plan: RepairPlan, found: Option<Column>)
    requires AsksForCast(input)
    ensures plan == PlanRepair(alphabet, input)
    ensures found == FirstColumnNamed(alphabet, input.diagnosis.primaryEntity.value, AllColumns(input.tables.value))
    ensures plan.repairable <==> found.Some? && Truthy(found.value.dataType)
    ensures plan.repairable ==> IsCast(plan, input.diagnosis.primaryEntity.value)
  {
    plan := PlanRepair(alphabet, input);
    found := FirstColumnNamed(alphabet, input.diagnosis.primaryEntity.value, AllColumns(input.tables.value));
  }
}
