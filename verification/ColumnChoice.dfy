/** Ranking of column candidates and the planner's choice among them. */
module ColumnChoice {
  import opened Options
  import opened RepairModels
  import opened Levenshtein
  import Collections

  /** How characters are classified and case-folded; any choice is allowed. */
  datatype Alphabet = Alphabet(isAlnum: char -> bool, casefold: char -> string)

  function Casefold(alphabet: Alphabet, value: string): string {
    if value == [] then [] else alphabet.casefold(value[0]) + Casefold(alphabet, value[1..])
  }

  function NormalizeName(alphabet: Alphabet, value: string): string {
    if value == [] then []
    else (if alphabet.isAlnum(value[0]) then alphabet.casefold(value[0]) else [])
         + NormalizeName(alphabet, value[1..])
  }

  datatype MatchSource = Normalized | ByEditDistance(distance: nat)

  datatype Candidate = Candidate(
    originalName: string,
    candidateName: string,
    tableName: string,
    dataType: Option<string>,
    score: real,
    source: MatchSource)

  function MaxLength(a: string, b: string): nat {
    if |a| >= |b| && |a| >= 1 then |a| else if |b| >= 1 then |b| else 1
  }

  function Score(original: string, normalized: string): real {
    if original == normalized then 1.0
    else 1.0 - Distance(original, normalized) as real / MaxLength(original, normalized) as real
  }

  lemma ScoreRange(original: string, normalized: string)
    ensures 0.0 <= Score(original, normalized) <= 1.0
    ensures Score(original, normalized) == 1.0 <==> original == normalized
  {
    var d, m := Distance(original, normalized), MaxLength(original, normalized);
    DistanceBounds(original, normalized);
    DistanceZeroIffEqual(original, normalized);
    RatioRange(d, m);
  }

  lemma RatioRange(d: nat, m: nat)
    requires d <= m && m >= 1
    ensures 0.0 <= d as real / m as real <= 1.0
    ensures d as real / m as real == 0.0 <==> d == 0
  {
    var q := d as real / m as real;
    assert q * m as real == d as real;
  }

  function CandidateFor(alphabet: Alphabet, name: string, tableName: string, column: Column): Candidate {
    var original, normalized := NormalizeName(alphabet, name), NormalizeName(alphabet, column.name);
    Candidate(name, column.name, tableName, column.dataType, Score(original, normalized),
              if original == normalized then Normalized else ByEditDistance(Distance(original, normalized)))
  }

  // ---- Enumeration: tables in order, columns in order ----

  function ColumnsOf(table: Table): (r: seq<(string, Column)>)
    ensures |r| == |table.columns|
  {
    seq(|table.columns|, i requires 0 <= i < |table.columns| => (table.tableName, table.columns[i]))
  }

  function AllColumns(tables: seq<Table>): seq<(string, Column)> {
    if tables == [] then [] else ColumnsOf(tables[0]) + AllColumns(tables[1..])
  }

  function CandidatesFor(alphabet: Alphabet, name: string, columns: seq<(string, Column)>): (r: seq<Candidate>)
    ensures |r| == |columns|
    ensures forall i :: 0 <= i < |r| ==> r[i] == CandidateFor(alphabet, name, columns[i].0, columns[i].1)
  {
    seq(|columns|, i requires 0 <= i < |columns| => CandidateFor(alphabet, name, columns[i].0, columns[i].1))
  }

  // ---- The stable descending sort ----

  function InsertByScore(c: Candidate, sorted: seq<Candidate>): seq<Candidate> {
    if sorted == [] || sorted[0].score <= c.score then [c] + sorted
    else [sorted[0]] + InsertByScore(c, sorted[1..])
  }

  function SortByScore(cs: seq<Candidate>): seq<Candidate> {
    if cs == [] then [] else InsertByScore(cs[0], SortByScore(cs[1..]))
  }

  ghost predicate Descending(cs: seq<Candidate>) {
    forall i, j :: 0 <= i < j < |cs| ==> cs[i].score >= cs[j].score
  }

  function WithScore(cs: seq<Candidate>, score: real): seq<Candidate> {
    if cs == [] then []
    else (if cs[0].score == score then [cs[0]] else []) + WithScore(cs[1..], score)
  }

  lemma {:induction false} InsertByScorePermutes(c: Candidate, sorted: seq<Candidate>)
    ensures multiset(InsertByScore(c, sorted)) == multiset{c} + multiset(sorted)
  {
    if sorted != [] && sorted[0].score > c.score {
      InsertByScorePermutes(c, sorted[1..]);
      assert sorted == [sorted[0]] + sorted[1..];
    }
  }

  lemma {:induction false} InsertByScoreKeepsOrder(c: Candidate, sorted: seq<Candidate>)
    requires Descending(sorted)
    ensures Descending(InsertByScore(c, sorted))
    ensures InsertByScore(c, sorted) != []
    ensures InsertByScore(c, sorted)[0].score == if sorted == [] || sorted[0].score <= c.score then c.score
                                                 else sorted[0].score
  {
    if sorted != [] && sorted[0].score > c.score {
      InsertByScoreKeepsOrder(c, sorted[1..]);
    }
  }

  lemma WithScoreCons(c: Candidate, rest: seq<Candidate>, v: real)
    ensures WithScore([c] + rest, v) == (if c.score == v then [c] else []) + WithScore(rest, v)
  {
    assert ([c] + rest)[1..] == rest;
  }

  lemma {:induction false} InsertByScoreIsStable(c: Candidate, sorted: seq<Candidate>, v: real)
    ensures WithScore(InsertByScore(c, sorted), v) == (if c.score == v then [c] else []) + WithScore(sorted, v)
  {
    WithScoreCons(c, sorted, v);
    if sorted != [] && sorted[0].score > c.score {
      var first, rest := sorted[0], sorted[1..];
      InsertByScoreIsStable(c, rest, v);
      WithScoreCons(first, InsertByScore(c, rest), v);
      WithScoreCons(first, rest, v);
      assert [first] + rest == sorted;
      assert c.score != v || first.score != v;
    }
  }

  lemma {:induction false} SortByScoreIsSorted(cs: seq<Candidate>)
    ensures Descending(SortByScore(cs))
    ensures multiset(SortByScore(cs)) == multiset(cs)
  {
    if cs != [] {
      SortByScoreIsSorted(cs[1..]);
      InsertByScoreKeepsOrder(cs[0], SortByScore(cs[1..]));
      InsertByScorePermutes(cs[0], SortByScore(cs[1..]));
      assert cs == [cs[0]] + cs[1..];
    }
  }

  /** Candidates with equal scores keep the order in which they were found. */
  lemma {:induction false} SortByScoreIsStable(cs: seq<Candidate>, v: real)
    ensures WithScore(SortByScore(cs), v) == WithScore(cs, v)
  {
    if cs != [] {
      SortByScoreIsStable(cs[1..], v);
      InsertByScoreIsStable(cs[0], SortByScore(cs[1..]), v);
    }
  }

  /** Scores every column of every table and ranks the results, best first. */
  method FindColumnCandidates(alphabet: Alphabet, originalName: string, tables: seq<Table>)
    returns (ranked: seq<Candidate>)
    ensures ranked == SortByScore(CandidatesFor(alphabet, originalName, AllColumns(tables)))
    ensures Descending(ranked)
  {
    var original := NormalizeName(alphabet, originalName);
    var candidates: seq<Candidate> := [];
    ghost var done: seq<(string, Column)> := [];
    for t := 0 to |tables|
      invariant done + AllColumns(tables[t..]) == AllColumns(tables)
      invariant candidates == CandidatesFor(alphabet, originalName, done)
    {
      var table := tables[t];
      ghost var before := done;
      for k := 0 to |table.columns|
        invariant done == before + ColumnsOf(table)[..k]
        invariant candidates == CandidatesFor(alphabet, originalName, done)
      {
        var column := table.columns[k];
        var candidate := ScoreColumn(alphabet, originalName, original, table.tableName, column);
        candidates := candidates + [candidate];
        done := done + [(table.tableName, column)];
      }
      NextTable(before, done, tables, t);
    }
    ranked := SortByScore(candidates);
    assert done == AllColumns(tables);
    SortByScoreIsSorted(candidates);
  }

  lemma NextTable(before: seq<(string, Column)>, done: seq<(string, Column)>, tables: seq<Table>, t: nat)
    requires t < |tables|
    requires before + AllColumns(tables[t..]) == AllColumns(tables)
    requires done == before + ColumnsOf(tables[t])[..|tables[t].columns|]
    ensures done + AllColumns(tables[t + 1..]) == AllColumns(tables)
  {
    var columns, rest := ColumnsOf(tables[t]), AllColumns(tables[t + 1..]);
    assert columns[..|tables[t].columns|] == columns;
    assert tables[t..][1..] == tables[t + 1..];
    assert AllColumns(tables[t..]) == columns + rest;
    assert before + (columns + rest) == (before + columns) + rest;
  }

  method ScoreColumn(alphabet: Alphabet, originalName: string, original: string, tableName: string, column: Column)
    returns (candidate: Candidate)
    requires original == NormalizeName(alphabet, originalName)
    ensures candidate == CandidateFor(alphabet, originalName, tableName, column)
    ensures 0.0 <= candidate.score <= 1.0
    ensures candidate.score == 1.0 <==> original == NormalizeName(alphabet, column.name)
  {
    var normalized := NormalizeName(alphabet, column.name);
    var distance := EditDistance(original, normalized);
    var score := if original == normalized then 1.0
                 else 1.0 - distance as real / MaxLength(original, normalized) as real;
    ScoreRange(original, normalized);
    candidate := Candidate(originalName, column.name, tableName, column.dataType, score,
                           if original == normalized then Normalized else ByEditDistance(distance));
  }

  // ---- The planner ----

  /** The head of the ranking, when it is good enough and clearly ahead of the second. */
  function Choose(ranked: seq<Candidate>): Option<Candidate> {
    if ranked == [] then None
    else
      var best := ranked[0];
      var secondScore := if |ranked| > 1 then ranked[1].score else -1.0;
      if best.score < 0.4 || best.score - secondScore < 0.05 then None else Some(best)
  }

  /** `c` occurs once, scores at least 0.4 and beats every other candidate by at least 0.05. */
  ghost predicate ClearWinner(cs: multiset<Candidate>, c: Candidate) {
    && c in cs && c.score >= 0.4
    && forall d :: d in cs - multiset{c} ==> c.score - d.score >= 0.05
  }

  lemma ChosenBeatsRest(ranked: seq<Candidate>, c: Candidate)
    requires Descending(ranked) && Choose(ranked) == Some(c)
    ensures ranked != [] && c == ranked[0] && c.score >= 0.4
    ensures forall k :: 0 < k < |ranked| ==> c.score - ranked[k].score >= 0.05
  {}

  lemma WithoutHead(ranked: seq<Candidate>)
    requires ranked != []
    ensures multiset(ranked) - multiset{ranked[0]} == multiset(ranked[1..])
  {
    assert ranked == [ranked[0]] + ranked[1..];
  }

  lemma ChosenIsClearWinner(ranked: seq<Candidate>, c: Candidate)
    requires Descending(ranked) && Choose(ranked) == Some(c)
    ensures ClearWinner(multiset(ranked), c)
  {
    ChosenBeatsRest(ranked, c);
    WithoutHead(ranked);
    forall d | d in multiset(ranked[1..]) ensures c.score - d.score >= 0.05 {
      var k :| 0 <= k < |ranked[1..]| && ranked[1..][k] == d;
      assert d == ranked[k + 1];
    }
  }

  lemma ClearWinnerIsChosen(ranked: seq<Candidate>, c: Candidate)
    requires Descending(ranked) && ClearWinner(multiset(ranked), c)
    ensures Choose(ranked) == Some(c)
  {
    assert c in ranked;
    assert ranked == [ranked[0]] + ranked[1..];
    if |ranked| > 1 {
      assert ranked[1] in multiset(ranked) - multiset{ranked[0]};
    }
  }

  lemma ChoiceIsClearWinner(cs: seq<Candidate>, c: Candidate)
    ensures Choose(SortByScore(cs)) == Some(c) <==> ClearWinner(multiset(cs), c)
  {
    SortByScoreIsSorted(cs);
    if Choose(SortByScore(cs)) == Some(c) { ChosenIsClearWinner(SortByScore(cs), c); }
    if ClearWinner(multiset(cs), c) { ClearWinnerIsChosen(SortByScore(cs), c); }
  }

  lemma SomethingIsChosen(cs: seq<Candidate>)
    ensures Choose(SortByScore(cs)).Some? <==> exists w :: ClearWinner(multiset(cs), w)
  {
    var choice := Choose(SortByScore(cs));
    if choice.Some? {
      ChoiceIsClearWinner(cs, choice.value);
    } else if w :| ClearWinner(multiset(cs), w) {
      ChoiceIsClearWinner(cs, w);
    }
  }

  /** Equal multisets of candidates lead to the same choice. */
  lemma ChoiceFollowsMultiset(cs: seq<Candidate>, ds: seq<Candidate>)
    requires multiset(cs) == multiset(ds)
    ensures Choose(SortByScore(cs)) == Choose(SortByScore(ds))
  {
    var a, b := Choose(SortByScore(cs)), Choose(SortByScore(ds));
    if a.Some? { ChoiceIsClearWinner(cs, a.value); ChoiceIsClearWinner(ds, a.value); }
    if b.Some? { ChoiceIsClearWinner(cs, b.value); ChoiceIsClearWinner(ds, b.value); }
  }

  /** What the planner reads; `oscillating` is the post-reflection verdict. */
  datatype PlannerInput = PlannerInput(
    diagnosis: Diagnosis,
    tables: Option<seq<Table>>,
    oscillating: bool)

  function Manual(message: string): RepairPlan {
    RepairPlan(false, [], Some(message), 0.0)
  }

  /** The first column, in table order, whose folded name is the folded entity. */
  function FirstColumnNamed(alphabet: Alphabet, entity: string, columns: seq<(string, Column)>): Option<Column> {
    if columns == [] then None
    else if Casefold(alphabet, columns[0].1.name) == Casefold(alphabet, entity) then Some(columns[0].1)
    else FirstColumnNamed(alphabet, entity, columns[1..])
  }

  function PlanRepair(alphabet: Alphabet, input: PlannerInput): RepairPlan {
    var diagnosis := input.diagnosis;
    if input.oscillating then
      Manual("errors oscillate")
    else if !diagnosis.isRepairable then
      Manual(if Truthy(diagnosis.manualRepairReason) then diagnosis.manualRepairReason.value else "not repairable")
    else if diagnosis.errorType.TypeMismatch? then
      if !Truthy(diagnosis.primaryEntity) || input.tables.None? then Manual("no entity or metadata")
      else
        var entity := diagnosis.primaryEntity.value;
        var column := FirstColumnNamed(alphabet, entity, AllColumns(input.tables.value));
        if column.None? || !Truthy(column.value.dataType) then Manual("column type unknown")
        else RepairPlan(true, [RepairAction(AddCast, Some(entity), Some("CAST(" + entity + " AS BIGINT)"),
                                            "type conversion", MediumAction)], None, 0.8)
    else if !diagnosis.errorType.ColumnNotFound? then
      Manual("no safe action for this error type")
    else if !Truthy(diagnosis.primaryEntity) || input.tables.None? then
      Manual("no entity or metadata")
    else
      var entity := diagnosis.primaryEntity.value;
      ColumnPlan(entity, Choose(SortByScore(CandidatesFor(alphabet, entity, AllColumns(input.tables.value)))))
  }

  function ColumnPlan(entity: string, choice: Option<Candidate>): RepairPlan {
    match choice
    case None => Manual("no clear candidate")
    case Some(best) =>
      RepairPlan(true, [RepairAction(ReplaceColumn, Some(entity), Some(best.candidateName),
                                     "most reliable column", LowAction)], None,
                 if best.score < 0.95 then best.score else 0.95)
  }

  /** The inputs on which the planner looks for a column to substitute. */
  predicate AsksForColumn(input: PlannerInput) {
    && !input.oscillating && input.diagnosis.isRepairable && input.diagnosis.errorType.ColumnNotFound?
    && Truthy(input.diagnosis.primaryEntity) && input.tables.Some?
  }

  lemma PlanFollowsChoice(alphabet: Alphabet, input: PlannerInput)
    requires AsksForColumn(input)
    ensures var entity := input.diagnosis.primaryEntity.value;
            var choice := Choose(SortByScore(CandidatesFor(alphabet, entity, AllColumns(input.tables.value))));
            var plan := PlanRepair(alphabet, input);
            && plan.repairable == choice.Some?
            && (choice.Some? ==>
                  && |plan.actions| == 1 && plan.actions[0].actionType == ReplaceColumn
                  && plan.actions[0].targetFragment == Some(entity)
                  && plan.actions[0].replacementFragment == Some(choice.value.candidateName)
                  && plan.actions[0].risk.LowAction? && plan.confidence <= 0.95 && plan.confidence <= choice.value.score
                  && (plan.confidence == 0.95 || plan.confidence == choice.value.score))
  {}

  /** A column is substituted exactly when one candidate is clearly ahead of all others in all tables. */
  lemma PlanReplacesExactlyTheClearWinner(alphabet: Alphabet, input: PlannerInput, c: Candidate)
    requires AsksForColumn(input)
    ensures var entity := input.diagnosis.primaryEntity.value;
            var candidates := multiset(CandidatesFor(alphabet, entity, AllColumns(input.tables.value)));
            var plan := PlanRepair(alphabet, input);
            && (plan.repairable <==> exists w :: ClearWinner(candidates, w))
            && (ClearWinner(candidates, c) ==>
                  && |plan.actions| == 1 && plan.actions[0].actionType == ReplaceColumn
                  && plan.actions[0].targetFragment == Some(entity)
                  && plan.actions[0].replacementFragment == Some(c.candidateName)
                  && plan.actions[0].risk.LowAction? && plan.confidence <= 0.95 && plan.confidence <= c.score
                  && (plan.confidence == 0.95 || plan.confidence == c.score))
  {
    PlanFollowsChoice(alphabet, input);
    ChoiceFacts(CandidatesFor(alphabet, input.diagnosis.primaryEntity.value, AllColumns(input.tables.value)), c);
  }

  lemma ChoiceFacts(cs: seq<Candidate>, c: Candidate)
    ensures Choose(SortByScore(cs)).Some? <==> exists w :: ClearWinner(multiset(cs), w)
    ensures ClearWinner(multiset(cs), c) ==> Choose(SortByScore(cs)) == Some(c)
  {
    SomethingIsChosen(cs);
    ChoiceIsClearWinner(cs, c);
  }

  /** Taking out the column at `k` takes out its candidate. */
  lemma CandidatesWithout(alphabet: Alphabet, name: string, ys: seq<(string, Column)>, k: nat,
                          rest: seq<(string, Column)>)
    requires k < |ys| && rest == ys[..k] + ys[k + 1..]
    ensures multiset(CandidatesFor(alphabet, name, ys))
            == multiset(CandidatesFor(alphabet, name, rest)) + multiset{CandidateFor(alphabet, name, ys[k].0, ys[k].1)}
  {
    var cs, ds := CandidatesFor(alphabet, name, ys), CandidatesFor(alphabet, name, rest);
    assert ds == cs[..k] + cs[k + 1..];
    TakeOut(cs, k);
  }

  lemma TakeOut(cs: seq<Candidate>, k: nat)
    requires k < |cs|
    ensures multiset(cs) == multiset(cs[..k] + cs[k + 1..]) + multiset{cs[k]}
  {
    assert cs == cs[..k] + ([cs[k]] + cs[k + 1..]);
  }

  lemma {:induction false} CandidatesFollowMultiset(alphabet: Alphabet, name: string,
                                                    xs: seq<(string, Column)>, ys: seq<(string, Column)>)
    requires multiset(xs) == multiset(ys)
    ensures multiset(CandidatesFor(alphabet, name, xs)) == multiset(CandidatesFor(alphabet, name, ys))
    decreases |xs|
  {
    if xs == [] {
      assert |multiset(ys)| == 0;
    } else {
      var k := Collections.TakeFirst(xs, ys);
      var tail, rest := xs[1..], ys[..k] + ys[k + 1..];
      assert xs[..0] + tail == tail;
      CandidatesFollowMultiset(alphabet, name, tail, rest);
      CandidatesWithout(alphabet, name, xs, 0, tail);
      CandidatesWithout(alphabet, name, ys, k, rest);
    }
  }

  /** Reordering tables, or columns inside and across them, never changes the plan. */
  lemma PlanIgnoresColumnOrder(alphabet: Alphabet, input: PlannerInput, tables: seq<Table>)
    requires AsksForColumn(input)
    requires multiset(AllColumns(input.tables.value)) == multiset(AllColumns(tables))
    ensures PlanRepair(alphabet, input) == PlanRepair(alphabet, input.(tables := Some(tables)))
  {
    var entity := input.diagnosis.primaryEntity.value;
    var xs, ys := AllColumns(input.tables.value), AllColumns(tables);
    CandidatesFollowMultiset(alphabet, entity, xs, ys);
    ChoiceFollowsMultiset(CandidatesFor(alphabet, entity, xs), CandidatesFor(alphabet, entity, ys));
    PlanFollowsTables(alphabet, input, tables);
  }

  /** The tables matter through the chosen candidate only. */
  lemma PlanFollowsTables(alphabet: Alphabet, input: PlannerInput, tables: seq<Table>)
    requires AsksForColumn(input)
    requires var entity := input.diagnosis.primaryEntity.value;
             Choose(SortByScore(CandidatesFor(alphabet, entity, AllColumns(input.tables.value))))
             == Choose(SortByScore(CandidatesFor(alphabet, entity, AllColumns(tables))))
    ensures PlanRepair(alphabet, input) == PlanRepair(alphabet, input.(tables := Some(tables)))
  {
    PlanIsColumnPlan(alphabet, input);
    PlanIsColumnPlan(alphabet, input.(tables := Some(tables)));
  }

  lemma PlanIsColumnPlan(alphabet: Alphabet, input: PlannerInput)
    requires AsksForColumn(input)
    ensures var entity := input.diagnosis.primaryEntity.value;
            var choice := Choose(SortByScore(CandidatesFor(alphabet, entity, AllColumns(input.tables.value))));
            PlanRepair(alphabet, input) == ColumnPlan(entity, choice)
  {}

  lemma {:induction false} PermutedTablesHaveSameColumns(xs: seq<Table>, ys: seq<Table>)
    requires multiset(xs) == multiset(ys)
    ensures multiset(AllColumns(xs)) == multiset(AllColumns(ys))
    decreases |xs|
  {
    if xs == [] {
      assert |multiset(ys)| == 0;
    } else {
      var x := xs[0];
      var k := Collections.TakeFirst(xs, ys);
      var rest := ys[..k] + ys[k + 1..];
      PermutedTablesHaveSameColumns(xs[1..], rest);
      AllColumnsWithout(ys, k);
    }
  }

  lemma {:induction false} AllColumnsWithout(ys: seq<Table>, k: nat)
    requires k < |ys|
    ensures multiset(AllColumns(ys)) == multiset(ColumnsOf(ys[k])) + multiset(AllColumns(ys[..k] + ys[k + 1..]))
  {
    var rest := ys[..k] + ys[k + 1..];
    if k == 0 {
      assert rest == ys[1..];
    } else {
      AllColumnsWithout(ys[1..], k - 1);
      assert ys[1..][..k - 1] + ys[1..][k..] == rest[1..];
    }
  }

  /** Handing the tables over in another order gives the same plan. */
  lemma PlanIgnoresTableOrder(alphabet: Alphabet, input: PlannerInput, tables: seq<Table>)
    requires AsksForColumn(input) && multiset(tables) == multiset(input.tables.value)
    ensures PlanRepair(alphabet, input) == PlanRepair(alphabet, input.(tables := Some(tables)))
  {
    PermutedTablesHaveSameColumns(input.tables.value, tables);
    PlanIgnoresColumnOrder(alphabet, input, tables);
  }

  /** The 0.05 margin matters: with a narrower one the plan falls back to a human. */
  lemma TiedCandidatesAreRefused(alphabet: Alphabet, input: PlannerInput, i: nat, j: nat)
    requires AsksForColumn(input)
    requires i < j < |AllColumns(input.tables.value)|
    requires var columns := AllColumns(input.tables.value);
             NormalizeName(alphabet, columns[i].1.name) == NormalizeName(alphabet, columns[j].1.name)
             == NormalizeName(alphabet, input.diagnosis.primaryEntity.value)
    ensures !PlanRepair(alphabet, input).repairable
  {
    var entity, columns := input.diagnosis.primaryEntity.value, AllColumns(input.tables.value);
    var cs := CandidatesFor(alphabet, entity, columns);
    if w :| ClearWinner(multiset(cs), w) {
      SplitTwo(cs, i, j);
      ScoresAtMostOne(alphabet, entity, columns);
    }
    PlanReplacesExactlyTheClearWinner(alphabet, input, cs[i]);
  }

  lemma SplitTwo(cs: seq<Candidate>, i: nat, j: nat)
    requires i < j < |cs|
    ensures multiset{cs[i], cs[j]} <= multiset(cs)
  {
    assert cs == cs[..i] + [cs[i]] + cs[i + 1..j] + [cs[j]] + cs[j + 1..];
  }

  lemma ScoresAtMostOne(alphabet: Alphabet, name: string, columns: seq<(string, Column)>)
    ensures forall c :: c in CandidatesFor(alphabet, name, columns) ==> 0.0 <= c.score <= 1.0
  {
    forall i | 0 <= i < |columns| ensures 0.0 <= CandidatesFor(alphabet, name, columns)[i].score <= 1.0 {
      ScoreRange(NormalizeName(alphabet, name), NormalizeName(alphabet, columns[i].1.name));
    }
  }
}
