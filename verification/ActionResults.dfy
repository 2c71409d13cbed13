/** Exactly when a repair action takes effect, by its type, and what it then does. */
module ActionResults {
  import opened Options
  import opened RepairModels
  import opened Text
  import opened SqlRewrite
  import opened TextLaws

  // ---- One hit ----

  /** The first match is at `p` and no other starts behind it: a search without overlap finds exactly this one. */
  ghost predicate IsFoundOnceAt(wholeWord: bool, sql: string, target: string, p: nat) {
    && MatchAt(wholeWord, sql, target, p)
    && forall m: nat :: MatchAt(wholeWord, sql, target, m) ==> p <= m < p + |target|
  }

  lemma {:induction false} NoMatchNoHits(wholeWord: bool, sql: string, target: string, expand: string -> string, i: nat)
    requires target != [] && i <= |sql| && forall m: nat :: i <= m ==> !MatchAt(wholeWord, sql, target, m)
    ensures Splice(wholeWord, sql, target, expand, i).hits == []
    decreases |sql| - i
  {
    if i < |sql| { NoMatchNoHits(wholeWord, sql, target, expand, i + 1); }
  }

  lemma {:induction false} FoundOnceIsOneHit(wholeWord: bool, sql: string, target: string, expand: string -> string,
                                             i: nat, p: nat)
    requires target != [] && i <= p && IsFoundOnceAt(wholeWord, sql, target, p)
    ensures p + |target| <= |sql| && |Splice(wholeWord, sql, target, expand, i).hits| == 1
    decreases |sql| - i
  {
    if i < p {
      FoundOnceIsOneHit(wholeWord, sql, target, expand, i + 1, p);
    } else {
      NoMatchNoHits(wholeWord, sql, target, expand, i + |target|);
    }
  }

  /** The result of replacing the match at `p`. */
  function WithReplaced(sql: string, target: string, replacement: string, p: nat): string
    requires p + |target| <= |sql|
  {
    sql[..p] + replacement + sql[p + |target|..]
  }

  /** One hit means one place, and the text around it stays. */
  lemma OneHitIff(wholeWord: bool, sql: string, target: string, expand: string -> string)
    requires target != []
    ensures var r := Splice(wholeWord, sql, target, expand, 0);
            && (|r.hits| == 1 <==> exists p: nat :: IsFoundOnceAt(wholeWord, sql, target, p))
            && forall p: nat :: IsFoundOnceAt(wholeWord, sql, target, p) ==>
                 r.text == WithReplaced(sql, target, expand(sql[p..p + |target|]), p)
  {
    var r := Splice(wholeWord, sql, target, expand, 0);
    if |r.hits| == 1 {
      var p := SpliceWithOneHit(wholeWord, sql, target, expand, 0);
      assert IsFoundOnceAt(wholeWord, sql, target, p);
    }
    forall p: nat | IsFoundOnceAt(wholeWord, sql, target, p)
      ensures |r.hits| == 1 && r.text == WithReplaced(sql, target, expand(sql[p..p + |target|]), p)
    {
      FoundOnceIsOneHit(wholeWord, sql, target, expand, 0, p);
      OneHitText(wholeWord, sql, target, expand, p);
    }
  }

  lemma OneHitText(wholeWord: bool, sql: string, target: string, expand: string -> string, p: nat)
    requires target != [] && IsFoundOnceAt(wholeWord, sql, target, p)
    requires |Splice(wholeWord, sql, target, expand, 0).hits| == 1
    ensures Splice(wholeWord, sql, target, expand, 0).text
            == WithReplaced(sql, target, expand(sql[p..p + |target|]), p)
  {
    var q := SpliceWithOneHit(wholeWord, sql, target, expand, 0);
    assert q == p && sql[0..p] == sql[..p];
  }

  // ---- Actions by type ----

  /** Both fragments are there; an empty replacement is a deletion. */
  predicate IsComplete(action: RepairAction) {
    Truthy(action.targetFragment) && action.replacementFragment.Some?
  }

  /** A plan of one action. */
  lemma SingleActionApplies(templates: Templates, sql: string, action: RepairAction)
    requires !action.actionType.NoSafeRepair?
    ensures var r := ReplaceAction(templates, sql, action);
            ApplyActions(templates, sql, [action])
            == if r.Raised? then Aborted else if r.count == 1 then Applied(r.sql, [ChangeOf(action)]) else Refused
  {
    var r := ReplaceAction(templates, sql, action);
    assert [action][1..] == [];
    if r.Replaced? { assert ApplyActions(templates, r.sql, []) == Applied(r.sql, []); }
  }

  /** An incomplete action and one that declares itself unsafe change nothing. */
  lemma NothingIsApplied(templates: Templates, sql: string, action: RepairAction)
    requires action.actionType.NoSafeRepair? || !IsComplete(action)
    ensures ApplyActions(templates, sql, [action]) == Refused
  {
    if !action.actionType.NoSafeRepair? { SingleActionApplies(templates, sql, action); }
  }

  /**
    * REPLACE_COLUMN, REPLACE_TABLE and QUALIFY_COLUMN look for the target as a whole word, ignoring case: an illegal
    * template aborts, and otherwise the action is applied exactly when the search finds the target once.
    */
  lemma IdentifierActionIsAppliedIff(templates: Templates, sql: string, action: RepairAction)
    requires action.actionType.ReplaceColumn? || action.actionType.ReplaceTable? || action.actionType.QualifyColumn?
    requires IsComplete(action)
    ensures var target, template := action.targetFragment.value, action.replacementFragment.value;
            var applied := ApplyActions(templates, sql, [action]);
            && (!templates.legal(template) <==> applied.Aborted?)
            && (applied.Applied? <==>
                  templates.legal(template) && exists p: nat :: IsFoundOnceAt(true, sql, target, p))
            && forall p: nat :: templates.legal(template) && IsFoundOnceAt(true, sql, target, p) ==>
                 applied == Applied(WithReplaced(sql, target, templates.expand(template, sql[p..p + |target|]), p),
                                    [ChangeOf(action)])
  {
    var target, template := action.targetFragment.value, action.replacementFragment.value;
    SingleActionApplies(templates, sql, action);
    OneHitIff(true, sql, target, Expansion(templates, template));
  }

  /** Every other action looks for the target literally, wherever it stands. */
  lemma LiteralActionIsAppliedIff(templates: Templates, sql: string, action: RepairAction)
    requires action.actionType.AddCast? || action.actionType.AddPartitionFilter?
             || action.actionType.RewriteFunction? || action.actionType.FixSyntax?
    requires IsComplete(action)
    ensures var target, replacement := action.targetFragment.value, action.replacementFragment.value;
            var applied := ApplyActions(templates, sql, [action]);
            && !applied.Aborted?
            && (applied.Applied? <==> exists p: nat :: IsFoundOnceAt(false, sql, target, p))
            && forall p: nat :: IsFoundOnceAt(false, sql, target, p) ==>
                 applied == Applied(WithReplaced(sql, target, replacement, p), [ChangeOf(action)])
  {
    SingleActionApplies(templates, sql, action);
    OneHitIff(false, sql, action.targetFragment.value, Literally(action.replacementFragment.value));
  }

  /** A literal match is an occurrence of the text; a whole-word match ignores case and stands alone. */
  lemma MatchesAre(sql: string, target: string, p: nat)
    ensures MatchAt(false, sql, target, p) <==> OccursAt(sql, target, p)
    ensures MatchAt(true, sql, target, p) <==>
              && MentionsAt(sql, target, p) && (p > 0 ==> !IsWord(sql[p - 1]))
              && (p + |target| < |sql| ==> !IsWord(sql[p + |target|]))
  {
    if p + |target| <= |sql| { FoldingIgnoresCase(sql[p..p + |target|], target); }
  }

  // ---- Identifiers ----

  /** Token `k` is the target, ignoring case, and no other token is. */
  ghost predicate IsOnlyToken(tokens: seq<Token>, target: string, k: nat) {
    && k < |tokens| && tokens[k].Word? && SameIgnoringCase(tokens[k].text, target)
    && forall j :: 0 <= j < |tokens| && tokens[j].Word? && SameIgnoringCase(tokens[j].text, target) ==> j == k
  }

  lemma {:induction false} OneHitIsOnlyToken(tokens: seq<Token>, target: string)
    ensures CountHits(tokens, target) == 0 <==> forall j :: 0 <= j < |tokens| ==> !IsHit(tokens[j], target)
    ensures CountHits(tokens, target) == 1 <==> exists k: nat :: IsOnlyHit(tokens, target, k)
  {
    if tokens != [] {
      var rest := tokens[1..];
      OneHitIsOnlyToken(rest, target);
      HitsOfCons(tokens, target);
    }
  }

  ghost predicate IsOnlyHit(tokens: seq<Token>, target: string, k: nat) {
    k < |tokens| && IsHit(tokens[k], target) && forall j :: 0 <= j < |tokens| && IsHit(tokens[j], target) ==> j == k
  }

  lemma HitsOfCons(tokens: seq<Token>, target: string)
    requires tokens != []
    ensures (forall j :: 0 <= j < |tokens| ==> !IsHit(tokens[j], target))
            <==> !IsHit(tokens[0], target) && forall j :: 0 <= j < |tokens[1..]| ==> !IsHit(tokens[1..][j], target)
    ensures (exists k: nat :: IsOnlyHit(tokens, target, k)) <==>
              if IsHit(tokens[0], target) then forall j :: 0 <= j < |tokens[1..]| ==> !IsHit(tokens[1..][j], target)
              else exists k: nat :: IsOnlyHit(tokens[1..], target, k)
  {
    var rest := tokens[1..];
    assert forall j :: 0 < j < |tokens| ==> tokens[j] == rest[j - 1];
    assert forall j :: 0 <= j < |rest| ==> rest[j] == tokens[j + 1];
    if IsHit(tokens[0], target) {
      if forall j :: 0 <= j < |rest| ==> !IsHit(rest[j], target) { assert IsOnlyHit(tokens, target, 0); }
    } else {
      if k: nat :| IsOnlyHit(rest, target, k) { assert IsOnlyHit(tokens, target, k + 1); }
      if k: nat :| IsOnlyHit(tokens, target, k) { IsOnlyHitBehind(tokens, target, k); }
    }
  }

  lemma IsOnlyHitBehind(tokens: seq<Token>, target: string, k: nat)
    requires IsOnlyHit(tokens, target, k) && !IsHit(tokens[0], target)
    ensures k > 0 && IsOnlyHit(tokens[1..], target, k - 1)
  {
    forall j | 0 <= j < |tokens[1..]| && IsHit(tokens[1..][j], target) ensures j == k - 1 {
      assert tokens[1..][j] == tokens[j + 1];
    }
  }

  lemma OnlyHitIsOnlyToken(tokens: seq<Token>, target: string, k: nat)
    ensures IsOnlyHit(tokens, target, k) <==> IsOnlyToken(tokens, target, k)
  {
    forall j | 0 <= j < |tokens| && tokens[j].Word?
      ensures EqualFold(tokens[j].text, target) <==> SameIgnoringCase(tokens[j].text, target)
    {
      FoldingIgnoresCase(tokens[j].text, target);
    }
  }

  /**
    * With an identifier as its target and a legal template, such an action is applied exactly when one token is the
    * target ignoring case, and then exactly that token gives way.
    */
  lemma IdentifierActionRenamesIff(templates: Templates, sql: string, action: RepairAction)
    requires action.actionType.ReplaceColumn? || action.actionType.ReplaceTable? || action.actionType.QualifyColumn?
    requires IsComplete(action) && AllWord(action.targetFragment.value)
             && templates.legal(action.replacementFragment.value)
    ensures var applied := ApplyActions(templates, sql, [action]);
            && (applied.Applied? <==> exists k: nat :: IsOnlyToken(Tokens(sql), action.targetFragment.value, k))
            && (applied.Applied? ==> RenamesOneToken(templates, action, Tokens(sql), Tokens(applied.sql)))
  {
    var target, template := action.targetFragment.value, action.replacementFragment.value;
    SingleActionApplies(templates, sql, action);
    IdentifierSpliceIsTokenSubstitution(sql, target, Expansion(templates, template), 0);
    OneHitIsOnlyToken(Tokens(sql), target);
    forall k: nat ensures IsOnlyHit(Tokens(sql), target, k) <==> IsOnlyToken(Tokens(sql), target, k) {
      OnlyHitIsOnlyToken(Tokens(sql), target, k);
    }
    if ApplyActions(templates, sql, [action]).Applied? { ActionRenamesOneToken(templates, sql, action); }
  }

  // ---- Whole plans ----

  /** A plan is applied exactly when every action in turn is, each on what the ones before left. */
  lemma PlanAppliesActionByAction(templates: Templates, sql: string, action: RepairAction, rest: seq<RepairAction>)
    ensures var first, all := ApplyActions(templates, sql, [action]), ApplyActions(templates, sql, [action] + rest);
            if first.Applied? then
              var later := ApplyActions(templates, first.sql, rest);
              all == if later.Applied? then Applied(later.sql, first.changes + later.changes) else later
            else all == first
  {
    assert ([action] + rest)[1..] == rest;
    if action.actionType.NoSafeRepair? {
      NothingIsApplied(templates, sql, action);
    } else {
      SingleActionApplies(templates, sql, action);
    }
  }
}
