/** How a repair plan is spliced into SQL text: whole-word and literal replacement. */
module SqlRewrite {
  import opened Options
  import opened Collections
  import opened RepairModels
  import opened Text

  // ---- Characters ----

  predicate IsWord(c: char) {
    'A' <= c <= 'Z' || 'a' <= c <= 'z' || '0' <= c <= '9' || c == '_'
  }

  predicate AllWord(s: string) {
    forall i :: 0 <= i < |s| ==> IsWord(s[i])
  }

  // ---- Matching ----

  /** Neither neighbour of sql[i..j] is a word character. */
  predicate IsIsolated(sql: string, i: nat, j: nat)
    requires i <= j <= |sql|
  {
    (i > 0 ==> !IsWord(sql[i - 1])) && (j < |sql| ==> !IsWord(sql[j]))
  }

  /** `target` is found at `i`: as a whole word ignoring case, or literally. */
  predicate MatchAt(wholeWord: bool, sql: string, target: string, i: nat) {
    && i + |target| <= |sql|
    && if wholeWord then EqualFold(sql[i..i + |target|], target) && IsIsolated(sql, i, i + |target|)
       else sql[i..i + |target|] == target
  }

  datatype Spliced = Spliced(text: string, hits: seq<nat>)

  /** Replaces matches from position `i` on, left to right and without overlap. */
  function Splice(wholeWord: bool, sql: string, target: string, expand: string -> string, i: nat): Spliced
    requires target != [] && i <= |sql|
    decreases |sql| - i
  {
    if i == |sql| then Spliced([], [])
    else if MatchAt(wholeWord, sql, target, i) then
      var rest := Splice(wholeWord, sql, target, expand, i + |target|);
      Spliced(expand(sql[i..i + |target|]) + rest.text, [i] + rest.hits)
    else
      var rest := Splice(wholeWord, sql, target, expand, i + 1);
      Spliced([sql[i]] + rest.text, rest.hits)
  }

  // ---- What the count counts ----

  ghost predicate MatchesOverlap(wholeWord: bool, sql: string, target: string) {
    exists i: nat, j: nat ::
      i < j < i + |target| && MatchAt(wholeWord, sql, target, i) && MatchAt(wholeWord, sql, target, j)
  }

  ghost function Occurrences(wholeWord: bool, sql: string, target: string, from: nat): set<nat> {
    set i: nat | from <= i <= |sql| && MatchAt(wholeWord, sql, target, i)
  }

  ghost predicate Apart(hits: seq<nat>, gap: nat) {
    forall i, j :: 0 <= i < j < |hits| ==> hits[i] + gap <= hits[j]
  }

  lemma {:induction false} HitsAreMatchesApart(wholeWord: bool, sql: string, target: string, expand: string -> string,
                                               i: nat)
    requires target != [] && i <= |sql|
    ensures var hits := Splice(wholeWord, sql, target, expand, i).hits;
            && Apart(hits, |target|)
            && forall h :: h in hits ==> i <= h <= |sql| && MatchAt(wholeWord, sql, target, h)
    decreases |sql| - i
  {
    if i < |sql| {
      var next := if MatchAt(wholeWord, sql, target, i) then i + |target| else i + 1;
      HitsAreMatchesApart(wholeWord, sql, target, expand, next);
      var rest := Splice(wholeWord, sql, target, expand, next).hits;
      assert forall k :: 0 <= k < |rest| ==> rest[k] in rest;
    }
  }

  lemma {:induction false} HitsAreAllMatches(wholeWord: bool, sql: string, target: string, expand: string -> string,
                                             i: nat)
    requires target != [] && i <= |sql|
    requires !MatchesOverlap(wholeWord, sql, target)
    ensures forall m: nat :: i <= m && MatchAt(wholeWord, sql, target, m)
              ==> m in Splice(wholeWord, sql, target, expand, i).hits
    decreases |sql| - i
  {
    if i < |sql| {
      HitsAreAllMatches(wholeWord, sql, target, expand,
                        if MatchAt(wholeWord, sql, target, i) then i + |target| else i + 1);
    }
  }

  lemma {:induction false} ApartHitsAreCounted(hits: seq<nat>, gap: nat)
    requires Apart(hits, gap) && gap > 0
    ensures |Elements(hits)| == |hits|
  {
    if hits != [] {
      var front, last := hits[..|hits| - 1], hits[|hits| - 1];
      ApartHitsAreCounted(front, gap);
      assert Elements(hits) == Elements(front) + {last};
    }
  }

  lemma CountWithoutOverlap(wholeWord: bool, sql: string, target: string, expand: string -> string)
    requires target != [] && !MatchesOverlap(wholeWord, sql, target)
    ensures |Splice(wholeWord, sql, target, expand, 0).hits| == |Occurrences(wholeWord, sql, target, 0)|
  {
    var hits := Splice(wholeWord, sql, target, expand, 0).hits;
    HitsAreMatchesApart(wholeWord, sql, target, expand, 0);
    ApartHitsAreCounted(hits, |target|);
    HitsAreAllMatches(wholeWord, sql, target, expand, 0);
    assert Elements(hits) == Occurrences(wholeWord, sql, target, 0);
  }

  lemma CountWithOverlap(wholeWord: bool, sql: string, target: string, expand: string -> string)
    requires target != [] && MatchesOverlap(wholeWord, sql, target)
    ensures |Splice(wholeWord, sql, target, expand, 0).hits| < |Occurrences(wholeWord, sql, target, 0)|
  {
    var hits := Splice(wholeWord, sql, target, expand, 0).hits;
    HitsAreMatchesApart(wholeWord, sql, target, expand, 0);
    ApartHitsAreCounted(hits, |target|);
    var i: nat, j: nat :| i < j < i + |target| && MatchAt(wholeWord, sql, target, i)
      && MatchAt(wholeWord, sql, target, j);
    var missed := ApartMisses(hits, |target|, i, j);
    assert missed !in Elements(hits);
    MissedIsSmaller(Elements(hits), Occurrences(wholeWord, sql, target, 0), missed);
  }

  /** Hits that keep their distance leave out one of two close places. */
  lemma ApartMisses(hits: seq<nat>, gap: nat, i: nat, j: nat) returns (missed: nat)
    requires Apart(hits, gap) && i < j < i + gap
    ensures missed !in hits && (missed == i || missed == j)
  {
    missed := if i in hits then j else i;
  }

  lemma MissedIsSmaller(found: set<nat>, all: set<nat>, missed: nat)
    requires found <= all && missed in all && missed !in found
    ensures |found| < |all|
  {
    SubsetSize(found, all - {missed});
  }

  /** The replacement count is the number of occurrences exactly when no two occurrences overlap. */
  lemma CountIsOccurrencesIffNoOverlap(wholeWord: bool, sql: string, target: string, expand: string -> string)
    requires target != []
    ensures |Splice(wholeWord, sql, target, expand, 0).hits| == |Occurrences(wholeWord, sql, target, 0)|
       <==> !MatchesOverlap(wholeWord, sql, target)
  {
    if MatchesOverlap(wholeWord, sql, target) {
      CountWithOverlap(wholeWord, sql, target, expand);
    } else {
      CountWithoutOverlap(wholeWord, sql, target, expand);
    }
  }

  /** Whole-word matches of an identifier never overlap, so count 1 means one occurrence. */
  lemma IdentifiersNeverOverlap(sql: string, target: string)
    requires AllWord(target)
    ensures !MatchesOverlap(true, sql, target)
  {
    forall i: nat, j: nat | i < j < i + |target| && MatchAt(true, sql, target, i)
      ensures !MatchAt(true, sql, target, j)
    {
      var k := j - 1 - i;
      assert Folded(sql[i..i + |target|])[k] == Folded(target)[k];
      assert IsWord(target[k]) && sql[j - 1] == sql[i..i + |target|][k];
    }
  }

  /** A dotted target can overlap itself: the count is 1 although it occurs twice. */
  lemma DottedTargetsCanOverlap()
    ensures |Splice(true, "a.a.a", "a.a", (m: string) => m, 0).hits| == 1
    ensures |Occurrences(true, "a.a.a", "a.a", 0)| == 2
  {
    var sql, target := "a.a.a", "a.a";
    assert sql[0..3] == target && sql[2..5] == target;
    assert !EqualFold(sql[1..4], target) by { assert Folded(sql[1..4])[0] != Folded(target)[0]; }
    assert MatchAt(true, sql, target, 0) && MatchAt(true, sql, target, 2);
    assert Occurrences(true, sql, target, 0) == {0, 2};
  }

  // ---- Tokens ----

  /** SQL text as maximal runs of word characters and the single characters between them. */
  datatype Token = Word(text: string) | Separator(mark: char)

  /** The end of the run of word characters that starts at `i`. */
  function WordEnd(s: string, i: nat): (e: nat)
    requires i <= |s|
    ensures i <= e <= |s|
    decreases |s| - i
  {
    if i < |s| && IsWord(s[i]) then WordEnd(s, i + 1) else i
  }

  /** Where the token that starts at `i` ends. */
  function TokenEnd(s: string, i: nat): (e: nat)
    requires i < |s|
    ensures i < e <= |s|
  {
    if IsWord(s[i]) then WordEnd(s, i + 1) else i + 1
  }

  function TokenAt(s: string, i: nat): Token
    requires i < |s|
  {
    if IsWord(s[i]) then Word(s[i..TokenEnd(s, i)]) else Separator(s[i])
  }

  function TokensFrom(s: string, i: nat): seq<Token>
    requires i <= |s|
    decreases |s| - i
  {
    if i == |s| then [] else [TokenAt(s, i)] + TokensFrom(s, TokenEnd(s, i))
  }

  function Tokens(s: string): seq<Token> {
    TokensFrom(s, 0)
  }

  predicate IsHit(token: Token, target: string) {
    token.Word? && EqualFold(token.text, target)
  }

  /** Every token that is `target`, ignoring case, becomes the tokens of its expansion; the rest stays. */
  function SubstituteTokens(tokens: seq<Token>, target: string, expand: string -> string): seq<Token> {
    if tokens == [] then []
    else (if IsHit(tokens[0], target) then Tokens(expand(tokens[0].text)) else [tokens[0]])
         + SubstituteTokens(tokens[1..], target, expand)
  }

  function CountHits(tokens: seq<Token>, target: string): nat {
    if tokens == [] then 0
    else (if IsHit(tokens[0], target) then 1 else 0) + CountHits(tokens[1..], target)
  }

  lemma SubstituteFirst(token: Token, tail: seq<Token>, target: string, expand: string -> string)
    ensures SubstituteTokens([token] + tail, target, expand)
         == (if IsHit(token, target) then Tokens(expand(token.text)) else [token])
           + SubstituteTokens(tail, target, expand)
    ensures CountHits([token] + tail, target) == (if IsHit(token, target) then 1 else 0) + CountHits(tail, target)
  {
    assert ([token] + tail)[1..] == tail;
  }

  /** The characters of a run are word characters and the run is maximal. */
  lemma {:induction false} WordEndIsMaximal(s: string, i: nat)
    requires i <= |s|
    ensures forall k :: i <= k < WordEnd(s, i) ==> IsWord(s[k])
    ensures WordEnd(s, i) < |s| ==> !IsWord(s[WordEnd(s, i)])
    decreases |s| - i
  {
    if i < |s| && IsWord(s[i]) { WordEndIsMaximal(s, i + 1); }
  }

  lemma {:induction false} WordEndIsUnique(s: string, i: nat, e: nat)
    requires i <= e <= |s|
    requires forall k :: i <= k < e ==> IsWord(s[k])
    requires e < |s| ==> !IsWord(s[e])
    ensures WordEnd(s, i) == e
    decreases e - i
  {
    if i < e { WordEndIsUnique(s, i + 1, e); }
  }

  /** A maximal run of word characters is one token. */
  lemma TokensStep(s: string, i: nat, e: nat)
    requires i < e <= |s|
    requires forall k :: i <= k < e ==> IsWord(s[k])
    requires e < |s| ==> !IsWord(s[e])
    ensures TokensFrom(s, i) == [Word(s[i..e])] + TokensFrom(s, e)
  {
    WordEndIsUnique(s, i + 1, e);
  }

  lemma SingleTokens(c: char)
    requires !IsWord(c)
    ensures Tokens([c]) == [Separator(c)]
  {
    assert TokensFrom([c], 1) == [];
  }

  lemma {:induction false} WordEndBeforeSuffix(a: string, b: string, i: nat)
    requires i <= |a|
    requires b == [] || !IsWord(b[0]) || (i < |a| && !IsWord(a[|a| - 1]))
    ensures WordEnd(a + b, i) == WordEnd(a, i)
    decreases |a| - i
  {
    if i < |a| && IsWord(a[i]) { WordEndBeforeSuffix(a, b, i + 1); }
  }

  /** `s` goes on like `b` from position `n`. */
  ghost predicate Continues(s: string, b: string, n: nat) {
    |s| == n + |b| && forall k :: 0 <= k < |b| ==> s[n + k] == b[k]
  }

  lemma {:induction false} WordEndLater(s: string, b: string, n: nat, j: nat)
    requires Continues(s, b, n) && j <= |b|
    ensures WordEnd(s, n + j) == n + WordEnd(b, j)
    decreases |b| - j
  {
    if j < |b| && IsWord(b[j]) { WordEndLater(s, b, n, j + 1); }
  }

  lemma SameSlice(s: string, b: string, n: nat, j: nat, e: nat)
    requires Continues(s, b, n) && j <= e <= |b|
    ensures s[n + j..n + e] == b[j..e]
  {}

  /** The token that starts at `j` of `b` stands in `s`, too. */
  lemma TokenLater(s: string, b: string, n: nat, j: nat)
    requires Continues(s, b, n) && j < |b|
    ensures TokenEnd(s, n + j) == n + TokenEnd(b, j) && TokenAt(s, n + j) == TokenAt(b, j)
  {
    WordEndLater(s, b, n, j + 1);
    SameSlice(s, b, n, j, TokenEnd(b, j));
  }

  /** Tokens behind a prefix do not depend on it. */
  lemma {:induction false} TokensLater(s: string, b: string, n: nat, j: nat)
    requires Continues(s, b, n) && j <= |b|
    ensures TokensFrom(s, n + j) == TokensFrom(b, j)
    decreases |b| - j
  {
    if j < |b| {
      TokenLater(s, b, n, j);
      TokensLater(s, b, n, TokenEnd(b, j));
    }
  }

  lemma SliceOfFront(a: string, b: string, i: nat, e: nat)
    requires i <= e <= |a|
    ensures (a + b)[i..e] == a[i..e]
  {}

  /** A token of `a` does not reach into `b` when at most one side of the cut has a word character. */
  lemma TokenBeforeSuffix(a: string, b: string, i: nat)
    requires i < |a| && (b == [] || !IsWord(b[0]) || !IsWord(a[|a| - 1]))
    ensures TokenEnd(a + b, i) == TokenEnd(a, i) && TokenAt(a + b, i) == TokenAt(a, i)
  {
    if IsWord(a[i]) { WordEndBeforeSuffix(a, b, i + 1); }
    SliceOfFront(a, b, i, TokenEnd(a, i));
  }

  lemma Reassociate(t: Token, x: seq<Token>, y: seq<Token>)
    ensures [t] + (x + y) == ([t] + x) + y
  {}

  lemma {:induction false} TokensOfConcatFrom(a: string, b: string, i: nat)
    requires i <= |a|
    requires a == [] || b == [] || !IsWord(a[|a| - 1]) || !IsWord(b[0])
    ensures TokensFrom(a + b, i) == TokensFrom(a, i) + TokensFrom(b, 0)
    decreases |a| - i
  {
    if i == |a| {
      TokensLater(a + b, b, |a|, 0);
      assert TokensFrom(a, i) == [];
    } else {
      var e := TokenEnd(a, i);
      TokenBeforeSuffix(a, b, i);
      TokensOfConcatFrom(a, b, e);
      SameFirstToken(a, a + b, i, e, TokensFrom(b, 0));
    }
  }

  lemma SameFirstToken(a: string, s: string, i: nat, e: nat, rest: seq<Token>)
    requires i < |a| && i < |s| && TokenEnd(a, i) == e == TokenEnd(s, i) && TokenAt(a, i) == TokenAt(s, i)
    requires TokensFrom(s, e) == TokensFrom(a, e) + rest
    ensures TokensFrom(s, i) == TokensFrom(a, i) + rest
  {
    Reassociate(TokenAt(a, i), TokensFrom(a, e), rest);
  }

  /** Text cut where at most one side has a word character is tokenised side by side. */
  lemma TokensOfConcat(a: string, b: string)
    requires a == [] || b == [] || !IsWord(a[|a| - 1]) || !IsWord(b[0])
    ensures Tokens(a + b) == Tokens(a) + Tokens(b)
  {
    TokensOfConcatFrom(a, b, 0);
  }

  lemma WordIsOneToken(word: string)
    requires AllWord(word) && word != []
    ensures Tokens(word) == [Word(word)]
  {
    TokensStep(word, 0, |word|);
    assert word[0..|word|] == word && TokensFrom(word, |word|) == [];
  }

  // ---- Identifier replacement is token substitution ----

  /** Where nothing matches, text is copied. */
  lemma {:induction false} SpliceCopies(wholeWord: bool, sql: string, target: string, expand: string -> string, i: nat,
                                        j: nat)
    requires target != [] && i <= j <= |sql|
    requires forall p :: i <= p < j ==> !MatchAt(wholeWord, sql, target, p)
    ensures var (r, rest) := (Splice(wholeWord, sql, target, expand, i), Splice(wholeWord, sql, target, expand, j));
            r.text == sql[i..j] + rest.text && r.hits == rest.hits
    decreases j - i
  {
    if i < j {
      SpliceCopies(wholeWord, sql, target, expand, i + 1, j);
      assert sql[i..j] == [sql[i]] + sql[i + 1..j];
    }
  }

  lemma FoldKeepsWord(a: string, b: string)
    requires EqualFold(a, b) && AllWord(b)
    ensures AllWord(a)
  {
    forall k | 0 <= k < |a| ensures IsWord(a[k]) { assert Folded(a)[k] == Folded(b)[k]; }
  }

  /** sql[i..e] is a maximal run of word characters. */
  ghost predicate IsWordRun(sql: string, i: nat, e: nat) {
    && i < e <= |sql| && AllWord(sql[i..e]) && IsIsolated(sql, i, e)
  }

  /** Inside a word, an identifier matches only at its start and only if it is that word. */
  lemma IdentifierMatchesWord(sql: string, target: string, i: nat, e: nat, p: nat)
    requires AllWord(target) && target != [] && IsWordRun(sql, i, e) && i <= p < e
    ensures MatchAt(true, sql, target, p) <==> p == i && EqualFold(sql[i..e], target)
  {
    assert forall k :: i <= k < e ==> IsWord(sql[k]) by {
      forall k | i <= k < e ensures IsWord(sql[k]) { assert sql[k] == sql[i..e][k - i]; }
    }
    if p == i && i + |target| <= |sql| {
      var found := sql[i..i + |target|];
      assert i + |target| > e ==> found[e - i] == sql[e];
      if EqualFold(found, target) { FoldKeepsWord(found, target); }
    }
  }

  lemma NoMatchAtSeparator(sql: string, target: string, i: nat)
    requires AllWord(target) && target != [] && i < |sql| && !IsWord(sql[i])
    ensures !MatchAt(true, sql, target, i)
  {
    if i + |target| <= |sql| {
      var found := sql[i..i + |target|];
      assert sql[i] == found[0];
      if EqualFold(found, target) { FoldKeepsWord(found, target); }
    }
  }

  lemma SpliceOverWord(sql: string, target: string, expand: string -> string, i: nat, e: nat)
    requires AllWord(target) && target != [] && IsWordRun(sql, i, e)
    ensures var (r, rest) := (Splice(true, sql, target, expand, i), Splice(true, sql, target, expand, e));
            if EqualFold(sql[i..e], target) then r.text == expand(sql[i..e]) + rest.text && |r.hits| == 1 + |rest.hits|
            else r.text == sql[i..e] + rest.text && r.hits == rest.hits
  {
    IdentifierMatchesWord(sql, target, i, e, i);
    if EqualFold(sql[i..e], target) {
      assert |target| == |Folded(sql[i..e])| == e - i;
    } else {
      forall p | i <= p < e ensures !MatchAt(true, sql, target, p) {
        IdentifierMatchesWord(sql, target, i, e, p);
      }
      SpliceCopies(true, sql, target, expand, i, e);
    }
  }

  /** From position `i` on, splicing is substitution on tokens. */
  ghost predicate SubstitutesFrom(sql: string, target: string, expand: string -> string, i: nat)
    requires target != [] && i <= |sql|
  {
    var r, tokens := Splice(true, sql, target, expand, i), TokensFrom(sql, i);
    && Tokens(r.text) == SubstituteTokens(tokens, target, expand)
    && |r.hits| == CountHits(tokens, target)
    && (i == |sql| || !IsWord(sql[i]) ==> r.text == [] || !IsWord(r.text[0]))
  }

  lemma SubstitutesSeparator(sql: string, target: string, expand: string -> string, i: nat)
    requires AllWord(target) && target != [] && i < |sql| && !IsWord(sql[i])
    requires SubstitutesFrom(sql, target, expand, i + 1)
    ensures SubstitutesFrom(sql, target, expand, i)
  {
    NoMatchAtSeparator(sql, target, i);
    TokensOfConcat([sql[i]], Splice(true, sql, target, expand, i + 1).text);
    SingleTokens(sql[i]);
    SubstituteFirst(Separator(sql[i]), TokensFrom(sql, i + 1), target, expand);
  }

  lemma SubstitutesWord(sql: string, target: string, expand: string -> string, i: nat, e: nat)
    requires AllWord(target) && target != [] && IsWordRun(sql, i, e)
    requires TokensFrom(sql, i) == [Word(sql[i..e])] + TokensFrom(sql, e)
    requires SubstitutesFrom(sql, target, expand, e)
    ensures SubstitutesFrom(sql, target, expand, i)
  {
    var word, rest := sql[i..e], Splice(true, sql, target, expand, e);
    var replacement := if EqualFold(word, target) then expand(word) else word;
    SpliceOverWord(sql, target, expand, i, e);
    TokensOfConcat(replacement, rest.text);
    WordIsOneToken(word);
    SubstituteFirst(Word(word), TokensFrom(sql, e), target, expand);
    assert IsWord(sql[i]) by { assert sql[i] == word[0]; }
  }

  lemma TokensAtWord(sql: string, i: nat) returns (e: nat)
    requires i < |sql| && IsWord(sql[i]) && (i > 0 ==> !IsWord(sql[i - 1]))
    ensures IsWordRun(sql, i, e)
    ensures TokensFrom(sql, i) == [Word(sql[i..e])] + TokensFrom(sql, e)
  {
    e := WordEnd(sql, i + 1);
    WordEndIsMaximal(sql, i + 1);
  }

  /** Replacing an identifier as a whole word is substitution on tokens; every separator stays. */
  lemma {:induction false} IdentifierSpliceIsTokenSubstitution(sql: string, target: string, expand: string -> string,
                                                               i: nat)
    requires AllWord(target) && target != [] && i <= |sql|
    requires 0 < i < |sql| ==> !IsWord(sql[i - 1]) || !IsWord(sql[i])
    ensures SubstitutesFrom(sql, target, expand, i)
    decreases |sql| - i
  {
    if i < |sql| {
      if !IsWord(sql[i]) {
        IdentifierSpliceIsTokenSubstitution(sql, target, expand, i + 1);
        SubstitutesSeparator(sql, target, expand, i);
      } else {
        var e := TokensAtWord(sql, i);
        IdentifierSpliceIsTokenSubstitution(sql, target, expand, e);
        SubstitutesWord(sql, target, expand, i, e);
      }
    }
  }

  // ---- Actions ----

  /** The replacement template engine: which templates are legal and what they expand to. */
  datatype Templates = Templates(legal: string -> bool, expand: (string, string) -> string)

  function Expansion(templates: Templates, template: string): string -> string {
    (found: string) => templates.expand(template, found)
  }

  function Literally(replacement: string): string -> string {
    (found: string) => replacement
  }

  predicate IsIdentifierAction(actionType: RepairActionType) {
    actionType.ReplaceColumn? || actionType.ReplaceTable? || actionType.QualifyColumn?
  }

  /** An illegal template raises. */
  datatype Replacement = Raised | Replaced(sql: string, count: nat)

  function ReplaceAction(templates: Templates, sql: string, action: RepairAction): Replacement {
    if !Truthy(action.targetFragment) || action.replacementFragment.None? then
      Replaced(sql, 0)
    else
      var target, replacement := action.targetFragment.value, action.replacementFragment.value;
      if !IsIdentifierAction(action.actionType) then
        var r := Splice(false, sql, target, Literally(replacement), 0);
        Replaced(r.text, |r.hits|)
      else if !templates.legal(replacement) then Raised
      else
        var r := Splice(true, sql, target, Expansion(templates, replacement), 0);
        Replaced(r.text, |r.hits|)
  }

  datatype Applied = Refused | Aborted | Applied(sql: string, changes: seq<ChangedFragment>)

  function ChangeOf(action: RepairAction): ChangedFragment {
    ChangedFragment(if action.targetFragment.Some? then action.targetFragment.value else "",
                    if action.replacementFragment.Some? then action.replacementFragment.value else "",
                    action.actionType, action.reason)
  }

  /** Every action in order must hit exactly once. */
  function ApplyActions(templates: Templates, sql: string, actions: seq<RepairAction>): Applied
    decreases |actions|
  {
    if actions == [] then Applied(sql, [])
    else if actions[0].actionType.NoSafeRepair? then Refused
    else
      match ReplaceAction(templates, sql, actions[0])
      case Raised => Aborted
      case Replaced(next, count) =>
        if count != 1 then Refused
        else
          match ApplyActions(templates, next, actions[1..])
          case Applied(out, changes) => Applied(out, [ChangeOf(actions[0])] + changes)
          case failure => failure
  }

  method ApplyRepairPlan(templates: Templates, failedSql: string, plan: RepairPlan) returns (result: Applied)
    ensures result == ApplyActions(templates, failedSql, plan.actions)
  {
    var candidate, changes := failedSql, [];
    for i := 0 to |plan.actions|
      invariant ApplyActions(templates, failedSql, plan.actions)
             == Prepend(changes, ApplyActions(templates, candidate, plan.actions[i..]))
    {
      var action := plan.actions[i];
      assert plan.actions[i..][0] == action && plan.actions[i..][1..] == plan.actions[i + 1..];
      if action.actionType.NoSafeRepair? { return Refused; }
      var replacement := ReplaceAction(templates, candidate, action);
      if replacement.Raised? { return Aborted; }
      if replacement.count != 1 { return Refused; }
      PrependTwice(changes, ChangeOf(action), ApplyActions(templates, replacement.sql, plan.actions[i + 1..]));
      candidate := replacement.sql;
      changes := changes + [ChangeOf(action)];
    }
    return Applied(candidate, changes);
  }

  ghost function Prepend(changes: seq<ChangedFragment>, rest: Applied): Applied {
    if rest.Applied? then rest.(changes := changes + rest.changes) else rest
  }

  lemma PrependTwice(changes: seq<ChangedFragment>, change: ChangedFragment, rest: Applied)
    ensures Prepend(changes, Prepend([change], rest)) == Prepend(changes + [change], rest)
  {
    if rest.Applied? {
      assert changes + ([change] + rest.changes) == (changes + [change]) + rest.changes;
    }
  }

  // ---- Replaying reported changes ----

  function ActionOf(change: ChangedFragment): RepairAction {
    RepairAction(change.actionType, Some(change.before), Some(change.after), change.reason, LowAction)
  }

  /** Replays reported changes on the failed SQL; every change must hit exactly once. */
  method ApplyChangedFragments(templates: Templates, failedSql: string, fragments: seq<ChangedFragment>)
    returns (result: Applied)
    ensures result == ReplayOf(templates, failedSql, fragments)
  {
    var candidate := failedSql;
    for i := 0 to |fragments|
      invariant ReplayOf(templates, failedSql, fragments) == ReplayOf(templates, candidate, fragments[i..])
    {
      assert fragments[i..][1..] == fragments[i + 1..];
      var replacement := ReplaceAction(templates, candidate, ActionOf(fragments[i]));
      if replacement.Raised? { return Aborted; }
      if replacement.count != 1 { return Refused; }
      candidate := replacement.sql;
    }
    return Applied(candidate, []);
  }

  function ReplayOf(templates: Templates, sql: string, fragments: seq<ChangedFragment>): Applied
    decreases |fragments|
  {
    if fragments == [] then Applied(sql, [])
    else
      match ReplaceAction(templates, sql, ActionOf(fragments[0]))
      case Raised => Aborted
      case Replaced(next, count) => if count != 1 then Refused else ReplayOf(templates, next, fragments[1..])
  }

  /** The changes a plan reports reproduce the plan's own output, one change per action. */
  lemma {:induction false} ReplayReproducesPlan(templates: Templates, sql: string, actions: seq<RepairAction>)
    requires ApplyActions(templates, sql, actions).Applied?
    ensures var applied := ApplyActions(templates, sql, actions);
            && |applied.changes| == |actions|
            && ReplayOf(templates, sql, applied.changes) == Applied(applied.sql, [])
    decreases |actions|
  {
    if actions != [] {
      var next := ReplaceAction(templates, sql, actions[0]).sql;
      ReplayReproducesPlan(templates, next, actions[1..]);
      var changes := ApplyActions(templates, sql, actions).changes;
      assert changes[1..] == ApplyActions(templates, next, actions[1..]).changes;
    }
  }

  // ---- Plans as token substitutions ----

  predicate RenamesIdentifier(action: RepairAction) {
    && (action.actionType.ReplaceColumn? || action.actionType.ReplaceTable? || action.actionType.QualifyColumn?)
    && Truthy(action.targetFragment) && AllWord(action.targetFragment.value)
    && action.replacementFragment.Some?
  }

  /** `after` is `before` with token `k`, the only one that is `target`, replaced by `replacement`. */
  ghost predicate ReplacesTokenAt(before: seq<Token>, after: seq<Token>, target: string, replacement: seq<Token>,
                                  k: nat) {
    && k < |before| && IsHit(before[k], target)
    && (forall j :: 0 <= j < |before| && IsHit(before[j], target) ==> j == k)
    && after == before[..k] + replacement + before[k + 1..]
  }

  lemma {:induction false} SubstituteWithoutHits(tokens: seq<Token>, target: string, expand: string -> string)
    requires CountHits(tokens, target) == 0
    ensures SubstituteTokens(tokens, target, expand) == tokens
    ensures forall j :: 0 <= j < |tokens| ==> !IsHit(tokens[j], target)
  {
    if tokens != [] { SubstituteWithoutHits(tokens[1..], target, expand); }
  }

  lemma {:induction false} SubstituteOneHit(tokens: seq<Token>, target: string, expand: string -> string)
    returns (k: nat)
    requires CountHits(tokens, target) == 1
    ensures k < |tokens| && tokens[k].Word?
    ensures ReplacesTokenAt(tokens, SubstituteTokens(tokens, target, expand), target, Tokens(expand(tokens[k].text)), k)
  {
    if IsHit(tokens[0], target) {
      k := 0;
      SubstituteWithoutHits(tokens[1..], target, expand);
      OneTokenAtHead(tokens, target, Tokens(expand(tokens[0].text)));
    } else {
      var j := SubstituteOneHit(tokens[1..], target, expand);
      k := j + 1;
      OneTokenAfterHead(tokens, SubstituteTokens(tokens[1..], target, expand), target,
                        Tokens(expand(tokens[k].text)), j);
    }
  }

  lemma OneTokenAtHead(tokens: seq<Token>, target: string, replacement: seq<Token>)
    requires tokens != [] && IsHit(tokens[0], target)
    requires forall j :: 0 <= j < |tokens[1..]| ==> !IsHit(tokens[1..][j], target)
    ensures ReplacesTokenAt(tokens, replacement + tokens[1..], target, replacement, 0)
  {
    assert forall i :: 0 < i < |tokens| ==> tokens[i] == tokens[1..][i - 1];
    assert replacement + tokens[1..] == tokens[..0] + replacement + tokens[0 + 1..];
  }

  lemma OneTokenAfterHead(tokens: seq<Token>, after: seq<Token>, target: string, replacement: seq<Token>, j: nat)
    requires tokens != [] && !IsHit(tokens[0], target)
    requires ReplacesTokenAt(tokens[1..], after, target, replacement, j)
    ensures ReplacesTokenAt(tokens, [tokens[0]] + after, target, replacement, j + 1)
  {
    assert tokens[..j + 1] == [tokens[0]] + tokens[1..][..j] && tokens[j + 2..] == tokens[1..][j + 1..];
    forall i | 0 <= i < |tokens| && IsHit(tokens[i], target) ensures i == j + 1 {
      if i > 0 { assert tokens[1..][i - 1] == tokens[i]; }
    }
  }

  /** The text after each prefix of the plan. */
  ghost predicate IsTokenTrace(templates: Templates, actions: seq<RepairAction>, trace: seq<seq<Token>>) {
    && |trace| == |actions| + 1
    && forall i :: 0 <= i < |actions| ==> RenamesOneToken(templates, actions[i], trace[i], trace[i + 1])
  }

  /** The one token that is the action's target gives way to the expansion of the template on that very token. */
  ghost predicate RenamesOneToken(templates: Templates, action: RepairAction, before: seq<Token>, after: seq<Token>) {
    && RenamesIdentifier(action)
    && exists k: nat :: k < |before| && before[k].Word? && RenamesTokenAt(templates, action, before, after, k)
  }

  ghost predicate RenamesTokenAt(templates: Templates, action: RepairAction, before: seq<Token>, after: seq<Token>,
                                 k: nat)
    requires RenamesIdentifier(action) && k < |before| && before[k].Word?
  {
    ReplacesTokenAt(before, after, action.targetFragment.value,
                    Tokens(templates.expand(action.replacementFragment.value, before[k].text)), k)
  }

  lemma ActionRenamesOneToken(templates: Templates, sql: string, action: RepairAction)
    requires RenamesIdentifier(action)
    requires ReplaceAction(templates, sql, action).Replaced? && ReplaceAction(templates, sql, action).count == 1
    ensures RenamesOneToken(templates, action, Tokens(sql), Tokens(ReplaceAction(templates, sql, action).sql))
  {
    var target, template := action.targetFragment.value, action.replacementFragment.value;
    IdentifierSpliceIsTokenSubstitution(sql, target, Expansion(templates, template), 0);
    var k := SubstituteOneHit(Tokens(sql), target, Expansion(templates, template));
    assert RenamesTokenAt(templates, action, Tokens(sql), Tokens(ReplaceAction(templates, sql, action).sql), k);
  }

  /** A plan of identifier actions rewrites exactly one token per action and nothing else. */
  lemma {:induction false} PlanRenamesOneTokenPerAction(templates: Templates, sql: string, actions: seq<RepairAction>)
    returns (trace: seq<seq<Token>>)
    requires forall i :: 0 <= i < |actions| ==> RenamesIdentifier(actions[i])
    requires ApplyActions(templates, sql, actions).Applied?
    ensures IsTokenTrace(templates, actions, trace)
    ensures trace[0] == Tokens(sql) && trace[|actions|] == Tokens(ApplyActions(templates, sql, actions).sql)
    decreases |actions|
  {
    if actions == [] {
      trace := [Tokens(sql)];
    } else {
      var next := ReplaceAction(templates, sql, actions[0]).sql;
      ActionRenamesOneToken(templates, sql, actions[0]);
      var rest := PlanRenamesOneTokenPerAction(templates, next, actions[1..]);
      trace := [Tokens(sql)] + rest;
      ExtendTrace(templates, actions, Tokens(sql), rest);
    }
  }

  lemma ExtendTrace(templates: Templates, actions: seq<RepairAction>, first: seq<Token>, rest: seq<seq<Token>>)
    requires actions != [] && IsTokenTrace(templates, actions[1..], rest)
    requires RenamesOneToken(templates, actions[0], first, rest[0])
    ensures IsTokenTrace(templates, actions, [first] + rest)
  {
    var trace := [first] + rest;
    forall i | 0 <= i < |actions| ensures RenamesOneToken(templates, actions[i], trace[i], trace[i + 1]) {
      if i > 0 {
        assert actions[1..][i - 1] == actions[i] && rest[i - 1] == trace[i] && rest[i - 1 + 1] == trace[i + 1];
      }
    }
  }

  // ---- What one hit changes in the text ----

  /** `after` is `sql` with the match at `p` replaced; every other match overlaps that one. */
  ghost predicate RewritesAt(templates: Templates, action: RepairAction, sql: string, after: string, p: nat)
    requires Truthy(action.targetFragment) && action.replacementFragment.Some?
  {
    var target, replacement := action.targetFragment.value, action.replacementFragment.value;
    var wholeWord := action.actionType in {ReplaceColumn, ReplaceTable, QualifyColumn};
    && MatchAt(wholeWord, sql, target, p)
    && after == sql[..p] + (if wholeWord then templates.expand(replacement, sql[p..p + |target|]) else replacement)
       + sql[p + |target|..]
    && forall m: nat :: MatchAt(wholeWord, sql, target, m) ==> p < m + |target| && m < p + |target|
  }

  lemma {:induction false} SpliceWithoutHits(wholeWord: bool, sql: string, target: string, expand: string -> string,
                                             i: nat)
    requires target != [] && i <= |sql| && Splice(wholeWord, sql, target, expand, i).hits == []
    ensures Splice(wholeWord, sql, target, expand, i).text == sql[i..]
    ensures forall m: nat :: i <= m ==> !MatchAt(wholeWord, sql, target, m)
    decreases |sql| - i
  {
    if i < |sql| {
      SpliceWithoutHits(wholeWord, sql, target, expand, i + 1);
      assert sql[i..] == [sql[i]] + sql[i + 1..];
    }
  }

  lemma TakeOneMore(sql: string, i: nat, p: nat, middle: string, rest: string)
    requires i < p <= |sql|
    ensures [sql[i]] + (sql[i + 1..p] + middle + rest) == sql[i..p] + middle + rest
  {
    assert sql[i..p] == [sql[i]] + sql[i + 1..p];
  }

  lemma {:induction false} SpliceWithOneHit(wholeWord: bool, sql: string, target: string, expand: string -> string,
                                            i: nat)
    returns (p: nat)
    requires target != [] && i <= |sql| && |Splice(wholeWord, sql, target, expand, i).hits| == 1
    ensures i <= p && MatchAt(wholeWord, sql, target, p)
    ensures Splice(wholeWord, sql, target, expand, i).text == sql[i..p] + expand(sql[p..p + |target|])
            + sql[p + |target|..]
    ensures forall m: nat :: i <= m && MatchAt(wholeWord, sql, target, m) ==> p <= m < p + |target|
    decreases |sql| - i
  {
    if MatchAt(wholeWord, sql, target, i) {
      p := i;
      SpliceWithoutHits(wholeWord, sql, target, expand, i + |target|);
      assert sql[i..p] == [];
    } else {
      p := SpliceWithOneHit(wholeWord, sql, target, expand, i + 1);
      TakeOneMore(sql, i, p, expand(sql[p..p + |target|]), sql[p + |target|..]);
    }
  }

  /** An action that hits once rewrites one place of the text and leaves the rest. */
  lemma ActionRewritesOnePlace(templates: Templates, sql: string, action: RepairAction) returns (p: nat)
    requires ReplaceAction(templates, sql, action).Replaced? && ReplaceAction(templates, sql, action).count == 1
    ensures Truthy(action.targetFragment) && action.replacementFragment.Some?
    ensures RewritesAt(templates, action, sql, ReplaceAction(templates, sql, action).sql, p)
  {
    var target, replacement := action.targetFragment.value, action.replacementFragment.value;
    if IsIdentifierAction(action.actionType) {
      p := SpliceWithOneHit(true, sql, target, Expansion(templates, replacement), 0);
    } else {
      p := SpliceWithOneHit(false, sql, target, Literally(replacement), 0);
    }
    assert sql[0..p] == sql[..p];
  }

  // ---- Literal replacement does not respect words ----

  ghost predicate AdjacentWords(tokens: seq<Token>) {
    exists i :: 0 <= i < |tokens| - 1 && tokens[i].Word? && tokens[i + 1].Word?
  }

  lemma AdjacentWordsOfCons(token: Token, tail: seq<Token>)
    ensures AdjacentWords([token] + tail)
       <==> (token.Word? && tail != [] && tail[0].Word?) || AdjacentWords(tail)
  {
    var all := [token] + tail;
    assert forall i :: 0 <= i < |tail| ==> all[i + 1] == tail[i];
    if i :| 0 <= i < |tail| - 1 && tail[i].Word? && tail[i + 1].Word? {
      assert all[i + 1].Word? && all[i + 1 + 1].Word?;
    }
    if token.Word? && tail != [] && tail[0].Word? {
      assert all[0].Word? && all[0 + 1].Word?;
    }
  }

  /** A tokenised text never has two words side by side; its first token tells its first character. */
  lemma {:induction false} TokensAlternate(s: string, i: nat)
    requires i <= |s|
    ensures !AdjacentWords(TokensFrom(s, i))
    ensures i < |s| ==> TokensFrom(s, i) != [] && (TokensFrom(s, i)[0].Word? <==> IsWord(s[i]))
    decreases |s| - i
  {
    if i < |s| {
      var e := if IsWord(s[i]) then WordEnd(s, i + 1) else i + 1;
      TokensAlternate(s, e);
      WordEndIsMaximal(s, i);
      AdjacentWordsOfCons(TokensFrom(s, i)[0], TokensFrom(s, e));
    }
  }

  /** The last token tells the last character. */
  lemma {:induction false} LastToken(s: string, i: nat)
    requires i < |s|
    ensures var tokens := TokensFrom(s, i);
            tokens != [] && (tokens[|tokens| - 1].Word? <==> IsWord(s[|s| - 1]))
    decreases |s| - i
  {
    var e := if IsWord(s[i]) then WordEnd(s, i + 1) else i + 1;
    WordEndIsMaximal(s, i);
    if e < |s| { LastToken(s, e); }
  }

  /** The single literal hit of an identifier replaces a token exactly when the hit stands alone;
      otherwise it cuts a longer identifier apart. */
  lemma LiteralHitIsTokenIffIsolated(sql: string, target: string, p: nat)
    requires AllWord(target) && target != [] && p + |target| <= |sql| && sql[p..p + |target|] == target
    ensures IsIsolated(sql, p, p + |target|)
       <==> Tokens(sql) == Tokens(sql[..p]) + [Word(target)] + Tokens(sql[p + |target|..])
  {
    var before, after := sql[..p], sql[p + |target|..];
    assert sql == before + (target + after);
    if IsIsolated(sql, p, p + |target|) {
      IsolatedIsToken(before, target, after);
    } else {
      WordsTouch(before, target, after);
      TokensAlternate(sql, 0);
    }
  }

  lemma IsolatedIsToken(before: string, target: string, after: string)
    requires AllWord(target) && target != []
    requires before != [] ==> !IsWord(before[|before| - 1])
    requires after != [] ==> !IsWord(after[0])
    ensures Tokens(before + (target + after)) == Tokens(before) + [Word(target)] + Tokens(after)
  {
    WordIsOneToken(target);
    TokensOfConcat(target, after);
    TokensOfConcat(before, target + after);
    assert Tokens(before) + ([Word(target)] + Tokens(after)) == Tokens(before) + [Word(target)] + Tokens(after);
  }

  lemma WordsTouch(before: string, target: string, after: string)
    requires (before != [] && IsWord(before[|before| - 1])) || (after != [] && IsWord(after[0]))
    ensures AdjacentWords(Tokens(before) + [Word(target)] + Tokens(after))
  {
    if before != [] { LastToken(before, 0); }
    TokensAlternate(after, 0);
    var all := Tokens(before) + [Word(target)] + Tokens(after);
    var k := |Tokens(before)|;
    assert all[k] == Word(target);
    if before != [] && IsWord(before[|before| - 1]) {
      assert all[k - 1].Word? && all[k - 1 + 1].Word?;
    } else {
      assert all[k + 1].Word?;
    }
  }

  /** The cast plan for column `a` is accepted on text that only mentions `xa`, and rewrites inside it. */
  lemma CastCanCutIdentifier(templates: Templates, cast: RepairAction)
    requires cast.actionType == AddCast && cast.targetFragment == Some("a") && cast.replacementFragment.Some?
    ensures ApplyActions(templates, "xa", [cast]) == Applied("x" + cast.replacementFragment.value, [ChangeOf(cast)])
  {
    var sql, target, replacement := "xa", "a", cast.replacementFragment.value;
    var expand := Literally(replacement);
    assert sql[0..1] != target by { assert sql[0..1][0] == 'x'; }
    assert sql[1..2] == target;
    assert Splice(false, sql, target, expand, 2) == Spliced([], []);
    assert Splice(false, sql, target, expand, 1) == Spliced(replacement, [1]);
    assert [cast][1..] == [];
  }
}
