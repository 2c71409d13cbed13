/** The order of retrieved experiences, key by key, and what the query and keyword filters keep. */
module RetrievalLaws {
  import opened Options
  import opened Text
  import opened Names
  import opened MemoryFiles
  import opened MemoryStores
  import opened MemoryRetrieval

  // ---- The order ----

  /** The three numbers compared before the ids; smaller ranks first. */
  function RankKey(files: Files, query: string, s: Summary): (int, int, int)
    requires s.id in files
  {
    var matched: int := |s.matchedBy|;
    var terms: int := CountTerms(Terms(query), Folded(s.description));
    (-matched, -terms, -files[s.id].mtime)
  }

  /** More matched keywords first, then more query terms, then the newer file, then the smaller id. */
  lemma RanksBeforeIsLexicographic(files: Files, query: string, a: Summary, b: Summary)
    requires a.id in files && b.id in files
    ensures var (x, y) := (RankKey(files, query, a), RankKey(files, query, b));
            RanksBefore(files, query, a, b) <==>
              || x.0 < y.0 || (x.0 == y.0 && x.1 < y.1) || (x.0 == y.0 && x.1 == y.1 && x.2 < y.2)
              || (x == y && Before(a.id, b.id))
  {}

  /** Of two ranked experiences that match equally well, the one that comes first is not older. */
  lemma NewerComesFirst(files: Files, query: string, s: seq<Summary>, i: nat, j: nat)
    requires AllStored(files, s) && IsRanked(files, query, s) && i < j < |s|
    requires |s[i].matchedBy| == |s[j].matchedBy|
    requires CountTerms(Terms(query), Folded(s[i].description)) == CountTerms(Terms(query), Folded(s[j].description))
    ensures files[s[i].id].mtime >= files[s[j].id].mtime
  {
    assert RanksBefore(files, query, s[i], s[j]);
  }

  // ---- Relevance ----

  /** Some term of the query occurs in the text, whatever the case of its letters. */
  ghost predicate MentionsQuery(query: string, text: string) {
    exists i :: 0 <= i < |Terms(query)| && Contains(Folded(text), Terms(query)[i])
  }

  /**
    * An experience is relevant when it carries a keyword asked for; when `unknown` is asked for, exactly when there is
    * no query or a term of it occurs in description or body.
    */
  lemma RelevantIff(file: File, keywords: seq<string>, query: string)
    ensures "unknown" !in keywords ==>
              (IsRelevant(file, keywords, query) <==> exists k :: k in keywords && k in KeywordsOf(file.text))
    ensures "unknown" in keywords ==>
              (IsRelevant(file, keywords, query) <==>
                 query == "" || MentionsQuery(query, DescriptionOf(file.text) + " " + BodyOf(file.text)))
  {
    MatchingMembers(keywords, KeywordsOf(file.text));
    var matching := Matching(keywords, KeywordsOf(file.text));
    if matching != [] { assert matching[0] in matching; }
  }

  // ---- The cut ----

  /** A limit counts when it is given, not zero and below the maximum; a negative one drops that many at the end. */
  lemma CutIs(s: seq<Summary>, limit: Option<int>, maxHits: int)
    ensures var n := Bound(limit, maxHits);
            && n == (if limit.None? || limit.value == 0 || limit.value > maxHits then maxHits else limit.value)
            && Slice(s, n) <= s
            && |Slice(s, n)| == (if n >= |s| then |s| else if n >= 0 then n else if |s| + n >= 0 then |s| + n else 0)
  {}

  // ---- The filters ----

  lemma Regroup(a: seq<string>, b: seq<string>, c: seq<string>)
    ensures a + (b + c) == (a + b) + c
  {}

  lemma HeadOfBoth(a: seq<string>, b: seq<string>)
    requires a != []
    ensures (a + b)[0] == a[0] && (a + b)[1..] == a[1..] + b
  {}

  /** The terms of a query are its folded words of more than two characters, in order. */
  lemma {:induction false} LongWordsFilter(a: seq<string>, b: seq<string>)
    ensures LongWords(a + b) == LongWords(a) + LongWords(b)
  {
    if a == [] {
      assert a + b == b;
    } else {
      LongWordsFilter(a[1..], b);
      HeadOfBoth(a, b);
      LongWordsHead(a);
      LongWordsHead(a + b);
      Regroup(if |a[0]| > 2 then [a[0]] else [], LongWords(a[1..]), LongWords(b));
    }
  }

  lemma LongWordsHead(a: seq<string>)
    requires a != []
    ensures LongWords(a) == (if |a[0]| > 2 then [a[0]] else []) + LongWords(a[1..])
  {}

  lemma OneLongWord(word: string)
    ensures LongWords([word]) == if |word| > 2 then [word] else []
  {
    assert LongWords([word][1..]) == [];
  }

  /** The keywords asked for that an experience carries, in order. */
  lemma {:induction false} MatchingFilters(a: seq<string>, b: seq<string>, carried: seq<string>)
    ensures Matching(a + b, carried) == Matching(a, carried) + Matching(b, carried)
  {
    if a == [] {
      assert a + b == b;
    } else {
      MatchingFilters(a[1..], b, carried);
      HeadOfBoth(a, b);
      MatchingHead(a, carried);
      MatchingHead(a + b, carried);
      Regroup(if a[0] in carried then [a[0]] else [], Matching(a[1..], carried), Matching(b, carried));
    }
  }

  lemma MatchingHead(a: seq<string>, carried: seq<string>)
    requires a != []
    ensures Matching(a, carried) == (if a[0] in carried then [a[0]] else []) + Matching(a[1..], carried)
  {}

  lemma OneMatching(keyword: string, carried: seq<string>)
    ensures Matching([keyword], carried) == if keyword in carried then [keyword] else []
  {
    assert Matching([keyword][1..], carried) == [];
  }

  /** Every term counts once for each time it is asked for, if the text contains it. */
  lemma {:induction false} CountTermsAdds(a: seq<string>, b: seq<string>, text: string)
    ensures CountTerms(a + b, text) == CountTerms(a, text) + CountTerms(b, text)
    ensures |a| == 1 ==> CountTerms(a, text) == if Contains(text, a[0]) then 1 else 0
  {
    if a == [] {
      assert a + b == b;
    } else {
      CountTermsAdds(a[1..], b, text);
      assert (a + b)[1..] == a[1..] + b;
    }
  }

  /** A summary is what the file's frontmatter says, with the keywords asked for that it carries, or `unknown`. */
  lemma SummaryIs(id: string, file: File, keywords: seq<string>)
    ensures var s := Summarize(id, file, keywords);
            && s.id == id && s.keyword == KeywordsOf(file.text) && s.description == DescriptionOf(file.text)
            && s.matchedBy != []
            && (forall k :: k in s.matchedBy && k != "unknown" ==> k in keywords && k in KeywordsOf(file.text))
            && ((exists k :: k in keywords && k in KeywordsOf(file.text)) ==>
                  s.matchedBy == Matching(keywords, KeywordsOf(file.text)))
            && ((forall k :: k in keywords ==> k !in KeywordsOf(file.text)) ==> s.matchedBy == ["unknown"])
  {
    MatchingMembers(keywords, KeywordsOf(file.text));
  }

  lemma {:induction false} MatchingMembers(keywords: seq<string>, carried: seq<string>)
    ensures forall k :: k in Matching(keywords, carried) <==> k in keywords && k in carried
  {
    if keywords != [] { MatchingMembers(keywords[1..], carried); }
  }
}
