/** Retrieval through the keyword index, and the full scan it must agree with. */
module MemoryRetrieval {
  import opened Options
  import opened Text
  import opened Names
  import opened MemoryFiles
  import opened MemoryStores

  datatype Summary = Summary(id: string, keyword: seq<string>, description: string, matchedBy: seq<string>)

  datatype RetrievalResult = RetrievalResult(experiences: seq<Summary>, scanned: nat, discarded: int, overBudget: bool)

  /** The folded query's words of more than two characters. */
  function Terms(query: string): seq<string> {
    LongWords(Words(Folded(query)))
  }

  function LongWords(words: seq<string>): seq<string> {
    if words == [] then [] else (if |words[0]| > 2 then [words[0]] else []) + LongWords(words[1..])
  }

  function Matching(keywords: seq<string>, carried: seq<string>): (r: seq<string>)
    ensures r == [] <==> forall k :: k in keywords ==> k !in carried
  {
    if keywords == [] then []
    else (if keywords[0] in carried then [keywords[0]] else []) + Matching(keywords[1..], carried)
  }

  predicate MentionsTerm(terms: seq<string>, text: string) {
    exists i | 0 <= i < |terms| :: Contains(text, terms[i])
  }

  function DescriptionOf(text: string): string {
    var f := FrontmatterOf(text);
    if f.Some? then f.value.description else ""
  }

  /** Whether an experience answers the request. */
  predicate IsRelevant(file: File, keywords: seq<string>, query: string) {
    if "unknown" in keywords then
      Folded(query) == [] || MentionsTerm(Terms(query), Folded(DescriptionOf(file.text) + " " + BodyOf(file.text)))
    else Matching(keywords, KeywordsOf(file.text)) != []
  }

  function Summarize(id: string, file: File, keywords: seq<string>): Summary {
    var matched := Matching(keywords, KeywordsOf(file.text));
    Summary(id, KeywordsOf(file.text), DescriptionOf(file.text), if matched != [] then matched else ["unknown"])
  }

  function CountTerms(terms: seq<string>, text: string): nat {
    if terms == [] then 0 else (if Contains(text, terms[0]) then 1 else 0) + CountTerms(terms[1..], text)
  }

  // ---- Ranking ----

  /** More keywords first, then more query terms in the description, then the newer file, then the smaller id. */
  predicate RanksBefore(files: Files, query: string, a: Summary, b: Summary)
    requires a.id in files && b.id in files
  {
    var ta, tb := CountTerms(Terms(query), Folded(a.description)), CountTerms(Terms(query), Folded(b.description));
    if |a.matchedBy| != |b.matchedBy| then |a.matchedBy| > |b.matchedBy|
    else if ta != tb then ta > tb
    else if files[a.id].mtime != files[b.id].mtime then files[a.id].mtime > files[b.id].mtime
    else Before(a.id, b.id)
  }

  predicate AllStored(files: Files, s: seq<Summary>) {
    forall i | 0 <= i < |s| :: s[i].id in files
  }

  function InsertRanked(files: Files, query: string, a: Summary, sorted: seq<Summary>): (r: seq<Summary>)
    requires a.id in files && AllStored(files, sorted)
    ensures AllStored(files, r) && multiset(r) == multiset(sorted) + multiset{a}
  {
    if sorted == [] || RanksBefore(files, query, a, sorted[0]) then [a] + sorted
    else
      assert sorted == [sorted[0]] + sorted[1..];
      [sorted[0]] + InsertRanked(files, query, a, sorted[1..])
  }

  function SortRanked(files: Files, query: string, s: seq<Summary>): (r: seq<Summary>)
    requires AllStored(files, s)
    ensures AllStored(files, r) && multiset(r) == multiset(s) && |r| == |s|
  {
    if s == [] then []
    else
      assert s == [s[0]] + s[1..];
      var r := InsertRanked(files, query, s[0], SortRanked(files, query, s[1..]));
      assert |r| == |multiset(r)| == |multiset(s)|;
      r
  }

  ghost predicate IsRanked(files: Files, query: string, s: seq<Summary>)
    requires AllStored(files, s)
  {
    forall i, j :: 0 <= i < j < |s| ==> RanksBefore(files, query, s[i], s[j])
  }

  lemma RankingIsTotal(files: Files, query: string, a: Summary, b: Summary)
    requires a.id in files && b.id in files
    ensures RanksBefore(files, query, a, b) || RanksBefore(files, query, b, a)
  {
    BeforeIsTotal(a.id, b.id);
  }

  lemma RankingIsTransitive(files: Files, query: string, a: Summary, b: Summary, c: Summary)
    requires a.id in files && b.id in files && c.id in files
    requires RanksBefore(files, query, a, b) && RanksBefore(files, query, b, c)
    ensures RanksBefore(files, query, a, c)
  {
    if Before(a.id, b.id) && Before(b.id, c.id) { BeforeIsTransitive(a.id, b.id, c.id); }
  }

  lemma {:induction false} InsertKeepsRanking(files: Files, query: string, a: Summary, sorted: seq<Summary>)
    requires a.id in files && AllStored(files, sorted) && IsRanked(files, query, sorted)
    ensures IsRanked(files, query, InsertRanked(files, query, a, sorted))
  {
    if sorted == [] {
    } else if RanksBefore(files, query, a, sorted[0]) {
      forall j | 0 < j < |sorted| ensures RanksBefore(files, query, a, sorted[j]) {
        RankingIsTransitive(files, query, a, sorted[0], sorted[j]);
      }
      RankedBehind(files, query, a, sorted);
    } else {
      var rest := InsertRanked(files, query, a, sorted[1..]);
      RankingIsTotal(files, query, a, sorted[0]);
      InsertKeepsRanking(files, query, a, sorted[1..]);
      HeadStaysBest(files, query, a, sorted, rest);
      RankedBehind(files, query, sorted[0], rest);
    }
  }

  /** What is inserted behind the head comes from it or from what the head was before already. */
  lemma HeadStaysBest(files: Files, query: string, a: Summary, sorted: seq<Summary>, rest: seq<Summary>)
    requires a.id in files && AllStored(files, sorted) && IsRanked(files, query, sorted) && sorted != []
    requires AllStored(files, rest) && multiset(rest) == multiset(sorted[1..]) + multiset{a}
    requires RanksBefore(files, query, sorted[0], a)
    ensures forall j :: 0 <= j < |rest| ==> RanksBefore(files, query, sorted[0], rest[j])
  {
    forall j | 0 <= j < |rest| ensures RanksBefore(files, query, sorted[0], rest[j]) {
      assert rest[j] in multiset(rest);
      if rest[j] != a {
        var k :| 0 <= k < |sorted[1..]| && sorted[1..][k] == rest[j];
        assert sorted[k + 1] == rest[j];
      }
    }
  }

  lemma RankedBehind(files: Files, query: string, head: Summary, rest: seq<Summary>)
    requires head.id in files && AllStored(files, rest) && IsRanked(files, query, rest)
    requires forall j :: 0 <= j < |rest| ==> RanksBefore(files, query, head, rest[j])
    ensures AllStored(files, [head] + rest) && IsRanked(files, query, [head] + rest)
  {
    var all := [head] + rest;
    forall i, j | 0 <= i < j < |all| ensures RanksBefore(files, query, all[i], all[j]) {
      assert all[j] == rest[j - 1];
      if i > 0 { assert all[i] == rest[i - 1]; }
    }
  }

  lemma {:induction false} SortRankedIsRanked(files: Files, query: string, s: seq<Summary>)
    requires AllStored(files, s)
    ensures IsRanked(files, query, SortRanked(files, query, s))
  {
    if s != [] {
      SortRankedIsRanked(files, query, s[1..]);
      InsertKeepsRanking(files, query, s[0], SortRanked(files, query, s[1..]));
    }
  }

  // ---- The request ----

  /** `matched[:n]`; a negative bound counts from the end. */
  function Slice(s: seq<Summary>, n: int): seq<Summary> {
    if n >= |s| then s else if n >= 0 then s[..n] else if -n >= |s| then [] else s[..|s| + n]
  }

  function Bound(limit: Option<int>, maxHits: int): int {
    var wanted := if limit.Some? && limit.value != 0 then limit.value else maxHits;
    if wanted < maxHits then wanted else maxHits
  }

  /** Summaries of the relevant ones among `ids`, in that order. */
  function Scan(files: Files, ids: seq<string>, keywords: seq<string>, query: string): (r: seq<Summary>)
    requires forall i :: 0 <= i < |ids| ==> ids[i] in files
    ensures AllStored(files, r)
  {
    if ids == [] then []
    else
      var rest := Scan(files, ids[1..], keywords, query);
      if IsRelevant(files[ids[0]], keywords, query) then [Summarize(ids[0], files[ids[0]], keywords)] + rest else rest
  }

  /** All experiences, filtered, ranked and cut: what a request means without any index. */
  function FullScan(files: Files, keywords: seq<string>, query: string, bound: int): seq<Summary> {
    Slice(SortRanked(files, query, FullMatches(files, keywords, query)), bound)
  }

  lemma {:induction false} ScanHolds(files: Files, ids: seq<string>, keywords: seq<string>, query: string, s: Summary)
    requires forall i :: 0 <= i < |ids| ==> ids[i] in files
    ensures s in Scan(files, ids, keywords, query) <==>
              s.id in ids && IsRelevant(files[s.id], keywords, query) && s == Summarize(s.id, files[s.id], keywords)
  {
    if ids != [] { ScanHolds(files, ids[1..], keywords, query, s); }
  }

  lemma PrefixIsBest(files: Files, query: string, sorted: seq<Summary>, bound: nat, s: Summary)
    requires AllStored(files, sorted) && IsRanked(files, query, sorted)
    ensures var r := Slice(sorted, bound);
            && AllStored(files, r) && IsRanked(files, query, r) && |r| <= bound && (s in r ==> s in sorted)
            && (s in sorted ==>
                  s in r
                  || (s.id in files && |r| == bound && forall i :: 0 <= i < |r| ==> RanksBefore(files, query, r[i], s)))
  {}

  lemma MatchesAreRelevant(files: Files, keywords: seq<string>, query: string, s: Summary)
    ensures s in SortRanked(files, query, FullMatches(files, keywords, query)) <==>
              s.id in files && IsRelevant(files[s.id], keywords, query) && s == Summarize(s.id, files[s.id], keywords)
  {
    var all := FullMatches(files, keywords, query);
    ListedIsStored(files);
    SortedListsAll(files.Keys);
    ScanHolds(files, Sorted(files.Keys), keywords, query, s);
    assert s in SortRanked(files, query, all) <==> s in multiset(all);
  }

  /** Returned experiences are relevant and ranked; a relevant one is left out only behind a full result. */
  lemma BestAreReturned(files: Files, keywords: seq<string>, query: string, bound: nat, s: Summary)
    ensures var r := FullScan(files, keywords, query, bound);
            && AllStored(files, r) && IsRanked(files, query, r) && |r| <= bound
            && (s in r ==> s.id in files && IsRelevant(files[s.id], keywords, query))
            && (s.id in files && IsRelevant(files[s.id], keywords, query)
                && s == Summarize(s.id, files[s.id], keywords) ==>
                  s in r || (|r| == bound && forall i :: 0 <= i < |r| ==> RanksBefore(files, query, r[i], s)))
  {
    var sorted := SortRanked(files, query, FullMatches(files, keywords, query));
    SortRankedIsRanked(files, query, FullMatches(files, keywords, query));
    MatchesAreRelevant(files, keywords, query, s);
    PrefixIsBest(files, query, sorted, bound, s);
  }

  /** The experiences that carry one of the keywords. */
  function CarriersOfAny(files: Files, keywords: seq<string>): set<string> {
    set id | id in files.Keys && Matching(keywords, KeywordsOf(files[id].text)) != []
  }

  lemma {:induction false} ScanSkipsIrrelevant(files: Files, ids: seq<string>, keywords: seq<string>, query: string,
                                               keep: string -> bool)
    requires forall i :: 0 <= i < |ids| ==> ids[i] in files
    requires forall id :: id in files ==> (keep(id) <==> IsRelevant(files[id], keywords, query))
    ensures forall i :: 0 <= i < |Select(ids, keep)| ==> Select(ids, keep)[i] in files
    ensures Scan(files, Select(ids, keep), keywords, query) == Scan(files, ids, keywords, query)
  {
    if ids != [] {
      ScanSkipsIrrelevant(files, ids[1..], keywords, query, keep);
      var rest := Select(ids[1..], keep);
      assert ([ids[0]] + rest)[1..] == rest;
    }
  }

  /** Scanning only the carriers finds what scanning everything finds. */
  lemma CarriersSuffice(files: Files, keywords: seq<string>, query: string)
    requires "unknown" !in keywords
    ensures forall i :: 0 <= i < |Sorted(CarriersOfAny(files, keywords))| ==>
              Sorted(CarriersOfAny(files, keywords))[i] in files
    ensures (ListedIsStored(files);
             Scan(files, Sorted(CarriersOfAny(files, keywords)), keywords, query)
               == Scan(files, Sorted(files.Keys), keywords, query))
  {
    ListedIsStored(files);
    var keep := (id: string) => id in files && IsRelevant(files[id], keywords, query);
    ScanSkipsIrrelevant(files, Sorted(files.Keys), keywords, query, keep);
    SelectFromSorted(files.Keys, keep);
    assert (set x | x in files.Keys && keep(x)) == CarriersOfAny(files, keywords);
  }

  function IndexEntries(index: map<string, seq<string>>, keywords: seq<string>): set<string> {
    set k, id | k in keywords && k in index && id in index[k] :: id
  }

  lemma MatchingIff(keywords: seq<string>, carried: seq<string>)
    ensures Matching(keywords, carried) != [] <==> exists k :: k in keywords && k in carried
  {}

  /** The index names exactly the carriers. */
  lemma IndexNamesCarriers(index: map<string, seq<string>>, files: Files, keywords: seq<string>)
    requires IsIndexOf(index, files)
    ensures IndexEntries(index, keywords) == CarriersOfAny(files, keywords)
  {
    forall id ensures id in IndexEntries(index, keywords) <==> id in CarriersOfAny(files, keywords) {
      if id in IndexEntries(index, keywords) {
        var k :| k in keywords && k in index && id in index[k];
        SortedListsAll(Carriers(files, files.Keys, k));
        MatchingIff(keywords, KeywordsOf(files[id].text));
      }
      if id in CarriersOfAny(files, keywords) {
        MatchingIff(keywords, KeywordsOf(files[id].text));
        var k :| k in keywords && k in KeywordsOf(files[id].text);
        assert id in Carriers(files, files.Keys, k);
        SortedListsAll(Carriers(files, files.Keys, k));
      }
    }
  }

  /** The scan loop over the candidates. */
  method ScanCandidates(files: Files, candidates: seq<string>, keywords: seq<string>, query: string)
    returns (matched: seq<Summary>, scanned: nat)
    requires forall i :: 0 <= i < |candidates| ==> candidates[i] in files
    ensures matched == Scan(files, candidates, keywords, query) && scanned == |candidates|
    ensures AllStored(files, matched)
  {
    matched, scanned := [], 0;
    while scanned < |candidates|
      invariant 0 <= scanned <= |candidates|
      invariant matched
                + Scan(files, candidates[scanned..], keywords, query) == Scan(files, candidates, keywords, query)
    {
      var id := candidates[scanned];
      assert candidates[scanned..][1..] == candidates[scanned + 1..];
      if IsRelevant(files[id], keywords, query) {
        matched := matched + [Summarize(id, files[id], keywords)];
      }
      scanned := scanned + 1;
    }
    assert candidates[scanned..] == [];
  }

  function Candidates(files: Files, index: map<string, seq<string>>, keywords: seq<string>): set<string> {
    if "unknown" in keywords then files.Keys else IndexEntries(index, keywords)
  }

  function FullMatches(files: Files, keywords: seq<string>, query: string): (r: seq<Summary>)
    ensures AllStored(files, r)
  {
    ListedIsStored(files);
    Scan(files, Sorted(files.Keys), keywords, query)
  }

  /** Scanning the candidates finds what scanning everything finds. */
  lemma CandidatesScanAsAll(files: Files, index: map<string, seq<string>>, keywords: seq<string>, query: string)
    requires IsIndexOf(index, files)
    ensures var ids := Sorted(Candidates(files, index, keywords));
            && |ids| == |Candidates(files, index, keywords)|
            && (forall i :: 0 <= i < |ids| ==> ids[i] in files)
            && Scan(files, ids, keywords, query) == FullMatches(files, keywords, query)
  {
    ListedIsStored(files);
    SortedListsAll(Candidates(files, index, keywords));
    if "unknown" !in keywords {
      IndexNamesCarriers(index, files, keywords);
      CarriersSuffice(files, keywords, query);
    }
  }

  /** The retriever: candidates from the index, or every experience for `unknown`. */
  method RetrieveKeywords(files: Files, index: map<string, seq<string>>, vocabulary: set<string>,
                          diagnosed: seq<string>,
                          query: string, limit: Option<int>, maxHits: int, scanBudget: int)
    returns (r: RetrievalResult)
    requires AllReadable(files) && IsIndexOf(index, files)
    ensures var keywords := Normalize(diagnosed, vocabulary);
            && r.experiences == FullScan(files, keywords, query, Bound(limit, maxHits))
            && r.scanned == |if "unknown" in keywords then files.Keys else CarriersOfAny(files, keywords)|
            && r.scanned == |r.experiences| + r.discarded
            && (r.overBudget <==> "unknown" in keywords && |files| > scanBudget)
  {
    var keywords := Normalize(diagnosed, vocabulary);
    var candidates := Sorted(Candidates(files, index, keywords));
    IndexNamesCarriers(index, files, keywords);
    CandidatesScanAsAll(files, index, keywords, query);
    var matched, scanned := ScanCandidates(files, candidates, keywords, query);
    var final := Slice(SortRanked(files, query, matched), Bound(limit, maxHits));
    r := RetrievalResult(final, scanned, scanned - |final|, "unknown" in keywords && |candidates| > scanBudget);
  }
}
