/** The experience store: files, the keyword index over them, and writing one experience per logical key. */
module MemoryStores {
  import opened Options
  import opened Collections
  import opened Text
  import opened Names
  import opened MemoryFiles
  import opened MemoryWriters

  datatype File = File(text: string, mtime: int)

  type Files = map<string, File>

  /** What the vocabulary provides; commas and bars would make signatures ambiguous. */
  predicate IsVocabularyKeyword(k: string) {
    IsKeyword(k) && ',' !in k && '|' !in k
  }

  predicate EndsPlain(s: string) {
    var t := RStrip(s);
    t != [] && t[|t| - 1] != '#'
  }

  /** A file as the writer lays it out: readable header, vocabulary keywords, and no dangling title at its end. */
  ghost predicate IsExperienceWith(text: string, lines: seq<string>, rest: string) {
    && IsLaidOut(text, lines, rest) && EndsPlain(UniversalNewlines(text))
    && var header := ParseHeader(lines, false, [], "");
       header.Some? && forall i :: 0 <= i < |header.value.keyword| ==> IsVocabularyKeyword(header.value.keyword[i])
  }

  ghost predicate IsExperience(text: string) {
    exists lines, rest :: IsExperienceWith(text, lines, rest)
  }

  function KeywordsOf(text: string): seq<string> {
    var f := FrontmatterOf(text);
    if f.Some? then f.value.keyword else []
  }

  lemma ExperiencesParse(text: string)
    requires IsExperience(text)
    ensures FrontmatterOf(text).Some?
    ensures forall i :: 0 <= i < |KeywordsOf(text)| ==> IsVocabularyKeyword(KeywordsOf(text)[i])
  {
    var lines, rest :| IsExperienceWith(text, lines, rest);
    HeaderIsSeen(text, lines, rest);
  }

  // ---- The index ----

  /** The experiences among `ids` that carry a keyword. */
  function Carriers(files: Files, ids: set<string>, keyword: string): set<string> {
    set id | id in ids && id in files && keyword in KeywordsOf(files[id].text)
  }

  /** Each entry is the sorted list of the experiences that carry its keyword; there are no other entries. */
  ghost predicate IsIndexOf(index: map<string, seq<string>>, files: Files) {
    forall k ::
      && (k in index <==> Carriers(files, files.Keys, k) != {})
      && (k in index ==> index[k] == Sorted(Carriers(files, files.Keys, k)))
  }

  /** What `setdefault(...).append(...)` has collected from `done`, and from the first `n` keywords of `id`. */
  ghost predicate Collected(c: map<string, seq<string>>, files: Files, done: set<string>, id: string,
                            keywords: seq<string>) {
    forall k ::
      var ids := Carriers(files, done, k) + if k in keywords then {id} else {};
      && (k in c <==> ids != {})
      && (k in c ==> (set x | x in c[k]) == ids)
  }

  lemma CollectOne(c: map<string, seq<string>>, files: Files, done: set<string>, id: string, keywords: seq<string>,
                   k: string)
    requires Collected(c, files, done, id, keywords)
    ensures Collected(c[k := (if k in c then c[k] else []) + [id]], files, done, id, keywords + [k])
  {
    var d := c[k := (if k in c then c[k] else []) + [id]];
    forall q
      ensures var ids := Carriers(files, done, q) + if q in keywords + [k] then {id} else {};
              (q in d <==> ids != {}) && (q in d ==> (set x | x in d[q]) == ids)
    {
      if q == k {
        var earlier := Carriers(files, done, q) + if q in keywords then {id} else {};
        var before := if k in c then c[k] else [];
        assert (set x | x in before) == earlier;
        assert (set x | x in d[q]) == (set x | x in before) + {id};
      }
    }
  }

  lemma CollectNext(c: map<string, seq<string>>, files: Files, done: set<string>, id: string)
    requires id in files && Collected(c, files, done, id, KeywordsOf(files[id].text))
    ensures Collected(c, files, done + {id}, id, [])
  {
    forall k
      ensures Carriers(files, done + {id}, k) == Carriers(files, done, k) + if k in KeywordsOf(files[id].text) then {id}
                                                                            else {}
    {
    }
  }

  lemma CollectedChangesId(c: map<string, seq<string>>, files: Files, done: set<string>, id: string, next: string)
    requires Collected(c, files, done, id, [])
    ensures Collected(c, files, done, next, [])
  {}

  lemma ElementsGrow(ids: seq<string>, i: nat)
    requires i < |ids|
    ensures Elements(ids[..i + 1]) == Elements(ids[..i]) + {ids[i]}
  {
    assert ids[..i + 1] == ids[..i] + [ids[i]];
  }

  lemma AllElements(names: set<string>, ids: seq<string>)
    requires ids == Sorted(names)
    ensures Elements(ids[..|ids|]) == names
  {
    SortedListsAll(names);
    assert ids[..|ids|] == ids;
  }

  lemma CollectedAt(c: map<string, seq<string>>, files: Files, k: string)
    requires Collected(c, files, files.Keys, "", [])
    ensures k in c <==> Carriers(files, files.Keys, k) != {}
    ensures k in c ==> (set x | x in c[k]) == Carriers(files, files.Keys, k)
  {
    assert Carriers(files, files.Keys, k) + {} == Carriers(files, files.Keys, k);
  }

  lemma IndexOfCollected(c: map<string, seq<string>>, files: Files)
    requires Collected(c, files, files.Keys, "", [])
    ensures IsIndexOf(map k | k in c :: Sorted(set x | x in c[k]), files)
  {
    var index := map k | k in c :: Sorted(set x | x in c[k]);
    forall k
      ensures (k in index <==> Carriers(files, files.Keys, k) != {})
              && (k in index ==> index[k] == Sorted(Carriers(files, files.Keys, k)))
    {
      CollectedAt(c, files, k);
    }
  }

  ghost predicate AllReadable(files: Files) {
    forall id :: id in files ==> FrontmatterOf(files[id].text).Some?
  }

  ghost predicate AllExperiences(files: Files) {
    forall id :: id in files ==> IsExperience(files[id].text)
  }

  lemma ExperiencesAreReadable(files: Files)
    requires AllExperiences(files)
    ensures AllReadable(files)
  {
    forall id | id in files ensures FrontmatterOf(files[id].text).Some? { ExperiencesParse(files[id].text); }
  }

  function LogicalMarker(key: string): string {
    "logical-key: " + key
  }

  /** The first experience whose body mentions the key. */
  function FoundIn(files: Files, ids: seq<string>, key: string): (r: Option<string>)
    ensures r.Some? ==> r.value in ids && r.value in files && Contains(BodyOf(files[r.value].text), LogicalMarker(key))
    ensures r.None? ==> forall id :: id in ids && id in files ==> !Contains(BodyOf(files[id].text), LogicalMarker(key))
  {
    if ids == [] then None
    else if ids[0] in files && Contains(BodyOf(files[ids[0]].text), LogicalMarker(key)) then Some(ids[0])
    else FoundIn(files, ids[1..], key)
  }

  lemma ListedIsStored(files: Files)
    ensures forall i :: 0 <= i < |Sorted(files.Keys)| ==> Sorted(files.Keys)[i] in files
  {
    SortedListsAll(files.Keys);
    forall i | 0 <= i < |Sorted(files.Keys)| ensures Sorted(files.Keys)[i] in files {
      assert Sorted(files.Keys)[i] in Sorted(files.Keys);
    }
  }

  function FoundId(files: Files, key: string): Option<string> {
    FoundIn(files, Sorted(files.Keys), key)
  }

  lemma FoundIff(files: Files, key: string)
    ensures FoundId(files, key).Some?
            <==> exists id :: id in files && Contains(BodyOf(files[id].text), LogicalMarker(key))
    ensures FoundId(files, key).Some? ==> FoundId(files, key).value in files
  {
    SortedListsAll(files.Keys);
  }

  /** A new file that carries an unknown key is the one found by it. */
  lemma OnlyNewIsFound(before: Files, after: Files, id: string, key: string)
    requires FoundId(before, key).None? && id in after && IsMarked(BodyOf(after[id].text), key)
    requires forall k :: k in after && k != id ==> k in before && after[k] == before[k]
    ensures FoundId(after, key) == Some(id)
  {
    MarkedIsFindable(BodyOf(after[id].text), key);
    FoundIff(after, key);
    if FoundId(after, key) != Some(id) { MentionIsFound(before, FoundId(after, key).value, key); }
  }

  lemma MentionIsFound(files: Files, id: string, key: string)
    requires id in files && Contains(BodyOf(files[id].text), LogicalMarker(key))
    ensures FoundId(files, key).Some?
  {
    FoundIff(files, key);
  }

  function Deduplicated(keywords: seq<string>, vocabulary: set<string>): (r: seq<string>)
    ensures forall k :: k in r <==> k in keywords && k in vocabulary
  {
    if keywords == [] then []
    else
      var last := keywords[|keywords| - 1];
      var before := Deduplicated(keywords[..|keywords| - 1], vocabulary);
      if last in vocabulary && last !in before then before + [last] else before
  }

  /** The known keywords, each once and in order; `unknown` when there are none. */
  function Normalize(keywords: seq<string>, vocabulary: set<string>): (r: seq<string>)
    ensures r != []
  {
    var known := Deduplicated(keywords, vocabulary);
    if known == [] then ["unknown"] else known
  }

  predicate IsVocabulary(vocabulary: set<string>) {
    "unknown" in vocabulary && forall k | k in vocabulary :: IsVocabularyKeyword(k)
  }

  // ---- What is written is an experience and is found by its key ----

  /** How many characters reading takes for the first one it gives. */
  function NewlineLength(s: string): (n: nat)
    requires s != []
    ensures 1 <= n <= |s|
  {
    if s[0] == '\r' && |s| > 1 && s[1] == '\n' then 2 else 1
  }

  lemma Associate(a: string, b: string, c: string)
    ensures a + (b + c) == a + b + c
  {}

  lemma NewlinesStep(a: string, b: string)
    requires a != [] && (b == [] || b[0] != '\n')
    ensures var n, c := NewlineLength(a), if a[0] == '\r' then '\n' else a[0];
            && UniversalNewlines(a) == [c] + UniversalNewlines(a[n..])
            && UniversalNewlines(a + b) == [c] + UniversalNewlines(a[n..] + b)
  {
    var n := NewlineLength(a);
    assert (a + b)[n..] == a[n..] + b;
  }

  lemma {:induction false} NewlinesKeepSuffix(a: string, b: string)
    requires '\r' !in b && (b == [] || b[0] != '\n')
    ensures UniversalNewlines(a + b) == UniversalNewlines(a) + b
    decreases |a|
  {
    if a == [] {
      assert a + b == b;
      NewlinesFixedIff(b);
    } else {
      var rest := a[NewlineLength(a)..];
      NewlinesStep(a, b);
      NewlinesKeepSuffix(rest, b);
      Associate([if a[0] == '\r' then '\n' else a[0]], UniversalNewlines(rest), b);
    }
  }

  lemma {:induction false} RStripKeepsPrefix(a: string, b: string)
    requires RStrip(b) != []
    ensures RStrip(a + b) == a + RStrip(b)
    decreases |b|
  {
    if IsSpace(b[|b| - 1]) {
      assert (a + b)[..|a + b| - 1] == a + b[..|b| - 1];
      RStripKeepsPrefix(a, b[..|b| - 1]);
    }
  }

  /** Fields without carriage returns in the key; keys are written without whitespace. */
  predicate IsKey(key: string) {
    key != [] && forall i :: 0 <= i < |key| ==> !IsSpace(key[i])
  }

  predicate IsMarked(body: string, key: string) {
    Contains(body, Comment(key))
  }

  lemma ContainsPart(text: string, a: string, part: string, b: string)
    requires text == a + part + b
    ensures Contains(text, part)
  {
    assert text[|a|..|a| + |part|] == part;
    assert OccursAt(text, part, |a|);
  }

  lemma ContainsTransitive(text: string, part: string, inner: string)
    requires Contains(text, part) && Contains(part, inner)
    ensures Contains(text, inner)
  {
    var i: nat :| i <= |text| && OccursAt(text, part, i);
    var j: nat :| j <= |part| && OccursAt(part, inner, j);
    forall k | 0 <= k < |inner| ensures text[i + j + k] == inner[k] {
      assert part[j..j + |inner|][k] == part[j + k];
      assert text[i..i + |part|][j + k] == text[i + j + k];
    }
    assert text[i + j..i + j + |inner|] == inner;
    assert OccursAt(text, inner, i + j);
  }

  lemma MarkedIsFindable(body: string, key: string)
    requires IsMarked(body, key)
    ensures Contains(body, LogicalMarker(key))
  {
    ContainsPart(Comment(key), "<!-- ", LogicalMarker(key), " -->");
    ContainsTransitive(body, Comment(key), LogicalMarker(key));
  }

  lemma CommentHasNoReturn(key: string)
    requires IsKey(key)
    ensures '\r' !in Comment(key) + "\n"
  {
    var head, tail := "<!-- logical-key: ", " -->";
    assert '\r' !in head && '\r' !in tail;
    assert '\r' !in key;
    assert Comment(key) == head + key + tail;
  }

  lemma WrittenBody(e: Experience)
    requires IsKey(LogicalKey(e))
    ensures UniversalNewlines(BodyText(e)) == UniversalNewlines(Sections(e)) + (Comment(LogicalKey(e)) + "\n")
  {
    var comment := Comment(LogicalKey(e)) + "\n";
    CommentHasNoReturn(LogicalKey(e));
    assert comment[0] == '<';
    assert BodyText(e) == Sections(e) + comment;
    NewlinesKeepSuffix(Sections(e), comment);
  }

  lemma CommentEndsPlain(key: string)
    ensures RStrip(Comment(key) + "\n") == Comment(key)
    ensures Comment(key) != [] && Comment(key)[|Comment(key)| - 1] == '>'
  {
    var c := Comment(key) + "\n";
    assert c[..|c| - 1] == Comment(key);
    assert IsSpace('\n') && !IsSpace('>');
  }

  lemma EndsWithComment(front: string, key: string)
    ensures EndsPlain(front + (Comment(key) + "\n"))
  {
    CommentEndsPlain(key);
    RStripKeepsPrefix(front, Comment(key) + "\n");
  }

  lemma WrittenEndsPlain(keywords: seq<string>, e: Experience)
    requires keywords != [] && forall i :: 0 <= i < |keywords| ==> IsKeyword(keywords[i])
    requires IsKey(LogicalKey(e))
    ensures EndsPlain(UniversalNewlines(Content(keywords, e)))
  {
    var lines, sections, comment :=
      HeaderLines(keywords, e), UniversalNewlines(Sections(e)), Comment(LogicalKey(e)) + "\n";
    WrittenIsLaidOut(keywords, e);
    WrittenBody(e);
    LayoutAndMore(lines, "\n\n", sections + comment);
    calc {
      UniversalNewlines(Content(keywords, e));
      Layout(lines, "\n\n" + (sections + comment));
      Layout(lines, "\n\n") + (sections + comment);
      (Layout(lines, "\n\n") + sections) + comment;
    }
    EndsWithComment(Layout(lines, "\n\n") + sections, LogicalKey(e));
  }

  lemma WrittenIsMarked(keywords: seq<string>, e: Experience)
    requires keywords != [] && forall i :: 0 <= i < |keywords| ==> IsKeyword(keywords[i])
    requires IsKey(LogicalKey(e))
    ensures IsMarked(BodyOf(Content(keywords, e)), LogicalKey(e))
  {
    RoundTrip(keywords, e);
    WrittenBody(e);
    MarkedBehind(UniversalNewlines(Sections(e)), LogicalKey(e));
  }

  lemma MarkedBehind(front: string, key: string)
    ensures IsMarked(front + (Comment(key) + "\n"), key)
  {
    assert front + (Comment(key) + "\n") == front + Comment(key) + "\n";
    ContainsPart(front + Comment(key) + "\n", front, Comment(key), "\n");
  }

  lemma FromParts(text: string, lines: seq<string>, rest: string, keywords: seq<string>)
    requires IsLaidOut(text, lines, rest) && EndsPlain(UniversalNewlines(text))
    requires ParseHeader(lines, false, [], "").Some? && ParseHeader(lines, false, [], "").value.keyword == keywords
    requires forall i :: 0 <= i < |keywords| ==> IsVocabularyKeyword(keywords[i])
    ensures IsExperience(text)
  {
    assert IsExperienceWith(text, lines, rest);
  }

  /** The writer's file is an experience and carries its key. */
  lemma WrittenIsExperience(keywords: seq<string>, e: Experience)
    requires keywords != [] && forall i :: 0 <= i < |keywords| ==> IsVocabularyKeyword(keywords[i])
    requires IsKey(LogicalKey(e))
    ensures IsExperience(Content(keywords, e)) && IsMarked(BodyOf(Content(keywords, e)), LogicalKey(e))
  {
    WrittenIsMarked(keywords, e);
    WrittenEndsPlain(keywords, e);
    WrittenIsLaidOut(keywords, e);
    HeaderParses(keywords, e);
    FromParts(Content(keywords, e), HeaderLines(keywords, e), "\n\n" + UniversalNewlines(BodyText(e)), keywords);
  }

  // ---- The store ----

  class MemoryStore {
    const vocabulary: set<string>
    var files: Files
    var index: map<string, seq<string>>

    ghost predicate Valid()
      reads this
    {
      && IsVocabulary(vocabulary)
      && AllExperiences(files)
      && IsIndexOf(index, files)
    }

    constructor (vocabulary: set<string>)
      requires IsVocabulary(vocabulary)
      ensures Valid() && files == map[] && this.vocabulary == vocabulary
    {
      this.vocabulary, files, index := vocabulary, map[], map[];
    }

    /** Adds `id` to the entries of its keywords. */
    static method Collect(collected: map<string, seq<string>>, ghost all: Files, ghost done: set<string>, id: string,
                          keywords: seq<string>)
      returns (c: map<string, seq<string>>)
      requires Collected(collected, all, done, id, [])
      ensures Collected(c, all, done, id, keywords)
    {
      c := collected;
      for j := 0 to |keywords|
        invariant Collected(c, all, done, id, keywords[..j])
      {
        CollectOne(c, all, done, id, keywords[..j], keywords[j]);
        assert keywords[..j + 1] == keywords[..j] + [keywords[j]];
        c := c[keywords[j] := (if keywords[j] in c then c[keywords[j]] else []) + [id]];
      }
      assert keywords[..|keywords|] == keywords;
    }

    /** Reads every file of `all`; None when one cannot be read. */
    static method BuildIndex(all: Files) returns (r: Option<map<string, seq<string>>>)
      ensures r.Some? <==> AllReadable(all)
      ensures r.Some? ==> IsIndexOf(r.value, all)
    {
      var ids := Sorted(all.Keys);
      SortedListsAll(all.Keys);
      var collected: map<string, seq<string>> := map[];
      ghost var done: set<string> := {};
      for i := 0 to |ids|
        invariant done == Elements(ids[..i])
        invariant forall id :: id in done ==> id in all && FrontmatterOf(all[id].text).Some?
        invariant Collected(collected, all, done, "", [])
      {
        var id := ids[i];
        assert id in ids;
        var frontmatter := ReadFrontmatter(all[id].text);
        if frontmatter.None? { return None; }
        CollectedChangesId(collected, all, done, "", id);
        collected := Collect(collected, all, done, id, frontmatter.value.keyword);
        CollectNext(collected, all, done, id);
        CollectedChangesId(collected, all, done + {id}, id, "");
        ElementsGrow(ids, i);
        done := done + {id};
      }
      AllElements(all.Keys, ids);
      IndexOfCollected(collected, all);
      return Some(map k | k in collected :: Sorted(set x | x in collected[k]));
    }

    /** Replaces the index; an unreadable file leaves the old one in place. */
    method RebuildIndex() returns (ok: bool)
      modifies this`index
      ensures ok <==> AllReadable(files)
      ensures if ok then IsIndexOf(index, files) else index == old(index)
    {
      var built := BuildIndex(files);
      ok := built.Some?;
      if ok { index := built.value; }
    }

    /** Takes over changed files and brings the index up to date. */
    method ReplaceFiles(changed: Files)
      requires IsVocabulary(vocabulary) && AllExperiences(changed)
      modifies this
      ensures Valid() && files == changed
    {
      files := changed;
      ExperiencesAreReadable(files);
      var _ := RebuildIndex();
    }

    /** Stores a file and brings the index up to date. */
    method SaveMarkdown(id: string, file: File)
      requires Valid() && IsExperience(file.text)
      modifies this
      ensures Valid() && files == old(files)[id := file]
    {
      ReplaceFiles(files[id := file]);
    }

    /** The first listed experience that mentions the key. */
    method FindByLogicalKey(key: string) returns (r: Option<string>)
      ensures r == FoundId(files, key)
    {
      var ids := Sorted(files.Keys);
      SortedListsAll(files.Keys);
      for i := 0 to |ids|
        invariant FoundIn(files, ids[i..], key) == FoundId(files, key)
      {
        if Contains(BodyOf(files[ids[i]].text), LogicalMarker(key)) { return Some(ids[i]); }
        assert ids[i..][1..] == ids[i + 1..];
      }
      return None;
    }

    method WriteNew(e: Experience, keywords: seq<string>, newId: string, now: int)
      requires Valid() && IsKey(LogicalKey(e)) && newId !in files && FoundId(files, LogicalKey(e)).None?
      requires keywords != [] && forall i :: 0 <= i < |keywords| ==> IsVocabularyKeyword(keywords[i])
      modifies this
      ensures Valid() && files == old(files)[newId := File(Content(keywords, e), now)]
      ensures FoundId(files, LogicalKey(e)) == Some(newId) && IsMarked(BodyOf(files[newId].text), LogicalKey(e))
    {
      WrittenIsExperience(keywords, e);
      SaveNew(LogicalKey(e), File(Content(keywords, e), now), newId);
    }

    /** Saves a file that carries an unknown key. */
    method SaveNew(ghost key: string, file: File, newId: string)
      requires Valid() && newId !in files && FoundId(files, key).None?
      requires IsExperience(file.text) && IsMarked(BodyOf(file.text), key)
      modifies this
      ensures Valid() && files == old(files)[newId := file] && FoundId(files, key) == Some(newId)
    {
      SaveMarkdown(newId, file);
      OnlyNewIsFound(old(files), files, newId, key);
    }

    /**
      * Writes one experience per logical key: a key that is already mentioned gets its experience back and no file
      * changes.
      */
    method WriteConfirmedExperience(e: Experience, diagnosed: seq<string>, newId: string, now: int) returns (id: string)
      requires Valid() && IsKey(LogicalKey(e)) && newId !in files
      modifies this
      ensures Valid() && FoundId(files, LogicalKey(e)) == Some(id)
      ensures FoundId(old(files), LogicalKey(e)).Some? ==>
                files == old(files) && Some(id) == FoundId(old(files), LogicalKey(e))
      ensures FoundId(old(files), LogicalKey(e)).None? ==>
                && id == newId && files == old(files)[newId := File(Content(Normalize(diagnosed, vocabulary), e), now)]
                && IsMarked(BodyOf(files[id].text), LogicalKey(e))
    {
      var existing := FindByLogicalKey(LogicalKey(e));
      if existing.Some? {
        ExperiencesAreReadable(files);
        var _ := RebuildIndex();
        return existing.value;
      }
      WriteNew(e, Normalize(diagnosed, vocabulary), newId, now);
      id := newId;
    }
  }
}
