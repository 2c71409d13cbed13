/** What a signature says: equal keywords and equal shapes of what the experiences modified. */
module MemorySignatures {
  import opened Options
  import opened Text
  import opened Names
  import opened MemoryFiles
  import opened MemoryWriters
  import opened MemoryStores
  import opened MemoryNotes
  import opened MemorySections
  import opened ConsolidationNotes
  import opened MemoryConsolidation
  import opened FoundKeys
  import opened LostKeys

  // ---- The sorted keywords ----

  ghost predicate Ascending(s: seq<string>) {
    forall i, j :: 0 <= i < j < |s| ==> Before(s[i], s[j])
  }

  lemma {:induction false} InsertKeepsAscending(x: string, s: seq<string>)
    requires Ascending(s)
    ensures Ascending(Insert(x, s))
  {
    if s != [] {
      if Before(x, s[0]) {
        HeadIsFirst(x, s);
      } else {
        BeforeIsTotal(x, s[0]);
        InsertKeepsAscending(x, s[1..]);
        InsertedIsBehind(x, s);
      }
    }
  }

  lemma HeadIsFirst(x: string, s: seq<string>)
    requires s != [] && Ascending(s) && Before(x, s[0])
    ensures Ascending([x] + s)
  {
    forall i, j | 0 <= i < j < |[x] + s| ensures Before(([x] + s)[i], ([x] + s)[j]) {
      if i == 0 && j > 1 { BeforeIsTransitive(x, s[0], s[j - 1]); }
    }
  }

  lemma InsertedIsBehind(x: string, s: seq<string>)
    requires s != [] && Ascending(s) && Before(s[0], x) && Ascending(Insert(x, s[1..]))
    ensures Ascending([s[0]] + Insert(x, s[1..]))
  {
    var rest := Insert(x, s[1..]);
    forall k | 0 <= k < |rest| ensures Before(s[0], rest[k]) {
      assert rest[k] in multiset(rest);
      if rest[k] != x { IsBehindHead(s, rest[k]); }
    }
    HeadStays(s[0], rest);
  }

  lemma IsBehindHead(s: seq<string>, y: string)
    requires s != [] && Ascending(s) && y in s[1..]
    ensures Before(s[0], y)
  {
    var j :| 0 <= j < |s[1..]| && s[1..][j] == y;
    assert s[1..][j] == s[j + 1];
  }

  lemma HeadStays(x: string, rest: seq<string>)
    requires Ascending(rest) && forall k :: 0 <= k < |rest| ==> Before(x, rest[k])
    ensures Ascending([x] + rest)
  {}

  lemma {:induction false} SortListAscends(s: seq<string>)
    ensures Ascending(SortList(s))
  {
    if s != [] {
      SortListAscends(s[1..]);
      InsertKeepsAscending(s[0], SortList(s[1..]));
    }
  }

  lemma {:induction false} AscendingIsUnique(xs: seq<string>, ys: seq<string>)
    requires Ascending(xs) && Ascending(ys) && multiset(xs) == multiset(ys)
    ensures xs == ys
  {
    if xs == [] {
      assert |multiset(ys)| == 0;
    } else {
      assert |multiset(ys)| == |multiset(xs)| > 0;
      SameHeads(xs, ys);
      assert xs == [xs[0]] + xs[1..] && ys == [ys[0]] + ys[1..];
      assert multiset(xs[1..]) == multiset(xs) - multiset{xs[0]};
      assert multiset(ys[1..]) == multiset(ys) - multiset{ys[0]};
      AscendingIsUnique(xs[1..], ys[1..]);
    }
  }

  lemma SameHeads(xs: seq<string>, ys: seq<string>)
    requires Ascending(xs) && Ascending(ys) && multiset(xs) == multiset(ys) && xs != [] && ys != []
    ensures xs[0] == ys[0]
  {
    assert xs[0] in multiset(ys) && ys[0] in multiset(xs);
    assert xs[0] in ys && ys[0] in xs;
    BeforeIsTotal(xs[0], xs[0]);
    BeforeIsTotal(ys[0], ys[0]);
    assert Before(ys[0], xs[0]) && Before(xs[0], ys[0]);
    BeforeIsAntisymmetric(xs[0], ys[0]);
  }

  // ---- Equal signatures ----

  /** The text that the signature looks at besides the keywords. */
  function ModificationOf(text: string): string {
    SectionOf(BodyOf(text), "Modification")
  }

  /** Two experiences have the same signature exactly when keywords and the shapes of the modifications agree. */
  lemma SameSignatureIff(a: string, b: string, shape: string -> string)
    requires IsExperience(a) && IsExperience(b)
    ensures Signature(a, shape) == Signature(b, shape) <==>
              multiset(KeywordsOf(a)) == multiset(KeywordsOf(b)) && shape(ModificationOf(a)) == shape(ModificationOf(b))
  {
    var xs, ys := SortList(KeywordsOf(a)), SortList(KeywordsOf(b));
    if Signature(a, shape) == Signature(b, shape) {
      SortedAreFields(a);
      SortedAreFields(b);
      JoinHasNoBar(xs);
      JoinHasNoBar(ys);
      FirstFieldIsDetermined(Join(",", xs), Join(",", ys), shape(ModificationOf(a)), shape(ModificationOf(b)), '|');
      JoinIsInjective(xs, ys);
    }
    if multiset(KeywordsOf(a)) == multiset(KeywordsOf(b)) {
      SortListAscends(KeywordsOf(a));
      SortListAscends(KeywordsOf(b));
      AscendingIsUnique(xs, ys);
    }
  }

  // ---- Different repairs are not merged ----

  ghost predicate AgreeInShape(a: string, b: string, shape: string -> string) {
    multiset(KeywordsOf(a)) == multiset(KeywordsOf(b)) && shape(ModificationOf(a)) == shape(ModificationOf(b))
  }

  /** The members of a group agree in keywords and in the shapes of their modifications, and nobody else does. */
  lemma GroupAgrees(files: Files, shape: string -> string, a: string, b: string)
    requires AllExperiences(files) && a in files && b in files
    ensures b in GroupOf(files, SignatureBy(shape), a) <==> AgreeInShape(files[a].text, files[b].text, shape)
  {
    SameSignatureIff(files[a].text, files[b].text, shape);
  }

  /** A file disappears only if another one with the same keywords and the same shape of modification stays. */
  lemma DeletedHasTwin(files: Files, shape: string -> string, clock: Clock, id: string) returns (twin: string)
    requires AllExperiences(files) && IsClock(clock) && id in files
    requires id !in Consolidated(files, SignatureBy(shape), clock)
    ensures twin in files && twin != id && twin in Consolidated(files, SignatureBy(shape), clock)
    ensures AgreeInShape(files[id].text, files[twin].text, shape)
  {
    twin := Leader(files, SignatureBy(shape), id);
    LeaderLeadsItself(files, SignatureBy(shape), id);
    SameSignatureIff(files[id].text, files[twin].text, shape);
  }

  /** Experiences whose modifications differ in shape are never merged with each other: two files stay for them. */
  lemma DifferentShapesStayApart(files: Files, shape: string -> string, clock: Clock, a: string, b: string)
    requires AllExperiences(files) && IsClock(clock) && a in files && b in files
    requires shape(ModificationOf(files[a].text)) != shape(ModificationOf(files[b].text))
    ensures var sign := SignatureBy(shape);
            var merged := Consolidated(files, sign, clock);
            && GroupOf(files, sign, a) !! GroupOf(files, sign, b)
            && Leader(files, sign, a) != Leader(files, sign, b)
            && Leader(files, sign, a) in merged && Leader(files, sign, b) in merged
            && shape(ModificationOf(merged[Leader(files, sign, a)].text)) == shape(ModificationOf(files[a].text))
            && shape(ModificationOf(merged[Leader(files, sign, b)].text)) == shape(ModificationOf(files[b].text))
  {
    var sign := SignatureBy(shape);
    SignatureIsSignature(shape);
    SameSignatureIff(files[a].text, files[b].text, shape);
    SurvivorHasShape(files, shape, clock, a);
    SurvivorHasShape(files, shape, clock, b);
  }

  lemma SurvivorHasShape(files: Files, shape: string -> string, clock: Clock, id: string)
    requires AllExperiences(files) && IsClock(clock) && id in files && IsSignature(SignatureBy(shape))
    ensures var m := Leader(files, SignatureBy(shape), id);
            var merged := Consolidated(files, SignatureBy(shape), clock);
            m in merged && shape(ModificationOf(merged[m].text)) == shape(ModificationOf(files[id].text))
  {
    var m := Leader(files, SignatureBy(shape), id);
    var merged := Consolidated(files, SignatureBy(shape), clock);
    LeaderLeadsItself(files, SignatureBy(shape), id);
    SurvivorKeepsKind(files, SignatureBy(shape), clock, m);
    SameSignatureIff(merged[m].text, files[id].text, shape);
  }

  // ---- The modification of a written file ----

  /** Everything the writer puts in front of the modification. */
  function InFront(e: Experience): string {
    Section("Problem", BodyField(e.description)) + Section("Original SQL", e.originalSql)
    + Section("Error", BodyField(e.errorSummary)) + Section("Confirmed SQL", e.confirmedSql)
  }

  lemma BodyIs(e: Experience)
    ensures BodyText(e) == InFront(e) + (FromModification(e) + (Comment(LogicalKey(e)) + "\n"))
  {
    FourInFront(Section("Problem", BodyField(e.description)), Section("Original SQL", e.originalSql),
                Section("Error", BodyField(e.errorSummary)), Section("Confirmed SQL", e.confirmedSql),
                Section("Modification", BodyField(e.modification)), Section("Applicable Conditions", CONDITIONS),
                Comment(LogicalKey(e)), "\n");
  }

  lemma FourInFront(p: string, o: string, r: string, c: string, m: string, a: string, comment: string, end: string)
    ensures p + o + r + c + m + a + comment + end == p + o + r + c + (m + a + (comment + end))
  {}

  /** An earlier field mentions the title of the modification. */
  predicate HasEarlierMark(e: Experience) {
    || Contains(BodyField(e.description), MARK) || Contains(e.originalSql, MARK)
    || Contains(BodyField(e.errorSummary), MARK) || Contains(e.confirmedSql, MARK)
  }

  lemma SectionContains(title: string, text: string)
    requires 'M' !in title && ':' !in title
    ensures EndsLine(Section(title, text)) && (Contains(Section(title, text), MARK) <==> Contains(text, MARK))
  {
    var head, tail := "## " + title, text + "\n" + ("" + "\n" + "");
    SoughtIsLinePart(MARK);
    TitleLacks(title, MARK);
    assert Section(title, text) == head + "\n" + ("" + "\n" + tail);
    AcrossBreak("", "", MARK);
    AcrossBreak(text, "" + "\n" + "", MARK);
    AcrossBreak("", tail, MARK);
    AcrossBreak(head, "" + "\n" + tail, MARK);
  }

  lemma InFrontContains(e: Experience)
    ensures EndsLine(InFront(e)) && (Contains(InFront(e), MARK) <==> HasEarlierMark(e))
  {
    var p, o := Section("Problem", BodyField(e.description)), Section("Original SQL", e.originalSql);
    var r, c := Section("Error", BodyField(e.errorSummary)), Section("Confirmed SQL", e.confirmedSql);
    SoughtIsLinePart(MARK);
    SectionContains("Problem", BodyField(e.description));
    SectionContains("Original SQL", e.originalSql);
    SectionContains("Error", BodyField(e.errorSummary));
    SectionContains("Confirmed SQL", e.confirmedSql);
    AfterLine(p, o, MARK);
    AfterLine(p + o, r, MARK);
    AfterLine(p + o + r, c, MARK);
  }

  /** Some line of the modification is a title. */
  predicate HasTitle(modification: string) {
    Contains("\n" + modification, TITLE)
  }

  /** The number of characters that are not blank. */
  function Solid(s: string): nat {
    if s == [] then 0 else (if IsSpace(s[0]) then 0 else 1) + Solid(s[1..])
  }

  lemma {:induction false} SolidAdds(a: string, b: string)
    ensures Solid(a + b) == Solid(a) + Solid(b)
  {
    if a == [] {
      assert a + b == b;
    } else {
      assert (a + b)[1..] == a[1..] + b;
      SolidAdds(a[1..], b);
    }
  }

  lemma {:induction false} LStripKeepsSolid(s: string)
    ensures Solid(LStrip(s)) == Solid(s)
  {
    if s != [] && IsSpace(s[0]) { LStripKeepsSolid(s[1..]); }
  }

  lemma {:induction false} RStripKeepsSolid(s: string)
    ensures Solid(RStrip(s)) == Solid(s)
  {
    if s != [] && IsSpace(s[|s| - 1]) {
      var front, last := s[..|s| - 1], [s[|s| - 1]];
      RStripKeepsSolid(front);
      assert s == front + last && Solid(last) == Solid(last[1..]) == 0;
      SolidAdds(front, last);
    }
  }

  lemma StripKeepsSolid(s: string)
    ensures Solid(Strip(s)) == Solid(s)
  {
    LStripKeepsSolid(s);
    RStripKeepsSolid(LStrip(s));
  }

  /** A text that is cut at a title loses solid characters. */
  lemma CutIsNoticed(s: string, q: nat)
    requires OccursAt(s, TITLE, q)
    ensures Strip(s[..q]) != Strip(s)
  {
    StripKeepsSolid(s);
    StripKeepsSolid(s[..q]);
    assert s == s[..q] + s[q..];
    SolidAdds(s[..q], s[q..]);
    TitleChars(s, q);
    TitleIsSolid(s[q..]);
  }

  lemma TitleIsSolid(t: string)
    requires |t| >= 2 && t[0] == '\n' && t[1] == '#'
    ensures Solid(t) >= 1
  {
    assert t[1..][0] == '#' && !IsSpace('#');
  }

  lemma StripsLeadingBreaks(s: string)
    ensures Strip("\n\n" + s) == Strip(s)
  {
    var t := "\n\n" + s;
    assert t[1..] == "\n" + s && t[1..][1..] == s && IsSpace('\n');
    assert LStrip(t) == LStrip(t[1..]) == LStrip(s);
  }

  lemma TitleBehindBreaks(modification: string)
    ensures Contains("\n\n" + modification, TITLE) <==> HasTitle(modification)
  {
    var s, t := "\n\n" + modification, "\n" + modification;
    assert s == "\n" + t && t[0] == '\n';
    if HasTitle(modification) { OccursBehind("\n", t, TITLE); }
    if i: nat :| i <= |s| && OccursAt(s, TITLE, i) {
      TitleChars(s, i);
      assert i > 0;
      InSecondPart("\n", t, TITLE, i);
    }
  }

  /** What is read between the modification's title and the next one. */
  lemma UpToOwnEnd(modification: string, rest: string)
    requires StartsWithTitle(rest)
    ensures UpToTitle("\n\n" + modification + rest) == Strip(modification) <==> !HasTitle(modification)
  {
    var y := "\n\n" + modification;
    TitleBehindBreaks(modification);
    StripsLeadingBreaks(modification);
    if HasTitle(modification) {
      CutInFront(y, rest);
      FirstTitleIsCut(y);
    } else {
      NoTitleNoFind(y);
      assert y + "" == y;
      CutAtNote(y, "", rest);
      StripBlank(y, "\n");
    }
  }

  lemma NoTitleNoFind(y: string)
    requires !Contains(y, TITLE)
    ensures FindFrom(y, TITLE, 0).None?
  {
    FindsFirst(y, TITLE, 0);
  }

  lemma FirstTitleIsCut(y: string)
    requires Contains(y, TITLE)
    ensures Strip(CutAtTitle(y)) != Strip(y)
  {
    var i: nat :| i <= |y| && OccursAt(y, TITLE, i);
    FindsFirst(y, TITLE, 0);
    CutIsNoticed(y, FindFrom(y, TITLE, 0).value);
  }

  lemma FromModificationIs(e: Experience)
    ensures FromModification(e)[|MARK|..] == "\n\n" + BodyField(e.modification) + ConditionsPart()
    ensures MARK <= FromModification(e) && StartsWithTitle(ConditionsPart())
  {
    var m, c := BodyField(e.modification), "## " + "Applicable Conditions" + "\n\n" + CONDITIONS + "\n\n";
    MarkParts(MARK, "\n\n", m, c);
    assert ConditionsPart()[..5] == "\n\n## ";
  }

  function ConditionsPart(): string {
    "\n\n" + ("## " + "Applicable Conditions" + "\n\n" + CONDITIONS + "\n\n")
  }

  lemma MarkParts(mark: string, gap: string, m: string, c: string)
    ensures (mark + gap + m + gap + c)[|mark|..] == gap + m + (gap + c) && mark <= mark + gap + m + gap + c
  {
    assert mark + gap + m + gap + c == mark + (gap + m + (gap + c));
  }

  /** Without an earlier mention, the section is what stands between the modification's title and the next one. */
  lemma WrittenSection(e: Experience)
    requires !HasEarlierMark(e)
    ensures SectionOf(BodyText(e), MODIFICATION)
            == UpToTitle("\n\n" + BodyField(e.modification) + ConditionsPart())
  {
    BodyIs(e);
    InFrontContains(e);
    FromModificationIs(e);
    ModificationEnds(e);
    SectionBetween(InFront(e), FromModification(e), Comment(LogicalKey(e)) + "\n");
  }

  /**
    * The modification is read back from a written file, stripped, exactly when none of its lines is a title, unless an
    * earlier field mentions the section's title.
    */
  lemma ModificationIsReadBackIff(e: Experience)
    requires !HasEarlierMark(e)
    ensures SectionOf(BodyText(e), "Modification") == Strip(BodyField(e.modification))
            <==> !HasTitle(BodyField(e.modification))
  {
    WrittenSection(e);
    FromModificationIs(e);
    UpToOwnEnd(BodyField(e.modification), ConditionsPart());
  }

  /** If one does, the section is cut out of that field and the modification plays no part. */
  lemma EarlierMarkHidesModification(e: Experience, modification: string)
    requires HasEarlierMark(e)
    ensures SectionOf(BodyText(e.(modification := modification)), "Modification")
            == SectionOf(BodyText(e), "Modification")
  {
    var f := e.(modification := modification);
    var front, tail := InFront(e), Comment(LogicalKey(e)) + "\n";
    BodyIs(e);
    BodyIs(f);
    InFrontContains(e);
    SectionBeforeTitle(front, FromModification(e) + tail);
    SectionBeforeTitle(front, FromModification(f) + tail);
  }

  lemma SectionBeforeTitle(front: string, text: string)
    requires EndsLine(front) && Contains(front, MARK) && "## " <= text
    ensures SectionAt(front + text, MARK) == SectionAt(front + "## ", MARK)
  {
    var p := FirstMark(front, text);
    var q := FirstMark(front, "## ");
    var y := RestOfLine(front, p);
    SectionIs(front + text, MARK, p, y + text);
    SectionIs(front + "## ", MARK, q, y + "## ");
    CutAtNextTitle(y, text);
  }

  lemma FirstMark(front: string, text: string) returns (p: nat)
    requires Contains(front, MARK)
    ensures FindFrom(front, MARK, 0) == Some(p) == FindFrom(front + text, MARK, 0) && OccursAt(front, MARK, p)
  {
    var i: nat :| i <= |front| && OccursAt(front, MARK, i);
    FindsFirst(front, MARK, 0);
    p := FindFrom(front, MARK, 0).value;
    forall j: nat | j <= p ensures OccursAt(front + text, MARK, j) <==> OccursAt(front, MARK, j) {
      InFirstPart(front, text, MARK, j);
    }
    FirstIs(front + text, MARK, p);
  }

  /** What follows the mark ends its line. */
  lemma RestOfLine(front: string, p: nat) returns (y: string)
    requires EndsLine(front) && OccursAt(front, MARK, p)
    ensures EndsLine(y) && forall text: string :: (front + text)[p + |MARK|..] == y + text
  {
    SoughtIsLinePart(MARK);
    CharAt(front, MARK, p, |MARK| - 1);
    y := front[p + |MARK|..];
    forall text: string ensures (front + text)[p + |MARK|..] == y + text { TailOf(front, text, p + |MARK|); }
  }

  lemma CutAtNextTitle(y: string, text: string)
    requires EndsLine(y) && "## " <= text
    ensures UpToTitle(y + text) == UpToTitle(y + "## ")
  {
    var s, tail := y + "## ", text[3..];
    assert y + text == s + tail;
    TitleChars(s, |y| - 1);
    CutInFront(s, tail);
  }

  // ---- Two written repairs ----

  /** A written file whose modification reads back as it was written. */
  predicate IsWellWritten(keywords: seq<string>, e: Experience) {
    && AreVocabulary(keywords) && IsKey(LogicalKey(e)) && '\r' !in BodyText(e)
    && !HasEarlierMark(e) && !HasTitle(BodyField(e.modification))
  }

  lemma WrittenModification(keywords: seq<string>, e: Experience)
    requires IsWellWritten(keywords, e)
    ensures IsExperience(Content(keywords, e))
    ensures ModificationOf(Content(keywords, e)) == Strip(BodyField(e.modification))
  {
    WrittenIsRead(keywords, e);
    ModificationIsReadBackIff(e);
  }

  /** Two experiences that the writer stores for different repairs both stay, even with the same keywords. */
  lemma DifferentRepairsAreKept(first: Experience, second: Experience, k: seq<string>, l: seq<string>, a: string,
                                b: string, now: int, shape: string -> string, clock: Clock)
    requires IsWellWritten(k, first) && IsWellWritten(l, second) && a != b
    requires shape(Strip(BodyField(first.modification))) != shape(Strip(BodyField(second.modification)))
    ensures var files := map[a := File(Content(k, first), now), b := File(Content(l, second), now)];
            Consolidated(files, SignatureBy(shape), clock) == files
  {
    WrittenModification(k, first);
    WrittenModification(l, second);
    TwoFilesStay(a, File(Content(k, first), now), b, File(Content(l, second), now), shape, clock);
  }

  lemma TwoFilesStay(a: string, x: File, b: string, y: File, shape: string -> string, clock: Clock)
    requires IsExperience(x.text) && IsExperience(y.text) && a != b
    requires shape(ModificationOf(x.text)) != shape(ModificationOf(y.text))
    ensures Consolidated(map[a := x, b := y], SignatureBy(shape), clock) == map[a := x, b := y]
  {
    DifferentShapesSignDifferently(x.text, y.text, shape);
    PairOfSingles(a, x, b, y, SignatureBy(shape), clock);
  }

  lemma DifferentShapesSignDifferently(x: string, y: string, shape: string -> string)
    requires IsExperience(x) && IsExperience(y) && shape(ModificationOf(x)) != shape(ModificationOf(y))
    ensures SignatureBy(shape)(x) != SignatureBy(shape)(y)
  {
    SameSignatureIff(x, y, shape);
  }

  lemma PairOfSingles(a: string, x: File, b: string, y: File, sign: string -> string, clock: Clock)
    requires a != b && sign(x.text) != sign(y.text)
    ensures Consolidated(map[a := x, b := y], sign, clock) == map[a := x, b := y]
  {
    NothingToMerge(map[a := x, b := y], sign, clock);
  }
}
