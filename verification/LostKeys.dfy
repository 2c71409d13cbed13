/** Two experiences laid out by the writer whose merging loses a logical key that could be found before. */
module LostKeys {
  import opened Options
  import opened Text
  import opened Names
  import opened MemoryFiles
  import opened MemoryWriters
  import opened MemoryStores
  import opened MemorySections
  import opened ConsolidationNotes
  import opened MemoryConsolidation
  import opened FoundKeys

  // ---- Two experiences ----

  /** Two experiences with one signature; `a` comes first. */
  ghost predicate IsPair(files: Files, sign: string -> string, a: string, b: string) {
    && files.Keys == {a, b} && a != b && Before(a, b) && sign(files[a].text) == sign(files[b].text)
  }

  lemma PairIsOneGroup(files: Files, sign: string -> string, a: string, b: string)
    requires IsPair(files, sign, a, b)
    ensures GroupOf(files, sign, a) == {a, b} && Leader(files, sign, a) == a == Leader(files, sign, b)
  {
    assert GroupOf(files, sign, a) == {a, b} == GroupOf(files, sign, b);
    if Leader(files, sign, a) == b { BeforeIsAntisymmetric(a, b); }
  }

  /** Only the second mentions the key, and neither lists a key that covers it. */
  ghost predicate OnlySecondMentions(files: Files, a: string, b: string, key: string)
    requires a in files && b in files
  {
    && !Contains(BodyOf(files[a].text), LogicalMarker(key)) && Contains(BodyOf(files[b].text), LogicalMarker(key))
    && forall k :: k in KeysOf(BodyOf(files[a].text)) || k in KeysOf(BodyOf(files[b].text)) ==> !Covers(k, key)
  }

  lemma PairFindsSecond(files: Files, sign: string -> string, a: string, b: string, key: string)
    requires IsPair(files, sign, a, b) && OnlySecondMentions(files, a, b, key)
    ensures FoundId(files, key) == Some(b)
  {
    FoundIff(files, key);
  }

  lemma PairKeepsNothing(files: Files, sign: string -> string, a: string, b: string, key: string)
    requires IsPair(files, sign, a, b) && OnlySecondMentions(files, a, b, key)
    ensures !SomeKeeps(files, sign, key)
  {
    PairIsOneGroup(files, sign, a, b);
    var keys := KeysOfGroup(files, {a, b});
    forall k | k in keys ensures !Covers(k, key) {
      var m :| m in {a, b} && k in KeysOf(BodyOf(files[m].text));
    }
    assert !SomeCovers(keys, key);
    forall m | m in files && Leader(files, sign, m) == m ensures !Keeps(files, sign, key, m) {
      assert m == a;
    }
  }

  /** A key that only the second of two equal experiences mentions, and that no extracted key covers, is lost. */
  lemma PairLosesKey(files: Files, sign: string -> string, clock: Clock, a: string, b: string, key: string)
    requires AllExperiences(files) && IsClock(clock) && IsKey(key)
    requires IsPair(files, sign, a, b) && OnlySecondMentions(files, a, b, key)
    ensures FoundId(files, key) == Some(b) && FoundId(Consolidated(files, sign, clock), key).None?
  {
    PairFindsSecond(files, sign, a, b, key);
    PairKeepsNothing(files, sign, a, b, key);
    FoundAfterIff(files, sign, clock, key);
  }

  // ---- Parts that fit on a line ----

  predicate IsLinePart(part: string) {
    part != [] && '\n' !in part
  }

  predicate EndsLine(s: string) {
    s != [] && s[|s| - 1] == '\n'
  }

  /** A part does not reach across the end of a line. */
  lemma AfterLine(x: string, y: string, part: string)
    requires EndsLine(x) && IsLinePart(part)
    ensures Contains(x + y, part) <==> Contains(x, part) || Contains(y, part)
  {
    var line := x[..|x| - 1];
    assert x == line + "\n" + "" && x + y == line + "\n" + y;
    AcrossBreak(line, y, part);
    AcrossBreak(line, "", part);
    assert !Contains("", part);
  }

  lemma NotBefore(x: string, y: string, part: string, p: nat)
    requires EndsLine(x) && IsLinePart(part) && !Contains(x, part) && p < |x|
    ensures !OccursAt(x + y, part, p)
  {
    if p + |part| <= |x| {
      InFirstPart(x, y, part, p);
    } else if OccursAt(x + y, part, p) {
      CharAt(x + y, part, p, |x| - 1 - p);
    }
  }

  lemma SectionWithout(title: string, text: string, part: string)
    requires IsLinePart(part) && !Contains("## " + title, part) && !Contains(text, part)
    ensures EndsLine(Section(title, text)) && !Contains(Section(title, text), part)
  {
    var head, tail := "## " + title, text + "\n" + ("" + "\n" + "");
    assert Section(title, text) == head + "\n" + ("" + "\n" + tail);
    assert !Contains("", part);
    AcrossBreak("", "", part);
    AcrossBreak(text, "" + "\n" + "", part);
    AcrossBreak("", tail, part);
    AcrossBreak(head, "" + "\n" + tail, part);
  }

  // ---- The keys of a body ----

  lemma {:induction false} SkipToMatch(s: string, i: nat, j: nat)
    requires i <= j <= |s| && forall p :: i <= p < j ==> !OccursAt(s, KEYWORD, p)
    ensures KeysFrom(s, i) == KeysFrom(s, j)
    decreases j - i
  {
    if i < j { SkipToMatch(s, i + 1, j); }
  }

  /** The comment at `c` gives its key, and what is left is too short for another one. */
  lemma CommentGivesKey(s: string, c: nat, key: string)
    requires OccursAt(s, Comment(key), c) && IsKey(key) && |s| == c + 23 + |key|
    ensures KeysFrom(s, c + 5) == [key]
  {
    CommentAt(s, key, c);
    WordOfComment(s, key, c);
    NoRoomForKey(s, c + 18 + |key|);
  }

  lemma NoMatchInOpening(s: string, c: nat, key: string, p: nat)
    requires OccursAt(s, Comment(key), c) && c <= p < c + 5
    ensures !OccursAt(s, KEYWORD, p)
  {
    CommentAt(s, key, c);
    if OccursAt(s, KEYWORD, p) { KeywordChars(s, p); }
  }

  /** Behind text without the keyword, only the closing comment gives a key. */
  lemma KeysUpToComment(s: string, front: string, key: string, i: nat)
    requires s == front + (Comment(key) + "\n") && IsKey(key) && i <= |front|
    requires forall p :: i <= p < |front| ==> !OccursAt(s, KEYWORD, p)
    ensures KeysFrom(s, i) == [key]
  {
    CommentCloses(s, front, key);
    KeysUpTo(s, |front|, key, i);
  }

  lemma CommentCloses(s: string, front: string, key: string)
    requires s == front + (Comment(key) + "\n")
    ensures OccursAt(s, Comment(key), |front|) && |s| == |front| + 23 + |key|
  {
    CommentChars(key);
    ClosingPart(front, Comment(key), "\n");
  }

  lemma ClosingPart(front: string, part: string, end: string)
    ensures OccursAt(front + (part + end), part, |front|)
  {}

  lemma KeysUpTo(s: string, c: nat, key: string, i: nat)
    requires OccursAt(s, Comment(key), c) && |s| == c + 23 + |key| && IsKey(key) && i <= c
    requires forall p :: i <= p < c ==> !OccursAt(s, KEYWORD, p)
    ensures KeysFrom(s, i) == [key]
  {
    forall p | i <= p < c + 5 ensures !OccursAt(s, KEYWORD, p) {
      if p >= c { NoMatchInOpening(s, c, key, p); }
    }
    SkipToMatch(s, i, c + 5);
    CommentGivesKey(s, c, key);
  }

  lemma KeysOfQuietBody(front: string, key: string)
    requires EndsLine(front) && !Contains(front, KEYWORD) && IsKey(key)
    ensures KeysOf(front + (Comment(key) + "\n")) == [key]
  {
    var s := front + (Comment(key) + "\n");
    forall p | 0 <= p < |front| ensures !OccursAt(s, KEYWORD, p) {
      NotBefore(front, Comment(key) + "\n", KEYWORD, p);
    }
    KeysUpToComment(s, front, key, 0);
  }

  /** The keyword in front of a mention, read as a key of its own, hides the mention. */
  function Hiding(key: string): string {
    KEYWORD + KEYWORD + (" " + key)
  }

  /** A match whose word is the keyword itself. */
  lemma MatchTakesKeyword(s: string, n: nat)
    requires n + 24 < |s| && s[n..n + 24] == KEYWORD + KEYWORD && s[n + 24] == ' '
    ensures KeysFrom(s, n) == [KEYWORD] + KeysFrom(s, n + 24)
  {
    var part := s[n..n + 24];
    assert part[..12] == KEYWORD == part[12..];
    assert s[n..n + 12] == part[..12] && s[n + 12..n + 24] == part[12..];
    assert OccursAt(s, KEYWORD, n) && OccursAt(s, KEYWORD, n + 12);
    KeywordIsSolid(s, n + 12);
    assert IsSpace(' ');
    assert SkipSpaces(s, n + 12) == n + 12 && SkipWord(s, n + 12) == n + 24;
  }

  lemma KeywordIsSolid(s: string, i: nat)
    requires OccursAt(s, KEYWORD, i)
    ensures forall n :: i <= n < i + 12 ==> !IsSpace(s[n])
  {
    forall n | i <= n < i + 12 ensures !IsSpace(s[n]) {
      CharAt(s, KEYWORD, i, n - i);
      KeywordHasNoSpace(n - i);
    }
  }

  lemma KeywordHasNoSpace(k: nat)
    requires k < 12
    ensures !IsSpace(KEYWORD[k])
  {}

  /** What follows the swallowed keyword decides about the other keys. */
  lemma KeysBehindHiding(front: string, after: string)
    requires EndsLine(front) && !Contains(front, KEYWORD) && after != [] && after[0] == ' '
    ensures var s := front + (KEYWORD + KEYWORD + after); KeysOf(s) == [KEYWORD] + KeysFrom(s, |front| + 24)
  {
    var n, s := |front|, front + (KEYWORD + KEYWORD + after);
    forall p | 0 <= p < n ensures !OccursAt(s, KEYWORD, p) {
      NotBefore(front, KEYWORD + KEYWORD + after, KEYWORD, p);
    }
    SkipToMatch(s, 0, n);
    MiddlePart(front, KEYWORD + KEYWORD, after);
    MatchTakesKeyword(s, n);
  }

  lemma MiddlePart(front: string, middle: string, after: string)
    requires after != []
    ensures var s, n := front + (middle + after), |front|;
            s[n..n + |middle|] == middle && s[n + |middle|] == after[0]
  {}

  /** Nothing but the closing comment gives a key behind `opening`. */
  lemma KeysBehindOpening(opening: string, more: string, key: string)
    requires EndsLine(more) && !Contains(more, KEYWORD) && IsKey(key)
    ensures KeysFrom(opening + more + (Comment(key) + "\n"), |opening|) == [key]
  {
    var tail := Comment(key) + "\n";
    var s := opening + more + tail;
    assert s == opening + (more + tail);
    forall p | |opening| <= p < |opening + more| ensures !OccursAt(s, KEYWORD, p) {
      NotBefore(more, tail, KEYWORD, p - |opening|);
      InSecondPart(opening, more + tail, KEYWORD, p);
    }
    KeysUpToComment(s, opening + more, key, |opening|);
  }

  lemma HiddenRest(hidden: string, rest: string)
    requires IsKey(hidden) && !Contains(hidden, KEYWORD)
    requires EndsLine(rest) && rest[0] == '\n' && !Contains(rest, KEYWORD)
    ensures EndsLine(" " + hidden + rest) && !Contains(" " + hidden + rest, KEYWORD)
  {
    var line := " " + hidden;
    if i: nat :| i <= |line| && OccursAt(line, KEYWORD, i) {
      KeywordChars(line, i);
      InSecondPart(" ", hidden, KEYWORD, i);
    }
    assert rest == "" + "\n" + rest[1..] && line + rest == line + "\n" + rest[1..];
    AcrossBreak("", rest[1..], KEYWORD);
    AcrossBreak(line, rest[1..], KEYWORD);
  }

  /** Front, hidden mention, the rest of the text, and the closing comment. */
  lemma KeysOfHidingBody(front: string, hidden: string, rest: string, key: string)
    requires EndsLine(front) && !Contains(front, KEYWORD) && IsKey(key)
    requires IsKey(hidden) && !Contains(hidden, KEYWORD)
    requires EndsLine(rest) && rest[0] == '\n' && !Contains(rest, KEYWORD)
    ensures KeysOf(front + Hiding(hidden) + rest + (Comment(key) + "\n")) == [KEYWORD, key]
  {
    var more, tail := " " + hidden + rest, Comment(key) + "\n";
    HiddenRest(hidden, rest);
    KeysBehindHiding(front, more + tail);
    KeysBehindOpening(front + (KEYWORD + KEYWORD), more, key);
    HidingParts(front, KEYWORD + KEYWORD, " ", hidden, rest, tail);
  }

  lemma HidingParts(front: string, twice: string, blank: string, hidden: string, rest: string, tail: string)
    ensures var s := front + (twice + (blank + hidden)) + rest + tail;
            && s == front + (twice + (blank + hidden + rest + tail))
            && s == front + twice + (blank + hidden + rest) + tail
  {}

  // ---- The writer's bodies ----

  /** A text without titles, carriage returns and keywords. */
  predicate IsQuiet(text: string) {
    '#' !in text && '\r' !in text && !Contains(text, KEYWORD)
  }

  /** Everything the writer puts into the body but the error summary. */
  predicate IsQuietExperience(e: Experience) {
    && IsQuiet(BodyField(e.description)) && IsQuiet(e.originalSql)
    && IsQuiet(e.confirmedSql) && IsQuiet(BodyField(e.modification))
  }

  function BeforeError(e: Experience): string {
    Section("Problem", BodyField(e.description)) + Section("Original SQL", e.originalSql) + ("## " + "Error" + "\n\n")
  }

  function BetweenErrorAndModification(e: Experience): string {
    "\n\n" + Section("Confirmed SQL", e.confirmedSql)
  }

  function FromModification(e: Experience): string {
    Section("Modification", BodyField(e.modification)) + Section("Applicable Conditions", CONDITIONS)
  }

  lemma BodyParts(e: Experience)
    ensures BodyText(e)
            == BeforeError(e) + BodyField(e.errorSummary) + (BetweenErrorAndModification(e) + FromModification(e))
               + (Comment(LogicalKey(e)) + "\n")
  {
    PartsOfBody(Section("Problem", BodyField(e.description)), Section("Original SQL", e.originalSql),
                "## " + "Error" + "\n\n", BodyField(e.errorSummary), "\n\n", Section("Confirmed SQL", e.confirmedSql),
                Section("Modification", BodyField(e.modification)), Section("Applicable Conditions", CONDITIONS),
                Comment(LogicalKey(e)), "\n");
  }

  lemma PartsOfBody(p: string, o: string, title: string, text: string, gap: string, c: string, m: string, a: string,
                    comment: string, end: string)
    ensures p + o + (title + text + gap) + c + m + a + comment + end
            == p + o + title + text + (gap + c + (m + a)) + (comment + end)
  {}

  const MARK := "## " + MODIFICATION

  predicate IsSought(part: string) {
    part == KEYWORD || part == MARK
  }

  lemma SoughtIsLinePart(part: string)
    requires IsSought(part)
    ensures IsLinePart(part) && !Contains("", part)
    ensures part[if part == KEYWORD then 11 else 3] == if part == KEYWORD then ':' else 'M'
    ensures part == MARK ==> part[0] == '#'
  {
    assert MARK == "## Modification";
  }

  lemma LacksChar(s: string, part: string, k: nat)
    requires k < |part| && part[k] !in s
    ensures !Contains(s, part)
  {
    if i: nat :| i <= |s| && OccursAt(s, part, i) { CharAt(s, part, i, k); }
  }

  lemma TitleLacks(title: string, part: string)
    requires IsSought(part) && ':' !in title && (part == MARK ==> 'M' !in title)
    ensures !Contains("## " + title, part)
  {
    var line := "## " + title;
    SoughtIsLinePart(part);
    assert ':' !in "## " && 'M' !in "## ";
    if part == KEYWORD { LacksChar(line, part, 11); } else { LacksChar(line, part, 3); }
  }

  lemma QuietLacks(text: string, part: string)
    requires IsSought(part) && IsQuiet(text)
    ensures !Contains(text, part)
  {
    SoughtIsLinePart(part);
    if part == MARK { LacksChar(text, part, 0); }
  }

  lemma QuietSection(title: string, text: string, part: string)
    requires IsSought(part) && IsQuiet(text) && ':' !in title && (part == MARK ==> 'M' !in title)
    ensures EndsLine(Section(title, text)) && !Contains(Section(title, text), part)
  {
    SoughtIsLinePart(part);
    TitleLacks(title, part);
    QuietLacks(text, part);
    SectionWithout(title, text, part);
  }

  lemma BothLines(x: string, y: string, part: string)
    requires EndsLine(x) && EndsLine(y) && IsLinePart(part) && !Contains(x, part) && !Contains(y, part)
    ensures EndsLine(x + y) && !Contains(x + y, part)
  {
    AfterLine(x, y, part);
  }

  lemma ErrorTitle(part: string)
    requires IsSought(part)
    ensures EndsLine("## " + "Error" + "\n\n") && !Contains("## " + "Error" + "\n\n", part)
  {
    SoughtIsLinePart(part);
    TitleLacks("Error", part);
    assert "## " + "Error" + "\n\n" == "## " + "Error" + "\n" + ("" + "\n" + "");
    AcrossBreak("", "", part);
    AcrossBreak("## " + "Error", "" + "\n" + "", part);
  }

  lemma QuietBeforeError(e: Experience, part: string)
    requires IsQuietExperience(e) && IsSought(part)
    ensures EndsLine(BeforeError(e)) && !Contains(BeforeError(e), part)
  {
    var p, o := Section("Problem", BodyField(e.description)), Section("Original SQL", e.originalSql);
    SoughtIsLinePart(part);
    QuietSection("Problem", BodyField(e.description), part);
    QuietSection("Original SQL", e.originalSql, part);
    ErrorTitle(part);
    BothLines(p, o, part);
    BothLines(p + o, "## " + "Error" + "\n\n", part);
  }

  lemma QuietBetween(e: Experience, part: string)
    requires IsQuietExperience(e) && IsSought(part)
    ensures var gap := BetweenErrorAndModification(e); EndsLine(gap) && gap[0] == '\n' && !Contains(gap, part)
  {
    var c := Section("Confirmed SQL", e.confirmedSql);
    SoughtIsLinePart(part);
    QuietSection("Confirmed SQL", e.confirmedSql, part);
    assert "\n\n" == "" + "\n" + ("" + "\n" + "");
    AcrossBreak("", "", part);
    AcrossBreak("", "" + "\n" + "", part);
    BothLines("\n\n", c, part);
  }

  predicate HasNoMarks(s: string) {
    ':' !in s && '#' !in s && '\r' !in s
  }

  lemma KeywordsLine()
    ensures HasNoMarks(SAME_KEYWORDS)
  {}

  lemma MetadataLine()
    ensures HasNoMarks(SAME_METADATA)
  {}

  lemma GatesLine()
    ensures HasNoMarks(GATES_AGAIN)
  {}

  lemma ThreeLinesAreQuiet(a: string, b: string, c: string)
    requires HasNoMarks(a) && HasNoMarks(b) && HasNoMarks(c)
    ensures IsQuiet(a + "\n" + b + "\n" + c)
  {
    LacksChar(a + "\n" + b + "\n" + c, KEYWORD, 11);
  }

  lemma ConditionsAreQuiet()
    ensures IsQuiet(CONDITIONS)
  {
    KeywordsLine();
    MetadataLine();
    GatesLine();
    ThreeLinesAreQuiet(SAME_KEYWORDS, SAME_METADATA, GATES_AGAIN);
  }

  lemma QuietFromModification(e: Experience)
    requires IsQuietExperience(e)
    ensures EndsLine(FromModification(e)) && !Contains(FromModification(e), KEYWORD)
  {
    ConditionsAreQuiet();
    QuietSection("Modification", BodyField(e.modification), KEYWORD);
    QuietSection("Applicable Conditions", CONDITIONS, KEYWORD);
    BothLines(Section("Modification", BodyField(e.modification)), Section("Applicable Conditions", CONDITIONS),
              KEYWORD);
  }

  // ---- Keys and mentions in the writer's bodies ----

  /** The text between the error summary and the closing comment. */
  lemma QuietAfterError(e: Experience)
    requires IsQuietExperience(e)
    ensures var rest := BetweenErrorAndModification(e) + FromModification(e);
            EndsLine(rest) && rest[0] == '\n' && !Contains(rest, KEYWORD)
  {
    SoughtIsLinePart(KEYWORD);
    QuietBetween(e, KEYWORD);
    QuietFromModification(e);
    BothLines(BetweenErrorAndModification(e), FromModification(e), KEYWORD);
  }

  /** A text inside a body, between lines without the part. */
  lemma TextBetween(front: string, text: string, rest: string, part: string)
    requires EndsLine(front) && EndsLine(rest) && rest[0] == '\n' && IsLinePart(part)
    requires !Contains(front, part) && !Contains(text, part) && !Contains(rest, part)
    ensures EndsLine(front + text + rest) && !Contains(front + text + rest, part)
  {
    assert rest == "" + "\n" + rest[1..] && text + rest == text + "\n" + rest[1..];
    assert front + text + rest == front + (text + rest);
    AcrossBreak("", rest[1..], part);
    AcrossBreak(text, rest[1..], part);
    AfterLine(front, text + rest, part);
  }

  /** What stands in front of the closing comment. */
  function BeforeComment(e: Experience): string {
    BeforeError(e) + BodyField(e.errorSummary) + (BetweenErrorAndModification(e) + FromModification(e))
  }

  lemma QuietBody(e: Experience)
    requires IsQuietExperience(e) && IsQuiet(BodyField(e.errorSummary))
    ensures EndsLine(BeforeComment(e)) && !Contains(BeforeComment(e), KEYWORD)
  {
    SoughtIsLinePart(KEYWORD);
    QuietBeforeError(e, KEYWORD);
    QuietAfterError(e);
    TextBetween(BeforeError(e), BodyField(e.errorSummary), BetweenErrorAndModification(e) + FromModification(e),
                KEYWORD);
  }

  /** A quiet experience has its own key only, and mentions no key that this one does not cover. */
  lemma QuietExperienceKeys(e: Experience, key: string)
    requires IsQuietExperience(e) && IsQuiet(BodyField(e.errorSummary)) && IsKey(LogicalKey(e)) && IsKey(key)
    ensures KeysOf(BodyText(e)) == [LogicalKey(e)]
    ensures !Covers(LogicalKey(e), key) ==> !Contains(BodyText(e), LogicalMarker(key))
  {
    QuietBody(e);
    BodyParts(e);
    KeysOfQuietBody(BeforeComment(e), LogicalKey(e));
    if !Covers(LogicalKey(e), key) { QuietBodyMentionsNot(BeforeComment(e), LogicalKey(e), key); }
  }

  lemma QuietBodyMentionsNot(front: string, own: string, key: string)
    requires EndsLine(front) && !Contains(front, KEYWORD) && IsKey(own) && IsKey(key) && !Covers(own, key)
    ensures !Contains(front + (Comment(own) + "\n"), LogicalMarker(key))
  {
    var marker := LogicalMarker(key);
    MarkerIsPlain(key);
    MarkerHoldsKeyword(front, key);
    CommentMentionsIff(own, key);
    AcrossBreak(Comment(own), "", marker);
    assert Comment(own) + "\n" + "" == Comment(own) + "\n";
    AfterLine(front, Comment(own) + "\n", marker);
  }

  lemma MarkerHoldsKeyword(s: string, key: string)
    requires !Contains(s, KEYWORD)
    ensures !Contains(s, LogicalMarker(key)) && !Contains("", LogicalMarker(key))
  {
    var marker := LogicalMarker(key);
    assert marker == "" + KEYWORD + (" " + key);
    ContainsPart(marker, "", KEYWORD, " " + key);
    if Contains(s, marker) { ContainsTransitive(s, marker, KEYWORD); }
  }

  /** An experience with a hiding error summary mentions the key but does not have it. */
  lemma HidingExperienceKeys(e: Experience, key: string)
    requires IsQuietExperience(e) && BodyField(e.errorSummary) == Hiding(key) && IsKey(LogicalKey(e))
    requires IsKey(key) && !Contains(key, KEYWORD)
    ensures KeysOf(BodyText(e)) == [KEYWORD, LogicalKey(e)] && Contains(BodyText(e), LogicalMarker(key))
  {
    var front, rest := BeforeError(e), BetweenErrorAndModification(e) + FromModification(e);
    BodyParts(e);
    QuietBeforeError(e, KEYWORD);
    QuietAfterError(e);
    KeysOfHidingBody(front, key, rest, LogicalKey(e));
    HidingMentions(front, key, rest + (Comment(LogicalKey(e)) + "\n"));
    Associate(front + Hiding(key), rest, Comment(LogicalKey(e)) + "\n");
  }

  lemma HidingMentions(front: string, key: string, rest: string)
    ensures Contains(front + Hiding(key) + rest, LogicalMarker(key))
  {
    assert LogicalMarker(key) == KEYWORD + (" " + key);
    MentionIn(front, KEYWORD, " " + key, rest);
  }

  lemma MentionIn(front: string, word: string, end: string, rest: string)
    ensures Contains(front + (word + word + end) + rest, word + end)
  {
    assert front + (word + word + end) + rest == front + word + (word + end) + rest;
    ContainsPart(front + (word + word + end) + rest, front + word, word + end, rest);
  }

  // ---- The modification ----

  lemma CutInFront(y: string, c: string)
    requires Contains(y, TITLE)
    ensures CutAtTitle(y + c) == CutAtTitle(y)
  {
    var i: nat :| i <= |y| && OccursAt(y, TITLE, i);
    FindsFirst(y, TITLE, 0);
    var q := FindFrom(y, TITLE, 0).value;
    forall j: nat | j <= q ensures OccursAt(y + c, TITLE, j) <==> OccursAt(y, TITLE, j) { InFirstPart(y, c, TITLE, j); }
    FirstIs(y + c, TITLE, q);
    assert (y + c)[..q] == y[..q];
  }

  /** A section that is followed by another title does not depend on what precedes it or comes after that title. */
  lemma SectionBetween(front: string, text: string, end: string)
    requires EndsLine(front) && !Contains(front, MARK)
    requires MARK <= text && Contains(text[|MARK|..], TITLE)
    ensures SectionAt(front + (text + end), MARK) == UpToTitle(text[|MARK|..])
  {
    SoughtIsLinePart(MARK);
    FoundBehind(front, text + end, MARK);
    SectionIs(front + (text + end), MARK, |front|, text[|MARK|..] + end);
    CutInFront(text[|MARK|..], end);
  }

  lemma FoundBehind(front: string, text: string, mark: string)
    requires EndsLine(front) && IsLinePart(mark) && !Contains(front, mark) && mark <= text
    ensures FindFrom(front + text, mark, 0) == Some(|front|)
  {
    var s := front + text;
    assert s[|front|..|front| + |mark|] == text[..|mark|];
    forall p | 0 <= p < |front| ensures !OccursAt(s, mark, p) { NotBefore(front, text, mark, p); }
    FirstIs(s, mark, |front|);
  }

  lemma ModificationEnds(e: Experience)
    ensures MARK <= FromModification(e) && Contains(FromModification(e)[|MARK|..], TITLE)
  {
    assert "\n\n" == "\n" + "\n" && TITLE == "\n" + "## ";
    SectionsMeet(MARK, "\n", BodyField(e.modification), "## ", "Applicable Conditions", CONDITIONS);
  }

  lemma SectionsMeet(mark: string, line: string, text: string, hashes: string, title: string, more: string)
    ensures var s := mark + (line + line) + text + (line + line)
                     + (hashes + title + (line + line) + more + (line + line));
            mark <= s && Contains(s[|mark|..], line + hashes)
  {
    var rest := title + (line + line) + more + (line + line);
    var s := mark + (line + line) + text + (line + line) + (hashes + title + (line + line) + more + (line + line));
    var front := line + line + text + line;
    assert hashes + title + (line + line) + more + (line + line) == hashes + rest;
    assert s == mark + (front + (line + hashes) + rest);
    assert s[|mark|..] == front + (line + hashes) + rest;
    ContainsPart(s[|mark|..], front, line + hashes, rest);
  }

  /** The modification reads the same whatever error summary without titles precedes it. */
  lemma ModificationIsRead(e: Experience)
    requires IsQuietExperience(e) && '#' !in BodyField(e.errorSummary)
    ensures SectionOf(BodyText(e), MODIFICATION) == UpToTitle(FromModification(e)[|MARK|..])
  {
    var err, gap := BodyField(e.errorSummary), BetweenErrorAndModification(e);
    var tail := Comment(LogicalKey(e)) + "\n";
    SoughtIsLinePart(MARK);
    QuietBeforeError(e, MARK);
    QuietBetween(e, MARK);
    LacksChar(err, MARK, 0);
    TextBetween(BeforeError(e), err, gap, MARK);
    ModificationEnds(e);
    BodyParts(e);
    FiveOfBody(BeforeError(e), err, gap, FromModification(e), tail);
    SectionBetween(BeforeError(e) + err + gap, FromModification(e), tail);
  }

  lemma FiveOfBody(a: string, b: string, c: string, d: string, e: string)
    ensures a + b + (c + d) + e == a + b + c + (d + e)
  {}

  // ---- The loss ----

  lemma NoReturnInBody(e: Experience)
    requires IsQuietExperience(e) && '\r' !in BodyField(e.errorSummary) && IsKey(LogicalKey(e))
    ensures '\r' !in BodyText(e)
  {
    BodyParts(e);
    ConditionsAreQuiet();
    CommentHasNoReturn(LogicalKey(e));
    assert '\r' !in BeforeError(e) && '\r' !in BetweenErrorAndModification(e) && '\r' !in FromModification(e);
  }

  predicate AreVocabulary(keywords: seq<string>) {
    keywords != [] && forall i :: 0 <= i < |keywords| ==> IsVocabularyKeyword(keywords[i])
  }

  /** What is read back of a written experience. */
  lemma WrittenIsRead(keywords: seq<string>, e: Experience)
    requires AreVocabulary(keywords) && IsKey(LogicalKey(e)) && '\r' !in BodyText(e)
    ensures IsExperience(Content(keywords, e)) && KeywordsOf(Content(keywords, e)) == keywords
    ensures BodyOf(Content(keywords, e)) == BodyText(e)
  {
    WrittenIsExperience(keywords, e);
    RoundTrip(keywords, e);
  }

  /** The second experience differs from the first one in its attempt and in an error summary that hides `key`. */
  predicate HidesBehind(first: Experience, second: Experience, key: string) {
    && second == first.(attemptId := second.attemptId, errorSummary := second.errorSummary)
    && IsQuietExperience(first) && IsQuiet(BodyField(first.errorSummary))
    && BodyField(second.errorSummary) == Hiding(key)
    && IsKey(LogicalKey(first)) && IsKey(LogicalKey(second)) && IsKey(key) && '#' !in key && !Contains(key, KEYWORD)
    && !Covers(KEYWORD, key) && !Covers(LogicalKey(first), key) && !Covers(LogicalKey(second), key)
  }

  lemma HidingIsPlain(key: string)
    requires IsKey(key) && '#' !in key
    ensures '#' !in Hiding(key) && '\r' !in Hiding(key)
  {
    var front := KEYWORD + KEYWORD + " ";
    assert Hiding(key) == front + key && '#' !in front && '\r' !in front && IsSpace('\r');
  }

  /** Both experiences as the store has them. */
  lemma WrittenPair(first: Experience, second: Experience, key: string, keywords: seq<string>)
    requires HidesBehind(first, second, key) && AreVocabulary(keywords)
    ensures var x, y := Content(keywords, first), Content(keywords, second);
            && IsExperience(x) && IsExperience(y) && KeywordsOf(x) == KeywordsOf(y)
            && BodyOf(x) == BodyText(first) && BodyOf(y) == BodyText(second)
  {
    HidingIsPlain(key);
    NoReturnInBody(first);
    NoReturnInBody(second);
    WrittenIsRead(keywords, first);
    WrittenIsRead(keywords, second);
  }

  lemma SameSignature(first: Experience, second: Experience, key: string, x: string, y: string, shape: string -> string)
    requires HidesBehind(first, second, key) && KeywordsOf(x) == KeywordsOf(y)
    requires BodyOf(x) == BodyText(first) && BodyOf(y) == BodyText(second)
    ensures Signature(x, shape) == Signature(y, shape)
  {
    HidingIsPlain(key);
    ModificationIsRead(first);
    ModificationIsRead(second);
    assert FromModification(first) == FromModification(second);
  }

  lemma KeysOfPair(first: Experience, second: Experience, key: string, x: string, y: string)
    requires HidesBehind(first, second, key) && BodyOf(x) == BodyText(first) && BodyOf(y) == BodyText(second)
    ensures !Contains(BodyOf(x), LogicalMarker(key)) && Contains(BodyOf(y), LogicalMarker(key))
    ensures forall k :: k in KeysOf(BodyOf(x)) || k in KeysOf(BodyOf(y)) ==> !Covers(k, key)
  {
    QuietExperienceKeys(first, key);
    HidingExperienceKeys(second, key);
  }

  /**
    * Two written experiences of one signature: a key that the error summary of the second mentions is found before
    * merging and in no experience afterwards.
    */
  lemma MergingLosesKey(first: Experience, second: Experience, key: string, keywords: seq<string>, a: string, b: string,
                        now: int, shape: string -> string, clock: Clock)
    requires HidesBehind(first, second, key) && AreVocabulary(keywords) && IsClock(clock) && a != b && Before(a, b)
    ensures var files := map[a := File(Content(keywords, first), now), b := File(Content(keywords, second), now)];
            && AllExperiences(files) && FoundId(files, key) == Some(b)
            && FoundId(Consolidated(files, SignatureBy(shape), clock), key).None?
  {
    var x, y := Content(keywords, first), Content(keywords, second);
    WrittenPair(first, second, key, keywords);
    SameSignature(first, second, key, x, y, shape);
    KeysOfPair(first, second, key, x, y);
    TwoFilesLoseKey(a, File(x, now), b, File(y, now), SignatureBy(shape), clock, key);
  }

  lemma TwoFilesLoseKey(a: string, x: File, b: string, y: File, sign: string -> string, clock: Clock, key: string)
    requires a != b && Before(a, b) && sign(x.text) == sign(y.text) && IsClock(clock) && IsKey(key)
    requires IsExperience(x.text) && IsExperience(y.text)
    requires !Contains(BodyOf(x.text), LogicalMarker(key)) && Contains(BodyOf(y.text), LogicalMarker(key))
    requires forall k :: k in KeysOf(BodyOf(x.text)) || k in KeysOf(BodyOf(y.text)) ==> !Covers(k, key)
    ensures var files := map[a := x, b := y];
            && AllExperiences(files) && FoundId(files, key) == Some(b)
            && FoundId(Consolidated(files, sign, clock), key).None?
  {
    var files := map[a := x, b := y];
    assert files.Keys == {a, b};
    PairLosesKey(files, sign, clock, a, b, key);
  }

  // ---- An input of that kind ----

  lemma {:induction false} FencelessStays(s: string, mark: string)
    requires IsFenceless(s)
    ensures ReplaceFences(s, mark) == s
    decreases |s|
  {
    if s != [] {
      forall i: nat ensures !IsFenceAt(s[1..], i) { assert !IsFenceAt(s, i + 1); }
      FencelessStays(s[1..], mark);
    }
  }

  lemma PlainField(s: string)
    requires IsFenceless(s) && |s| <= 20000
    ensures BodyField(s) == s
  {
    FencelessStays(s, "—");
  }

  lemma ShortIsQuiet(s: string)
    requires |s| <= 1 && '#' !in s && '\r' !in s
    ensures IsQuiet(s) && BodyField(s) == s
  {
    assert !Contains(s, KEYWORD);
    assert IsFenceless(s);
    PlainField(s);
  }

  lemma KeywordDashes(k: nat)
    requires k < 12 && KEYWORD[k] == '-'
    ensures k == 7
  {}

  lemma LaterChar(front: string, end: string, j: int)
    requires |front| <= j < |front + end|
    ensures (front + end)[j] == end[j - |front|] && (front + end)[j] in end
  {}

  lemma HidingDashes(key: string, j: nat)
    requires '-' !in key && j < |Hiding(key)| && Hiding(key)[j] == '-'
    ensures j == 7 || j == 19
  {
    var end := " " + key;
    assert Hiding(key) == KEYWORD + (KEYWORD + end) && '-' !in end;
    if j < |KEYWORD| {
      KeywordDashes(j);
    } else {
      LaterChar(KEYWORD, KEYWORD + end, j);
      if j < |KEYWORD + KEYWORD| { KeywordDashes(j - |KEYWORD|); } else { LaterChar(KEYWORD, end, j - |KEYWORD|); }
    }
  }

  lemma HidingIsField(key: string)
    requires '-' !in key && |key| <= 1000
    ensures BodyField(Hiding(key)) == Hiding(key)
  {
    forall i: nat ensures !IsFenceAt(Hiding(key), i) {
      if IsFenceAt(Hiding(key), i) {
        HidingDashes(key, i);
        HidingDashes(key, i + 1);
      }
    }
    PlainField(Hiding(key));
  }

  const FRONT := "s:attempt_00"

  lemma FrontIsPlain()
    ensures IsKey(FRONT) && '#' !in FRONT && '-' !in FRONT && 'l' !in FRONT
  {}

  function Attempted(digit: char, errorSummary: string): Experience {
    Experience("s", "attempt_00" + [digit], "a", "b", "c", "d", errorSummary)
  }

  lemma AttemptedKey(digit: char, errorSummary: string)
    requires '0' <= digit <= '9'
    ensures var key := FRONT + [digit];
            && LogicalKey(Attempted(digit, errorSummary)) == key
            && IsKey(key) && '#' !in key && '-' !in key && 'l' !in key
  {
    FrontIsPlain();
    assert "s" + ":" + ("attempt_00" + [digit]) == FRONT + [digit];
  }

  lemma DigitsDiffer(listed: char, digit: char)
    requires '0' <= listed <= '9' && listed != digit
    ensures !Covers(FRONT + [listed], FRONT + [digit])
  {
    var x, y := FRONT + [listed], FRONT + [digit];
    assert x[12] == listed && y[12] == digit;
    assert x[1..][11] == listed && KEYWORD[11] == ':';
  }

  lemma KeywordDoesNotCover(digit: char)
    ensures !Covers(KEYWORD, FRONT + [digit])
  {
    assert (FRONT + [digit])[0] == 's';
  }

  /** Attempts 1 and 2 of session `s`; the second error summary mentions the key of attempt 3. */
  lemma HidingInput()
    ensures HidesBehind(Attempted('1', "e"), Attempted('2', Hiding(FRONT + ['3'])), FRONT + ['3'])
  {
    var key := FRONT + ['3'];
    AttemptedKey('1', "e");
    AttemptedKey('2', Hiding(key));
    AttemptedKey('3', "e");
    LacksChar(key, KEYWORD, 0);
    HidingIsField(key);
    ShortIsQuiet("a");
    ShortIsQuiet("b");
    ShortIsQuiet("c");
    ShortIsQuiet("d");
    ShortIsQuiet("e");
    DigitsDiffer('1', '3');
    DigitsDiffer('2', '3');
    KeywordDoesNotCover('3');
  }
}
