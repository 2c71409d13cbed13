/** Writing an experience, and what the readers make of what was written. */
module MemoryWriters {
  import opened Options
  import opened Text
  import opened MemoryFiles

  /** `s.replace("---", mark)`: fences are taken from the left and do not overlap. */
  function ReplaceFences(s: string, mark: string): string {
    if s == [] then []
    else if IsFenceAt(s, 0) then mark + ReplaceFences(s[3..], mark)
    else [s[0]] + ReplaceFences(s[1..], mark)
  }

  function Prefix(s: string, n: nat): string {
    if |s| <= n then s else s[..n]
  }

  function SingleLine(value: string): string {
    Prefix(Join(" ", Words(ReplaceFences(value, ""))), 500)
  }

  function BodyField(value: string): string {
    Prefix(ReplaceFences(value, "—"), 20000)
  }

  datatype Experience = Experience(
    sessionId: string,
    attemptId: string,
    originalSql: string,
    confirmedSql: string,
    description: string,
    modification: string,
    errorSummary: string)

  const SAME_KEYWORDS := "- 当前错误关键词与本经验一致；"
  const SAME_METADATA := "- 当前元数据仍支持该修改；"
  const GATES_AGAIN := "- 修改必须重新通过三关 Gate。"
  const CONDITIONS := SAME_KEYWORDS + "\n" + SAME_METADATA + "\n" + GATES_AGAIN

  function Section(title: string, text: string): string {
    "## " + title + "\n\n" + text + "\n\n"
  }

  function Comment(key: string): string {
    "<!-- logical-key: " + key + " -->"
  }

  function LogicalKey(e: Experience): string {
    e.sessionId + ":" + e.attemptId
  }

  function Sections(e: Experience): string {
    Section("Problem", BodyField(e.description))
    + Section("Original SQL", e.originalSql)
    + Section("Error", BodyField(e.errorSummary))
    + Section("Confirmed SQL", e.confirmedSql)
    + Section("Modification", BodyField(e.modification))
    + Section("Applicable Conditions", CONDITIONS)
  }

  function BodyText(e: Experience): (r: string)
    ensures r != [] && r[0] == '#'
  {
    var sections := Sections(e);
    assert sections[0] == '#';
    sections + Comment(LogicalKey(e)) + "\n"
  }

  function KeywordLines(keywords: seq<string>): (r: seq<string>)
    ensures |r| == |keywords| && forall i :: 0 <= i < |r| ==> r[i] == "  - " + keywords[i]
  {
    seq(|keywords|, i requires 0 <= i < |keywords| => "  - " + keywords[i])
  }

  /** The file that is written. */
  function Content(keywords: seq<string>, e: Experience): string {
    Template("keyword:", KeywordLines(keywords), "description: " + SingleLine(e.description), BodyText(e))
  }

  function Template(first: string, items: seq<string>, last: string, body: string): string {
    FENCE + "\n" + first + "\n" + Join("\n", items) + "\n" + last + "\n" + FENCE + "\n\n" + body
  }

  /** What the vocabulary's keywords look like. */
  predicate IsKeyword(k: string) {
    k != [] && !IsSpace(k[0]) && !IsSpace(k[|k| - 1]) && IsOneLine(k) && FindFence(k, 0).None?
  }

  // ---- Removing fences leaves none ----

  function LeadingDashes(s: string): (n: nat)
    ensures n <= |s| && forall i :: 0 <= i < n ==> s[i] == '-'
    ensures n < |s| ==> s[n] != '-'
  {
    if s != [] && s[0] == '-' then 1 + LeadingDashes(s[1..]) else 0
  }

  lemma PrependDash(c: char, s: string)
    requires IsFenceless(s) && (c == '-' ==> LeadingDashes(s) < 2)
    ensures IsFenceless([c] + s)
    ensures LeadingDashes([c] + s) == if c == '-' then 1 + LeadingDashes(s) else 0
  {
    assert ([c] + s)[1..] == s;
    forall i: nat ensures !IsFenceAt([c] + s, i) {
      if i > 0 { assert !IsFenceAt(s, i - 1); }
    }
  }

  /** Removal from the left shortens every run of dashes to its length modulo three. */
  lemma {:induction false} RemovalLeavesNoFence(s: string)
    ensures IsFenceless(ReplaceFences(s, ""))
    ensures LeadingDashes(ReplaceFences(s, "")) == LeadingDashes(s) % 3
    decreases |s|
  {
    if s != [] {
      if IsFenceAt(s, 0) {
        RemovalLeavesNoFence(s[3..]);
        CleanAfterFence(s);
      } else {
        RemovalLeavesNoFence(s[1..]);
        CleanAfterOther(s);
      }
    }
  }

  lemma CleanAfterFence(s: string)
    requires IsFenceAt(s, 0) && LeadingDashes(ReplaceFences(s[3..], "")) == LeadingDashes(s[3..]) % 3
    ensures ReplaceFences(s, "") == ReplaceFences(s[3..], "")
    ensures LeadingDashes(ReplaceFences(s, "")) == LeadingDashes(s) % 3
  {
    LongRun(s);
    ThreeMore(LeadingDashes(s[3..]));
  }

  lemma ThreeMore(n: nat)
    ensures (3 + n) % 3 == n % 3
  {}

  lemma CleanAfterOther(s: string)
    requires s != [] && !IsFenceAt(s, 0) && IsFenceless(ReplaceFences(s[1..], ""))
    requires LeadingDashes(ReplaceFences(s[1..], "")) == LeadingDashes(s[1..]) % 3
    ensures IsFenceless(ReplaceFences(s, "")) && LeadingDashes(ReplaceFences(s, "")) == LeadingDashes(s) % 3
  {
    KeptCharacter(s, ReplaceFences(s[1..], ""));
    KeptInFront(s);
  }

  lemma KeptInFront(s: string)
    requires s != [] && !IsFenceAt(s, 0)
    ensures ReplaceFences(s, "") == [s[0]] + ReplaceFences(s[1..], "")
  {}

  /** A character that does not start a fence is kept in front of what remains. */
  lemma KeptCharacter(s: string, rest: string)
    requires s != [] && !IsFenceAt(s, 0)
    requires IsFenceless(rest) && LeadingDashes(rest) == LeadingDashes(s[1..]) % 3
    ensures IsFenceless([s[0]] + rest) && LeadingDashes([s[0]] + rest) == LeadingDashes(s) % 3
  {
    if s[0] == '-' { ShortRun(s); }
    PrependDash(s[0], rest);
  }

  lemma LongRun(s: string)
    requires IsFenceAt(s, 0)
    ensures LeadingDashes(s) == 3 + LeadingDashes(s[3..])
    ensures ReplaceFences(s, "") == ReplaceFences(s[3..], "")
  {
    assert "" + ReplaceFences(s[3..], "") == ReplaceFences(s[3..], "");
    assert s[1..][1..] == s[2..] && s[2..][1..] == s[3..];
  }

  lemma ShortRun(s: string)
    requires s != [] && s[0] == '-' && !IsFenceAt(s, 0)
    ensures 1 <= LeadingDashes(s) <= 2 && LeadingDashes(s[1..]) == LeadingDashes(s) - 1
  {}

  // ---- Words joined by single spaces ----

  /** No break but the space. */
  predicate IsSpaced(s: string) {
    forall i :: 0 <= i < |s| ==> s[i] == ' ' || !IsSpace(s[i])
  }

  lemma {:induction false} WordHasNoSpace(s: string)
    ensures forall i :: 0 <= i < WordLength(s) ==> !IsSpace(s[i])
  {
    if s != [] && !IsSpace(s[0]) {
      WordHasNoSpace(s[1..]);
      forall i | 0 <= i < WordLength(s) ensures !IsSpace(s[i]) {
        if i > 0 { assert s[i] == s[1..][i - 1]; }
      }
    }
  }

  lemma {:induction false} WordsAreClean(s: string)
    requires IsFenceless(s)
    ensures forall k :: 0 <= k < |Words(s)| ==>
              IsFenceless(Words(s)[k]) && forall i :: 0 <= i < |Words(s)[k]| ==> !IsSpace(Words(s)[k][i])
    decreases |s|
  {
    if s != [] {
      if IsSpace(s[0]) {
        DropIsFenceless(s, 1);
        WordsAreClean(s[1..]);
      } else {
        var n := WordLength(s);
        WordHasNoSpace(s);
        DropIsFenceless(s, n);
        WordsAreClean(s[n..]);
        assert forall i: nat :: IsFenceAt(s[..n], i) ==> IsFenceAt(s, i);
      }
    }
  }

  lemma DropIsFenceless(s: string, n: nat)
    requires IsFenceless(s) && n <= |s|
    ensures IsFenceless(s[n..])
  {
    assert forall i: nat :: IsFenceAt(s[n..], i) ==> IsFenceAt(s, n + i);
  }

  lemma FencelessAcrossSpace(a: string, b: string)
    requires IsFenceless(a) && IsFenceless(b)
    ensures IsFenceless(a + " " + b)
  {
    var s := a + " " + b;
    forall i: nat ensures !IsFenceAt(s, i) {
      if i + 3 <= |a| { assert !IsFenceAt(a, i); }
      if i > |a| { assert !IsFenceAt(b, i - |a| - 1); }
      assert s[|a|] == ' ';
    }
  }

  lemma {:induction false} JoinedWordsAreClean(parts: seq<string>)
    requires forall k :: 0 <= k < |parts| ==>
               IsFenceless(parts[k]) && forall i :: 0 <= i < |parts[k]| ==> !IsSpace(parts[k][i])
    ensures IsFenceless(Join(" ", parts)) && IsSpaced(Join(" ", parts))
  {
    if |parts| > 1 {
      JoinedWordsAreClean(parts[1..]);
      FencelessAcrossSpace(parts[0], Join(" ", parts[1..]));
    }
  }

  /** The description line is one line, without carriage returns or fences. */
  lemma SingleLineIsClean(value: string)
    ensures IsOneLine(SingleLine(value)) && '\r' !in SingleLine(value) && IsFenceless(SingleLine(value))
  {
    var removed := ReplaceFences(value, "");
    var joined := Join(" ", Words(removed));
    RemovalLeavesNoFence(value);
    WordsAreClean(removed);
    JoinedWordsAreClean(Words(removed));
    assert forall i: nat :: IsFenceAt(SingleLine(value), i) ==> IsFenceAt(joined, i);
    forall i | 0 <= i < |SingleLine(value)|
      ensures !IsLineBreak(SingleLine(value)[i]) && SingleLine(value)[i] != '\r'
    {
      assert SingleLine(value)[i] == joined[i];
    }
  }

  // ---- The round trip ----

  function HeaderLines(keywords: seq<string>, e: Experience): seq<string> {
    ["keyword:"] + (KeywordLines(keywords) + ["description: " + SingleLine(e.description)])
  }

  lemma {:induction false} UnlinesOfConcat(a: seq<string>, b: seq<string>)
    ensures Unlines(a + b) == Unlines(a) + Unlines(b)
  {
    if a == [] {
      assert a + b == b;
    } else {
      assert (a + b)[0] == a[0] && (a + b)[1..] == a[1..] + b;
      UnlinesOfConcat(a[1..], b);
    }
  }

  lemma {:induction false} JoinIsUnlines(lines: seq<string>)
    requires lines != []
    ensures Join("\n", lines) + "\n" == Unlines(lines)
  {
    if |lines| > 1 { JoinIsUnlines(lines[1..]); }
  }

  lemma Regroup(a: string, b: string, c: string, d: string, e: string)
    ensures a + b + c + d + e == a + (b + (c + (d + e)))
  {}

  lemma TemplateIsLayout(first: string, items: seq<string>, last: string, body: string)
    requires items != []
    ensures Template(first, items, last, body) == Layout([first] + (items + [last]), "\n\n" + body)
  {
    var joined, end := Join("\n", items), FENCE + ("\n\n" + body);
    JoinIsUnlines(items);
    UnlinesOfConcat(items, [last]);
    UnlinesOfConcat([first], items + [last]);
    assert Unlines([last]) == last + "\n" && Unlines([first]) == first + "\n";
    assert Template(first, items, last, body) == FENCE + "\n" + (first + "\n") + (joined + "\n") + (last + "\n") + end;
    Regroup(FENCE + "\n", first + "\n", joined + "\n", last + "\n", end);
    Regroup(first + "\n", joined + "\n", last + "\n", end, []);
  }

  lemma {:induction false} NewlinesKeepPrefix(a: string, b: string)
    requires '\r' !in a
    ensures UniversalNewlines(a + b) == a + UniversalNewlines(b)
  {
    if a == [] {
      assert a + b == b;
    } else {
      assert (a + b)[1..] == a[1..] + b;
      NewlinesKeepPrefix(a[1..], b);
    }
  }

  /** Reading back changes a text exactly when it has a carriage return. */
  lemma {:induction false} NewlinesFixedIff(s: string)
    ensures '\r' !in UniversalNewlines(s)
    ensures UniversalNewlines(s) == s <==> '\r' !in s
    decreases |s|
  {
    if s != [] {
      NewlinesFixedIff(if s[0] == '\r' && |s| > 1 && s[1] == '\n' then s[2..] else s[1..]);
    }
  }

  lemma HeaderIsHeader(keywords: seq<string>, e: Experience)
    requires forall i :: 0 <= i < |keywords| ==> IsKeyword(keywords[i])
    ensures IsHeader(HeaderLines(keywords, e))
  {
    var lines := HeaderLines(keywords, e);
    forall i | 0 <= i < |lines| ensures IsOneLine(lines[i]) && '\r' !in lines[i] && FindFence(lines[i], 0).None? {
      if i == 0 {
        FencelessMeansNone(lines[i], 0);
      } else if i <= |keywords| {
        KeywordLineIsClean(keywords[i - 1]);
      } else {
        DescriptionLineIsClean(e.description);
      }
    }
  }

  lemma {:induction false} FencelessMeansNone(s: string, i: nat)
    requires IsFenceless(s)
    ensures FindFence(s, i).None?
    decreases |s| - i
  {
    if i < |s| { FencelessMeansNone(s, i + 1); }
  }

  lemma KeywordLineIsClean(k: string)
    requires IsKeyword(k)
    ensures var line := "  - " + k; IsOneLine(line) && '\r' !in line && FindFence(line, 0).None?
  {
    var line := "  - " + k;
    NoFenceFound(k, 0);
    forall i: nat ensures !IsFenceAt(line, i) {
      if i >= 4 { assert !IsFenceAt(k, i - 4); }
    }
    FencelessMeansNone(line, 0);
    assert forall i :: 0 <= i < |k| ==> line[i + 4] == k[i] && !IsLineBreak(k[i]);
    assert forall i :: 4 <= i < |line| ==> line[i] == k[i - 4];
  }

  lemma DescriptionLineIsClean(description: string)
    ensures var line := "description: " + SingleLine(description);
            IsOneLine(line) && '\r' !in line && FindFence(line, 0).None?
  {
    var d := SingleLine(description);
    var line := "description: " + d;
    SingleLineIsClean(description);
    forall i: nat ensures !IsFenceAt(line, i) {
      if i >= 13 { assert !IsFenceAt(d, i - 13); }
    }
    FencelessMeansNone(line, 0);
    assert forall i :: 13 <= i < |line| ==> line[i] == d[i - 13];
  }

  lemma StripsToItself(s: string)
    requires s != [] && !IsSpace(s[0]) && !IsSpace(s[|s| - 1])
    ensures Strip(s) == s
  {}

  lemma KeywordLineParses(k: string)
    requires IsKeyword(k)
    ensures var line := "  - " + k;
            && line != "keyword:" && !StartsWith(line, "description:")
            && StartsWith(Strip(line), "- ") && Strip(Strip(line)[2..]) == k
  {
    var line, item := "  - " + k, "- " + k;
    assert line[1..][1..] == item;
    StripsToItself(item);
    assert LStrip(line) == item;
    assert item[2..] == k;
    StripsToItself(k);
  }

  lemma {:induction false} KeywordsParse(keywords: seq<string>, rest: seq<string>, found: seq<string>)
    requires forall i :: 0 <= i < |keywords| ==> IsKeyword(keywords[i])
    ensures ParseHeader(KeywordLines(keywords) + rest, true, found, "") == ParseHeader(rest, true, found + keywords, "")
  {
    if keywords == [] {
      assert KeywordLines(keywords) + rest == rest && found + keywords == found;
    } else {
      var lines := KeywordLines(keywords) + rest;
      assert lines[0] == "  - " + keywords[0] && lines[1..] == KeywordLines(keywords[1..]) + rest;
      KeywordLineParses(keywords[0]);
      KeywordsParse(keywords[1..], rest, found + [keywords[0]]);
      assert found + [keywords[0]] + keywords[1..] == found + keywords;
    }
  }

  lemma DescriptionParses(description: string, keywords: seq<string>)
    ensures ParseHeader(["description: " + SingleLine(description)], true, keywords, "")
            == Some(Frontmatter(keywords, Strip(SingleLine(description))))
  {
    var d := SingleLine(description);
    var line := "description: " + d;
    assert line[..12] == "description:" && line[12..] == " " + d && (" " + d)[1..] == d;
    assert line[0] == 'd';
    assert ParseHeader([line][1..], false, keywords, Strip(d)) == Some(Frontmatter(keywords, Strip(d)));
  }

  lemma HeaderParses(keywords: seq<string>, e: Experience)
    requires forall i :: 0 <= i < |keywords| ==> IsKeyword(keywords[i])
    ensures ParseHeader(HeaderLines(keywords, e), false, [], "")
            == Some(Frontmatter(keywords, Strip(SingleLine(e.description))))
  {
    var tail := ["description: " + SingleLine(e.description)];
    assert HeaderLines(keywords, e)[1..] == KeywordLines(keywords) + tail;
    KeywordsParse(keywords, tail, []);
    assert [] + keywords == keywords;
    DescriptionParses(e.description, keywords);
  }

  lemma LayoutIsRead(lines: seq<string>, body: string)
    requires IsHeader(lines)
    ensures IsLaidOut(Layout(lines, "\n\n" + body), lines, "\n\n" + UniversalNewlines(body))
  {
    var head := Layout(lines, "\n\n");
    UnlinesHaveNoReturn(lines);
    NewlinesKeepPrefix(head, body);
    LayoutAndMore(lines, "\n\n", body);
    LayoutAndMore(lines, "\n\n", UniversalNewlines(body));
  }

  lemma LayoutAndMore(lines: seq<string>, a: string, b: string)
    ensures Layout(lines, a + b) == Layout(lines, a) + b
  {}

  lemma WrittenIsLaidOut(keywords: seq<string>, e: Experience)
    requires keywords != [] && forall i :: 0 <= i < |keywords| ==> IsKeyword(keywords[i])
    ensures IsLaidOut(Content(keywords, e), HeaderLines(keywords, e), "\n\n" + UniversalNewlines(BodyText(e)))
  {
    HeaderIsHeader(keywords, e);
    TemplateIsLayout("keyword:", KeywordLines(keywords), "description: " + SingleLine(e.description), BodyText(e));
    LayoutIsRead(HeaderLines(keywords, e), BodyText(e));
  }

  lemma {:induction false} UnlinesHaveNoReturn(lines: seq<string>)
    requires IsHeader(lines)
    ensures '\r' !in Unlines(lines)
  {
    if lines != [] { UnlinesHaveNoReturn(lines[1..]); }
  }

  /** What is read back: the keywords, the trimmed one-line description, and the body up to newline conversion. */
  lemma RoundTrip(keywords: seq<string>, e: Experience)
    requires keywords != [] && forall i :: 0 <= i < |keywords| ==> IsKeyword(keywords[i])
    ensures FrontmatterOf(Content(keywords, e)) == Some(Frontmatter(keywords, Strip(SingleLine(e.description))))
    ensures BodyOf(Content(keywords, e)) == UniversalNewlines(BodyText(e))
    ensures BodyOf(Content(keywords, e)) == BodyText(e) <==> '\r' !in BodyText(e)
  {
    WrittenIsLaidOut(keywords, e);
    HeaderIsSeen(Content(keywords, e), HeaderLines(keywords, e), "\n\n" + UniversalNewlines(BodyText(e)));
    BodyIsSeen(Content(keywords, e), HeaderLines(keywords, e), "\n\n" + UniversalNewlines(BodyText(e)));
    HeaderParses(keywords, e);
    BodyStarts(BodyText(e));
    NewlinesFixedIff(BodyText(e));
  }

  lemma BodyStarts(body: string)
    requires body != [] && body[0] == '#'
    ensures LStrip("\n\n" + UniversalNewlines(body)) == UniversalNewlines(body)
  {
    var x := UniversalNewlines(body);
    assert x[0] == '#' && LStrip(x) == x;
    assert ("\n\n" + x)[1..] == "\n" + x && ("\n" + x)[1..] == x;
    assert LStrip("\n" + x) == x;
  }
}
