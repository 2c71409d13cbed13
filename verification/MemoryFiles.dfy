/** Experience files: the Markdown text that is written, and the two readers of its frontmatter and its body. */
module MemoryFiles {
  import opened Options
  import opened Text

  // ---- Lines ----

  /** Where Python's `splitlines` breaks. */
  predicate IsLineBreak(c: char) {
    var n := c as int;
    10 <= n <= 13 || 28 <= n <= 30 || n == 0x85 || n == 0x2028 || n == 0x2029
  }

  predicate IsOneLine(s: string) {
    forall i :: 0 <= i < |s| ==> !IsLineBreak(s[i])
  }

  function LineLength(s: string): (n: nat)
    ensures n <= |s|
  {
    if s == [] || IsLineBreak(s[0]) then 0 else 1 + LineLength(s[1..])
  }

  function SplitLines(s: string): seq<string>
    decreases |s|
  {
    if s == [] then []
    else
      var n := LineLength(s);
      if n == |s| then [s]
      else
        var next := if s[n] == '\r' && n + 1 < |s| && s[n + 1] == '\n' then n + 2 else n + 1;
        [s[..n]] + SplitLines(s[next..])
  }

  /** The lines, each ended by a newline. */
  function Unlines(lines: seq<string>): string {
    if lines == [] then [] else lines[0] + "\n" + Unlines(lines[1..])
  }

  lemma {:induction false} LineLengthOf(line: string, rest: string)
    requires IsOneLine(line)
    ensures LineLength(line + "\n" + rest) == |line|
  {
    if line != [] {
      assert (line + "\n" + rest)[1..] == line[1..] + "\n" + rest;
      LineLengthOf(line[1..], rest);
    }
  }

  lemma SplitFirstLine(line: string, rest: string)
    requires IsOneLine(line)
    ensures SplitLines(line + "\n" + rest) == [line] + SplitLines(rest)
  {
    var s := line + "\n" + rest;
    LineLengthOf(line, rest);
    assert s[..|line|] == line && s[|line| + 1..] == rest && s[|line|] == '\n';
  }

  lemma UnlinesAndMore(lines: seq<string>, rest: string)
    requires lines != []
    ensures Unlines(lines) + rest == lines[0] + "\n" + (Unlines(lines[1..]) + rest)
  {}

  lemma {:induction false} SplitUnlines(lines: seq<string>, rest: string)
    requires forall i :: 0 <= i < |lines| ==> IsOneLine(lines[i])
    ensures SplitLines(Unlines(lines) + rest) == lines + SplitLines(rest)
  {
    if lines == [] {
      assert Unlines(lines) + rest == rest;
    } else {
      calc {
        SplitLines(Unlines(lines) + rest);
        { UnlinesAndMore(lines, rest); }
        SplitLines(lines[0] + "\n" + (Unlines(lines[1..]) + rest));
        { SplitFirstLine(lines[0], Unlines(lines[1..]) + rest); }
        [lines[0]] + SplitLines(Unlines(lines[1..]) + rest);
        { SplitUnlines(lines[1..], rest); }
        [lines[0]] + (lines[1..] + SplitLines(rest));
        lines + SplitLines(rest);
      }
    }
  }

  // ---- Frontmatter ----

  datatype Frontmatter = Frontmatter(keyword: seq<string>, description: string)

  predicate StartsWith(s: string, prefix: string) {
    OccursAt(s, prefix, 0)
  }

  const FENCE := "---"

  function IndexFrom(lines: seq<string>, line: string, i: nat): (r: Option<nat>)
    ensures r.Some? ==> i <= r.value < |lines|
    decreases |lines| - i
  {
    if i >= |lines| then None else if lines[i] == line then Some(i) else IndexFrom(lines, line, i + 1)
  }

  /** Reads header lines; None stands for the error on an unknown field. */
  function ParseHeader(lines: seq<string>, inKeywords: bool, keywords: seq<string>,
                       description: string): Option<Frontmatter> {
    if lines == [] then Some(Frontmatter(keywords, description))
    else
      var line, rest := lines[0], lines[1..];
      if line == "keyword:" then ParseHeader(rest, true, keywords, description)
      else if StartsWith(line, "description:") then ParseHeader(rest, false, keywords, Strip(line[12..]))
      else if inKeywords && StartsWith(Strip(line), "- ") then
        ParseHeader(rest, inKeywords, keywords + [Strip(Strip(line)[2..])], description)
      else if Strip(line) != "" then None
      else ParseHeader(rest, inKeywords, keywords, description)
  }

  function FrontmatterOf(text: string): Option<Frontmatter> {
    var lines := SplitLines(UniversalNewlines(text));
    if lines == [] || lines[0] != FENCE then None
    else
      var end := IndexFrom(lines, FENCE, 1);
      if end.None? then None else ParseHeader(lines[1..end.value], false, [], "")
  }

  /** The reader's line loop. */
  method ReadFrontmatter(text: string) returns (r: Option<Frontmatter>)
    ensures r == FrontmatterOf(text)
  {
    var lines := SplitLines(UniversalNewlines(text));
    if lines == [] || lines[0] != FENCE { return None; }
    var end := IndexFrom(lines, FENCE, 1);
    if end.None? { return None; }
    var keywords: seq<string> := [];
    var description := "";
    var inKeywords := false;
    for i := 1 to end.value
      invariant ParseHeader(lines[i..end.value], inKeywords, keywords, description) == FrontmatterOf(text)
    {
      var line := lines[i];
      assert lines[i..end.value][1..] == lines[i + 1..end.value];
      if line == "keyword:" {
        inKeywords := true;
      } else if StartsWith(line, "description:") {
        description := Strip(line[12..]);
        inKeywords := false;
      } else if inKeywords && StartsWith(Strip(line), "- ") {
        keywords := keywords + [Strip(Strip(line)[2..])];
      } else if Strip(line) != "" {
        return None;
      }
    }
    return Some(Frontmatter(keywords, description));
  }

  // ---- Body ----

  predicate IsFenceAt(s: string, i: nat) {
    i + 3 <= |s| && s[i] == '-' && s[i + 1] == '-' && s[i + 2] == '-'
  }

  /** No three dashes in a row. */
  ghost predicate IsFenceless(s: string) {
    forall i: nat :: !IsFenceAt(s, i)
  }

  function FindFence(s: string, i: nat): (r: Option<nat>)
    ensures r.Some? ==> i <= r.value && IsFenceAt(s, r.value)
    decreases |s| - i
  {
    if i >= |s| then None else if IsFenceAt(s, i) then Some(i) else FindFence(s, i + 1)
  }

  /** What follows the second fence, without leading whitespace. */
  function BodyOf(text: string): string {
    var t := UniversalNewlines(text);
    var first := FindFence(t, 0);
    if first.None? then ""
    else
      var second := FindFence(t, first.value + 3);
      if second.None? then "" else LStrip(t[second.value + 3..])
  }

  lemma {:induction false} FindFirstFence(s: string, i: nat, k: nat)
    requires i <= k && IsFenceAt(s, k) && forall j :: i <= j < k ==> !IsFenceAt(s, j)
    ensures FindFence(s, i) == Some(k)
    decreases k - i
  {
    if i < k { FindFirstFence(s, i + 1, k); }
  }

  // ---- The layout that both readers understand ----

  predicate IsHeader(lines: seq<string>) {
    forall i :: 0 <= i < |lines| ==> IsOneLine(lines[i]) && '\r' !in lines[i] && FindFence(lines[i], 0).None?
  }

  function Layout(lines: seq<string>, rest: string): string {
    FENCE + "\n" + (Unlines(lines) + (FENCE + rest))
  }

  /** Fence, header lines, fence, rest; nothing else stands on the second fence's line. */
  predicate IsLaidOut(text: string, lines: seq<string>, rest: string) {
    && UniversalNewlines(text) == Layout(lines, rest)
    && IsHeader(lines) && (rest == [] || rest[0] == '\n')
  }

  lemma {:induction false} NoFenceFound(s: string, i: nat)
    requires FindFence(s, i).None?
    ensures forall j: nat :: i <= j ==> !IsFenceAt(s, j)
    decreases |s| - i
  {
    if i < |s| { NoFenceFound(s, i + 1); }
  }

  lemma {:induction false} UnlinesFenceless(lines: seq<string>)
    requires IsHeader(lines)
    ensures IsFenceless(Unlines(lines))
    ensures lines != [] ==> Unlines(lines)[|Unlines(lines)| - 1] == '\n'
  {
    if lines != [] {
      NoFenceFound(lines[0], 0);
      UnlinesFenceless(lines[1..]);
      FencelessAcrossBreak(lines[0], Unlines(lines[1..]));
    }
  }

  lemma FencelessAcrossBreak(a: string, b: string)
    requires IsFenceless(a) && IsFenceless(b)
    ensures IsFenceless(a + "\n" + b)
  {
    var s := a + "\n" + b;
    forall i: nat ensures !IsFenceAt(s, i) {
      if i + 3 <= |a| { assert !IsFenceAt(a, i); }
      if i > |a| { assert !IsFenceAt(b, i - |a| - 1); }
      assert s[|a|] == '\n';
    }
  }

  lemma {:induction false} HeaderIndex(lines: seq<string>, more: seq<string>, i: nat)
    requires IsHeader(lines) && i <= |lines|
    ensures IndexFrom([FENCE] + (lines + ([FENCE] + more)), FENCE, i + 1) == Some(|lines| + 1)
    decreases |lines| - i
  {
    if i < |lines| {
      assert FindFence(FENCE, 0) == Some(0);
      HeaderIndex(lines, more, i + 1);
    }
  }

  lemma FenceLine(rest: string) returns (more: seq<string>)
    requires rest == [] || rest[0] == '\n'
    ensures SplitLines(FENCE + rest) == [FENCE] + more
  {
    if rest == [] {
      more := [];
      assert FENCE + rest == FENCE && LineLength(FENCE) == 3;
    } else {
      more := SplitLines(rest[1..]);
      assert FENCE + rest == FENCE + "\n" + rest[1..];
      SplitFirstLine(FENCE, rest[1..]);
    }
  }

  lemma LayoutLines(lines: seq<string>, rest: string) returns (more: seq<string>)
    requires IsHeader(lines) && (rest == [] || rest[0] == '\n')
    ensures SplitLines(Layout(lines, rest)) == [FENCE] + (lines + ([FENCE] + more))
  {
    more := FenceLine(rest);
    SplitUnlines(lines, FENCE + rest);
    SplitFirstLine(FENCE, Unlines(lines) + (FENCE + rest));
  }

  lemma LayoutFences(lines: seq<string>, rest: string)
    requires IsHeader(lines)
    ensures var t := Layout(lines, rest);
            FindFence(t, 0) == Some(0) && FindFence(t, 3) == Some(4 + |Unlines(lines)|)
  {
    var inner := Unlines(lines);
    var t := Layout(lines, rest);
    assert t == FENCE + "\n" + inner + FENCE + rest;
    UnlinesFenceless(lines);
    forall j | 3 <= j < 4 + |inner| ensures !IsFenceAt(t, j) {
      if j > 3 && j + 3 <= 4 + |inner| {
        assert !IsFenceAt(inner, j - 4);
        assert t[j] == inner[j - 4] && t[j + 1] == inner[j - 3] && t[j + 2] == inner[j - 2];
      } else if j > 3 {
        assert t[3 + |inner|] == inner[|inner| - 1];
      }
      assert t[3] == '\n';
    }
    assert IsFenceAt(t, 4 + |inner|);
    FindFirstFence(t, 3, 4 + |inner|);
  }

  lemma HeaderIsSeen(text: string, lines: seq<string>, rest: string)
    requires IsLaidOut(text, lines, rest)
    ensures FrontmatterOf(text) == ParseHeader(lines, false, [], "")
  {
    var more := LayoutLines(lines, rest);
    HeaderIndex(lines, more, 0);
    assert ([FENCE] + (lines + ([FENCE] + more)))[1..|lines| + 1] == lines;
  }

  lemma BodyIsSeen(text: string, lines: seq<string>, rest: string)
    requires IsLaidOut(text, lines, rest)
    ensures BodyOf(text) == LStrip(rest)
  {
    LayoutFences(lines, rest);
    assert Layout(lines, rest)[4 + |Unlines(lines)| + 3..] == rest;
  }
}
