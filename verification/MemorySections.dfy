/** Sections and logical keys inside a body, and why the appended note changes neither. */
module MemorySections {
  import opened Options
  import opened Text
  import opened MemoryWriters
  import opened MemoryStores
  import opened MemoryNotes

  // ---- First occurrences ----

  function FindFrom(s: string, part: string, i: nat): (r: Option<nat>)
    ensures r.Some? ==> i <= r.value && r.value + |part| <= |s|
    decreases |s| - i
  {
    if i > |s| then None else if OccursAt(s, part, i) then Some(i) else FindFrom(s, part, i + 1)
  }

  lemma {:induction false} FindsFirst(s: string, part: string, i: nat)
    ensures var r := FindFrom(s, part, i);
            && (r.Some? ==> OccursAt(s, part, r.value) && forall j :: i <= j < r.value ==> !OccursAt(s, part, j))
            && (r.None? ==> forall j: nat :: i <= j ==> !OccursAt(s, part, j))
    decreases |s| - i
  {
    if i <= |s| && !OccursAt(s, part, i) { FindsFirst(s, part, i + 1); }
  }

  lemma {:induction false} NothingFound(s: string, part: string, i: nat)
    requires forall j: nat :: !OccursAt(s, part, j)
    ensures FindFrom(s, part, i).None?
    decreases |s| - i
  {
    if i <= |s| { NothingFound(s, part, i + 1); }
  }

  lemma FirstIs(s: string, part: string, k: nat)
    requires OccursAt(s, part, k) && forall j :: 0 <= j < k ==> !OccursAt(s, part, j)
    ensures FindFrom(s, part, 0) == Some(k)
  {
    FindsFirst(s, part, 0);
  }

  lemma FindSame(s: string, t: string, part: string)
    requires forall i: nat :: OccursAt(s, part, i) <==> OccursAt(t, part, i)
    ensures FindFrom(s, part, 0) == FindFrom(t, part, 0)
  {
    FindsFirst(s, part, 0);
    FindsFirst(t, part, 0);
    var r, q := FindFrom(s, part, 0), FindFrom(t, part, 0);
    assert r.Some? ==> OccursAt(t, part, r.value);
    assert q.Some? ==> OccursAt(s, part, q.value);
  }

  const TITLE := "\n## "

  function CutAtTitle(value: string): string {
    var q := FindFrom(value, TITLE, 0);
    if q.Some? then value[..q.value] else value
  }

  /** The text after the first `mark`, up to the next title. */
  function SectionAt(body: string, mark: string): string {
    var p := FindFrom(body, mark, 0);
    if p.None? then "" else UpToTitle(body[p.value + |mark|..])
  }

  function UpToTitle(value: string): string {
    Strip(CutAtTitle(value))
  }

  function SectionOf(body: string, title: string): string {
    SectionAt(body, "## " + title)
  }

  // ---- The note does not touch a section ----

  lemma InFirstPart(a: string, b: string, part: string, i: nat)
    requires i + |part| <= |a|
    ensures OccursAt(a + b, part, i) <==> OccursAt(a, part, i)
  {
    assert (a + b)[i..i + |part|] == a[i..i + |part|];
  }

  lemma InSecondPart(a: string, b: string, part: string, i: nat)
    requires i >= |a|
    ensures OccursAt(a + b, part, i) <==> OccursAt(b, part, i - |a|)
  {
    if i + |part| <= |a + b| {
      assert (a + b)[i..i + |part|] == b[i - |a|..i - |a| + |part|];
    }
  }

  lemma CharAt(s: string, part: string, i: nat, k: nat)
    requires OccursAt(s, part, i) && k < |part|
    ensures i + k < |s| && s[i + k] == part[k]
  {
    assert s[i..i + |part|][k] == part[k];
  }

  lemma BlankTail(a: string, w: string)
    requires IsBlank(w)
    ensures forall n :: |a| <= n < |a + w| ==> IsSpace((a + w)[n])
  {}

  /** A part that ends solidly does not reach into blank text behind. */
  lemma SolidPartBeforeBlank(a: string, w: string, part: string, i: nat)
    requires part != [] && !IsSpace(part[|part| - 1]) && IsBlank(w)
    ensures OccursAt(a + w, part, i) <==> OccursAt(a, part, i)
  {
    BlankTail(a, w);
    if OccursAt(a + w, part, i) { CharAt(a + w, part, i, |part| - 1); }
    if i + |part| <= |a| { InFirstPart(a, w, part, i); }
  }

  /** A part without line feed, absent from a note that starts with one, occurs only in front of the note. */
  lemma PartBeforeNote(a: string, note: string, part: string, i: nat)
    requires part != [] && '\n' !in part && note != [] && note[0] == '\n'
    requires forall j: nat :: !OccursAt(note, part, j)
    ensures OccursAt(a + note, part, i) <==> OccursAt(a, part, i)
  {
    if i + |part| <= |a| {
      InFirstPart(a, note, part, i);
    } else if i >= |a| {
      InSecondPart(a, note, part, i);
    } else if OccursAt(a + note, part, i) {
      CharAt(a + note, part, i, |a| - i);
    }
  }

  lemma TitleChars(s: string, i: nat)
    ensures OccursAt(s, TITLE, i)
            <==> i + 4 <= |s| && s[i] == '\n' && s[i + 1] == '#' && s[i + 2] == '#' && s[i + 3] == ' '
  {
    if i + 4 <= |s| {
      var x := s[i..i + 4];
      assert x[0] == s[i] && x[1] == s[i + 1] && x[2] == s[i + 2] && x[3] == s[i + 3];
    }
  }

  /** Where the next title stands after a solid text that does not end in `#`: in the text, or in the note. */
  lemma CutWithNote(y: string, w: string, note: string)
    requires IsBlank(w) && IsNote(note) && (y == [] || y[|y| - 1] != '#')
    ensures UpToTitle(y + note) == UpToTitle(y + w)
  {
    var q := FindFrom(y + w, TITLE, 0);
    FindsFirst(y + w, TITLE, 0);
    if q.Some? {
      TitleInText(y, w, q.value);
      SameCut(y, w, note, q.value);
    } else {
      CutAtNote(y, w, note);
      StripBlank(y, "\n");
      StripBlank(y, w);
    }
  }

  /** A title in the text is the first one whatever comes behind the text. */
  lemma SameCut(y: string, w: string, note: string, q: nat)
    requires FindFrom(y + w, TITLE, 0) == Some(q) && q + 4 <= |y|
    ensures CutAtTitle(y + note) == CutAtTitle(y + w)
  {
    FindsFirst(y + w, TITLE, 0);
    SameTitles(y, w, note, q);
    forall j | 0 <= j < q ensures !OccursAt(y + note, TITLE, j) { SameTitles(y, w, note, j); }
    FirstIs(y + note, TITLE, q);
    assert (y + note)[..q] == (y + w)[..q];
  }

  lemma SameTitles(y: string, a: string, b: string, i: nat)
    requires i + 4 <= |y|
    ensures OccursAt(y + a, TITLE, i) <==> OccursAt(y + b, TITLE, i)
  {
    InFirstPart(y, a, TITLE, i);
    InFirstPart(y, b, TITLE, i);
  }

  /** Without a title in the text, the note's own title is the first one. */
  lemma CutAtNote(y: string, w: string, note: string)
    requires StartsWithTitle(note) && FindFrom(y + w, TITLE, 0).None?
    ensures CutAtTitle(y + note) == y + "\n"
  {
    FindsFirst(y + w, TITLE, 0);
    TitleOfNote(y, note);
    forall j: nat | j < |y| + 1 ensures !OccursAt(y + note, TITLE, j) {
      if j + 4 <= |y| { SameTitles(y, w, note, j); } else { NoTitleAcross(y, note, j); }
    }
    FirstIs(y + note, TITLE, |y| + 1);
    assert note[0] == note[..5][0];
    assert (y + note)[..|y| + 1] == y + "\n";
  }

  lemma TitleInText(y: string, w: string, q: nat)
    requires IsBlank(w) && (y == [] || y[|y| - 1] != '#') && OccursAt(y + w, TITLE, q)
    ensures q + 4 <= |y|
  {
    TitleChars(y + w, q);
    BlankTail(y, w);
    assert !IsSpace('#');
  }

  predicate StartsWithTitle(note: string) {
    |note| >= 5 && note[..5] == "\n\n## "
  }

  lemma TitleOfNote(y: string, note: string)
    requires StartsWithTitle(note)
    ensures OccursAt(y + note, TITLE, |y| + 1)
  {
    InSecondPart(y, note, TITLE, |y| + 1);
    assert note[1..5] == note[..5][1..];
  }

  lemma NoTitleAcross(y: string, note: string, j: nat)
    requires StartsWithTitle(note) && |y| - 4 < j <= |y|
    ensures !OccursAt(y + note, TITLE, j)
  {
    TitleChars(y + note, j);
    assert note[0] == note[..5][0] && note[1] == note[..5][1];
    assert (y + note)[|y|] == '\n' && (y + note)[|y| + 1] == '\n';
  }

  /** A mark that fits on a line and is not in the note stays where it is. */
  lemma MarkStays(x: string, w: string, mark: string, note: string)
    requires IsNote(note) && IsBlank(w) && mark != [] && '\n' !in mark && !IsSpace(mark[|mark| - 1])
    requires forall j: nat :: !OccursAt(note, mark, j)
    ensures FindFrom(x + note, mark, 0) == FindFrom(x + w, mark, 0)
    ensures FindFrom(x + w, mark, 0).Some? ==> FindFrom(x + w, mark, 0).value + |mark| <= |x|
  {
    assert note[0] == note[..5][0];
    forall i: nat ensures OccursAt(x + w, mark, i) <==> OccursAt(x + note, mark, i) {
      SolidPartBeforeBlank(x, w, mark, i);
      PartBeforeNote(x, note, mark, i);
    }
    FindSame(x + w, x + note, mark);
    FindsFirst(x + w, mark, 0);
    var p := FindFrom(x + w, mark, 0);
    if p.Some? { SolidPartBeforeBlank(x, w, mark, p.value); }
  }

  lemma NotInTail(note: string, mark: string)
    requires |note| >= 2 && forall j: nat :: !OccursAt(note, mark, j)
    ensures FindFrom(note[2..], mark, 0).None?
  {
    forall j: nat ensures !OccursAt(note[2..], mark, j) {
      assert note == note[..2] + note[2..];
      InSecondPart(note[..2], note[2..], mark, j + 2);
    }
    NothingFound(note[2..], mark, 0);
  }

  lemma SectionIs(s: string, mark: string, k: nat, rest: string)
    requires FindFrom(s, mark, 0) == Some(k) && rest == s[k + |mark|..]
    ensures SectionAt(s, mark) == UpToTitle(rest)
  {}

  lemma NoSection(s: string, mark: string)
    requires FindFrom(s, mark, 0).None?
    ensures SectionAt(s, mark) == ""
  {}

  lemma SameSections(s: string, t: string, mark: string, k: nat, u: string, v: string)
    requires FindFrom(s, mark, 0) == Some(k) == FindFrom(t, mark, 0)
    requires u == s[k + |mark|..] && v == t[k + |mark|..] && UpToTitle(u) == UpToTitle(v)
    ensures SectionAt(s, mark) == SectionAt(t, mark)
  {
    SectionIs(s, mark, k, u);
    SectionIs(t, mark, k, v);
  }

  lemma TailOf(x: string, z: string, n: nat)
    requires n <= |x|
    ensures x[n..] + z == (x + z)[n..]
  {}

  /** What follows position `n` of the stripped text is cut alike before blank text and before the note. */
  lemma TailsAgree(x: string, w: string, note: string, n: nat) returns (u: string, v: string)
    requires n <= |x| && IsBlank(w) && IsNote(note) && x != [] && x[|x| - 1] != '#'
    ensures u == (x + note)[n..] && v == (x + w)[n..] && UpToTitle(u) == UpToTitle(v)
  {
    u, v := x[n..] + note, x[n..] + w;
    TailOf(x, note, n);
    TailOf(x, w, n);
    CutWithNote(x[n..], w, note);
  }

  lemma SectionsAgreeFrom(x: string, w: string, note: string, mark: string, k: nat)
    requires IsBlank(w) && IsNote(note) && x != [] && x[|x| - 1] != '#' && k + |mark| <= |x|
    requires FindFrom(x + note, mark, 0) == Some(k) == FindFrom(x + w, mark, 0)
    ensures SectionAt(x + note, mark) == SectionAt(x + w, mark)
  {
    var u, v := TailsAgree(x, w, note, k + |mark|);
    SameSections(x + note, x + w, mark, k, u, v);
  }

  lemma SectionsAgree(x: string, w: string, note: string, mark: string)
    requires IsBlank(w) && IsNote(note) && x != [] && x[|x| - 1] != '#'
    requires mark != [] && '\n' !in mark && !IsSpace(mark[|mark| - 1])
    requires forall j: nat :: !OccursAt(note, mark, j)
    ensures SectionAt(x + note, mark) == SectionAt(x + w, mark)
  {
    MarkStays(x, w, mark, note);
    var p := FindFrom(x + w, mark, 0);
    if p.Some? {
      SectionsAgreeFrom(x, w, note, mark, p.value);
    } else {
      NoSection(x + note, mark);
      NoSection(x + w, mark);
    }
  }

  lemma SectionAtIsKept(body: string, mark: string, note: string)
    requires IsNote(note) && (body == [] || EndsPlain(body))
    requires mark != [] && '\n' !in mark && !IsSpace(mark[|mark| - 1])
    requires forall j: nat :: !OccursAt(note, mark, j)
    ensures SectionAt(BodyWith(body, note), mark) == SectionAt(body, mark)
  {
    if body == [] {
      NotInTail(note, mark);
    } else {
      var w := RStripSplits(body);
      SectionsAgree(RStrip(body), w, note, mark);
    }
  }

  /** Appending the note leaves a section as it was. */
  lemma SectionIsKept(body: string, title: string, note: string)
    requires IsNote(note) && (body == [] || EndsPlain(body))
    requires title != [] && '\n' !in title && !IsSpace(title[|title| - 1])
    requires forall j: nat :: !OccursAt(note, "## " + title, j)
    ensures SectionOf(BodyWith(body, note), title) == SectionOf(body, title)
  {
    SectionAtIsKept(body, "## " + title, note);
  }

  // ---- Logical keys ----

  const KEYWORD := "logical-key:"

  function SkipSpaces(s: string, i: nat): (r: nat)
    requires i <= |s|
    ensures i <= r <= |s| && (forall k :: i <= k < r ==> IsSpace(s[k])) && (r < |s| ==> !IsSpace(s[r]))
    decreases |s| - i
  {
    if i < |s| && IsSpace(s[i]) then SkipSpaces(s, i + 1) else i
  }

  function SkipWord(s: string, i: nat): (r: nat)
    requires i <= |s|
    ensures i <= r <= |s| && (forall k :: i <= k < r ==> !IsSpace(s[k])) && (r < |s| ==> IsSpace(s[r]))
    decreases |s| - i
  {
    if i < |s| && !IsSpace(s[i]) then SkipWord(s, i + 1) else i
  }

  /** `findall(r"logical-key:\s*([^\s]+)")` from position `i`: matches from the left that do not overlap. */
  function KeysFrom(s: string, i: nat): seq<string>
    decreases |s| - i
  {
    if i >= |s| then []
    else if OccursAt(s, KEYWORD, i) then
      var j := SkipSpaces(s, i + |KEYWORD|);
      var k := SkipWord(s, j);
      if k > j then [s[j..k]] + KeysFrom(s, k) else KeysFrom(s, i + 1)
    else KeysFrom(s, i + 1)
  }

  lemma {:induction false} FoundKeysAreKeys(s: string, i: nat)
    ensures forall n :: 0 <= n < |KeysFrom(s, i)| ==> IsKey(KeysFrom(s, i)[n])
    decreases |s| - i
  {
    if i < |s| {
      if OccursAt(s, KEYWORD, i) {
        var j := SkipSpaces(s, i + |KEYWORD|);
        var k := SkipWord(s, j);
        FoundKeysAreKeys(s, if k > j then k else i + 1);
      } else {
        FoundKeysAreKeys(s, i + 1);
      }
    }
  }

  lemma OccursInParts(s: string, a: string, b: string, c: nat)
    requires OccursAt(s, a + b, c)
    ensures OccursAt(s, a, c) && OccursAt(s, b, c + |a|)
  {
    var whole := s[c..c + |a + b|];
    assert whole == a + b;
    assert s[c..c + |a|] == whole[..|a|] == a;
    assert s[c + |a|..c + |a| + |b|] == whole[|a|..] == b;
  }

  lemma CommentShape(key: string)
    ensures Comment(key) == "<!-- " + (KEYWORD + (" " + (key + " -->")))
  {}

  lemma CommentParts(s: string, key: string, c: nat)
    requires OccursAt(s, Comment(key), c)
    ensures OccursAt(s, "<!-- ", c) && OccursAt(s, KEYWORD, c + 5) && OccursAt(s, " ", c + 17)
    ensures OccursAt(s, key, c + 18) && OccursAt(s, " -->", c + 18 + |key|)
  {
    CommentShape(key);
    FiveParts(s, "<!-- ", KEYWORD, " ", key, " -->", c);
  }

  lemma FiveParts(s: string, a: string, b: string, d: string, e: string, f: string, c: nat)
    requires OccursAt(s, a + (b + (d + (e + f))), c)
    ensures OccursAt(s, a, c) && OccursAt(s, b, c + |a|) && OccursAt(s, d, c + |a| + |b|)
    ensures OccursAt(s, e, c + |a| + |b| + |d|) && OccursAt(s, f, c + |a| + |b| + |d| + |e|)
  {
    OccursInParts(s, a, b + (d + (e + f)), c);
    OccursInParts(s, b, d + (e + f), c + |a|);
    OccursInParts(s, d, e + f, c + |a| + |b|);
    OccursInParts(s, e, f, c + |a| + |b| + |d|);
  }

  lemma CommentAt(s: string, key: string, c: nat)
    requires OccursAt(s, Comment(key), c)
    ensures c + 22 + |key| <= |s|
    ensures s[c] == '<' && s[c + 1] == '!' && s[c + 2] == '-' && s[c + 3] == '-' && s[c + 4] == ' '
    ensures OccursAt(s, KEYWORD, c + 5) && s[c + 17] == ' '
    ensures OccursAt(s, key, c + 18) && s[c + 18 + |key|] == ' '
  {
    CommentParts(s, key, c);
    CharAt(s, "<!-- ", c, 0);
    CharAt(s, "<!-- ", c, 1);
    CharAt(s, "<!-- ", c, 2);
    CharAt(s, "<!-- ", c, 3);
    CharAt(s, "<!-- ", c, 4);
    CharAt(s, " ", c + 17, 0);
    CharAt(s, " -->", c + 18 + |key|, 0);
  }

  lemma KeywordChars(s: string, i: nat)
    requires OccursAt(s, KEYWORD, i)
    ensures forall n :: i <= n < i + 12 ==> s[n] != '<' && s[n] != ' '
    ensures s[i] == 'l'
  {
    var part := s[i..i + 12];
    assert part == KEYWORD;
    assert forall n :: i <= n < i + 12 ==> s[n] == part[n - i];
    assert part[0] == s[i];
  }

  /** A match that starts before a comment ends before the comment's keyword. */
  lemma MatchEndsBefore(s: string, key: string, c: nat, i: nat)
    requires OccursAt(s, Comment(key), c)
    requires i < c + 5 && OccursAt(s, KEYWORD, i)
    ensures i + 12 <= c < |s|
    ensures var j := SkipSpaces(s, i + 12); var k := SkipWord(s, j); j < k <= c + 4
  {
    CommentAt(s, key, c);
    KeywordChars(s, i);
    assert !IsSpace('<') && IsSpace(' ');
  }

  /** Every key written in a comment is found, whatever text precedes the comment. */
  lemma {:induction false} MarkedKeyIsFound(s: string, key: string, c: nat, i: nat)
    requires OccursAt(s, Comment(key), c) && IsKey(key) && i <= c + 5
    ensures key in KeysFrom(s, i)
    decreases c + 5 - i
  {
    CommentAt(s, key, c);
    if i == c + 5 {
      WordOfComment(s, key, c);
    } else if OccursAt(s, KEYWORD, i) {
      MatchEndsBefore(s, key, c, i);
      MarkedKeyIsFound(s, key, c, SkipWord(s, SkipSpaces(s, i + 12)));
    } else {
      MarkedKeyIsFound(s, key, c, i + 1);
    }
  }

  lemma WordOfComment(s: string, key: string, c: nat)
    requires OccursAt(s, Comment(key), c) && IsKey(key)
    ensures c + 17 <= |s|
    ensures SkipSpaces(s, c + 17) == c + 18 && SkipWord(s, c + 18) == c + 18 + |key|
    ensures s[c + 18..c + 18 + |key|] == key
  {
    CommentAt(s, key, c);
    assert IsSpace(' ');
    forall n | c + 18 <= n < c + 18 + |key| ensures !IsSpace(s[n]) {
      CharAt(s, key, c + 18, n - c - 18);
    }
    CharAt(s, key, c + 18, 0);
  }

  function KeysOf(body: string): seq<string> {
    KeysFrom(body, 0)
  }

  lemma MarkedIsKept(body: string, key: string)
    requires IsMarked(body, key) && IsKey(key)
    ensures key in KeysOf(body)
  {
    var c: nat :| c <= |body| && OccursAt(body, Comment(key), c);
    MarkedKeyIsFound(body, key, c, 0);
  }

  lemma {:induction false} NoRoomForKey(s: string, i: nat)
    requires i + |KEYWORD| > |s|
    ensures KeysFrom(s, i) == []
    decreases |s| - i
  {
    if i < |s| { NoRoomForKey(s, i + 1); }
  }
}
