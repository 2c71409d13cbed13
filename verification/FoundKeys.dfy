/** Which logical keys can still be found after consolidation. */
module FoundKeys {
  import opened Options
  import opened Text
  import opened Names
  import opened MemoryFiles
  import opened MemoryWriters
  import opened MemoryStores
  import opened MemoryNotes
  import opened MemorySections
  import opened ConsolidationNotes
  import opened MemoryConsolidation

  // ---- Mentions in lines ----

  lemma AcrossBreak(a: string, b: string, part: string)
    requires part != [] && '\n' !in part
    ensures Contains(a + "\n" + b, part) <==> Contains(a, part) || Contains(b, part)
  {
    var s := a + "\n" + b;
    assert s == a + ("\n" + b) && s == (a + "\n") + b && s[|a|] == '\n';
    if Contains(a, part) { OccursInFront(a, "\n" + b, part); }
    if Contains(b, part) { OccursBehind(a + "\n", b, part); }
    if i: nat :| i <= |s| && OccursAt(s, part, i) {
      if i + |part| <= |a| {
        InFirstPart(a, "\n" + b, part, i);
      } else if i > |a| {
        InSecondPart(a + "\n", b, part, i);
      } else {
        CharAt(s, part, i, |a| - i);
      }
    }
  }

  lemma OccursInFront(a: string, b: string, part: string)
    requires Contains(a, part)
    ensures Contains(a + b, part)
  {
    var i: nat :| i <= |a| && OccursAt(a, part, i);
    InFirstPart(a, b, part, i);
  }

  lemma OccursBehind(a: string, b: string, part: string)
    requires Contains(b, part)
    ensures Contains(a + b, part)
  {
    var i: nat :| i <= |b| && OccursAt(b, part, i);
    InSecondPart(a, b, part, i + |a|);
  }

  ghost predicate SomeContains(parts: seq<string>, part: string) {
    exists i :: 0 <= i < |parts| && Contains(parts[i], part)
  }

  lemma SomeOfCons(parts: seq<string>, part: string)
    requires parts != []
    ensures SomeContains(parts, part) <==> Contains(parts[0], part) || SomeContains(parts[1..], part)
  {
    if i :| 0 <= i < |parts| && Contains(parts[i], part) {
      if i > 0 { assert parts[1..][i - 1] == parts[i]; }
    }
    if i :| 0 <= i < |parts[1..]| && Contains(parts[1..][i], part) { assert parts[i + 1] == parts[1..][i]; }
  }

  lemma {:induction false} UnlinesContains(lines: seq<string>, part: string)
    requires part != [] && '\n' !in part
    ensures Contains(Unlines(lines), part) <==> SomeContains(lines, part)
  {
    if lines != [] {
      AcrossBreak(lines[0], Unlines(lines[1..]), part);
      UnlinesContains(lines[1..], part);
      SomeOfCons(lines, part);
    }
  }

  lemma {:induction false} JoinContains(parts: seq<string>, part: string)
    requires part != [] && '\n' !in part
    ensures Contains(Join("\n", parts), part) <==> SomeContains(parts, part)
  {
    if |parts| == 1 {
      SomeOfCons(parts, part);
      assert parts[1..] == [];
    } else if parts != [] {
      AcrossBreak(parts[0], Join("\n", parts[1..]), part);
      JoinContains(parts[1..], part);
      SomeOfCons(parts, part);
    }
  }

  // ---- Mentions in the note ----

  lemma MentionChars(s: string, key: string, i: nat)
    requires OccursAt(s, LogicalMarker(key), i)
    ensures i + 11 < |s| && s[i] == 'l' && s[i + 11] == ':'
  {
    assert LogicalMarker(key) == "logical-key: " + key;
    CharAt(s, LogicalMarker(key), i, 0);
    CharAt(s, LogicalMarker(key), i, 11);
  }

  /** A text without a letter and a mark of the marker does not mention a key. */
  lemma NoMention(s: string, key: string)
    requires 'l' !in s || ':' !in s
    ensures !Contains(s, LogicalMarker(key))
  {
    if i: nat :| i <= |s| && OccursAt(s, LogicalMarker(key), i) { MentionChars(s, key, i); }
  }

  lemma MarkerIsPlain(key: string)
    requires IsKey(key)
    ensures LogicalMarker(key) != [] && '\n' !in LogicalMarker(key)
  {
    assert LogicalMarker(key) == "logical-key: " + key;
    assert '\n' !in "logical-key: " && IsSpace('\n');
  }

  /** The note mentions a key exactly when one of its comments does. */
  lemma NoteMentions(count: nat, stamp: string, keys: seq<string>, key: string)
    requires IsStamp(stamp) && IsKey(key)
    ensures Contains(Note(count, stamp, keys), LogicalMarker(key)) <==> SomeContains(Comments(keys), LogicalMarker(key))
  {
    var lines, marker := NoteLines(count, stamp, keys), LogicalMarker(key);
    MarkerIsPlain(key);
    UnlinesContains(lines, marker);
    JoinContains(Comments(keys), marker);
    NoMention("", key);
    NoMention("## Consolidation", key);
    NoMention("- merged-at: " + stamp, key);
    NoMention("- source-count: " + Decimal(count), key);
    assert lines[6] == Join("\n", Comments(keys));
    if SomeContains(lines, marker) {
      var i :| 0 <= i < |lines| && Contains(lines[i], marker);
      assert i == 6;
    }
  }

  /**
    * The comment of `listed` mentions `key`: as a beginning of it, or because the comment's own end follows a
    * keyword.
    */
  predicate Covers(listed: string, key: string) {
    || key <= listed
    || (|listed| >= |KEYWORD| && listed[|listed| - |KEYWORD|..] == KEYWORD && key <= "-->")
  }

  lemma CommentMentionsIff(listed: string, key: string)
    requires IsKey(listed) && IsKey(key)
    ensures Contains(Comment(listed), LogicalMarker(key)) <==> Covers(listed, key)
  {
    if Covers(listed, key) { CoveredIsMentioned(listed, key); }
    var s := Comment(listed);
    if i: nat :| i <= |s| && OccursAt(s, LogicalMarker(key), i) { MentionIsCovered(listed, key, i); }
  }

  lemma BeginningIsMentioned(front: string, word: string, listed: string, tail: string, key: string)
    requires key <= listed
    ensures Contains(front + (word + listed) + tail, word + key)
  {
    var s := front + (word + listed) + tail;
    assert listed == key + listed[|key|..];
    assert s == front + (word + key) + (listed[|key|..] + tail);
    ContainsPart(s, front, word + key, listed[|key|..] + tail);
  }

  lemma CoveredIsMentioned(listed: string, key: string)
    requires Covers(listed, key)
    ensures Contains(Comment(listed), LogicalMarker(key))
  {
    if key <= listed {
      assert Comment(listed) == "<!-- " + ("logical-key: " + listed) + " -->";
      BeginningIsMentioned("<!-- ", "logical-key: ", listed, " -->", key);
    } else {
      var front := "<!-- logical-key: " + listed[..|listed| - |KEYWORD|];
      CommentEnd(listed, listed[..|listed| - |KEYWORD|]);
      BeginningIsMentioned(front, "logical-key: ", "-->", "", key);
    }
  }

  lemma CommentEnd(listed: string, start: string)
    requires listed == start + KEYWORD
    ensures Comment(listed) == "<!-- logical-key: " + start + ("logical-key: " + "-->") + ""
  {
    assert "logical-key: " + "-->" == KEYWORD + " -->";
    Regrouped("<!-- logical-key: ", start, KEYWORD, " -->");
  }

  lemma Regrouped(front: string, start: string, word: string, end: string)
    ensures front + (start + word) + end == front + start + (word + end) + ""
  {}

  /** The marker's one blank falls on a blank of the comment. */
  lemma MentionIsCovered(listed: string, key: string, i: nat)
    requires IsKey(listed) && IsKey(key) && OccursAt(Comment(listed), LogicalMarker(key), i)
    ensures Covers(listed, key)
  {
    MarkerParts(Comment(listed), key, i);
    BlanksOfComment(listed, i + 12);
    if i + 12 == 17 {
      KeyAtFront(listed, key);
    } else {
      KeyAtEnd(listed, key);
    }
  }

  lemma MarkerParts(s: string, key: string, i: nat)
    requires OccursAt(s, LogicalMarker(key), i)
    ensures OccursAt(s, KEYWORD, i) && i + 12 < |s| && s[i + 12] == ' ' && OccursAt(s, key, i + 13)
  {
    assert LogicalMarker(key) == KEYWORD + (" " + key);
    OccursInParts(s, KEYWORD, " " + key, i);
    OccursInParts(s, " ", key, i + 12);
    CharAt(s, " ", i + 12, 0);
  }

  lemma CommentChars(listed: string)
    ensures var s, n := Comment(listed), |listed|;
            && |s| == n + 22 && OccursAt(s, KEYWORD, 5) && s[17] == ' ' && OccursAt(s, listed, 18)
            && s[18 + n] == ' ' && s[19 + n] == '-' && s[20 + n] == '-' && s[21 + n] == '>'
  {
    var s, tail := Comment(listed), " -->";
    CommentShape(listed);
    assert s[0..|s|] == s;
    CommentParts(s, listed, 0);
    CharAt(s, " ", 17, 0);
    CharAt(s, tail, 18 + |listed|, 0);
    CharAt(s, tail, 18 + |listed|, 1);
    CharAt(s, tail, 18 + |listed|, 2);
    CharAt(s, tail, 18 + |listed|, 3);
  }

  lemma BlanksOfComment(listed: string, p: nat)
    requires IsKey(listed) && 12 <= p < |Comment(listed)| && Comment(listed)[p] == ' '
    ensures p == 17 || p == 18 + |listed|
  {
    var s, n := Comment(listed), |listed|;
    CommentChars(listed);
    KeywordChars(s, 5);
    forall q | 18 <= q < 18 + n ensures s[q] != ' ' {
      CharAt(s, listed, 18, q - 18);
      assert IsSpace(' ');
    }
  }

  lemma KeyAtFront(listed: string, key: string)
    requires IsKey(listed) && IsKey(key) && OccursAt(Comment(listed), key, 18)
    ensures key <= listed
  {
    var s, n := Comment(listed), |listed|;
    CommentChars(listed);
    assert IsSpace(' ');
    forall j | 0 <= j < |key| ensures 18 + j < |s| && s[18 + j] == key[j] { CharAt(s, key, 18, j); }
    assert |key| <= n;
    assert s[18..18 + n][..|key|] == s[18..18 + |key|];
  }

  lemma KeyAtEnd(listed: string, key: string)
    requires IsKey(listed) && IsKey(key)
    requires OccursAt(Comment(listed), KEYWORD, |listed| + 6) && OccursAt(Comment(listed), key, |listed| + 19)
    ensures Covers(listed, key)
  {
    var s, n := Comment(listed), |listed|;
    CommentChars(listed);
    KeywordChars(s, n + 6);
    assert n >= 12;
    assert s[18..18 + n][n - 12..] == s[n + 6..n + 18];
    assert s[n + 19..] == "-->";
    assert s[n + 19..][..|key|] == s[n + 19..n + 19 + |key|];
  }

  // ---- Mentions in a merged body ----

  ghost predicate SomeCovers(keys: set<string>, key: string) {
    exists k :: k in keys && Covers(k, key)
  }

  lemma MergedMentions(body: string, note: string, marker: string)
    requires IsNote(note) && marker != [] && '\n' !in marker && !IsSpace(marker[|marker| - 1])
    ensures Contains(BodyWith(body, note), marker) <==> Contains(body, marker) || Contains(note, marker)
  {
    assert note[0] == note[..5][0] && note[1] == note[..5][1];
    assert note == "" + "\n" + note[1..] && note[1..] == "" + "\n" + note[2..];
    assert !Contains("", marker);
    AcrossBreak("", note[1..], marker);
    AcrossBreak("", note[2..], marker);
    if body != [] {
      var w := RStripSplits(body);
      BlankAddsNoMention(RStrip(body), w, marker);
      assert RStrip(body) + note == RStrip(body) + "\n" + note[1..];
      AcrossBreak(RStrip(body), note[1..], marker);
    }
  }

  lemma BlankAddsNoMention(a: string, w: string, marker: string)
    requires IsBlank(w) && marker != [] && !IsSpace(marker[|marker| - 1])
    ensures Contains(a + w, marker) <==> Contains(a, marker)
  {
    if i: nat :| i <= |a + w| && OccursAt(a + w, marker, i) { SolidPartBeforeBlank(a, w, marker, i); }
    if Contains(a, marker) { OccursInFront(a, w, marker); }
  }

  /** The merged file mentions a key exactly when its own body did or a listed key covers it. */
  lemma MergedFileMentions(files: Files, group: set<string>, m: string, clock: Clock, key: string)
    requires AllExperiences(files) && IsClock(clock) && m in files && IsKey(key)
    ensures Contains(BodyOf(MergedFile(files, group, m, clock).text), LogicalMarker(key)) <==>
              Contains(BodyOf(files[m].text), LogicalMarker(key)) || SomeCovers(KeysOfGroup(files, group), key)
  {
    var keys := Sorted(KeysOfGroup(files, group));
    var note := Note(|group|, clock.stamps(m), keys);
    KeysAreKeys(files, group);
    NoteIsNote(|group|, clock.stamps(m), keys);
    AppendKeepsHeader(files[m].text, note);
    MarkerIsPlain(key);
    assert LogicalMarker(key) == "logical-key: " + key;
    MergedMentions(BodyOf(files[m].text), note, LogicalMarker(key));
    NoteMentions(|group|, clock.stamps(m), keys, key);
    CommentsCover(KeysOfGroup(files, group), key);
  }

  lemma CommentsCover(keys: set<string>, key: string)
    requires IsKey(key) && forall i :: 0 <= i < |Sorted(keys)| ==> IsKey(Sorted(keys)[i])
    ensures SomeContains(Comments(Sorted(keys)), LogicalMarker(key)) <==> SomeCovers(keys, key)
  {
    var listed := Sorted(keys);
    SortedListsAll(keys);
    forall i | 0 <= i < |listed|
      ensures Contains(Comments(listed)[i], LogicalMarker(key)) <==> Covers(listed[i], key)
    {
      CommentMentionsIff(listed[i], key);
    }
    if i :| 0 <= i < |listed| && Contains(Comments(listed)[i], LogicalMarker(key)) {
      assert listed[i] in listed;
    }
    if k :| k in keys && Covers(k, key) {
      assert k in listed;
      var i :| 0 <= i < |listed| && listed[i] == k;
      assert Contains(Comments(listed)[i], LogicalMarker(key));
    }
  }

  // ---- Which keys are found afterwards ----

  /** Survivor `m` mentions the key itself, or merging lists a key that covers it. */
  ghost predicate Keeps(files: Files, sign: string -> string, key: string, m: string)
    requires m in files
  {
    || Contains(BodyOf(files[m].text), LogicalMarker(key))
    || (|GroupOf(files, sign, m)| > 1 && SomeCovers(KeysOfGroup(files, GroupOf(files, sign, m)), key))
  }

  ghost predicate SomeKeeps(files: Files, sign: string -> string, key: string) {
    exists m :: m in files && Leader(files, sign, m) == m && Keeps(files, sign, key, m)
  }

  lemma SurvivorMentions(files: Files, sign: string -> string, clock: Clock, key: string, m: string)
    requires AllExperiences(files) && IsClock(clock) && IsKey(key) && m in files && Leader(files, sign, m) == m
    ensures var merged := Consolidated(files, sign, clock);
            m in merged && (Contains(BodyOf(merged[m].text), LogicalMarker(key)) <==> Keeps(files, sign, key, m))
  {
    MergedFileMentions(files, GroupOf(files, sign, m), m, clock, key);
  }

  /** A key is found after consolidation exactly when some survivor mentions it itself or lists a key that covers it. */
  lemma FoundAfterIff(files: Files, sign: string -> string, clock: Clock, key: string)
    requires AllExperiences(files) && IsClock(clock) && IsKey(key)
    ensures FoundId(Consolidated(files, sign, clock), key).Some? <==> SomeKeeps(files, sign, key)
  {
    var merged := Consolidated(files, sign, clock);
    FoundIff(merged, key);
    if SomeKeeps(files, sign, key) {
      var m :| m in files && Leader(files, sign, m) == m && Keeps(files, sign, key, m);
      SurvivorMentions(files, sign, clock, key, m);
    }
    if id :| id in merged && Contains(BodyOf(merged[id].text), LogicalMarker(key)) {
      SurvivorMentions(files, sign, clock, key, id);
    }
  }
}
