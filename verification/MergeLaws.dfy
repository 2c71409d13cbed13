/** What a merge writes into the file that it keeps, and which keys it collects. */
module MergeLaws {
  import opened Text
  import opened TextLaws
  import opened MemoryFiles
  import opened MemoryStores
  import opened MemorySections
  import opened ConsolidationNotes
  import opened MemoryConsolidation
  import opened FoundKeys
  import Names

  // ---- The note ----

  /** Every line but the first stands between two line ends. */
  lemma {:induction false} LineStands(lines: seq<string>, k: nat)
    requires 0 < k < |lines|
    ensures Contains(Unlines(lines), "\n" + lines[k] + "\n")
  {
    var rest := lines[1..];
    if k == 1 {
      FirstLine(lines);
      FirstLine(rest);
      BetweenEnds(lines[0], rest[0], Unlines(rest[1..]));
      ContainsPart(Unlines(lines), lines[0], "\n" + rest[0] + "\n", Unlines(rest[1..]));
    } else {
      LineStands(rest, k - 1);
      OccursBehind(lines[0] + "\n", Unlines(rest), "\n" + rest[k - 1] + "\n");
    }
  }

  lemma BetweenEnds(a: string, b: string, c: string)
    ensures a + "\n" + (b + "\n" + c) == a + ("\n" + b + "\n") + c
  {}

  const TITLE_LINE := "\n\n" + "## Consolidation" + "\n"

  /** A note has its title in front and states when it was written and how many files were merged. */
  lemma NoteStates(count: nat, stamp: string, keys: seq<string>) returns (note: string)
    ensures note == Note(count, stamp, keys) && TITLE_LINE <= note
    ensures Contains(note, "\n- source-count: " + Decimal(count) + "\n")
    ensures Contains(note, "\n- merged-at: " + stamp + "\n")
  {
    var lines := NoteLines(count, stamp, keys);
    note := Unlines(lines);
    LineStands(lines, 5);
    LineStands(lines, 4);
    assert "\n" + lines[5] + "\n" == "\n- source-count: " + Decimal(count) + "\n";
    assert "\n" + lines[4] + "\n" == "\n- merged-at: " + stamp + "\n";
    ThreeLines(lines);
  }

  lemma ThreeLines(lines: seq<string>)
    requires |lines| >= 3 && lines[0] == "" && lines[1] == ""
    ensures "\n\n" + lines[2] + "\n" <= Unlines(lines)
  {
    var all, rest := ThirdLine(lines);
    TitleInFront(lines[2], rest);
  }

  lemma ThirdLine(lines: seq<string>) returns (all: string, rest: string)
    requires |lines| >= 3
    ensures all == Unlines(lines) == lines[0] + "\n" + (lines[1] + "\n" + (lines[2] + "\n" + rest))
  {
    var two := lines[1..];
    var three := two[1..];
    FirstLine(lines);
    FirstLine(two);
    FirstLine(three);
    all, rest := Unlines(lines), Unlines(three[1..]);
  }

  lemma TitleInFront(title: string, rest: string)
    ensures "\n\n" + title + "\n" <= "" + "\n" + ("" + "\n" + (title + "\n" + rest))
  {
    assert "" + "\n" + ("" + "\n" + (title + "\n" + rest)) == "\n\n" + title + "\n" + rest;
  }

  lemma FirstLine(lines: seq<string>)
    requires lines != []
    ensures Unlines(lines) == lines[0] + "\n" + Unlines(lines[1..])
  {}

  /** The kept file is the leader's text without trailing blanks, a title, and the number of files in the group. */
  lemma MergedFileStates(files: Files, group: set<string>, id: string, clock: Clock)
    requires id in files
    ensures var (before, after) := (files[id].text, MergedFile(files, group, id, clock).text);
            && RStrip(UniversalNewlines(before)) + TITLE_LINE <= after
            && Contains(after, "\n- source-count: " + Decimal(|group|) + "\n")
            && Contains(after, "\n- merged-at: " + clock.stamps(id) + "\n")
  {
    var front := RStrip(UniversalNewlines(files[id].text));
    var note := NoteStates(|group|, clock.stamps(id), Names.Sorted(KeysOfGroup(files, group)));
    var after := MergedText(files, group, id, clock, note);
    OccursBehind(front, note, "\n- source-count: " + Decimal(|group|) + "\n");
    OccursBehind(front, note, "\n- merged-at: " + clock.stamps(id) + "\n");
    PrefixBehind(front, TITLE_LINE, note);
  }

  lemma MergedText(files: Files, group: set<string>, id: string, clock: Clock, note: string) returns (after: string)
    requires id in files && note == Note(|group|, clock.stamps(id), Names.Sorted(KeysOfGroup(files, group)))
    ensures after == MergedFile(files, group, id, clock).text
    ensures after == RStrip(UniversalNewlines(files[id].text)) + note
  {
    after := MergedFile(files, group, id, clock).text;
  }

  lemma PrefixBehind(front: string, start: string, note: string)
    requires start <= note
    ensures front + start <= front + note
  {
    assert note == start + note[|start|..];
    assert front + note == front + start + note[|start|..];
  }

  // ---- The keys ----

  /** A keyword, blank text or none, and then this word up to a blank or the end. */
  ghost predicate IsMatchAt(s: string, key: string, p: nat, j: nat) {
    && OccursAt(s, KEYWORD, p) && p + |KEYWORD| <= j && (forall k :: p + |KEYWORD| <= k < j < |s| ==> IsSpace(s[k]))
    && IsSolid(key) && OccursAt(s, key, j) && (j + |key| < |s| ==> IsSpace(s[j + |key|]))
  }

  ghost predicate IsMatched(s: string, key: string) {
    exists p: nat, j: nat :: IsMatchAt(s, key, p, j)
  }

  /** Only such words are collected as keys. */
  lemma {:induction false} CollectedIsMatched(s: string, i: nat, key: string)
    requires key in KeysFrom(s, i)
    ensures IsMatched(s, key)
    decreases |s| - i
  {
    if OccursAt(s, KEYWORD, i) {
      var j := SkipSpaces(s, i + |KEYWORD|);
      var k := SkipWord(s, j);
      if k > j && key == s[j..k] {
        assert IsMatchAt(s, key, i, j);
      } else {
        CollectedIsMatched(s, if k > j then k else i + 1, key);
      }
    } else {
      CollectedIsMatched(s, i + 1, key);
    }
  }

  /** A merged group's keys are the matched words of its members' bodies. */
  lemma KeysOfGroupAreMatched(files: Files, group: set<string>, key: string)
    requires key in KeysOfGroup(files, group)
    ensures exists m :: m in group && m in files && IsMatched(BodyOf(files[m].text), key)
  {
    var m :| m in group && m in files && key in KeysOf(BodyOf(files[m].text));
    CollectedIsMatched(BodyOf(files[m].text), 0, key);
  }
}
