/** The note that merging writes: its lines, the keys it marks, and what it cannot contain. */
module ConsolidationNotes {
  import opened Text
  import opened MemoryFiles
  import opened MemoryWriters
  import opened MemoryStores
  import opened MemoryNotes
  import opened MemorySections

  // ---- The note ----

  function Comments(keys: seq<string>): (r: seq<string>)
    ensures |r| == |keys| && forall i :: 0 <= i < |r| ==> r[i] == Comment(keys[i])
  {
    seq(|keys|, i requires 0 <= i < |keys| => Comment(keys[i]))
  }

  /** The note's lines; it starts with two empty ones and its last line is ended too. */
  function NoteLines(count: nat, stamp: string, keys: seq<string>): seq<string> {
    ["", "", "## Consolidation", "", "- merged-at: " + stamp, "- source-count: " + Decimal(count),
     Join("\n", Comments(keys))]
  }

  function Note(count: nat, stamp: string, keys: seq<string>): string {
    Unlines(NoteLines(count, stamp, keys))
  }

  /** The characters of an ISO 8601 timestamp. */
  predicate IsStamp(s: string) {
    forall i :: 0 <= i < |s| ==> '0' <= s[i] <= '9' || s[i] in {'-', ':', '.', '+', 'T', 'Z'}
  }

  /** `## M` at position `i`. */
  predicate HasMarkAt(s: string, i: nat) {
    i + 4 <= |s| && s[i] == '#' && s[i + 1] == '#' && s[i + 2] == ' ' && s[i + 3] == 'M'
  }

  ghost predicate IsMarkless(s: string) {
    forall i: nat :: !HasMarkAt(s, i)
  }

  /** What every line of the note satisfies, its last one over several lines. */
  ghost predicate IsNotePart(s: string) {
    IsMarkless(s) && '\r' !in s
  }

  lemma PartsAcrossBreak(a: string, b: string)
    requires IsNotePart(a) && IsNotePart(b)
    ensures IsNotePart(a + "\n" + b)
  {
    var s := a + "\n" + b;
    forall i: nat ensures !HasMarkAt(s, i) {
      if i + 4 <= |a| { assert !HasMarkAt(a, i); }
      if i > |a| { assert !HasMarkAt(b, i - |a| - 1); }
      assert s[|a|] == '\n';
    }
  }

  lemma {:induction false} UnlinesIsNotePart(lines: seq<string>)
    requires forall i :: 0 <= i < |lines| ==> IsNotePart(lines[i])
    ensures IsNotePart(Unlines(lines))
  {
    if lines != [] {
      UnlinesIsNotePart(lines[1..]);
      PartsAcrossBreak(lines[0], Unlines(lines[1..]));
    }
  }

  lemma {:induction false} JoinIsNotePart(parts: seq<string>)
    requires forall i :: 0 <= i < |parts| ==> IsNotePart(parts[i])
    ensures IsNotePart(Join("\n", parts))
  {
    if |parts| > 1 {
      JoinIsNotePart(parts[1..]);
      PartsAcrossBreak(parts[0], Join("\n", parts[1..]));
    }
  }

  /** The spaces of a comment stand behind dashes, a colon, or in front of the closing dashes. */
  lemma CommentIsNotePart(key: string)
    requires IsKey(key)
    ensures IsNotePart(Comment(key))
  {
    var head, tail := "<!-- logical-key: ", " -->";
    var s := Comment(key);
    assert s == head + key + tail && |head| == 18;
    forall i: nat ensures !HasMarkAt(s, i) {
      if i + 4 <= |s| {
        if i + 2 < 18 {
          assert s[i] == head[i];
        } else if i + 2 < 18 + |key| {
          assert s[i + 2] == key[i - 16] && !IsSpace(key[i - 16]) && IsSpace(' ');
        } else {
          assert s[i + 3] == tail[i + 3 - 18 - |key|];
        }
      }
    }
    CommentHasNoReturn(key);
    assert forall i :: 0 <= i < |s| ==> s[i] == (s + "\n")[i];
  }

  lemma PlainLineIsNotePart(s: string)
    requires forall i :: 0 <= i < |s| ==> s[i] != '#' && s[i] != '\r'
    ensures IsNotePart(s)
  {}

  lemma NoteIsNotePart(count: nat, stamp: string, keys: seq<string>)
    requires IsStamp(stamp) && forall i :: 0 <= i < |keys| ==> IsKey(keys[i])
    ensures IsNotePart(Note(count, stamp, keys))
  {
    forall i | 0 <= i < |keys| ensures IsNotePart(Comments(keys)[i]) { CommentIsNotePart(keys[i]); }
    JoinIsNotePart(Comments(keys));
    PlainLineIsNotePart("- merged-at: " + stamp);
    PlainLineIsNotePart("- source-count: " + Decimal(count));
    PlainLineIsNotePart("");
    assert IsNotePart("## Consolidation");
    UnlinesIsNotePart(NoteLines(count, stamp, keys));
  }

  lemma {:induction false} JoinEndsPlain(parts: seq<string>)
    requires parts != [] && forall i :: 0 <= i < |parts| ==> EndsPlain(parts[i])
    ensures EndsPlain(Join("\n", parts))
  {
    if |parts| > 1 {
      JoinEndsPlain(parts[1..]);
      AppendedEndsPlain(parts[0] + "\n", Join("\n", parts[1..]));
    }
  }

  lemma CommentLineEndsPlain(key: string)
    ensures EndsPlain(Comment(key))
  {
    CommentEndsPlain(key);
    assert !IsSpace('>');
  }

  lemma BlankBehind(s: string, w: string)
    requires EndsPlain(s) && IsBlank(w)
    ensures EndsPlain(s + w)
  {
    RStripBlank(s, w);
  }

  lemma CountEndsPlain(count: nat)
    ensures EndsPlain(Decimal(count))
  {
    var d := Decimal(count);
    assert '0' <= d[|d| - 1] <= '9';
    assert !IsSpace(d[|d| - 1]);
  }

  lemma NoteEnd(count: nat, keys: seq<string>)
    ensures EndsPlain(Decimal(count) + "\n" + (Join("\n", Comments(keys)) + "\n"))
  {
    var joined := Join("\n", Comments(keys));
    assert IsBlank("\n");
    if keys == [] {
      CountEndsPlain(count);
      assert joined == [];
      assert Decimal(count) + "\n" + (joined + "\n") == Decimal(count) + "\n\n";
      assert IsBlank("\n\n");
      BlankBehind(Decimal(count), "\n\n");
    } else {
      forall i | 0 <= i < |keys| ensures EndsPlain(Comments(keys)[i]) { CommentLineEndsPlain(keys[i]); }
      JoinEndsPlain(Comments(keys));
      BlankBehind(joined, "\n");
      AppendedEndsPlain(Decimal(count) + "\n", joined + "\n");
    }
  }

  /** The text of the note up to the count, and from the count on. */
  lemma NoteSplits(count: nat, stamp: string, keys: seq<string>) returns (head: string)
    ensures Note(count, stamp, keys) == head + (Decimal(count) + "\n" + (Join("\n", Comments(keys)) + "\n"))
    ensures |head| >= 5 && head[..5] == "\n\n## "
  {
    var joined := Join("\n", Comments(keys));
    var first := ["", "", "## Consolidation", "", "- merged-at: " + stamp];
    var last := ["- source-count: " + Decimal(count), joined];
    assert NoteLines(count, stamp, keys) == first + last;
    UnlinesOfConcat(first, last);
    assert Unlines(last) == "- source-count: " + (Decimal(count) + "\n" + (joined + "\n")) by {
      assert last[1..] == [joined] && [joined][1..] == [];
      assert Unlines([joined]) == joined + "\n";
    }
    head := Unlines(first) + "- source-count: ";
    FirstLines(first);
  }

  lemma FirstLines(lines: seq<string>)
    requires |lines| >= 3 && lines[0] == "" && lines[1] == "" && lines[2] == "## Consolidation"
    ensures |Unlines(lines)| >= 5 && Unlines(lines)[..5] == "\n\n## "
  {
    var rest := Unlines(lines[1..][1..][1..]);
    assert Unlines(lines[1..][1..]) == "## Consolidation" + "\n" + rest;
    assert Unlines(lines[1..]) == "\n" + Unlines(lines[1..][1..]);
    assert Unlines(lines) == "\n" + Unlines(lines[1..]);
  }

  lemma NoteIsNote(count: nat, stamp: string, keys: seq<string>)
    requires IsStamp(stamp) && forall i :: 0 <= i < |keys| ==> IsKey(keys[i])
    ensures IsNote(Note(count, stamp, keys))
  {
    var head := NoteSplits(count, stamp, keys);
    var tail := Decimal(count) + "\n" + (Join("\n", Comments(keys)) + "\n");
    NoteEnd(count, keys);
    AppendedEndsPlain(head, tail);
    NoteIsNotePart(count, stamp, keys);
    assert (head + tail)[..5] == head[..5];
  }

  const MODIFICATION := "Modification"

  lemma NoModificationInNote(note: string)
    requires IsNotePart(note)
    ensures forall j: nat :: !OccursAt(note, "## " + MODIFICATION, j)
  {
    forall j: nat ensures !OccursAt(note, "## " + MODIFICATION, j) {
      if OccursAt(note, "## " + MODIFICATION, j) {
        CharAt(note, "## " + MODIFICATION, j, 0);
        CharAt(note, "## " + MODIFICATION, j, 1);
        CharAt(note, "## " + MODIFICATION, j, 2);
        CharAt(note, "## " + MODIFICATION, j, 3);
        assert HasMarkAt(note, j);
      }
    }
  }

  lemma {:induction false} JoinHolds(parts: seq<string>, i: nat)
    requires i < |parts|
    ensures Contains(Join("\n", parts), parts[i])
  {
    if |parts| == 1 {
      assert parts[0] == [] + parts[0] + [];
      ContainsPart(parts[0], [], parts[0], []);
    } else if i == 0 {
      ContainsPart(Join("\n", parts), [], parts[0], "\n" + Join("\n", parts[1..]));
    } else {
      JoinHolds(parts[1..], i - 1);
      ContainsPart(Join("\n", parts), parts[0] + "\n", Join("\n", parts[1..]), []);
      ContainsTransitive(Join("\n", parts), Join("\n", parts[1..]), parts[i]);
    }
  }

  /** Every key handed to the note is marked in the body that carries it. */
  lemma NoteMarks(body: string, count: nat, stamp: string, keys: seq<string>, i: nat)
    requires i < |keys| && |Note(count, stamp, keys)| >= 2
    ensures IsMarked(BodyWith(body, Note(count, stamp, keys)), keys[i])
  {
    var note, joined := Note(count, stamp, keys), Join("\n", Comments(keys));
    var head := NoteSplits(count, stamp, keys);
    var front := (if body == [] then head[2..] else RStrip(body) + head) + (Decimal(count) + "\n");
    assert BodyWith(body, note) == front + joined + "\n";
    ContainsPart(BodyWith(body, note), front, joined, "\n");
    JoinHolds(Comments(keys), i);
    ContainsTransitive(BodyWith(body, note), joined, Comment(keys[i]));
  }
}
