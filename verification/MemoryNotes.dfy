/** The note that consolidation appends to a surviving experience, and what it leaves unchanged. */
module MemoryNotes {
  import opened Text
  import opened MemoryFiles
  import opened MemoryWriters
  import opened MemoryStores

  // ---- Whitespace at the ends ----

  predicate IsBlank(s: string) {
    forall i :: 0 <= i < |s| ==> IsSpace(s[i])
  }

  /** The part that stripping on the right removes. */
  lemma {:induction false} RStripSplits(s: string) returns (w: string)
    ensures s == RStrip(s) + w && IsBlank(w)
    ensures RStrip(s) != [] ==> !IsSpace(RStrip(s)[|RStrip(s)| - 1])
    decreases |s|
  {
    if s != [] && IsSpace(s[|s| - 1]) {
      var v := RStripSplits(s[..|s| - 1]);
      w := v + [s[|s| - 1]];
    } else {
      w := [];
    }
  }

  lemma {:induction false} RStripBlank(s: string, w: string)
    requires IsBlank(w)
    ensures RStrip(s + w) == RStrip(s)
    decreases |w|
  {
    if w == [] {
      assert s + w == s;
    } else {
      assert (s + w)[..|s + w| - 1] == s + w[..|w| - 1];
      RStripBlank(s, w[..|w| - 1]);
    }
  }

  lemma RStripAfterSolid(a: string, b: string)
    requires a != [] && !IsSpace(a[|a| - 1])
    ensures RStrip(a + b) == a + RStrip(b)
  {
    if RStrip(b) == [] {
      var w := RStripSplits(b);
      assert b == w;
      RStripBlank(a, w);
    } else {
      RStripKeepsPrefix(a, b);
    }
  }

  lemma {:induction false} LStripBefore(a: string, b: string)
    requires !IsBlank(a)
    ensures LStrip(a + b) == LStrip(a) + b
  {
    if IsSpace(a[0]) {
      assert (a + b)[1..] == a[1..] + b;
      LStripBefore(a[1..], b);
    }
  }

  lemma {:induction false} LStripOfBlank(a: string, b: string)
    requires IsBlank(a)
    ensures LStrip(a + b) == LStrip(b)
  {
    if a == [] {
      assert a + b == b;
    } else {
      assert (a + b)[1..] == a[1..] + b;
      LStripOfBlank(a[1..], b);
    }
  }

  lemma {:induction false} LStripStarts(s: string)
    ensures LStrip(s) == [] <==> IsBlank(s)
    ensures LStrip(s) != [] ==> !IsSpace(LStrip(s)[0])
  {
    if s != [] && IsSpace(s[0]) {
      LStripStarts(s[1..]);
      assert forall i :: 0 < i < |s| ==> s[i] == s[1..][i - 1];
    }
  }

  /** Blank text after `s` does not matter once both ends are stripped. */
  lemma StripBlank(s: string, w: string)
    requires IsBlank(w)
    ensures Strip(s + w) == Strip(s)
  {
    if IsBlank(s) {
      LStripStarts(s + w);
      LStripStarts(s);
    } else {
      LStripBefore(s, w);
      RStripBlank(LStrip(s), w);
    }
  }

  // ---- Appending to a file ----

  /** The canonical file's text without trailing whitespace, followed by the note. */
  function Appended(text: string, note: string): string {
    RStrip(UniversalNewlines(text)) + note
  }

  ghost predicate IsNote(note: string) {
    |note| >= 5 && note[..5] == "\n\n## " && '\r' !in note && EndsPlain(note)
  }

  lemma RStripLayout(lines: seq<string>, rest: string)
    ensures RStrip(Layout(lines, rest)) == Layout(lines, RStrip(rest))
  {
    var head := Layout(lines, []);
    LayoutAndMore(lines, [], rest);
    LayoutAndMore(lines, [], RStrip(rest));
    assert [] + rest == rest && [] + RStrip(rest) == RStrip(rest);
    assert head == FENCE + "\n" + Unlines(lines) + FENCE;
    RStripAfterSolid(head, rest);
  }

  lemma StrippedStart(rest: string)
    requires rest == [] || rest[0] == '\n'
    ensures RStrip(rest) == [] || RStrip(rest)[0] == '\n'
  {
    var w := RStripSplits(rest);
  }

  lemma NoReturnAppended(text: string, note: string)
    requires '\r' !in note
    ensures UniversalNewlines(Appended(text, note)) == Appended(text, note)
  {
    NewlinesFixedIff(text);
    var w := RStripSplits(UniversalNewlines(text));
    assert '\r' !in RStrip(UniversalNewlines(text));
    NewlinesFixedIff(Appended(text, note));
  }

  lemma AppendedEndsPlain(a: string, note: string)
    requires EndsPlain(note)
    ensures EndsPlain(a + note)
  {
    RStripKeepsPrefix(a, note);
  }

  lemma AppendedIsLaidOut(text: string, lines: seq<string>, rest: string, note: string)
    requires IsLaidOut(text, lines, rest) && IsNote(note)
    ensures IsLaidOut(Appended(text, note), lines, RStrip(rest) + note)
  {
    NoReturnAppended(text, note);
    RStripLayout(lines, rest);
    LayoutAndMore(lines, RStrip(rest), note);
    StrippedStart(rest);
    assert note[0] == note[..5][0];
  }

  /** The layout with the same header; the note goes behind the rest. */
  lemma AppendedIsExperience(text: string, lines: seq<string>, rest: string, note: string)
    requires IsExperienceWith(text, lines, rest) && IsNote(note)
    ensures IsExperienceWith(Appended(text, note), lines, RStrip(rest) + note)
  {
    AppendedIsLaidOut(text, lines, rest, note);
    NoReturnAppended(text, note);
    AppendedEndsPlain(RStrip(UniversalNewlines(text)), note);
  }

  /** The body read back after appending. */
  function BodyWith(body: string, note: string): string
    requires |note| >= 2
  {
    if body == [] then note[2..] else RStrip(body) + note
  }

  /** Stripping the two ends in either order; the solid end stays. */
  lemma StripsCommute(s: string)
    requires !IsBlank(s)
    ensures RStrip(LStrip(s)) == LStrip(RStrip(s)) != []
    ensures RStrip(s) != [] && RStrip(LStrip(s))[|RStrip(LStrip(s))| - 1] == RStrip(s)[|RStrip(s)| - 1]
    ensures !IsBlank(RStrip(s))
  {
    var w := RStripSplits(s);
    assert !IsBlank(RStrip(s));
    LStripBefore(RStrip(s), w);
    RStripBlank(LStrip(RStrip(s)), w);
    StrippedIsStripped(RStrip(s));
    LStripKeepsEnd(RStrip(s));
  }

  lemma AppendedRest(rest: string, note: string)
    requires IsNote(note)
    ensures LStrip(RStrip(rest) + note) == BodyWith(LStrip(rest), note)
  {
    LStripStarts(rest);
    if IsBlank(rest) {
      var w := RStripSplits(rest);
      assert forall i :: 0 <= i < |RStrip(rest)| ==> RStrip(rest)[i] == rest[i];
      LStripOfBlank(RStrip(rest), note);
      NoteStart(note);
    } else {
      StripsCommute(rest);
      LStripBefore(RStrip(rest), note);
    }
  }

  lemma NoteStart(note: string)
    requires IsNote(note)
    ensures LStrip(note) == note[2..]
  {
    var head := note[..5];
    assert note[0] == head[0] == '\n' && note[1] == head[1] == '\n' && note[2] == head[2] == '#';
    assert note == "\n\n" + note[2..];
    assert IsSpace('\n') && IsBlank("\n\n");
    assert !IsSpace('#');
    LStripOfBlank("\n\n", note[2..]);
  }

  /** Stripping on the left keeps a solid end. */
  lemma StrippedIsStripped(s: string)
    requires s != [] && !IsSpace(s[|s| - 1])
    ensures RStrip(LStrip(s)) == LStrip(s)
  {
    LStripKeepsEnd(s);
  }

  lemma {:induction false} LStripKeepsEnd(s: string)
    requires s != [] && !IsSpace(s[|s| - 1])
    ensures LStrip(s) != [] && LStrip(s)[|LStrip(s)| - 1] == s[|s| - 1]
  {
    if IsSpace(s[0]) { LStripKeepsEnd(s[1..]); }
  }

  /** Header and experience survive; the body is the old one with the note. */
  lemma AppendKeepsHeader(text: string, note: string)
    requires IsExperience(text) && IsNote(note)
    ensures IsExperience(Appended(text, note))
    ensures KeywordsOf(Appended(text, note)) == KeywordsOf(text)
    ensures BodyOf(Appended(text, note)) == BodyWith(BodyOf(text), note)
  {
    var lines, rest :| IsExperienceWith(text, lines, rest);
    AppendedIsExperience(text, lines, rest, note);
    HeaderIsSeen(text, lines, rest);
    BodyIsSeen(text, lines, rest);
    HeaderIsSeen(Appended(text, note), lines, RStrip(rest) + note);
    BodyIsSeen(Appended(text, note), lines, RStrip(rest) + note);
    AppendedRest(rest, note);
  }

  lemma RestEndsPlain(text: string, lines: seq<string>, rest: string)
    requires IsExperienceWith(text, lines, rest) && RStrip(rest) != []
    ensures RStrip(rest)[|RStrip(rest)| - 1] != '#'
  {
    RStripLayout(lines, rest);
    LayoutAndMore(lines, [], RStrip(rest));
    assert [] + RStrip(rest) == RStrip(rest);
  }

  lemma BodyEndsPlain(text: string)
    requires IsExperience(text) && BodyOf(text) != []
    ensures EndsPlain(BodyOf(text))
  {
    var lines, rest :| IsExperienceWith(text, lines, rest);
    BodyIsSeen(text, lines, rest);
    LStripStarts(rest);
    StripsCommute(rest);
    RestEndsPlain(text, lines, rest);
  }
}
