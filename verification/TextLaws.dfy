/** What the string operations do, said without their recursions. */
module TextLaws {
  import opened Text

  // ---- Stripping ----

  predicate AllSpace(s: string) {
    forall i :: 0 <= i < |s| ==> IsSpace(s[i])
  }

  /** `t` is `s` without blank characters at its ends. */
  ghost predicate IsStripped(s: string, t: string) {
    && (t != [] ==> !IsSpace(t[0]) && !IsSpace(t[|t| - 1]))
    && exists a, b :: AllSpace(a) && AllSpace(b) && s == a + t + b
  }

  lemma {:induction false} LStripDrops(s: string) returns (a: string)
    ensures AllSpace(a) && s == a + LStrip(s) && (LStrip(s) != [] ==> !IsSpace(LStrip(s)[0]))
  {
    if s != [] && IsSpace(s[0]) {
      var rest := LStripDrops(s[1..]);
      a := [s[0]] + rest;
      assert s == [s[0]] + s[1..];
    } else {
      a := [];
    }
  }

  lemma {:induction false} RStripDrops(s: string) returns (b: string)
    ensures AllSpace(b) && s == RStrip(s) + b && (RStrip(s) != [] ==> !IsSpace(RStrip(s)[|RStrip(s)| - 1]))
  {
    if s != [] && IsSpace(s[|s| - 1]) {
      var rest := RStripDrops(s[..|s| - 1]);
      b := rest + [s[|s| - 1]];
      assert s == s[..|s| - 1] + [s[|s| - 1]];
    } else {
      b := [];
    }
  }

  lemma StripStrips(s: string)
    ensures IsStripped(s, Strip(s))
  {
    var a := LStripDrops(s);
    var b := RStripDrops(LStrip(s));
    assert s == a + Strip(s) + b;
    if Strip(s) != [] { assert Strip(s)[0] == LStrip(s)[0]; }
  }

  // ---- Line ends ----

  /** A carriage return becomes a line feed, together with a line feed that follows it. */
  lemma {:induction false} FirstReturnIsConverted(a: string, b: string)
    requires '\r' !in a
    ensures UniversalNewlines(a) == a
    ensures UniversalNewlines(a + "\r" + b)
            == a + "\n" + UniversalNewlines(if b != [] && b[0] == '\n' then b[1..] else b)
  {
    var s := a + "\r" + b;
    if a == [] {
      assert s[1..] == b && (b != [] ==> s[2..] == b[1..]);
    } else {
      assert s[1..] == a[1..] + "\r" + b;
      FirstReturnIsConverted(a[1..], b);
    }
  }

  lemma {:induction false} NoReturnIsLeft(s: string)
    ensures '\r' !in UniversalNewlines(s)
    decreases |s|
  {
    if s != [] {
      if s[0] == '\r' {
        NoReturnIsLeft(if |s| > 1 && s[1] == '\n' then s[2..] else s[1..]);
      } else {
        NoReturnIsLeft(s[1..]);
      }
    }
  }

  // ---- Words ----

  /** A word has characters, none of them blank. */
  predicate IsSolid(w: string) {
    w != [] && forall i :: 0 <= i < |w| ==> !IsSpace(w[i])
  }

  predicate AreSolid(ws: seq<string>) {
    forall i :: 0 <= i < |ws| ==> IsSolid(ws[i])
  }

  lemma {:induction false} WordLengthOf(w: string, rest: string)
    requires IsSolid(w) && (rest == [] || IsSpace(rest[0]))
    ensures WordLength(w + rest) == |w|
  {
    var s := w + rest;
    assert s[0] == w[0] && s[1..] == w[1..] + rest;
    if |w| > 1 {
      assert IsSolid(w[1..]);
      WordLengthOf(w[1..], rest);
    } else {
      assert s[1..] == rest;
    }
  }

  lemma {:induction false} WordsAreSolid(s: string)
    ensures AreSolid(Words(s))
    decreases |s|
  {
    if s != [] {
      if IsSpace(s[0]) {
        WordsAreSolid(s[1..]);
      } else {
        WordLengthIsSolid(s);
        WordsAreSolid(s[WordLength(s)..]);
      }
    }
  }

  lemma {:induction false} WordLengthIsSolid(s: string)
    ensures forall i :: 0 <= i < WordLength(s) ==> !IsSpace(s[i])
    ensures WordLength(s) < |s| ==> IsSpace(s[WordLength(s)])
  {
    if s != [] && !IsSpace(s[0]) { WordLengthIsSolid(s[1..]); }
  }

  /** A word in front, followed by blank text, is the first word; blank text in front plays no part. */
  lemma FirstWord(w: string, rest: string)
    requires IsSolid(w) && (rest == [] || IsSpace(rest[0]))
    ensures Words(w + rest) == [w] + Words(rest)
  {
    WordLengthOf(w, rest);
    var s := w + rest;
    assert s[..|w|] == w && s[|w|..] == rest && !IsSpace(s[0]);
  }

  lemma BlankInFront(c: char, rest: string)
    requires IsSpace(c)
    ensures Words([c] + rest) == Words(rest) && Words("") == []
  {
    assert ([c] + rest)[1..] == rest;
  }

  /** The words of words joined by blanks are these words. */
  lemma {:induction false} WordsOfJoined(ws: seq<string>)
    requires AreSolid(ws)
    ensures Words(Join(" ", ws)) == ws
  {
    if |ws| == 1 {
      FirstWord(ws[0], "");
      assert ws[0] + "" == ws[0] && ws == [ws[0]];
    } else if ws != [] {
      var rest := Join(" ", ws[1..]);
      WordsOfJoined(ws[1..]);
      FirstWord(ws[0], " " + rest);
      BlankInFront(' ', rest);
      assert ws[0] + " " + rest == ws[0] + (" " + rest) && [' '] + rest == " " + rest;
      assert ws == [ws[0]] + ws[1..];
    }
  }

  // ---- Case ----

  /** Equal but for the case of ASCII letters. */
  ghost predicate SameIgnoringCase(a: string, b: string) {
    |a| == |b| && forall i :: 0 <= i < |a| ==> a[i] == b[i] || AreCases(a[i], b[i]) || AreCases(b[i], a[i])
  }

  predicate AreCases(upper: char, lower: char) {
    'A' <= upper <= 'Z' && lower as int == upper as int + ('a' as int - 'A' as int)
  }

  lemma FoldingIgnoresCase(a: string, b: string)
    ensures EqualFold(a, b) <==> SameIgnoringCase(a, b)
  {
    if SameIgnoringCase(a, b) {
      forall i | 0 <= i < |a| ensures Folded(a)[i] == Folded(b)[i] {}
    }
    if EqualFold(a, b) {
      assert |Folded(a)| == |a| && |Folded(b)| == |b|;
      forall i | 0 <= i < |a| ensures a[i] == b[i] || AreCases(a[i], b[i]) || AreCases(b[i], a[i]) {
        assert Folded(a)[i] == Folded(b)[i];
        SameLower(a[i], b[i]);
      }
    }
  }

  lemma SameLower(c: char, d: char)
    requires Lower(c) == Lower(d)
    ensures c == d || AreCases(c, d) || AreCases(d, c)
  {}

  /** `word` occurs in `s`, whatever the case of its letters. */
  ghost predicate Mentions(s: string, word: string) {
    exists i: nat :: MentionsAt(s, word, i)
  }

  ghost predicate MentionsAt(s: string, word: string, i: nat) {
    i + |word| <= |s| && SameIgnoringCase(s[i..i + |word|], word)
  }

  /** Searching a folded text for a folded word ignores case. */
  lemma FoldedSearchIgnoresCase(s: string, word: string)
    requires Folded(word) == word
    ensures Contains(Folded(s), word) <==> Mentions(s, word)
  {
    forall i: nat | i + |word| <= |s| ensures OccursAt(Folded(s), word, i) <==> MentionsAt(s, word, i) {
      assert Folded(s)[i..i + |word|] == Folded(s[i..i + |word|]);
      FoldingIgnoresCase(s[i..i + |word|], word);
    }
    if i: nat :| i <= |Folded(s)| && OccursAt(Folded(s), word, i) { assert MentionsAt(s, word, i); }
    if i: nat :| MentionsAt(s, word, i) { assert OccursAt(Folded(s), word, i); }
  }
}
