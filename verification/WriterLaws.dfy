/** What the writer makes of plain fields, and how keywords and numbers are written. */
module WriterLaws {
  import opened Text
  import opened TextLaws
  import opened MemoryFiles
  import opened MemoryWriters
  import opened MemoryStores
  import opened LostKeys

  // ---- Fields ----

  /** A field is cut at its limit and otherwise changed only where it has fences. */
  lemma BodyFieldIs(value: string)
    ensures var field := ReplaceFences(value, "—");
            BodyField(value) <= field && |BodyField(value)| == (if |field| <= 20000 then |field| else 20000)
    ensures IsFenceless(value) ==> BodyField(value) == if |value| <= 20000 then value else value[..20000]
  {
    if IsFenceless(value) { FencelessStays(value, "—"); }
  }

  /** The first fence is replaced, and what follows it is treated alike. */
  lemma {:induction false} FirstFenceIsReplaced(a: string, b: string, mark: string)
    requires forall i: nat :: i < |a| ==> !IsFenceAt(a + "---" + b, i)
    ensures ReplaceFences(a + "---" + b, mark) == a + mark + ReplaceFences(b, mark)
    decreases |a|
  {
    var s := a + "---" + b;
    if a == [] {
      assert s[3..] == b && IsFenceAt(s, 0);
    } else {
      var t := a[1..] + "---" + b;
      assert s[1..] == t;
      forall i: nat | i < |a[1..]| ensures !IsFenceAt(t, i) { assert !IsFenceAt(s, i + 1); }
      FirstFenceIsReplaced(a[1..], b, mark);
      assert !IsFenceAt(s, 0);
    }
  }

  /** The description's words on one line, cut at its limit. */
  lemma SingleLineIs(value: string)
    ensures var line := Join(" ", Words(ReplaceFences(value, "")));
            && SingleLine(value) <= line && |SingleLine(value)| == (if |line| <= 500 then |line| else 500)
            && Words(line) == Words(ReplaceFences(value, ""))
    ensures IsFenceless(value) ==> ReplaceFences(value, "") == value
  {
    WordsAreSolid(ReplaceFences(value, ""));
    WordsOfJoined(Words(ReplaceFences(value, "")));
    if IsFenceless(value) { FencelessStays(value, ""); }
  }

  // ---- Keywords ----

  ghost predicate AreOnce(s: seq<string>) {
    forall i, j :: 0 <= i < j < |s| ==> s[i] != s[j]
  }

  /** Known keywords are kept once, in the order of their first mention. */
  lemma {:induction false} DeduplicatedKeepsFirst(a: seq<string>, b: seq<string>, vocabulary: set<string>)
    ensures AreOnce(Deduplicated(a + b, vocabulary))
    ensures Deduplicated(a, vocabulary) <= Deduplicated(a + b, vocabulary)
    decreases |a| + |b|
  {
    if b != [] {
      DeduplicatedKeepsFirst(a, b[..|b| - 1], vocabulary);
      assert (a + b)[..|a + b| - 1] == a + b[..|b| - 1];
    } else if a != [] {
      DeduplicatedKeepsFirst(a[..|a| - 1], [], vocabulary);
      assert a + b == a && a[..|a| - 1] + [] == a[..|a| - 1];
    }
  }

  /** Unknown keywords are dropped; when none is left the experience is filed under `unknown`. */
  lemma NormalizedIs(keywords: seq<string>, vocabulary: set<string>)
    ensures var r := Normalize(keywords, vocabulary);
            && (r == ["unknown"] || forall k :: k in r <==> k in keywords && k in vocabulary)
            && ((exists k :: k in keywords && k in vocabulary) ==>
                  r == Deduplicated(keywords, vocabulary))
            && ((forall k :: k in keywords ==> k !in vocabulary) ==> r == ["unknown"])
  {
    var known := Deduplicated(keywords, vocabulary);
    if known != [] { assert known[0] in known; }
  }

  // ---- Logical keys ----

  /** Two attempts of one session have different keys; where ids have no colon, any two different attempts do. */
  lemma LogicalKeysDiffer(e: Experience, f: Experience)
    requires e.sessionId == f.sessionId || (':' !in e.sessionId && ':' !in f.sessionId)
    ensures LogicalKey(e) == LogicalKey(f) <==> e.sessionId == f.sessionId && e.attemptId == f.attemptId
  {
    if LogicalKey(e) == LogicalKey(f) {
      SameSplit(e.sessionId, e.attemptId, f.sessionId, f.attemptId);
    }
  }

  lemma SameSplit(a: string, x: string, b: string, y: string)
    requires a + ":" + x == b + ":" + y && (a == b || (':' !in a && ':' !in b))
    ensures a == b && x == y
  {
    var s, t := a + ":" + x, b + ":" + y;
    assert s[|a|] == ':' && t[|b|] == ':';
    assert forall i :: 0 <= i < |a| ==> s[i] == a[i];
    assert forall i :: 0 <= i < |b| ==> t[i] == b[i];
    assert |a| == |b|;
    assert a == s[..|a|] && b == t[..|b|] && x == s[|a| + 1..] && y == t[|b| + 1..];
  }

  // ---- Numbers ----

  function DigitsValue(s: string): nat
    requires forall i :: 0 <= i < |s| ==> '0' <= s[i] <= '9'
  {
    if s == [] then 0 else 10 * DigitsValue(s[..|s| - 1]) + (s[|s| - 1] as int - '0' as int)
  }

  /** The digits of a number stand for it. */
  lemma {:induction false} DecimalStandsFor(n: nat)
    ensures DigitsValue(Decimal(n)) == n
  {
    if n >= 10 {
      DecimalStandsFor(n / 10);
      var r := Decimal(n);
      assert r[..|r| - 1] == Decimal(n / 10);
    } else {
      assert DigitsValue(Decimal(n)[..0]) == 0;
    }
  }
}
