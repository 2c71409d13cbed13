/** The two-row Levenshtein loop of the metadata provider, proved to compute the
    length of a shortest sequence of single-character edits. */
module Levenshtein {

  // ---- The reference: free rewriting, one character at a time, in any order ----

  /** `b` is `a` with one character inserted. */
  ghost predicate Inserts(a: string, b: string) {
    exists i: nat, c: char :: InsertsAt(a, b, i, c)
  }

  ghost predicate InsertsAt(a: string, b: string, i: nat, c: char) {
    i <= |a| && b == a[..i] + [c] + a[i..]
  }

  /** `b` is `a` with one character replaced. */
  ghost predicate Substitutes(a: string, b: string) {
    exists i: nat, c: char :: SubstitutesAt(a, b, i, c)
  }

  ghost predicate SubstitutesAt(a: string, b: string, i: nat, c: char) {
    i < |a| && b == a[..i] + [c] + a[i + 1..]
  }

  /** One insertion, deletion or substitution. */
  ghost predicate OneEdit(a: string, b: string) {
    Inserts(a, b) || Inserts(b, a) || Substitutes(a, b)
  }

  /** `p` lists the strings met while rewriting `left` into `right`; it uses |p| - 1 edits. */
  ghost predicate IsRewriting(p: seq<string>, left: string, right: string) {
    && |p| >= 1 && p[0] == left && p[|p| - 1] == right
    && forall i :: 0 <= i < |p| - 1 ==> OneEdit(p[i], p[i + 1])
  }

  /** `d` is the least number of edits that turn `left` into `right`. */
  ghost predicate IsLeastEditCount(left: string, right: string, d: nat) {
    && (exists p :: IsRewriting(p, left, right) && |p| - 1 == d)
    && (forall p :: IsRewriting(p, left, right) ==> d <= |p| - 1)
  }

  // ---- The recurrence the loop fills in ----

  function Min(a: nat, b: nat): nat { if a <= b then a else b }

  function Mismatch(a: char, b: char): nat { if a == b then 0 else 1 }

  function Distance(left: string, right: string): nat
    decreases |left| + |right|
  {
    if |left| == 0 then |right|
    else if |right| == 0 then |left|
    else
      var l, r := left[..|left| - 1], right[..|right| - 1];
      Min(Min(Distance(left, r) + 1, Distance(l, right) + 1),
          Distance(l, r) + Mismatch(left[|left| - 1], right[|right| - 1]))
  }

  // ---- Metric laws ----

  lemma {:induction false} DistanceBounds(left: string, right: string)
    ensures Distance(left, right) <= |left| || Distance(left, right) <= |right|
    ensures |left| - |right| <= Distance(left, right)
    ensures |right| - |left| <= Distance(left, right)
    decreases |left| + |right|
  {
    if |left| > 0 && |right| > 0 {
      var l, r := left[..|left| - 1], right[..|right| - 1];
      DistanceBounds(l, right);
      DistanceBounds(left, r);
      DistanceBounds(l, r);
    }
  }

  lemma {:induction false} DistanceZeroIffEqual(left: string, right: string)
    ensures Distance(left, right) == 0 <==> left == right
    decreases |left| + |right|
  {
    if |left| > 0 && |right| > 0 {
      var l, r := left[..|left| - 1], right[..|right| - 1];
      assert left == l + [left[|left| - 1]] && right == r + [right[|right| - 1]];
      DistanceZeroIffEqual(l, r);
    }
  }

  lemma {:induction false} DistanceSymmetric(left: string, right: string)
    ensures Distance(left, right) == Distance(right, left)
    decreases |left| + |right|
  {
    if |left| > 0 && |right| > 0 {
      var l, r := left[..|left| - 1], right[..|right| - 1];
      DistanceSymmetric(l, right);
      DistanceSymmetric(left, r);
      DistanceSymmetric(l, r);
    }
  }

  /** One more character on one side changes the distance by at most one. */
  lemma DistanceStep(left: string, right: string)
    ensures |left| > 0 ==> Distance(left, right) <= Distance(left[..|left| - 1], right) + 1
    ensures |right| > 0 ==> Distance(left, right) <= Distance(left, right[..|right| - 1]) + 1
  {
    DistanceBounds(left, right);
    if |left| > 0 { DistanceBounds(left[..|left| - 1], right); }
    if |right| > 0 { DistanceBounds(left, right[..|right| - 1]); }
  }

  lemma {:induction false} TriangleInequality(a: string, b: string, c: string)
    ensures Distance(a, c) <= Distance(a, b) + Distance(b, c)
    decreases |a| + |b| + |c|
  {
    DistanceBounds(a, c);
    if |a| > 0 && |b| > 0 && |c| > 0 {
      var a', b', c' := a[..|a| - 1], b[..|b| - 1], c[..|c| - 1];
      TriangleInequality(a', b, c);
      TriangleInequality(a, b, c');
      TriangleInequality(a, b', c);
      TriangleInequality(a, b', c');
      TriangleInequality(a', b', c);
      TriangleInequality(a', b', c');
      DistanceStep(a, c);
    } else {
      DistanceBounds(a, b);
      DistanceBounds(b, c);
      TriangleWithEmpty(a, b, c);
    }
  }

  lemma TriangleWithEmpty(a: string, b: string, c: string)
    requires |a| == 0 || |b| == 0 || |c| == 0
    ensures Distance(a, c) <= Distance(a, b) + Distance(b, c)
  {
    DistanceBounds(a, c);
    DistanceBounds(a, b);
    DistanceBounds(b, c);
  }

  // ---- Distance is the least edit count ----

  /** A common suffix never adds edits. */
  lemma {:induction false} CommonSuffix(a: string, b: string, suffix: string)
    ensures Distance(a + suffix, b + suffix) <= Distance(a, b)
    decreases |suffix|
  {
    if suffix == [] {
      assert a + suffix == a && b + suffix == b;
    } else {
      var rest := suffix[..|suffix| - 1];
      assert (a + suffix)[..|a + suffix| - 1] == a + rest;
      assert (b + suffix)[..|b + suffix| - 1] == b + rest;
      CommonSuffix(a, b, rest);
    }
  }

  lemma InsertCostsOne(a: string, b: string)
    requires Inserts(a, b)
    ensures Distance(a, b) <= 1
  {
    var i: nat, c: char :| InsertsAt(a, b, i, c);
    CommonSuffix(a[..i], a[..i] + [c], a[i..]);
    assert a[..i] + a[i..] == a;
    DistanceZeroIffEqual(a[..i], a[..i]);
    assert (a[..i] + [c])[..i] == a[..i];
    DistanceStep(a[..i], a[..i] + [c]);
  }

  lemma LastSubstitution(p: string, c: char, d: char)
    ensures Distance(p + [c], p + [d]) <= 1
  {
    assert (p + [c])[..|p|] == p && (p + [d])[..|p|] == p;
    DistanceZeroIffEqual(p, p);
  }

  lemma SubstituteCostsOne(a: string, b: string, i: nat, c: char)
    requires SubstitutesAt(a, b, i, c)
    ensures Distance(a, b) <= 1
  {
    var p, rest := a[..i], a[i + 1..];
    assert p + [a[i]] + rest == a;
    assert p + [c] + rest == b;
    LastSubstitution(p, a[i], c);
    CommonSuffix(p + [a[i]], p + [c], rest);
  }

  lemma OneEditCostsOne(a: string, b: string)
    requires OneEdit(a, b)
    ensures Distance(a, b) <= 1
  {
    if Inserts(a, b) {
      InsertCostsOne(a, b);
    } else if Inserts(b, a) {
      InsertCostsOne(b, a);
      DistanceSymmetric(a, b);
    } else {
      var i: nat, c: char :| SubstitutesAt(a, b, i, c);
      SubstituteCostsOne(a, b, i, c);
    }
  }

  /** No rewriting, whatever its order, is shorter than the distance. */
  lemma {:induction false} NoShorterRewriting(p: seq<string>, left: string, right: string)
    requires IsRewriting(p, left, right)
    ensures Distance(left, right) <= |p| - 1
    decreases |p|
  {
    if |p| == 1 {
      DistanceZeroIffEqual(left, right);
    } else {
      OneEditCostsOne(p[0], p[1]);
      NoShorterRewriting(p[1..], p[1], right);
      TriangleInequality(left, p[1], right);
    }
  }

  /** Appends `c` to every string on the way. */
  function AppendToAll(p: seq<string>, c: char): (r: seq<string>)
    ensures |r| == |p| && forall i :: 0 <= i < |p| ==> r[i] == p[i] + [c]
  {
    seq(|p|, i requires 0 <= i < |p| => p[i] + [c])
  }

  lemma OneEditUnderSuffix(a: string, b: string, c: char)
    requires OneEdit(a, b)
    ensures OneEdit(a + [c], b + [c])
  {
    if Inserts(a, b) {
      var i: nat, d: char :| InsertsAt(a, b, i, d);
      assert InsertsAt(a + [c], b + [c], i, d);
    } else if Inserts(b, a) {
      var i: nat, d: char :| InsertsAt(b, a, i, d);
      assert InsertsAt(b + [c], a + [c], i, d);
    } else {
      var i: nat, d: char :| SubstitutesAt(a, b, i, d);
      assert SubstitutesAt(a + [c], b + [c], i, d);
    }
  }

  lemma RewritingUnderSuffix(p: seq<string>, left: string, right: string, c: char)
    requires IsRewriting(p, left, right)
    ensures IsRewriting(AppendToAll(p, c), left + [c], right + [c])
  {
    forall i | 0 <= i < |p| - 1
      ensures OneEdit(AppendToAll(p, c)[i], AppendToAll(p, c)[i + 1])
    {
      OneEditUnderSuffix(p[i], p[i + 1], c);
    }
  }

  lemma PrependEdit(a: string, p: seq<string>, left: string, right: string)
    requires IsRewriting(p, left, right) && OneEdit(a, left)
    ensures IsRewriting([a] + p, a, right)
  {
    var q := [a] + p;
    forall i | 0 <= i < |q| - 1 ensures OneEdit(q[i], q[i + 1]) {
      if i > 0 { assert q[i] == p[i - 1] && q[i + 1] == p[i]; }
    }
  }

  lemma AppendEdit(p: seq<string>, left: string, right: string, b: string)
    requires IsRewriting(p, left, right) && OneEdit(right, b)
    ensures IsRewriting(p + [b], left, b)
  {
    var q := p + [b];
    forall i | 0 <= i < |q| - 1 ensures OneEdit(q[i], q[i + 1]) {
      if i < |p| - 1 { assert q[i] == p[i] && q[i + 1] == p[i + 1]; }
    }
  }

  lemma LastCharacterEdits(a: string)
    requires a != []
    ensures OneEdit(a, a[..|a| - 1]) && OneEdit(a[..|a| - 1], a)
  {
    assert InsertsAt(a[..|a| - 1], a, |a| - 1, a[|a| - 1]);
  }

  /** A rewriting that uses exactly Distance(left, right) edits. */
  lemma {:induction false} ShortestRewriting(left: string, right: string) returns (p: seq<string>)
    ensures IsRewriting(p, left, right) && |p| - 1 == Distance(left, right)
    decreases |left| + |right|
  {
    if left == [] && right == [] {
      p := [left];
    } else if right == [] || (left != [] && Distance(left, right) == Distance(left[..|left| - 1], right) + 1) {
      var l := left[..|left| - 1];                    // delete the last character first
      LastCharacterEdits(left);
      var q := ShortestRewriting(l, right);
      PrependEdit(left, q, l, right);
      p := [left] + q;
    } else if left == [] || Distance(left, right) == Distance(left, right[..|right| - 1]) + 1 {
      var r := right[..|right| - 1];                  // insert the last character at the end
      LastCharacterEdits(right);
      var q := ShortestRewriting(left, r);
      AppendEdit(q, left, r, right);
      p := q + [right];
    } else {
      var l, r := left[..|left| - 1], right[..|right| - 1];
      var c, d := left[|left| - 1], right[|right| - 1];
      var q := ShortestRewriting(l, r);
      p := RewritingOfLast(q, l, r, c, d);
      assert l + [c] == left && r + [d] == right;
    }
  }

  /** Handles the last characters `c` and `d` after the rest has been rewritten. */
  lemma RewritingOfLast(q: seq<string>, l: string, r: string, c: char, d: char) returns (p: seq<string>)
    requires IsRewriting(q, l, r)
    ensures IsRewriting(p, l + [c], r + [d]) && |p| == |q| + Mismatch(c, d)
  {
    RewritingUnderSuffix(q, l, r, c);
    p := AppendToAll(q, c);
    if c != d {
      assert SubstitutesAt(r + [c], r + [d], |r|, d);
      AppendEdit(p, l + [c], r + [c], r + [d]);
      p := p + [r + [d]];
    }
  }

  lemma DistanceIsLeastEditCount(left: string, right: string)
    ensures IsLeastEditCount(left, right, Distance(left, right))
  {
    var p := ShortestRewriting(left, right);
    assert IsRewriting(p, left, right);
    forall q | IsRewriting(q, left, right)
      ensures Distance(left, right) <= |q| - 1
    {
      NoShorterRewriting(q, left, right);
    }
  }

  // ---- The loop ----

  /** The first |row| entries of the table row for `left`. */
  ghost predicate IsRow(row: seq<nat>, left: string, right: string) {
    && |row| <= |right| + 1
    && forall j :: 0 <= j < |row| ==> row[j] == Distance(left, right[..j])
  }

  lemma NextEntry(left: string, i: nat, right: string, j: nat, previous: seq<nat>, current: seq<nat>)
    requires i < |left| && j < |right|
    requires |previous| == |right| + 1 && IsRow(previous, left[..i], right)
    requires |current| == j + 1 && IsRow(current, left[..i + 1], right)
    ensures Distance(left[..i + 1], right[..j + 1])
         == Min(Min(current[j] + 1, previous[j + 1] + 1), previous[j] + Mismatch(left[i], right[j]))
  {
    assert left[..i + 1][..i] == left[..i] && right[..j + 1][..j] == right[..j];
  }

  lemma RowGrows(row: seq<nat>, left: string, right: string, d: nat)
    requires |row| <= |right| && IsRow(row, left, right) && d == Distance(left, right[..|row|])
    ensures IsRow(row + [d], left, right)
  {}

  /** Two rows are kept: `previous` for left[..i], `current` for left[..i + 1]. */
  method EditDistance(left: string, right: string) returns (distance: nat)
    ensures IsLeastEditCount(left, right, distance)
    ensures distance == Distance(left, right)
  {
    var previous: seq<nat> := seq(|right| + 1, j requires 0 <= j => j);
    for i := 0 to |left|
      invariant |previous| == |right| + 1 && IsRow(previous, left[..i], right)
    {
      var current: seq<nat> := [i + 1];
      for j := 0 to |right|
        invariant |current| == j + 1 && IsRow(current, left[..i + 1], right)
      {
        var entry := Min(Min(current[|current| - 1] + 1, previous[j + 1] + 1),
                         previous[j] + Mismatch(left[i], right[j]));
        NextEntry(left, i, right, j, previous, current);
        RowGrows(current, left[..i + 1], right, entry);
        current := current + [entry];
      }
      previous := current;
    }
    distance := previous[|previous| - 1];
    assert left[..|left|] == left && right[..|right|] == right;
    DistanceIsLeastEditCount(left, right);
  }
}
