/** What is read back of the fields of a written experience. */
module WrittenFields {
  import opened Options
  import opened Text
  import opened MemoryWriters
  import opened MemorySections
  import opened FoundKeys
  import opened LostKeys
  import opened MemorySignatures

  /** The titles of the sections in which fields are written. */
  function TitleAt(k: nat): (title: string)
    requires k < 5
    ensures '\n' !in title
  {
    if k == 0 then "Problem" else if k == 1 then "Original SQL" else if k == 2 then "Error"
    else if k == 3 then "Confirmed SQL" else "Modification"
  }

  /** The field of each section, as it is written. */
  function FieldAt(e: Experience, k: nat): string
    requires k < 5
  {
    if k == 0 then BodyField(e.description) else if k == 1 then e.originalSql
    else if k == 2 then BodyField(e.errorSummary) else if k == 3 then e.confirmedSql else BodyField(e.modification)
  }

  /** Everything in front of section `k`. */
  function FrontOf(e: Experience, k: nat): string
    requires k <= 5
  {
    if k == 0 then "" else FrontOf(e, k - 1) + Section(TitleAt(k - 1), FieldAt(e, k - 1))
  }

  /** Section `k` and everything behind it. */
  function RestOf(e: Experience, k: nat): string
    requires k <= 5
    decreases 5 - k
  {
    if k == 5 then Section("Applicable Conditions", CONDITIONS) + Comment(LogicalKey(e)) + "\n"
    else Section(TitleAt(k), FieldAt(e, k)) + RestOf(e, k + 1)
  }

  lemma SixParts(p: string, o: string, r: string, c: string, m: string, a: string, comment: string, end: string)
    ensures p + o + r + c + m + a + comment + end == "" + p + o + r + c + m + (a + comment + end)
  {}

  lemma AllInFront(e: Experience)
    ensures FrontOf(e, 5) + RestOf(e, 5) == BodyText(e)
  {
    SixParts(Section("Problem", BodyField(e.description)), Section("Original SQL", e.originalSql),
             Section("Error", BodyField(e.errorSummary)), Section("Confirmed SQL", e.confirmedSql),
             Section("Modification", BodyField(e.modification)), Section("Applicable Conditions", CONDITIONS),
             Comment(LogicalKey(e)), "\n");
    FrontOfAll(e);
  }

  lemma FrontOfAll(e: Experience)
    ensures FrontOf(e, 5) == "" + Section("Problem", BodyField(e.description)) + Section("Original SQL", e.originalSql)
                             + Section("Error", BodyField(e.errorSummary)) + Section("Confirmed SQL", e.confirmedSql)
                             + Section("Modification", BodyField(e.modification))
  {
    assert FrontOf(e, 1) == "" + Section("Problem", BodyField(e.description));
    assert FrontOf(e, 2) == FrontOf(e, 1) + Section("Original SQL", e.originalSql);
    assert FrontOf(e, 3) == FrontOf(e, 2) + Section("Error", BodyField(e.errorSummary));
    assert FrontOf(e, 4) == FrontOf(e, 3) + Section("Confirmed SQL", e.confirmedSql);
  }

  lemma {:induction false} BodySplits(e: Experience, k: nat)
    requires k <= 5
    ensures BodyText(e) == FrontOf(e, k) + RestOf(e, k)
    decreases 5 - k
  {
    if k == 5 { AllInFront(e); } else {
      BodySplits(e, k + 1);
      Regrouped(FrontOf(e, k), Section(TitleAt(k), FieldAt(e, k)), RestOf(e, k + 1));
    }
  }

  lemma Regrouped(a: string, b: string, c: string)
    ensures a + b + c == a + (b + c)
  {}

  lemma RestStartsWithTitle(e: Experience, k: nat)
    requires k <= 5
    ensures "## " <= RestOf(e, k)
  {
    if k == 5 {
      var comment := Comment(LogicalKey(e)) + "\n";
      StartsWithTitleToo("Applicable Conditions", CONDITIONS, comment);
      Regrouped(Section("Applicable Conditions", CONDITIONS), Comment(LogicalKey(e)), "\n");
    } else {
      StartsWithTitleToo(TitleAt(k), FieldAt(e, k), RestOf(e, k + 1));
    }
  }

  lemma StartsWithTitleToo(title: string, text: string, rest: string)
    ensures "## " <= Section(title, text) + rest
  {}

  lemma FrontEndsLine(e: Experience, k: nat)
    requires k <= 5
    ensures k == 0 || EndsLine(FrontOf(e, k))
  {
    if k > 0 { SectionEndsLine(FrontOf(e, k - 1), TitleAt(k - 1), FieldAt(e, k - 1)); }
  }

  lemma SectionEndsLine(front: string, title: string, text: string)
    ensures EndsLine(front + Section(title, text))
  {}

  /** A section without an earlier mention of its title is read back, stripped, exactly when no line is a title. */
  lemma SectionIsReadBackIff(front: string, title: string, text: string, rest: string)
    requires (front == "" || EndsLine(front)) && '\n' !in title && "## " <= rest
    requires !Contains(front, "## " + title)
    ensures SectionOf(front + (Section(title, text) + rest), title) == Strip(text) <==> !HasTitle(text)
  {
    var mark := "## " + title;
    var s := front + (Section(title, text) + rest);
    SectionParts(title, text, rest);
    MarkIsFound(front, Section(title, text) + rest, mark);
    BehindFront(front, Section(title, text) + rest, |mark|);
    SectionIs(s, mark, |front|, "\n\n" + text + ("\n\n" + rest));
    assert ("\n\n" + rest)[..5] == "\n\n## ";
    UpToOwnEnd(text, "\n\n" + rest);
  }

  lemma BehindFront(front: string, z: string, n: nat)
    requires n <= |z|
    ensures (front + z)[|front| + n..] == z[n..]
  {}

  lemma SectionParts(title: string, text: string, rest: string)
    ensures var (mark, s) := ("## " + title, Section(title, text) + rest);
            mark <= s && s[|mark|..] == "\n\n" + text + ("\n\n" + rest)
  {
    var mark := "## " + title;
    assert Section(title, text) + rest == mark + ("\n\n" + text + ("\n\n" + rest));
  }

  lemma MarkIsFound(front: string, text: string, mark: string)
    requires (front == "" || EndsLine(front)) && IsLinePart(mark) && !Contains(front, mark) && mark <= text
    ensures FindFrom(front + text, mark, 0) == Some(|front|)
  {
    if front == "" {
      assert front + text == text && text[0..|mark|] == mark;
    } else {
      FoundBehind(front, text, mark);
    }
  }

  /** Every field of a written experience is read back under exactly that condition. */
  lemma FieldIsReadBackIff(e: Experience, k: nat)
    requires k < 5 && !Contains(FrontOf(e, k), "## " + TitleAt(k))
    ensures SectionOf(BodyText(e), TitleAt(k)) == Strip(FieldAt(e, k)) <==> !HasTitle(FieldAt(e, k))
  {
    var front, rest := SplitAt(e, k);
    SectionIsReadBackIff(front, TitleAt(k), FieldAt(e, k), rest);
  }

  lemma SplitAt(e: Experience, k: nat) returns (front: string, rest: string)
    requires k < 5
    ensures BodyText(e) == front + (Section(TitleAt(k), FieldAt(e, k)) + rest)
    ensures front == FrontOf(e, k) && (front == "" || EndsLine(front)) && "## " <= rest
  {
    BodySplits(e, k);
    FrontEndsLine(e, k);
    RestStartsWithTitle(e, k + 1);
    front, rest := FrontOf(e, k), RestOf(e, k + 1);
  }

  /** The problem stands first, so nothing can come before it. */
  lemma ProblemIsReadBackIff(e: Experience)
    ensures SectionOf(BodyText(e), "Problem") == Strip(BodyField(e.description))
            <==> !HasTitle(BodyField(e.description))
  {
    assert !Contains("", "## " + TitleAt(0));
    FieldIsReadBackIff(e, 0);
  }
}
