/** Merging experiences with equal signatures: one survivor each, no key lost, nothing left to merge. */
module MemoryConsolidation {
  import opened Collections
  import opened Text
  import opened Names
  import opened MemoryFiles
  import opened MemoryStores
  import opened MemoryNotes
  import opened MemorySections
  import opened ConsolidationNotes

  // ---- Signatures ----

  function Insert(x: string, sorted: seq<string>): (r: seq<string>)
    ensures multiset(r) == multiset(sorted) + multiset{x}
  {
    if sorted == [] || Before(x, sorted[0]) then [x] + sorted
    else
      assert sorted == [sorted[0]] + sorted[1..];
      [sorted[0]] + Insert(x, sorted[1..])
  }

  /** `sorted(keywords)`, repetitions kept. */
  function SortList(s: seq<string>): (r: seq<string>)
    ensures multiset(r) == multiset(s)
  {
    if s == [] then []
    else
      assert s == [s[0]] + s[1..];
      Insert(s[0], SortList(s[1..]))
  }

  /** The hashed payload of a signature; the hash is injective, so the payload stands for it. */
  function Signature(text: string, shape: string -> string): string {
    Join(",", SortList(KeywordsOf(text))) + "|" + shape(SectionOf(BodyOf(text), MODIFICATION))
  }

  predicate IsField(s: string) {
    s != [] && ',' !in s && '|' !in s
  }

  lemma {:induction false} JoinHasNoBar(parts: seq<string>)
    requires forall i :: 0 <= i < |parts| ==> IsField(parts[i])
    ensures '|' !in Join(",", parts) && (parts != [] ==> Join(",", parts) != [])
  {
    if |parts| > 1 { JoinHasNoBar(parts[1..]); }
  }

  function FieldLength(s: string, mark: char): nat {
    if s == [] || s[0] == mark then 0 else 1 + FieldLength(s[1..], mark)
  }

  lemma {:induction false} FieldLengthIs(a: string, x: string, mark: char)
    requires mark !in a
    ensures FieldLength(a + [mark] + x, mark) == |a|
  {
    if a != [] {
      assert (a + [mark] + x)[1..] == a[1..] + [mark] + x;
      FieldLengthIs(a[1..], x, mark);
    }
  }

  /** The text in front of the first mark is determined. */
  lemma FirstFieldIsDetermined(a: string, b: string, x: string, y: string, mark: char)
    requires mark !in a && mark !in b && a + [mark] + x == b + [mark] + y
    ensures a == b && x == y
  {
    FieldLengthIs(a, x, mark);
    FieldLengthIs(b, y, mark);
    var s := a + [mark] + x;
    assert s[..|a|] == a && s[|a| + 1..] == x;
    assert (b + [mark] + y)[..|b|] == b && (b + [mark] + y)[|b| + 1..] == y;
  }

  lemma CommaIffMany(parts: seq<string>)
    requires forall i :: 0 <= i < |parts| ==> IsField(parts[i])
    ensures ',' in Join(",", parts) <==> |parts| > 1
    ensures Join(",", parts) == [] <==> parts == []
  {
    if |parts| > 1 { assert Join(",", parts)[|parts[0]|] == ','; }
  }

  lemma {:induction false} JoinIsInjective(xs: seq<string>, ys: seq<string>)
    requires forall i :: 0 <= i < |xs| ==> IsField(xs[i])
    requires forall i :: 0 <= i < |ys| ==> IsField(ys[i])
    requires Join(",", xs) == Join(",", ys)
    ensures xs == ys
  {
    CommaIffMany(xs);
    CommaIffMany(ys);
    if |xs| > 1 {
      FirstFieldIsDetermined(xs[0], ys[0], Join(",", xs[1..]), Join(",", ys[1..]), ',');
      JoinIsInjective(xs[1..], ys[1..]);
      assert xs == [xs[0]] + xs[1..] && ys == [ys[0]] + ys[1..];
    }
  }

  /** Experiences with equal signatures carry the same keywords. */
  lemma SameSignatureSameKeywords(a: string, b: string, shape: string -> string, k: string)
    requires IsExperience(a) && IsExperience(b) && Signature(a, shape) == Signature(b, shape)
    ensures k in KeywordsOf(a) <==> k in KeywordsOf(b)
  {
    var xs, ys := SortList(KeywordsOf(a)), SortList(KeywordsOf(b));
    SortedAreFields(a);
    SortedAreFields(b);
    JoinHasNoBar(xs);
    JoinHasNoBar(ys);
    FirstFieldIsDetermined(Join(",", xs), Join(",", ys), shape(SectionOf(BodyOf(a), MODIFICATION)),
                           shape(SectionOf(BodyOf(b), MODIFICATION)), '|');
    JoinIsInjective(xs, ys);
    assert k in multiset(xs) <==> k in multiset(ys);
  }

  lemma SortedAreFields(text: string)
    requires IsExperience(text)
    ensures forall i :: 0 <= i < |SortList(KeywordsOf(text))| ==> IsField(SortList(KeywordsOf(text))[i])
  {
    ExperiencesParse(text);
    var xs := SortList(KeywordsOf(text));
    forall i | 0 <= i < |xs| ensures IsField(xs[i]) {
      assert xs[i] in multiset(xs);
      assert xs[i] in KeywordsOf(text);
    }
  }

  lemma NoteKeepsSection(text: string, note: string, title: string)
    requires IsExperience(text) && IsNote(note)
    requires title != [] && '\n' !in title && !IsSpace(title[|title| - 1])
    requires forall j: nat :: !OccursAt(note, "## " + title, j)
    ensures IsExperience(Appended(text, note)) && KeywordsOf(Appended(text, note)) == KeywordsOf(text)
    ensures SectionOf(BodyOf(Appended(text, note)), title) == SectionOf(BodyOf(text), title)
  {
    AppendKeepsHeader(text, note);
    if BodyOf(text) != [] { BodyEndsPlain(text); }
    SectionIsKept(BodyOf(text), title, note);
  }

  lemma NoteKeepsModification(text: string, note: string)
    requires IsExperience(text) && IsNote(note) && IsNotePart(note)
    ensures IsExperience(Appended(text, note)) && KeywordsOf(Appended(text, note)) == KeywordsOf(text)
    ensures SectionOf(BodyOf(Appended(text, note)), MODIFICATION) == SectionOf(BodyOf(text), MODIFICATION)
  {
    NoModificationInNote(note);
    assert !IsSpace('n');
    NoteKeepsSection(text, note, MODIFICATION);
  }

  /** The note changes neither keywords nor the modification, so it keeps the signature. */
  lemma NoteKeepsSignature(text: string, shape: string -> string, count: nat, stamp: string, keys: seq<string>)
    requires IsExperience(text) && IsStamp(stamp) && AreKeys(keys)
    ensures Signature(Appended(text, Note(count, stamp, keys)), shape) == Signature(text, shape)
  {
    NoteIsNote(count, stamp, keys);
    NoteIsNotePart(count, stamp, keys);
    NoteKeepsModification(text, Note(count, stamp, keys));
  }

  // ---- Groups and survivors, for any signature ----

  predicate Shares(files: Files, sign: string -> string, sig: string, id: string) {
    id in files && sign(files[id].text) == sig
  }

  function Group(files: Files, sign: string -> string, sig: string): set<string> {
    set id | id in files.Keys && Shares(files, sign, sig, id)
  }

  /** The members of an experience's group, itself included. */
  function GroupOf(files: Files, sign: string -> string, id: string): (g: set<string>)
    requires id in files
    ensures id in g
  {
    Group(files, sign, sign(files[id].text))
  }

  function Leader(files: Files, sign: string -> string, id: string): (m: string)
    requires id in files
    ensures m in files && sign(files[m].text) == sign(files[id].text)
  {
    Least(GroupOf(files, sign, id))
  }

  function KeysOfGroup(files: Files, group: set<string>): set<string> {
    set m, key | m in group && m in files && key in KeysOf(BodyOf(files[m].text)) :: key
  }

  /** What a merge takes from outside: the timestamps of the notes and the files' new modification time. */
  datatype Clock = Clock(stamps: string -> string, now: int)

  ghost predicate IsClock(clock: Clock) {
    forall id :: IsStamp(clock.stamps(id))
  }

  function MergedFile(files: Files, group: set<string>, id: string, clock: Clock): File
    requires id in files
  {
    File(Appended(files[id].text, Note(|group|, clock.stamps(id), Sorted(KeysOfGroup(files, group)))), clock.now)
  }

  /** The files once the groups led by `done` are merged. */
  function After(files: Files, sign: string -> string, clock: Clock, done: set<string>): Files {
    map id | id in files.Keys && (Leader(files, sign, id) in done ==> Leader(files, sign, id) == id) ::
      if Leader(files, sign, id) == id && id in done && |GroupOf(files, sign, id)| > 1
      then MergedFile(files, GroupOf(files, sign, id), id, clock) else files[id]
  }

  function Consolidated(files: Files, sign: string -> string, clock: Clock): Files {
    After(files, sign, clock, files.Keys)
  }

  lemma LeaderLeadsItself(files: Files, sign: string -> string, id: string)
    requires id in files
    ensures Leader(files, sign, Leader(files, sign, id)) == Leader(files, sign, id)
    ensures Before(Leader(files, sign, id), id)
  {}

  lemma KeysAreKeys(files: Files, group: set<string>)
    ensures forall i :: 0 <= i < |Sorted(KeysOfGroup(files, group))| ==> IsKey(Sorted(KeysOfGroup(files, group))[i])
  {
    var keys := KeysOfGroup(files, group);
    SortedListsAll(keys);
    forall i | 0 <= i < |Sorted(keys)| ensures IsKey(Sorted(keys)[i]) {
      assert Sorted(keys)[i] in Sorted(keys);
      var m :| m in group && m in files && Sorted(keys)[i] in KeysOf(BodyOf(files[m].text));
      FoundKeysAreKeys(BodyOf(files[m].text), 0);
    }
  }

  /** What a signature needs for merging to be safe: notes keep it, and it determines the keywords. */
  ghost predicate IsSignature(sign: string -> string) {
    && (forall text, count, stamp, keys :: IsExperience(text) && IsStamp(stamp) && AreKeys(keys) ==>
          sign(Appended(text, Note(count, stamp, keys))) == sign(text))
    && (forall a, b, k :: IsExperience(a) && IsExperience(b) && sign(a) == sign(b) && k in KeywordsOf(a) ==>
        k in KeywordsOf(b))
  }

  ghost predicate AreKeys(keys: seq<string>) {
    forall i :: 0 <= i < |keys| ==> IsKey(keys[i])
  }

  function SignatureBy(shape: string -> string): string -> string {
    text => Signature(text, shape)
  }

  /** The consolidator's signature is one, whatever the shape of a modification is taken to be. */
  lemma SignatureIsSignature(shape: string -> string)
    ensures IsSignature(SignatureBy(shape))
  {
    forall text, count, stamp, keys | IsExperience(text) && IsStamp(stamp) && AreKeys(keys)
      ensures SignatureBy(shape)(Appended(text, Note(count, stamp, keys))) == SignatureBy(shape)(text)
    {
      NoteKeepsSignature(text, shape, count, stamp, keys);
    }
    forall a, b, k | IsExperience(a) && IsExperience(b) && SignatureBy(shape)(a) == SignatureBy(shape)(b)
      && k in KeywordsOf(a)
      ensures k in KeywordsOf(b)
    {
      SameSignatureSameKeywords(a, b, shape, k);
    }
  }

  // ---- What consolidation keeps ----

  lemma MergedKeepsKind(files: Files, group: set<string>, id: string, clock: Clock, sign: string -> string)
    requires AllExperiences(files) && IsClock(clock) && IsSignature(sign) && id in files
    ensures var text := MergedFile(files, group, id, clock).text;
            IsExperience(text) && KeywordsOf(text) == KeywordsOf(files[id].text) && sign(text) == sign(files[id].text)
  {
    var keys := Sorted(KeysOfGroup(files, group));
    KeysAreKeys(files, group);
    assert AreKeys(keys);
    NoteIsNote(|group|, clock.stamps(id), keys);
    AppendKeepsHeader(files[id].text, Note(|group|, clock.stamps(id), keys));
  }

  /** Survivors stay experiences with their keywords and signatures. */
  lemma SurvivorKeepsKind(files: Files, sign: string -> string, clock: Clock, id: string)
    requires AllExperiences(files) && IsClock(clock) && IsSignature(sign) && id in Consolidated(files, sign, clock)
    ensures var text := Consolidated(files, sign, clock)[id].text;
            IsExperience(text) && KeywordsOf(text) == KeywordsOf(files[id].text) && sign(text) == sign(files[id].text)
  {
    MergedKeepsKind(files, GroupOf(files, sign, id), id, clock, sign);
  }

  /** One survivor per signature: the least id, and every signature keeps one. */
  lemma OneSurvivorPerSignature(files: Files, sign: string -> string, clock: Clock)
    requires AllExperiences(files) && IsClock(clock) && IsSignature(sign)
    ensures var merged := Consolidated(files, sign, clock);
            && AllExperiences(merged)
            && (forall a, b :: a in merged && b in merged && sign(merged[a].text) == sign(merged[b].text) ==> a == b)
            && (forall id :: id in files ==>
                  && Leader(files, sign, id) in merged && Before(Leader(files, sign, id), id)
                  && sign(merged[Leader(files, sign, id)].text) == sign(files[id].text))
  {
    var merged := Consolidated(files, sign, clock);
    forall id | id in merged
      ensures IsExperience(merged[id].text) && sign(merged[id].text) == sign(files[id].text)
    {
      SurvivorKeepsKind(files, sign, clock, id);
    }
    forall a, b | a in merged && b in merged && sign(merged[a].text) == sign(merged[b].text) ensures a == b {
      assert Leader(files, sign, a) == a && Leader(files, sign, b) == b;
    }
    forall id | id in files
      ensures Leader(files, sign, id) in merged && Before(Leader(files, sign, id), id)
    {
      LeaderLeadsItself(files, sign, id);
    }
  }

  lemma LoneGroup(files: Files, sign: string -> string, id: string)
    requires id in files && forall other :: other in files && sign(files[other].text) == sign(files[id].text) ==>
               other == id
    ensures GroupOf(files, sign, id) == {id} && Leader(files, sign, id) == id
  {}

  /** Where all signatures differ there is nothing to merge. */
  lemma NothingToMerge(files: Files, sign: string -> string, clock: Clock)
    requires forall a, b :: a in files && b in files && sign(files[a].text) == sign(files[b].text) ==> a == b
    ensures Consolidated(files, sign, clock) == files
  {
    forall id | id in files ensures GroupOf(files, sign, id) == {id} && Leader(files, sign, id) == id {
      LoneGroup(files, sign, id);
    }
  }

  /** A second run finds nothing to merge. */
  lemma SecondRunMergesNothing(files: Files, sign: string -> string, clock: Clock, later: Clock)
    requires AllExperiences(files) && IsClock(clock) && IsSignature(sign)
    ensures var merged := Consolidated(files, sign, clock); Consolidated(merged, sign, later) == merged
  {
    OneSurvivorPerSignature(files, sign, clock);
    NothingToMerge(Consolidated(files, sign, clock), sign, later);
  }

  /** A key that some experience marks stays marked, so it can still be found. */
  lemma KeysAreConserved(files: Files, sign: string -> string, clock: Clock, id: string, key: string)
    requires AllExperiences(files) && IsClock(clock)
    requires id in files && IsKey(key) && IsMarked(BodyOf(files[id].text), key)
    ensures var merged := Consolidated(files, sign, clock);
            && Leader(files, sign, id) in merged && IsMarked(BodyOf(merged[Leader(files, sign, id)].text), key)
            && FoundId(merged, key).Some?
  {
    var merged, m := Consolidated(files, sign, clock), Leader(files, sign, id);
    LeaderLeadsItself(files, sign, id);
    SurvivorText(files, sign, clock, id, m);
    MergedMarks(files, GroupOf(files, sign, m), id, m, clock, key);
    MarkedIsFindable(BodyOf(merged[m].text), key);
    FoundIff(merged, key);
  }

  /** The leader's new file: merged, or unchanged when it is alone and so is `id` itself. */
  lemma SurvivorText(files: Files, sign: string -> string, clock: Clock, id: string, m: string)
    requires id in files && m == Leader(files, sign, id)
    ensures var merged := Consolidated(files, sign, clock);
            && m in merged && id in GroupOf(files, sign, m)
            && (merged[m] == MergedFile(files, GroupOf(files, sign, m), m, clock) || (merged[m] == files[m] && id == m))
  {
    LeaderLeadsItself(files, sign, id);
    var group := GroupOf(files, sign, m);
    SubsetSize({id, m}, group);
    assert id != m ==> |{id, m}| == 2;
  }

  lemma MergedMarks(files: Files, group: set<string>, id: string, m: string, clock: Clock, key: string)
    requires AllExperiences(files) && IsClock(clock) && id in files && m in files && id in group
    requires IsKey(key) && IsMarked(BodyOf(files[id].text), key)
    ensures IsMarked(BodyOf(MergedFile(files, group, m, clock).text), key)
  {
    var keys := KeysOfGroup(files, group);
    MarkedIsKept(BodyOf(files[id].text), key);
    assert key in keys;
    SortedListsAll(keys);
    KeysAreKeys(files, group);
    var i :| 0 <= i < |Sorted(keys)| && Sorted(keys)[i] == key;
    NoteMarksText(files[m].text, |group|, clock.stamps(m), Sorted(keys), i);
  }

  lemma NoteMarksText(text: string, count: nat, stamp: string, keys: seq<string>, i: nat)
    requires IsExperience(text) && IsStamp(stamp) && AreKeys(keys) && i < |keys|
    ensures IsMarked(BodyOf(Appended(text, Note(count, stamp, keys))), keys[i])
  {
    NoteIsNote(count, stamp, keys);
    AppendKeepsHeader(text, Note(count, stamp, keys));
    NoteMarks(BodyOf(text), count, stamp, keys, i);
  }

  /** Every keyword keeps an experience, and no keyword is new. */
  lemma KeywordsAreConserved(files: Files, sign: string -> string, clock: Clock, k: string)
    requires AllExperiences(files) && IsClock(clock) && IsSignature(sign)
    ensures var merged := Consolidated(files, sign, clock);
            Carriers(merged, merged.Keys, k) != {} <==> Carriers(files, files.Keys, k) != {}
  {
    var merged := Consolidated(files, sign, clock);
    if id :| id in Carriers(files, files.Keys, k) {
      var m := Leader(files, sign, id);
      LeaderLeadsItself(files, sign, id);
      assert k in KeywordsOf(files[m].text);
      SurvivorKeepsKind(files, sign, clock, m);
      assert m in Carriers(merged, merged.Keys, k);
    }
    if id :| id in Carriers(merged, merged.Keys, k) {
      SurvivorKeepsKind(files, sign, clock, id);
      assert id in Carriers(files, files.Keys, k);
    }
  }

  // ---- The consolidator ----

  datatype Report = Report(scanned: nat, groups: seq<seq<string>>, merged: nat)

  /** The groups with more than one member, by their least members, among the groups led by `ids`. */
  function GroupsLedBy(files: Files, sign: string -> string, ids: seq<string>): seq<seq<string>>
    requires forall i :: 0 <= i < |ids| ==> ids[i] in files
  {
    if ids == [] then []
    else
      var last := ids[|ids| - 1];
      var group := GroupOf(files, sign, last);
      GroupsLedBy(files, sign, ids[..|ids| - 1]) + if Leader(files, sign, last) == last && |group| > 1
        then [Sorted(group)] else []
  }

  ghost predicate IsBucketing(buckets: map<string, seq<string>>, files: Files, sign: string -> string,
                              ids: seq<string>) {
    forall sig ::
      && (sig in buckets <==> Select(ids, id => Shares(files, sign, sig, id)) != [])
      && (sig in buckets ==> buckets[sig] == Select(ids, id => Shares(files, sign, sig, id)))
  }

  lemma {:induction false} SelectSnoc(ids: seq<string>, id: string, keep: string -> bool)
    ensures Select(ids + [id], keep) == Select(ids, keep) + if keep(id) then [id] else []
  {
    if ids == [] {
      assert [] + [id] == [id];
    } else {
      assert (ids + [id])[1..] == ids[1..] + [id];
      SelectSnoc(ids[1..], id, keep);
    }
  }

  lemma BucketNext(buckets: map<string, seq<string>>, files: Files, sign: string -> string, ids: seq<string>,
                   id: string)
    requires IsBucketing(buckets, files, sign, ids) && id in files
    ensures var sig := sign(files[id].text);
            IsBucketing(buckets[sig := (if sig in buckets then buckets[sig] else []) + [id]], files, sign, ids + [id])
  {
    var own := sign(files[id].text);
    var next := buckets[own := (if own in buckets then buckets[own] else []) + [id]];
    forall sig
      ensures (sig in next <==> Select(ids + [id], x => Shares(files, sign, sig, x)) != [])
              && (sig in next ==> next[sig] == Select(ids + [id], x => Shares(files, sign, sig, x)))
    {
      SelectSnoc(ids, id, x => Shares(files, sign, sig, x));
    }
  }

  /** Once all ids are in, a bucket is its group in sorted order. */
  lemma BucketIsGroup(buckets: map<string, seq<string>>, files: Files, sign: string -> string, id: string)
    requires IsBucketing(buckets, files, sign, Sorted(files.Keys)) && id in files
    ensures var sig := sign(files[id].text); sig in buckets && buckets[sig] == Sorted(GroupOf(files, sign, id))
  {
    var sig := sign(files[id].text);
    var keep := x => Shares(files, sign, sig, x);
    SelectFromSorted(files.Keys, keep);
    assert (set x | x in files.Keys && keep(x)) == Group(files, sign, sig);
    SortedListsAll(Group(files, sign, sig));
    assert id in Sorted(Group(files, sign, sig));
  }

  method FillBuckets(files: Files, sign: string -> string, ids: seq<string>) returns (buckets: map<string, seq<string>>)
    requires forall i :: 0 <= i < |ids| ==> ids[i] in files
    ensures IsBucketing(buckets, files, sign, ids)
  {
    buckets := map[];
    for i := 0 to |ids|
      invariant IsBucketing(buckets, files, sign, ids[..i])
    {
      var sig := sign(files[ids[i]].text);
      BucketNext(buckets, files, sign, ids[..i], ids[i]);
      assert ids[..i + 1] == ids[..i] + [ids[i]];
      buckets := buckets[sig := (if sig in buckets then buckets[sig] else []) + [ids[i]]];
    }
    assert ids[..|ids|] == ids;
  }

  /** One more id: it contributes its bucket when it leads one with several members. */
  lemma NextGroup(buckets: map<string, seq<string>>, files: Files, sign: string -> string, ids: seq<string>, i: nat)
    requires ids == Sorted(files.Keys) && IsBucketing(buckets, files, sign, ids) && i < |ids|
    requires forall k :: 0 <= k < |ids| ==> ids[k] in files
    ensures sign(files[ids[i]].text) in buckets && buckets[sign(files[ids[i]].text)] != []
    ensures var members := buckets[sign(files[ids[i]].text)];
            GroupsLedBy(files, sign, ids[..i + 1])
            == GroupsLedBy(files, sign, ids[..i]) + if |members| > 1 && members[0] == ids[i] then [members] else []
  {
    BucketIsGroup(buckets, files, sign, ids[i]);
    SortedListsAll(GroupOf(files, sign, ids[i]));
    assert ids[..i + 1][..i] == ids[..i];
  }

  /** The buckets with several members, in the order of their first ones. */
  method ListGroups(buckets: map<string, seq<string>>, files: Files, sign: string -> string, ids: seq<string>)
    returns (groups: seq<seq<string>>)
    requires ids == Sorted(files.Keys) && IsBucketing(buckets, files, sign, ids)
    requires forall i :: 0 <= i < |ids| ==> ids[i] in files
    ensures groups == GroupsLedBy(files, sign, ids)
  {
    groups := [];
    for i := 0 to |ids|
      invariant groups == GroupsLedBy(files, sign, ids[..i])
    {
      NextGroup(buckets, files, sign, ids, i);
      var members := buckets[sign(files[ids[i]].text)];
      if |members| > 1 && members[0] == ids[i] { groups := groups + [members]; }
    }
    assert ids[..|ids|] == ids;
  }

  /** Fills the buckets and lists the groups to merge. */
  method FindGroups(files: Files, sign: string -> string) returns (ids: seq<string>, groups: seq<seq<string>>)
    ensures ids == Sorted(files.Keys) && forall i :: 0 <= i < |ids| ==> ids[i] in files
    ensures groups == GroupsLedBy(files, sign, ids)
  {
    ids := Sorted(files.Keys);
    SortedListsAll(files.Keys);
    assert forall i :: 0 <= i < |ids| ==> ids[i] in ids;
    var buckets := FillBuckets(files, sign, ids);
    groups := ListGroups(buckets, files, sign, ids);
  }

  // ---- Merging ----

  /** All keys found in the members' bodies. */
  method CollectKeys(files: Files, members: seq<string>) returns (keys: set<string>)
    requires forall i :: 0 <= i < |members| ==> members[i] in files
    ensures keys == KeysOfGroup(files, Elements(members))
  {
    keys := {};
    for i := 0 to |members|
      invariant keys == KeysOfGroup(files, Elements(members[..i]))
    {
      var found := KeysOf(BodyOf(files[members[i]].text));
      ElementsGrow(members, i);
      keys := keys + set k | k in found;
    }
    assert members[..|members|] == members;
  }

  ghost predicate AreDistinct(members: seq<string>) {
    forall i, j :: 0 <= i < j < |members| ==> members[i] != members[j]
  }

  /** Deletes every member but the first. */
  method DeleteOthers(files: Files, members: seq<string>) returns (rest: Files, deleted: nat)
    requires members != [] && AreDistinct(members) && forall i :: 0 <= i < |members| ==> members[i] in files
    ensures rest == files - Elements(members[1..]) && |rest| + deleted == |files|
  {
    rest, deleted := files, 0;
    ghost var gone: set<string> := {};
    for i := 1 to |members|
      invariant gone == Elements(members[1..i])
      invariant rest == files - gone && |rest| + deleted == |files|
    {
      OneMore(members, i);
      DeleteOne(files, gone, members[i]);
      gone := gone + {members[i]};
      rest := rest - {members[i]};
      deleted := deleted + 1;
    }
    assert members[1..|members|] == members[1..];
  }

  lemma OneMore(members: seq<string>, i: nat)
    requires 1 <= i < |members| && AreDistinct(members)
    ensures Elements(members[1..i + 1]) == Elements(members[1..i]) + {members[i]}
            && members[i] !in Elements(members[1..i])
  {
    assert members[1..i + 1] == members[1..i] + [members[i]];
  }

  /** Keeps the first member with a note and deletes the others. */
  method MergeGroup(files: Files, members: seq<string>, clock: Clock) returns (merged: Files, deleted: nat)
    requires members != [] && AreDistinct(members) && forall i :: 0 <= i < |members| ==> members[i] in files
    ensures merged
            == (files - Elements(members[1..]))[members[0] := MergedFile(files, Elements(members), members[0], clock)]
    ensures |merged| + deleted == |files|
  {
    var keys := CollectKeys(files, members);
    var rest: Files;
    rest, deleted := DeleteOthers(files, members);
    ElementsSize(members);
    var file := File(Appended(files[members[0]].text, Note(|members|, clock.stamps(members[0]), Sorted(keys))),
                     clock.now);
    merged := rest[members[0] := file];
    FirstIsKept(files, members);
    SameSize(rest, members[0], file);
  }

  lemma FirstIsKept(files: Files, members: seq<string>)
    requires members != [] && AreDistinct(members) && members[0] in files
    ensures members[0] in files - Elements(members[1..])
  {}

  lemma SameSize(files: Files, id: string, file: File)
    requires id in files
    ensures |files[id := file]| == |files|
  {
    assert files[id := file].Keys == files.Keys;
    MapSize(files);
    MapSize(files[id := file]);
  }

  lemma DeleteOne(files: Files, gone: set<string>, id: string)
    requires id in files && id !in gone
    ensures files - (gone + {id}) == files - gone - {id} && |files - gone - {id}| == |files - gone| - 1
  {
    var before := files - gone;
    assert id in before && (before - {id}).Keys == before.Keys - {id};
    MapSize(before);
    MapSize(before - {id});
  }

  lemma MapSize(files: Files)
    ensures |files| == |files.Keys|
  {}

  lemma {:induction false} ElementsSize(members: seq<string>)
    requires AreDistinct(members)
    ensures |Elements(members)| == |members|
  {
    if members != [] {
      ElementsSize(members[1..]);
      assert Elements(members) == {members[0]} + Elements(members[1..]);
    }
  }

  /** `members` is the sorted group of its first member. */
  ghost predicate IsMergeable(files: Files, sign: string -> string, members: seq<string>) {
    && members != [] && members[0] in files && Leader(files, sign, members[0]) == members[0]
    && members == Sorted(GroupOf(files, sign, members[0])) && |members| > 1
  }

  ghost function Heads(groups: seq<seq<string>>): set<string> {
    set k | 0 <= k < |groups| && groups[k] != [] :: groups[k][0]
  }

  lemma {:induction false} GroupsAreMergeable(files: Files, sign: string -> string, ids: seq<string>)
    requires forall i :: 0 <= i < |ids| ==> ids[i] in files
    ensures var groups := GroupsLedBy(files, sign, ids);
            && (forall k :: 0 <= k < |groups| ==> IsMergeable(files, sign, groups[k]) && groups[k][0] in ids)
            && (forall i ::
                  0 <= i < |ids| && Leader(files, sign, ids[i]) == ids[i] && |GroupOf(files, sign, ids[i])| > 1 ==>
                    ids[i] in Heads(groups))
  {
    if ids != [] {
      var before, last := ids[..|ids| - 1], ids[|ids| - 1];
      GroupsAreMergeable(files, sign, before);
      var earlier, groups := GroupsLedBy(files, sign, before), GroupsLedBy(files, sign, ids);
      SortedListsAll(GroupOf(files, sign, last));
      forall h | h in Heads(earlier) ensures h in Heads(groups) {
        var k :| 0 <= k < |earlier| && earlier[k] != [] && earlier[k][0] == h;
        assert groups[k] == earlier[k];
      }
      if Leader(files, sign, last) == last && |GroupOf(files, sign, last)| > 1 {
        assert groups[|groups| - 1] == Sorted(GroupOf(files, sign, last));
        assert last in Heads(groups);
      }
      forall i | 0 <= i < |ids| && Leader(files, sign, ids[i]) == ids[i] && |GroupOf(files, sign, ids[i])| > 1
        ensures ids[i] in Heads(groups)
      {
        if i < |ids| - 1 { assert before[i] == ids[i]; }
      }
    }
  }

  /** Different groups have different heads. */
  lemma {:induction false} HeadsAreDistinct(files: Files, sign: string -> string, ids: seq<string>)
    requires AreDistinct(ids) && forall i :: 0 <= i < |ids| ==> ids[i] in files
    ensures var groups := GroupsLedBy(files, sign, ids);
            forall k :: 0 <= k < |groups| ==> groups[k] != [] && groups[k][0] !in Heads(groups[..k])
  {
    if ids != [] {
      var before, last := ids[..|ids| - 1], ids[|ids| - 1];
      HeadsAreDistinct(files, sign, before);
      GroupsAreMergeable(files, sign, before);
      GroupsAreMergeable(files, sign, ids);
      var earlier, groups := GroupsLedBy(files, sign, before), GroupsLedBy(files, sign, ids);
      forall k | 0 <= k < |groups| ensures groups[k] != [] && groups[k][0] !in Heads(groups[..k]) {
        if k < |earlier| {
          assert groups[..k] == earlier[..k] && groups[k] == earlier[k];
        } else {
          assert groups[..k] == earlier && groups[k][0] == last;
        }
      }
    }
  }

  /** Members of a group that is not merged yet still have their files. */
  lemma MembersAreStillThere(files: Files, sign: string -> string, clock: Clock, done: set<string>,
                             members: seq<string>)
    requires IsMergeable(files, sign, members) && members[0] !in done
    ensures AreDistinct(members) && Elements(members) == GroupOf(files, sign, members[0])
    ensures var now := After(files, sign, clock, done);
            forall i :: 0 <= i < |members| ==>
                members[i] in now && members[i] in files && now[members[i]] == files[members[i]]
  {
    var group := GroupOf(files, sign, members[0]);
    SortedListsAll(group);
    SortedIsAscending(group);
    forall i | 0 <= i < |members| ensures members[i] in files && Leader(files, sign, members[i]) == members[0] {
      assert members[i] in members;
    }
  }

  lemma InGroupIff(files: Files, sign: string -> string, m: string, id: string)
    requires m in files && Leader(files, sign, m) == m && id in files
    ensures Leader(files, sign, id) == m <==> id in GroupOf(files, sign, m)
  {}

  /** Deleting a leader's followers and rewriting the leader is what `After` says for one more leader. */
  lemma StepIsAfter(files: Files, sign: string -> string, clock: Clock, done: set<string>, m: string)
    requires m in files && Leader(files, sign, m) == m && |GroupOf(files, sign, m)| > 1 && m !in done
    ensures var group := GroupOf(files, sign, m);
            (After(files, sign, clock, done) - (group - {m}))[m := MergedFile(files, group, m, clock)]
            == After(files, sign, clock, done + {m})
  {
    var now, next := After(files, sign, clock, done), After(files, sign, clock, done + {m});
    var group := GroupOf(files, sign, m);
    var step := (now - (group - {m}))[m := MergedFile(files, group, m, clock)];
    forall id ensures id in step <==> id in next {
      if id in files { InGroupIff(files, sign, m, id); }
    }
    forall id | id in next ensures step[id] == next[id] {
      if id != m {
        assert step[id] == now[id];
        OthersStay(files, sign, clock, done, m, id);
      }
    }
  }

  lemma OthersStay(files: Files, sign: string -> string, clock: Clock, done: set<string>, m: string, id: string)
    requires id != m && id in After(files, sign, clock, done) && id in After(files, sign, clock, done + {m})
    ensures After(files, sign, clock, done + {m})[id] == After(files, sign, clock, done)[id]
  {}

  /** Merging one more group is what `After` says. */
  lemma MergeIsNext(files: Files, sign: string -> string, clock: Clock, done: set<string>, members: seq<string>)
    requires IsMergeable(files, sign, members) && members[0] !in done
    ensures members[0] in After(files, sign, clock, done)
    ensures var now := After(files, sign, clock, done);
            (now - Elements(members[1..]))[members[0] := MergedFile(now, Elements(members), members[0], clock)]
            == After(files, sign, clock, done + {members[0]})
  {
    var m, now := members[0], After(files, sign, clock, done);
    MembersAreStillThere(files, sign, clock, done, members);
    SortedListsAll(GroupOf(files, sign, m));
    SameMergedFile(files, now, GroupOf(files, sign, m), m, clock);
    TailElements(members);
    StepIsAfter(files, sign, clock, done, m);
  }

  lemma TailElements(members: seq<string>)
    requires members != [] && AreDistinct(members)
    ensures Elements(members[1..]) == Elements(members) - {members[0]}
  {
    assert members == [members[0]] + members[1..];
  }

  lemma SameMergedFile(files: Files, now: Files, group: set<string>, m: string, clock: Clock)
    requires m in files && m in now && now[m] == files[m]
    requires forall id :: id in group ==> id in files && id in now && now[id] == files[id]
    ensures MergedFile(now, group, m, clock) == MergedFile(files, group, m, clock)
  {
    assert KeysOfGroup(now, group) == KeysOfGroup(files, group);
  }

  /** Groups of one member need no merging. */
  lemma AllHeadsSuffice(files: Files, sign: string -> string, clock: Clock, heads: set<string>)
    requires forall id :: id in files && Leader(files, sign, id) == id && |GroupOf(files, sign, id)| > 1 ==> id in heads
    ensures After(files, sign, clock, heads) == Consolidated(files, sign, clock)
  {
    forall id | id in files && Leader(files, sign, id) != id
      ensures Leader(files, sign, id) in heads && Leader(files, sign, id) in files.Keys
    {
      FollowersShareGroup(files, sign, id);
    }
    AfterFollowsHeads(files, sign, clock, heads, files.Keys);
  }

  lemma FollowersShareGroup(files: Files, sign: string -> string, id: string)
    requires id in files && Leader(files, sign, id) != id
    ensures var m := Leader(files, sign, id); Leader(files, sign, m) == m && |GroupOf(files, sign, m)| > 1
  {
    var m := Leader(files, sign, id);
    LeaderLeadsItself(files, sign, id);
    SubsetSize({id, m}, GroupOf(files, sign, m));
    assert |{id, m}| == 2;
  }

  /** Only leaders of several members matter. */
  lemma AfterFollowsHeads(files: Files, sign: string -> string, clock: Clock, a: set<string>, b: set<string>)
    requires forall id :: id in files && Leader(files, sign, id) != id ==>
               (Leader(files, sign, id) in a <==> Leader(files, sign, id) in b)
    requires forall id :: id in files && Leader(files, sign, id) == id && |GroupOf(files, sign, id)| > 1 ==>
               (id in a <==> id in b)
    ensures After(files, sign, clock, a) == After(files, sign, clock, b)
  {
    var x, y := After(files, sign, clock, a), After(files, sign, clock, b);
    forall id ensures id in x <==> id in y {}
    forall id | id in x ensures x[id] == y[id] {}
  }

  ghost predicate AreMergeable(files: Files, sign: string -> string, groups: seq<seq<string>>) {
    forall k :: 0 <= k < |groups| ==> IsMergeable(files, sign, groups[k]) && groups[k][0] !in Heads(groups[..k])
  }

  /** Merges every group and counts the deleted files. */
  method MergeAll(files: Files, sign: string -> string, clock: Clock, groups: seq<seq<string>>)
    returns (result: Files, merged: nat)
    requires AreMergeable(files, sign, groups)
    ensures result == After(files, sign, clock, Heads(groups)) && |result| + merged == |files|
  {
    result, merged := files, 0;
    ghost var done: set<string> := {};
    assert After(files, sign, clock, done) == files;
    for k := 0 to |groups|
      invariant done == Heads(groups[..k])
      invariant result == After(files, sign, clock, done) && |result| + merged == |files|
    {
      var members := groups[k];
      assert IsMergeable(files, sign, members) && members[0] !in done;
      MembersAreStillThere(files, sign, clock, done, members);
      MergeIsNext(files, sign, clock, done, members);
      var deleted: nat;
      result, deleted := MergeGroup(result, members, clock);
      merged := merged + deleted;
      HeadsGrow(groups, k);
      done := done + {members[0]};
    }
    assert groups[..|groups|] == groups;
  }

  /** All groups with several members, in the order of their least ones. */
  function GroupsToMerge(files: Files, sign: string -> string): seq<seq<string>> {
    ListedIsStored(files);
    GroupsLedBy(files, sign, Sorted(files.Keys))
  }

  lemma GroupsSuffice(files: Files, sign: string -> string, clock: Clock)
    ensures AreMergeable(files, sign, GroupsToMerge(files, sign))
    ensures After(files, sign, clock, Heads(GroupsToMerge(files, sign))) == Consolidated(files, sign, clock)
  {
    var ids := Sorted(files.Keys);
    ListedIsStored(files);
    SortedIsAscending(files.Keys);
    GroupsAreMergeable(files, sign, ids);
    HeadsAreDistinct(files, sign, ids);
    AllLeadersAreHeads(files, sign, ids);
    AllHeadsSuffice(files, sign, clock, Heads(GroupsToMerge(files, sign)));
  }

  lemma HeadsGrow(groups: seq<seq<string>>, k: nat)
    requires k < |groups| && groups[k] != []
    ensures Heads(groups[..k + 1]) == Heads(groups[..k]) + {groups[k][0]}
  {
    assert groups[..k + 1] == groups[..k] + [groups[k]];
    assert groups[..k + 1][k] == groups[k];
    forall h | h in Heads(groups[..k]) ensures h in Heads(groups[..k + 1]) {
      var i :| 0 <= i < k && groups[..k][i] != [] && groups[..k][i][0] == h;
      assert groups[..k + 1][i] == groups[..k][i];
    }
  }

  lemma AllLeadersAreHeads(files: Files, sign: string -> string, ids: seq<string>)
    requires ids == Sorted(files.Keys) && forall i :: 0 <= i < |ids| ==> ids[i] in files
    ensures forall id :: id in files && Leader(files, sign, id) == id && |GroupOf(files, sign, id)| > 1 ==>
              id in Heads(GroupsLedBy(files, sign, ids))
  {
    SortedListsAll(files.Keys);
    GroupsAreMergeable(files, sign, ids);
    forall id | id in files && Leader(files, sign, id) == id && |GroupOf(files, sign, id)| > 1
      ensures id in Heads(GroupsLedBy(files, sign, ids))
    {
      assert id in ids;
    }
  }

  /** The run on the files. */
  method ConsolidateFiles(files: Files, sign: string -> string, clock: Clock, dryRun: bool)
    returns (result: Files, report: Report)
    ensures result == if dryRun then files else Consolidated(files, sign, clock)
    ensures report.scanned == |files| == |result| + report.merged && report.groups == GroupsToMerge(files, sign)
  {
    var ids, groups := FindGroups(files, sign);
    SortedListsAll(files.Keys);
    MapSize(files);
    if dryRun { return files, Report(|ids|, groups, 0); }
    GroupsSuffice(files, sign, clock);
    var merged: nat;
    result, merged := MergeAll(files, sign, clock, groups);
    report := Report(|ids|, groups, merged);
  }

  /** Consolidates a store; a dry run only reports. */
  method Consolidate(store: MemoryStore, shape: string -> string, clock: Clock, dryRun: bool) returns (report: Report)
    requires store.Valid() && IsClock(clock)
    modifies store
    ensures store.Valid()
    ensures store.files == if dryRun then old(store.files)
                           else Consolidated(old(store.files), SignatureBy(shape), clock)
    ensures report.scanned == |old(store.files)| == |store.files| + report.merged
    ensures report.groups == GroupsToMerge(old(store.files), SignatureBy(shape))
  {
    var result: Files;
    result, report := ConsolidateFiles(store.files, SignatureBy(shape), clock, dryRun);
    if dryRun { return; }
    SignatureIsSignature(shape);
    OneSurvivorPerSignature(store.files, SignatureBy(shape), clock);
    store.ReplaceFiles(result);
  }
}
