/** The lock file of a task: exclusive creation, removal of stale files, and when that gives mutual exclusion. */
module SessionLocks {
  import opened Options

  const STALE_SECONDS := 60

  /**
    * The file's modification time; `creator` is the contender that made it, None for a file left by an earlier
    * process.
    */
  datatype LockFile = LockFile(mtime: int, creator: Option<nat>)

  /** `Removing` has found the file stale and will unlink the path; `Holding` has acquired the lock. */
  datatype Pc = Trying | Removing | Holding(since: int) | Left

  datatype System = System(now: int, file: Option<LockFile>, contenders: seq<Pc>)

  datatype Move =
    | Wait(seconds: nat)
    | Create(i: nat)
    | Look(i: nat)
    | Remove(i: nat)
    | GiveUp(i: nat)
    | Leave(i: nat)

  function At(s: System, i: nat, pc: Pc): System
    requires i < |s.contenders|
  {
    s.(contenders := s.contenders[i := pc])
  }

  /** One atomic step; a step that is not enabled changes nothing. */
  function Apply(s: System, m: Move): System {
    if m.Wait? then s.(now := s.now + m.seconds)
    else if m.i >= |s.contenders| then s
    else
      var pc := s.contenders[m.i];
      match m
      case Create(i) =>
        if pc.Trying? && s.file.None? then At(s.(file := Some(LockFile(s.now, Some(i)))), i, Holding(s.now)) else s
      case Look(i) =>
        if pc.Trying? && s.file.Some? && s.now - s.file.value.mtime > STALE_SECONDS then At(s, i, Removing) else s
      case Remove(i) =>
        if pc.Removing? then At(s.(file := None), i, Trying) else s
      case GiveUp(i) =>
        if pc.Trying? then At(s, i, Left) else s
      case Leave(i) =>
        if pc.Holding? then At(s.(file := None), i, Left) else s
      case Wait(_) => s
  }

  /** The states of a run, first to last. */
  function Trace(s: System, moves: seq<Move>): (r: seq<System>)
    ensures r != [] && r[0] == s
    decreases |moves|
  {
    if moves == [] then [s] else [s] + Trace(Apply(s, moves[0]), moves[1..])
  }

  /** No holder has held the lock for more than `limit` seconds. */
  predicate IsPrompt(s: System, limit: nat) {
    forall i :: 0 <= i < |s.contenders| && s.contenders[i].Holding? ==> s.now - s.contenders[i].since <= limit
  }

  predicate PromptRun(s: System, moves: seq<Move>, limit: nat) {
    forall k :: 0 <= k < |Trace(s, moves)| ==> IsPrompt(Trace(s, moves)[k], limit)
  }

  predicate IsExclusive(s: System) {
    forall i, j :: 0 <= i < j < |s.contenders| ==> !(s.contenders[i].Holding? && s.contenders[j].Holding?)
  }

  function Start(n: nat, file: Option<LockFile>): System {
    System(0, file, seq(n, i => Trying))
  }

  // ---- Prompt holders, no leftover file ----

  /** The file is the one holder's, made when it acquired the lock; nobody is about to remove it. */
  ghost predicate Owned(s: System) {
    && (forall i :: 0 <= i < |s.contenders| && s.contenders[i].Holding? ==>
        s.file == Some(LockFile(s.contenders[i].since, Some(i))))
    && (s.file.Some? ==> s.file.value.creator.Some? && s.file.value.creator.value < |s.contenders|
                         && s.contenders[s.file.value.creator.value] == Holding(s.file.value.mtime))
    && (forall i :: 0 <= i < |s.contenders| ==> !s.contenders[i].Removing?)
  }

  lemma StepKeepsOwned(s: System, m: Move)
    requires Owned(s) && IsPrompt(s, STALE_SECONDS)
    ensures Owned(Apply(s, m))
  {}

  lemma {:induction false} PromptRunsAreOwned(s: System, moves: seq<Move>, limit: nat)
    requires Owned(s) && PromptRun(s, moves, limit) && limit <= STALE_SECONDS
    ensures forall k :: 0 <= k < |Trace(s, moves)| ==> Owned(Trace(s, moves)[k])
    decreases |moves|
  {
    if moves != [] {
      var t := Apply(s, moves[0]);
      var all, rest := Trace(s, moves), Trace(t, moves[1..]);
      assert all == [s] + rest;
      assert IsPrompt(all[0], limit);
      StepKeepsOwned(s, moves[0]);
      forall k | 0 <= k < |rest| ensures IsPrompt(rest[k], limit) {
        assert rest[k] == all[k + 1];
      }
      PromptRunsAreOwned(t, moves[1..], limit);
    }
  }

  /** Two contenders never hold the lock together when every holder leaves in time and no file was left behind. */
  lemma PromptHoldersExclude(n: nat, moves: seq<Move>, limit: nat, k: nat)
    requires PromptRun(Start(n, None), moves, limit) && limit <= STALE_SECONDS && k < |Trace(Start(n, None), moves)|
    ensures IsExclusive(Trace(Start(n, None), moves)[k])
  {
    PromptRunsAreOwned(Start(n, None), moves, limit);
    assert Owned(Trace(Start(n, None), moves)[k]);
  }

  // ---- Where exclusion ends ----

  /** Holders that never stay longer than `limit` seconds never meet, whatever the contenders do. */
  ghost predicate AlwaysExclusive(n: nat, file: Option<LockFile>, limit: nat) {
    forall moves, k :: PromptRun(Start(n, file), moves, limit) && 0 <= k < |Trace(Start(n, file), moves)| ==>
      IsExclusive(Trace(Start(n, file), moves)[k])
  }

  /** Two contenders find the leftover file stale; the second removes what the first has just made. */
  function StaleRace(wait: nat): seq<Move> {
    [Wait(wait), Look(0), Look(1), Remove(0), Create(0), Remove(1), Create(1)]
  }

  lemma TraceOne(s: System, m: Move, rest: seq<Move>)
    ensures Trace(s, [m] + rest) == [s] + Trace(Apply(s, m), rest)
  {
    assert ([m] + rest)[1..] == rest;
  }

  lemma TraceTwo(s: System, a: Move, b: Move, rest: seq<Move>)
    ensures Trace(s, [a, b] + rest) == [s, Apply(s, a)] + Trace(Apply(Apply(s, a), b), rest)
  {
    assert [a, b] + rest == [a] + ([b] + rest);
    TraceOne(s, a, [b] + rest);
    TraceOne(Apply(s, a), b, rest);
  }

  /** The states of the race between contenders 0 and 1. */
  function RaceState(n: nat, now: int, file: Option<LockFile>, first: Pc, second: Pc): System
    requires n >= 2
  {
    System(now, file, seq(n, i => if i == 0 then first else if i == 1 then second else Trying))
  }

  lemma StaleRaceStates(n: nat, file: LockFile, wait: nat)
    requires n >= 2 && wait - file.mtime > STALE_SECONDS
    ensures Trace(Start(n, Some(file)), StaleRace(wait))
            == [RaceState(n, 0, Some(file), Trying, Trying),
                RaceState(n, wait, Some(file), Trying, Trying),
                RaceState(n, wait, Some(file), Removing, Trying),
                RaceState(n, wait, Some(file), Removing, Removing),
                RaceState(n, wait, None, Trying, Removing),
                RaceState(n, wait, Some(LockFile(wait, Some(0))), Holding(wait), Removing),
                RaceState(n, wait, None, Holding(wait), Trying),
                RaceState(n, wait, Some(LockFile(wait, Some(1))), Holding(wait), Holding(wait))]
  {
    var s0, s1 := RaceState(n, 0, Some(file), Trying, Trying), RaceState(n, wait, Some(file), Trying, Trying);
    var s2, s3 := RaceState(n, wait, Some(file), Removing, Trying), RaceState(n, wait, Some(file), Removing, Removing);
    var s4, s5 := RaceState(n, wait, None, Trying, Removing),
                  RaceState(n, wait, Some(LockFile(wait, Some(0))), Holding(wait), Removing);
    var s6, s7 := RaceState(n, wait, None, Holding(wait), Trying),
                  RaceState(n, wait, Some(LockFile(wait, Some(1))), Holding(wait), Holding(wait));
    assert Start(n, Some(file)) == s0 && Apply(s0, Wait(wait)) == s1;
    assert Apply(s1, Look(0)) == s2 && Apply(s2, Look(1)) == s3;
    assert Apply(s3, Remove(0)) == s4 && Apply(s4, Create(0)) == s5;
    assert Apply(s5, Remove(1)) == s6 && Apply(s6, Create(1)) == s7;
    var tail := [Remove(1), Create(1)];
    assert StaleRace(wait) == [Wait(wait)] + ([Look(0), Look(1)] + ([Remove(0), Create(0)] + (tail + [])));
    TraceOne(s0, Wait(wait), [Look(0), Look(1)] + ([Remove(0), Create(0)] + (tail + [])));
    TraceTwo(s1, Look(0), Look(1), [Remove(0), Create(0)] + (tail + []));
    TraceTwo(s3, Remove(0), Create(0), tail + []);
    TraceTwo(s5, Remove(1), Create(1), []);
  }

  lemma StaleRaceMeets(n: nat, file: LockFile, wait: nat, limit: nat)
    requires n >= 2 && wait - file.mtime > STALE_SECONDS
    ensures PromptRun(Start(n, Some(file)), StaleRace(wait), limit)
    ensures |Trace(Start(n, Some(file)), StaleRace(wait))| == 8
            && !IsExclusive(Trace(Start(n, Some(file)), StaleRace(wait))[7])
  {
    StaleRaceStates(n, file, wait);
    var last := Trace(Start(n, Some(file)), StaleRace(wait))[7];
    assert last.contenders[0].Holding? && last.contenders[1].Holding?;
  }

  /** Contender 1 takes the lock of a holder that stays a second too long. */
  function SlowHolder(): seq<Move> {
    [Create(0), Wait(STALE_SECONDS + 1), Look(1), Remove(1), Create(1)]
  }

  lemma SlowHolderStates(n: nat)
    requires n >= 2
    ensures var late, first := STALE_SECONDS + 1, Some(LockFile(0, Some(0)));
            Trace(Start(n, None), SlowHolder())
            == [RaceState(n, 0, None, Trying, Trying),
                RaceState(n, 0, first, Holding(0), Trying),
                RaceState(n, late, first, Holding(0), Trying),
                RaceState(n, late, first, Holding(0), Removing),
                RaceState(n, late, None, Holding(0), Trying),
                RaceState(n, late, Some(LockFile(late, Some(1))), Holding(0), Holding(late))]
  {
    var late := STALE_SECONDS + 1;
    var s0, s1 := RaceState(n, 0, None, Trying, Trying),
      RaceState(n, 0, Some(LockFile(0, Some(0))), Holding(0), Trying);
    var s2, s3 := RaceState(n, late, s1.file, Holding(0), Trying), RaceState(n, late, s1.file, Holding(0), Removing);
    var s4, s5 := RaceState(n, late, None, Holding(0), Trying),
                  RaceState(n, late, Some(LockFile(late, Some(1))), Holding(0), Holding(late));
    assert Start(n, None) == s0 && Apply(s0, Create(0)) == s1 && Apply(s1, Wait(late)) == s2;
    assert Apply(s2, Look(1)) == s3 && Apply(s3, Remove(1)) == s4 && Apply(s4, Create(1)) == s5;
    assert SlowHolder() == [Create(0)] + ([Wait(late), Look(1)] + ([Remove(1), Create(1)] + []));
    TraceOne(s0, Create(0), [Wait(late), Look(1)] + ([Remove(1), Create(1)] + []));
    TraceTwo(s1, Wait(late), Look(1), [Remove(1), Create(1)] + []);
    TraceTwo(s3, Remove(1), Create(1), []);
  }

  lemma SlowHolderMeets(n: nat, limit: nat)
    requires n >= 2 && limit > STALE_SECONDS
    ensures PromptRun(Start(n, None), SlowHolder(), limit)
    ensures |Trace(Start(n, None), SlowHolder())| == 6 && !IsExclusive(Trace(Start(n, None), SlowHolder())[5])
  {
    SlowHolderStates(n);
    var last := Trace(Start(n, None), SlowHolder())[5];
    assert last.contenders[0].Holding? && last.contenders[1].Holding?;
  }

  /** Holders exclude each other exactly when none stays beyond the stale limit and no file was left behind. */
  lemma ExclusionIff(n: nat, file: Option<LockFile>, limit: nat)
    requires n >= 2
    ensures AlwaysExclusive(n, file, limit) <==> file.None? && limit <= STALE_SECONDS
  {
    if file.Some? {
      var wait := if file.value.mtime > 0 then file.value.mtime + STALE_SECONDS + 1 else STALE_SECONDS + 1;
      StaleRaceMeets(n, file.value, wait, limit);
    } else if limit > STALE_SECONDS {
      SlowHolderMeets(n, limit);
    } else {
      forall moves, k | PromptRun(Start(n, file), moves, limit) && 0 <= k < |Trace(Start(n, file), moves)|
        ensures IsExclusive(Trace(Start(n, file), moves)[k])
      {
        PromptHoldersExclude(n, moves, limit, k);
      }
    }
  }
}
