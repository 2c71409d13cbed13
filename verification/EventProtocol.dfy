/**
 * Threads of one process that deliver the same FAILED event at the same time. Sections under the session lock are
 * entered one thread at a time; the agent phase and the persist steps interleave freely with everything.
 */
module EventProtocol {
  import opened Options
  import opened Messages

  datatype Answer = TurnedAway(message: string) | ReadySql(sql: string) | NoSql(reason: Option<string>)
    | Human(message: string)

  /** How the agent phase ends; `Fails` is every internal refusal or error. */
  datatype Outcome =
    | Proposes(sql: string)
    | GivesNoSql(reason: Option<string>, stop: Option<string>)
    | NeedsHuman(reason: Option<string>, stop: Option<string>)
    | Fails(message: string)

  /** The answer of the thread that ran the agent. */
  function OwnerAnswer(o: Outcome): Answer {
    match o
    case Proposes(sql) => ReadySql(sql)
    case GivesNoSql(reason, _) => NoSql(reason)
    case NeedsHuman(reason, _) => Human(if Truthy(reason) then reason.value else NO_SAFE_CANDIDATE)
    case Fails(message) => Human(message)
  }

  /** The stop reason saved with an attempt that ends without a candidate. */
  function SavedStop(o: Outcome): Option<string> {
    match o
    case Proposes(_) => None
    case GivesNoSql(reason, stop) => if Truthy(reason) then reason else stop
    case NeedsHuman(reason, stop) => if Truthy(reason) then reason else stop
    case Fails(_) => None
  }

  function RecoveryMessage(stop: Option<string>): string {
    if Truthy(stop) then stop.value else TERMINATED
  }

  /** The answer of a thread that finds the ended attempt without a stored result. */
  function RecoveredAnswer(o: Outcome): Answer {
    if o.Proposes? then ReadySql(o.sql) else Human(RecoveryMessage(SavedStop(o)))
  }

  datatype AttemptFile = Created | Ready(sql: string) | Ended(stop: Option<string>)

  /** What one event sees of the stored session. */
  datatype View = View(recorded: bool, closed: bool, candidate: Option<string>)

  datatype Stage = Discard | WriteResult | Finish

  /** Where a thread is, with its copy of the session. */
  datatype Pc =
    | Waiting
    | Entered(view: View)
    | Recovering(view: View)
    | Running(view: View)
    | SavingAttempt(view: View, outcome: Outcome)
    | SavingSession(view: View, outcome: Outcome)
    | Committing(view: View, sql: string)
    | CommittingAttempt(view: View, sql: string)
    | CommittingSession(view: View, sql: string)
    | Persisting(view: View, answer: Answer, stage: Stage, underLock: bool)
    | Answered(answer: Answer)

  /** Disk and memory; `active` also remembers which thread activated the event, `ends` how its agent phase ended. */
  datatype Shared = Shared(
    lock: Option<nat>,
    active: Option<nat>,
    session: View,
    attempt: Option<AttemptFile>,
    result: Option<Answer>,
    ends: Option<Outcome>,
    attemptsCreated: nat,
    agentStarts: nat)

  datatype System = System(threads: seq<Pc>, shared: Shared)

  /** What a step may take from outside: the agent's outcome, or that a lock is not obtained in time. */
  datatype Choice = Proceed | Timeout | EndsWith(outcome: Outcome)

  /** The session may hold a candidate of an earlier event. */
  function Start(n: nat, earlier: Option<string>): System {
    System(seq(n, i => Waiting), Shared(None, None, View(false, false, earlier), None, None, None, 0, 0))
  }

  /** The next atomic step of thread `i`; a step that is not enabled changes nothing. */
  function Step(g: Shared, i: nat, pc: Pc, c: Choice): (Shared, Pc) {
    match pc
    case Waiting =>
      if c.Timeout? then (g, Answered(TurnedAway(LOCKED)))
      else if g.lock.None? then (g.(lock := Some(i)), Entered(g.session))
      else (g, pc)
    case Entered(view) =>
      if !view.recorded then
        var v := view.(recorded := true);
        (g.(lock := None, active := Some(i), session := v, attempt := Some(Created),
            attemptsCreated := g.attemptsCreated + 1, agentStarts := g.agentStarts + 1), Running(v))
      else if view.closed && g.result.Some? then (g.(lock := None), Answered(g.result.value))
      else if g.active.Some? then (g.(lock := None), Answered(TurnedAway(IN_PROGRESS)))
      else (g, Recovering(view))
    case Recovering(view) =>
      if g.attempt.None? then (g.(lock := None), Answered(Human(ATTEMPT_MISSING)))
      else (match g.attempt.value
            case Created => (g.(lock := None, active := Some(i), agentStarts := g.agentStarts + 1), Running(view))
            case Ready(sql) => (g, Persisting(view, ReadySql(sql), Discard, true))
            case Ended(stop) => (g, Persisting(view, Human(RecoveryMessage(stop)), Discard, true)))
    case Running(view) =>
      if !c.EndsWith? then (g, pc)
      else if c.outcome.Proposes? then (g.(ends := Some(c.outcome)), Committing(view, c.outcome.sql))
      else (g.(ends := Some(c.outcome)), SavingAttempt(view, c.outcome))
    case SavingAttempt(view, o) => (g.(attempt := Some(Ended(SavedStop(o)))), SavingSession(view, o))
    case SavingSession(view, o) => (g.(session := view), Persisting(view, OwnerAnswer(o), Discard, false))
    case Committing(view, sql) =>
      if c.Timeout? then (g.(ends := Some(Fails(LOCKED))), SavingAttempt(view, Fails(LOCKED)))
      else if g.lock.None? then (g.(lock := Some(i)), CommittingAttempt(g.session, sql))
      else (g, pc)
    case CommittingAttempt(view, sql) => (g.(attempt := Some(Ready(sql))), CommittingSession(view, sql))
    case CommittingSession(view, sql) =>
      var v := view.(candidate := Some(sql));
      (g.(lock := None, session := v), Persisting(v, ReadySql(sql), Discard, false))
    case Persisting(view, answer, stage, underLock) =>
      (match stage
       case Discard => (g.(active := None), Persisting(view, answer, WriteResult, underLock))
       case WriteResult => (g.(result := Some(answer)), Persisting(view, answer, Finish, underLock))
       case Finish => (g.(session := view.(closed := true), lock := if underLock then None else g.lock),
                       Answered(answer)))
    case Answered(_) => (g, pc)
  }

  datatype Move = Move(thread: nat, choice: Choice)

  function Apply(s: System, m: Move): System {
    if m.thread >= |s.threads| then s
    else
      var (g, pc) := Step(s.shared, m.thread, s.threads[m.thread], m.choice);
      System(s.threads[m.thread := pc], g)
  }

  function Run(s: System, moves: seq<Move>): System
    decreases |moves|
  {
    if moves == [] then s else Run(Apply(s, moves[0]), moves[1..])
  }

  // ---- The invariant ----

  predicate HoldsLock(pc: Pc) {
    || pc.Entered? || pc.Recovering? || pc.CommittingAttempt? || pc.CommittingSession?
    || (pc.Persisting? && pc.underLock)
  }

  /** The thread activated the event and has not yet discarded it. */
  predicate Owns(pc: Pc) {
    || pc.Running? || pc.SavingAttempt? || pc.SavingSession?
    || pc.Committing? || pc.CommittingAttempt? || pc.CommittingSession?
    || (pc.Persisting? && pc.stage.Discard? && !pc.underLock)
  }

  predicate IsTerminal(g: Shared) {
    g.attempt.Some? && !g.attempt.value.Created?
  }

  predicate Allowed(g: Shared, a: Answer) {
    && IsTerminal(g) && g.ends.Some? && (a == OwnerAnswer(g.ends.value) || a == RecoveredAnswer(g.ends.value))
    && (g.ends.value.Proposes? ==> g.session.candidate == Some(g.ends.value.sql))
  }

  /** A session copy knows of a committed candidate. */
  predicate Knows(g: Shared, view: View) {
    && view.recorded && g.session.recorded && (view.closed ==> g.result.Some?)
    && (g.attempt.Some? && g.attempt.value.Ready? ==> view.candidate == Some(g.attempt.value.sql))
  }

  predicate PcOk(g: Shared, i: nat, pc: Pc) {
    && (HoldsLock(pc) ==> g.lock == Some(i))
    && (Owns(pc) <==> g.active == Some(i))
    && (Owns(pc) ==> g.session.recorded && pc.view.recorded && (pc.view.closed ==> g.result.Some?))
    && match pc
       case Waiting => true
       case Entered(view) => view.recorded == g.session.recorded && if view.recorded then Knows(g, view)
                                                                    else !view.closed
       case Recovering(view) => Knows(g, view) && Knows(g, g.session) && IsTerminal(g) && g.active.None?
       case Running(_) => g.attempt == Some(Created) && g.ends.None?
       case SavingAttempt(_, o) => g.attempt == Some(Created) && g.ends == Some(o) && !o.Proposes?
       case SavingSession(_, o) => g.attempt == Some(Ended(SavedStop(o))) && g.ends == Some(o) && !o.Proposes?
       case Committing(_, sql) => g.attempt == Some(Created) && g.ends == Some(Proposes(sql))
       case CommittingAttempt(_, sql) => g.attempt == Some(Created) && g.ends == Some(Proposes(sql))
       case CommittingSession(_, sql) => g.attempt == Some(Ready(sql)) && g.ends == Some(Proposes(sql))
       case Persisting(view, a, stage, underLock) =>
         && Knows(g, view) && Allowed(g, a) && (!Owns(pc) ==> g.active.None?)
         && (stage.Finish? ==> g.result.Some?)
       case Answered(a) => a.TurnedAway? || Allowed(g, a)
  }

  predicate SharedOk(g: Shared) {
    && (if g.session.recorded then g.attemptsCreated == 1 && g.agentStarts == 1 && g.attempt.Some?
        else
          && g.attemptsCreated == 0 && g.agentStarts == 0 && g.attempt.None? && g.active.None? && g.result.None?
          && g.ends.None? && !g.session.closed)
    && (g.session.recorded && g.active.None? ==> IsTerminal(g))
    && (IsTerminal(g) ==> g.ends.Some?
                          && g.attempt.value == (if g.ends.value.Proposes? then Ready(g.ends.value.sql)
                                                 else Ended(SavedStop(g.ends.value))))
    && (g.session.closed ==> g.result.Some?)
    && (g.result.Some? ==> Allowed(g, g.result.value))
  }

  ghost predicate Inv(s: System) {
    && SharedOk(s.shared)
    && (forall i :: 0 <= i < |s.threads| ==> PcOk(s.shared, i, s.threads[i]))
    && (s.shared.active.Some? ==> s.shared.active.value < |s.threads|)
    && SessionKnows(s.shared)
  }

  /** Outside the committer's two writes the stored session knows a stored candidate. */
  predicate SessionKnows(g: Shared) {
    g.session.recorded ==> Knows(g, g.session) || (g.active.Some? && g.lock == g.active)
  }

  /** One thread's step keeps what its own position promises. */
  lemma OwnStep(g: Shared, i: nat, pc: Pc, c: Choice)
    requires SharedOk(g) && PcOk(g, i, pc) && SessionKnows(g)
    ensures SharedOk(Step(g, i, pc, c).0) && SessionKnows(Step(g, i, pc, c).0)
    ensures PcOk(Step(g, i, pc, c).0, i, Step(g, i, pc, c).1)
  {
    if Owns(pc) { OwnerStep(g, i, pc, c); } else { VisitorStep(g, i, pc, c); }
  }

  lemma OwnerStep(g: Shared, i: nat, pc: Pc, c: Choice)
    requires SharedOk(g) && PcOk(g, i, pc) && SessionKnows(g) && Owns(pc)
    ensures SharedOk(Step(g, i, pc, c).0) && SessionKnows(Step(g, i, pc, c).0)
    ensures PcOk(Step(g, i, pc, c).0, i, Step(g, i, pc, c).1)
  {}

  lemma VisitorStep(g: Shared, i: nat, pc: Pc, c: Choice)
    requires SharedOk(g) && PcOk(g, i, pc) && SessionKnows(g) && !Owns(pc)
    ensures SharedOk(Step(g, i, pc, c).0) && SessionKnows(Step(g, i, pc, c).0)
    ensures PcOk(Step(g, i, pc, c).0, i, Step(g, i, pc, c).1)
  {}

  /** What another thread at `pc` relies on survives a step of thread `i`. */
  lemma OtherStep(g: Shared, i: nat, pc: Pc, c: Choice, j: nat, other: Pc)
    requires SharedOk(g) && PcOk(g, i, pc) && PcOk(g, j, other) && i != j
    ensures PcOk(Step(g, i, pc, c).0, j, other)
  {}

  lemma StepKeepsInv(s: System, m: Move)
    requires Inv(s)
    ensures Inv(Apply(s, m))
  {
    if m.thread < |s.threads| {
      var pc := s.threads[m.thread];
      var t := Apply(s, m);
      OwnStep(s.shared, m.thread, pc, m.choice);
      forall j | 0 <= j < |t.threads| ensures PcOk(t.shared, j, t.threads[j]) {
        if j != m.thread { OtherStep(s.shared, m.thread, pc, m.choice, j, s.threads[j]); }
      }
    }
  }

  lemma {:induction false} RunKeepsInv(s: System, moves: seq<Move>)
    requires Inv(s)
    ensures Inv(Run(s, moves)) && |Run(s, moves).threads| == |s.threads|
    decreases |moves|
  {
    if moves != [] {
      StepKeepsInv(s, moves[0]);
      RunKeepsInv(Apply(s, moves[0]), moves[1..]);
    }
  }

  // ---- What holds in every run of any number of threads ----

  /** One attempt, one agent start, and an event is given up only after its attempt has ended on disk. */
  lemma DuplicatesRunOnce(n: nat, earlier: Option<string>, moves: seq<Move>)
    ensures var g := Run(Start(n, earlier), moves).shared;
            && g.attemptsCreated == g.agentStarts == (if g.session.recorded then 1 else 0)
            && (g.session.recorded && g.active.None? ==> IsTerminal(g))
  {
    RunKeepsInv(Start(n, earlier), moves);
  }

  /** At most one thread is between activating the event and discarding it. */
  lemma OwnerIsUnique(n: nat, earlier: Option<string>, moves: seq<Move>, i: nat, j: nat)
    requires i < n && j < n
    ensures var s := Run(Start(n, earlier), moves);
            |s.threads| == n && (Owns(s.threads[i]) && Owns(s.threads[j]) ==> i == j)
  {
    RunKeepsInv(Start(n, earlier), moves);
  }

  /** A delivered candidate is the session's candidate: no stale copy ever overwrites it. */
  lemma DeliveredCandidateIsStored(n: nat, earlier: Option<string>, moves: seq<Move>, i: nat, sql: string)
    requires i < n
    ensures var s := Run(Start(n, earlier), moves);
            |s.threads| == n && (s.threads[i] == Answered(ReadySql(sql)) ==> s.shared.session.candidate == Some(sql))
  {
    RunKeepsInv(Start(n, earlier), moves);
    var s := Run(Start(n, earlier), moves);
    assert PcOk(s.shared, i, s.threads[i]);
  }

  // ---- The earlier candidate ----

  /** A copy of the session holds the earlier candidate, or the one stored with the finished attempt. */
  predicate IsEarlierOrReady(g: Shared, view: View, earlier: Option<string>) {
    view.candidate == earlier
      || (g.attempt.Some? && g.attempt.value.Ready? && view.candidate == Some(g.attempt.value.sql))
  }

  predicate HasView(pc: Pc) {
    !pc.Waiting? && !pc.Answered?
  }

  ghost predicate KeepsEarlier(s: System, earlier: Option<string>) {
    && IsEarlierOrReady(s.shared, s.shared.session, earlier)
    && forall i :: 0 <= i < |s.threads| && HasView(s.threads[i]) ==>
         IsEarlierOrReady(s.shared, s.threads[i].view, earlier)
  }

  lemma StepKeepsEarlier(g: Shared, i: nat, pc: Pc, c: Choice, earlier: Option<string>, view: View)
    requires SharedOk(g) && PcOk(g, i, pc) && IsEarlierOrReady(g, g.session, earlier)
    requires HasView(pc) ==> IsEarlierOrReady(g, pc.view, earlier)
    ensures var (h, next) := Step(g, i, pc, c);
            && IsEarlierOrReady(h, h.session, earlier)
            && (HasView(next) ==> IsEarlierOrReady(h, next.view, earlier))
            && (IsEarlierOrReady(g, view, earlier) ==> IsEarlierOrReady(h, view, earlier))
  {}

  lemma {:induction false} RunKeepsEarlier(s: System, moves: seq<Move>, earlier: Option<string>)
    requires Inv(s) && KeepsEarlier(s, earlier)
    ensures KeepsEarlier(Run(s, moves), earlier)
    decreases |moves|
  {
    if moves != [] {
      StepKeepsInv(s, moves[0]);
      MoveKeepsEarlier(s, moves[0], earlier);
      RunKeepsEarlier(Apply(s, moves[0]), moves[1..], earlier);
    }
  }

  lemma MoveKeepsEarlier(s: System, m: Move, earlier: Option<string>)
    requires Inv(s) && KeepsEarlier(s, earlier)
    ensures KeepsEarlier(Apply(s, m), earlier)
  {
    if m.thread < |s.threads| {
      var t, pc := Apply(s, m), s.threads[m.thread];
      assert PcOk(s.shared, m.thread, pc);
      StepKeepsEarlier(s.shared, m.thread, pc, m.choice, earlier, s.shared.session);
      forall j | 0 <= j < |t.threads| && HasView(t.threads[j])
        ensures IsEarlierOrReady(t.shared, t.threads[j].view, earlier)
      {
        if j != m.thread { StepKeepsEarlier(s.shared, m.thread, pc, m.choice, earlier, s.threads[j].view); }
      }
    }
  }

  /** The earlier candidate is given up only for the one that this event's agent proposed. */
  lemma EarlierCandidateIsKept(n: nat, earlier: Option<string>, moves: seq<Move>)
    ensures var g := Run(Start(n, earlier), moves).shared;
            g.session.candidate == earlier
              || (g.ends.Some? && g.ends.value.Proposes? && g.session.candidate == Some(g.ends.value.sql))
  {
    RunKeepsInv(Start(n, earlier), moves);
    RunKeepsEarlier(Start(n, earlier), moves, earlier);
  }

  // ---- When duplicates agree ----

  predicate Agrees(o: Outcome) {
    OwnerAnswer(o) == RecoveredAnswer(o)
  }

  /**
    * The outcomes after which every duplicate gets the owner's answer: a candidate; a human with a reason, or with
    * the owner's own fallback text as stop reason; a failure whose message is the fallback text of recovery.
    */
  predicate IsUnanimous(o: Outcome) {
    || o.Proposes?
    || (o.NeedsHuman? && (Truthy(o.reason) || o.stop == Some(NO_SAFE_CANDIDATE)))
    || (o.Fails? && o.message == TERMINATED)
  }

  /** A duplicate that recovers agrees with the owner exactly for those outcomes. */
  lemma AgreementByKind(o: Outcome)
    ensures Agrees(o) <==> IsUnanimous(o)
  {
    assert NO_SAFE_CANDIDATE[0] != TERMINATED[0];
  }

  /** The thread got an answer other than being turned away. */
  predicate IsHandled(pc: Pc) {
    pc.Answered? && !pc.answer.TurnedAway?
  }

  ghost predicate AnswersAgree(s: System) {
    forall i, j ::
      0 <= i < |s.threads| && 0 <= j < |s.threads| && IsHandled(s.threads[i]) && IsHandled(s.threads[j]) ==>
        s.threads[i].answer == s.threads[j].answer
  }

  /** Some run in which the agent phase ends with `o` gives two threads different answers. */
  ghost predicate CanDisagree(earlier: Option<string>, o: Outcome) {
    exists n: nat, moves ::
      Run(Start(n, earlier), moves).shared.ends == Some(o) && !AnswersAgree(Run(Start(n, earlier), moves))
  }

  function Thrice(s: System, a: Move, b: Move, c: Move): System {
    Apply(Apply(Apply(s, a), b), c)
  }

  lemma RunOne(s: System, a: Move, rest: seq<Move>)
    ensures Run(s, [a] + rest) == Run(Apply(s, a), rest)
  {
    assert ([a] + rest)[1..] == rest;
  }

  lemma RunThree(s: System, a: Move, b: Move, c: Move, rest: seq<Move>)
    ensures Run(s, [a, b, c] + rest) == Run(Thrice(s, a, b, c), rest)
  {
    assert [a, b, c] + rest == [a] + ([b] + ([c] + rest));
    RunOne(s, a, [b] + ([c] + rest));
    RunOne(Apply(s, a), b, [c] + rest);
    RunOne(Apply(Apply(s, a), b), c, rest);
  }

  const OWNER := Move(0, Proceed)
  const DUPLICATE := Move(1, Proceed)
  const OWNER_STEPS := [OWNER, OWNER, OWNER]
  const DUPLICATE_STEPS := [DUPLICATE, DUPLICATE, DUPLICATE]
  const AFTER_DISCARD := DUPLICATE_STEPS + (DUPLICATE_STEPS + (OWNER_STEPS + []))
  const AFTER_OUTCOME := OWNER_STEPS + AFTER_DISCARD

  /** The session once the event is recorded. */
  function Open(earlier: Option<string>): View {
    View(true, false, earlier)
  }

  /** Thread 1 enters between the discard and the result of thread 0. */
  function RacingMoves(o: Outcome): seq<Move> {
    [OWNER, OWNER, Move(0, EndsWith(o))] + AFTER_OUTCOME
  }

  /** A state of the race: the attempt has ended with `o` and the event is no longer active. */
  function Race(o: Outcome, first: Pc, second: Pc, lock: Option<nat>, session: View, result: Option<Answer>): System {
    System([first, second], Shared(lock, None, session, Some(Ended(SavedStop(o))), result, Some(o), 1, 1))
  }

  function OwnerAt(open: View, o: Outcome): Pc {
    Persisting(open, OwnerAnswer(o), WriteResult, false)
  }

  lemma OwnerRuns(earlier: Option<string>, o: Outcome)
    requires !o.Proposes?
    ensures var open := Open(earlier);
            Thrice(Start(2, earlier), OWNER, OWNER, Move(0, EndsWith(o)))
            == System([SavingAttempt(open, o), Waiting],
                      Shared(None, Some(0), open, Some(Created), None, Some(o), 1, 1))
  {
    var start, open := Start(2, earlier), Open(earlier);
    assert start.threads == [Waiting, Waiting];
    var s1 := Apply(start, OWNER);
    assert s1 == System([Entered(start.shared.session), Waiting], start.shared.(lock := Some(0)));
    var s2 := Apply(s1, OWNER);
    assert s2 == System([Running(open), Waiting], Shared(None, Some(0), open, Some(Created), None, None, 1, 1));
  }

  lemma OwnerDiscards(earlier: Option<string>, o: Outcome)
    requires !o.Proposes?
    ensures var open := Open(earlier);
            Thrice(Thrice(Start(2, earlier), OWNER, OWNER, Move(0, EndsWith(o))), OWNER, OWNER, OWNER)
            == Race(o, OwnerAt(open, o), Waiting, None, open, None)
  {
    OwnerRuns(earlier, o);
  }

  lemma DuplicateRecovers(open: View, o: Outcome)
    requires !o.Proposes? && open.recorded && !open.closed
    ensures Thrice(Race(o, OwnerAt(open, o), Waiting, None, open, None), DUPLICATE, DUPLICATE, DUPLICATE)
            == Race(o, OwnerAt(open, o), Persisting(open, RecoveredAnswer(o), Discard, true), Some(1), open, None)
  {}

  lemma DuplicatePersists(open: View, o: Outcome)
    requires !o.Proposes?
    ensures Thrice(Race(o, OwnerAt(open, o), Persisting(open, RecoveredAnswer(o), Discard, true), Some(1), open, None),
                   DUPLICATE, DUPLICATE, DUPLICATE)
            == Race(o, OwnerAt(open, o), Answered(RecoveredAnswer(o)), None, open.(closed := true),
                    Some(RecoveredAnswer(o)))
  {}

  lemma OwnerPersists(open: View, o: Outcome)
    requires !o.Proposes?
    ensures Thrice(Race(o, OwnerAt(open, o), Answered(RecoveredAnswer(o)), None, open.(closed := true),
                        Some(RecoveredAnswer(o))),
                   OWNER, OWNER, OWNER)
            == Race(o, Answered(OwnerAnswer(o)), Answered(RecoveredAnswer(o)), None, open.(closed := true),
                    Some(OwnerAnswer(o)))
  {}

  /** Both threads are answered, each in its own way. */
  lemma RaceEnds(earlier: Option<string>, o: Outcome)
    requires !o.Proposes?
    ensures Run(Start(2, earlier), RacingMoves(o))
            == Race(o, Answered(OwnerAnswer(o)), Answered(RecoveredAnswer(o)), None, Open(earlier).(closed := true),
                    Some(OwnerAnswer(o)))
  {
    var m := Move(0, EndsWith(o));
    var s1 := Thrice(Start(2, earlier), OWNER, OWNER, m);
    var s2 := Thrice(s1, OWNER, OWNER, OWNER);
    var s3 := Thrice(s2, DUPLICATE, DUPLICATE, DUPLICATE);
    var s4 := Thrice(s3, DUPLICATE, DUPLICATE, DUPLICATE);
    RunThree(Start(2, earlier), OWNER, OWNER, m, AFTER_OUTCOME);
    RunThree(s1, OWNER, OWNER, OWNER, AFTER_DISCARD);
    RunThree(s2, DUPLICATE, DUPLICATE, DUPLICATE, DUPLICATE_STEPS + (OWNER_STEPS + []));
    RunThree(s3, DUPLICATE, DUPLICATE, DUPLICATE, OWNER_STEPS + []);
    RunThree(s4, OWNER, OWNER, OWNER, []);
    OwnerDiscards(earlier, o);
    DuplicateRecovers(Open(earlier), o);
    DuplicatePersists(Open(earlier), o);
    OwnerPersists(Open(earlier), o);
  }

  lemma AgreeingAnswers(s: System, o: Outcome)
    requires Inv(s) && s.shared.ends == Some(o) && Agrees(o)
    ensures AnswersAgree(s)
  {
    forall i | 0 <= i < |s.threads| && IsHandled(s.threads[i])
      ensures s.threads[i].answer == OwnerAnswer(o)
    {
      assert PcOk(s.shared, i, s.threads[i]);
    }
  }

  lemma AgreeingRuns(earlier: Option<string>, o: Outcome)
    requires Agrees(o)
    ensures !CanDisagree(earlier, o)
  {
    forall n: nat, moves | Run(Start(n, earlier), moves).shared.ends == Some(o)
      ensures AnswersAgree(Run(Start(n, earlier), moves))
    {
      RunKeepsInv(Start(n, earlier), moves);
      AgreeingAnswers(Run(Start(n, earlier), moves), o);
    }
  }

  /** Duplicates can get different answers exactly when the outcome is not a unanimous one. */
  lemma DisagreementIff(earlier: Option<string>, o: Outcome)
    ensures CanDisagree(earlier, o) <==> !IsUnanimous(o)
  {
    AgreementByKind(o);
    if Agrees(o) {
      AgreeingRuns(earlier, o);
    } else {
      RaceEnds(earlier, o);
      var s := Run(Start(2, earlier), RacingMoves(o));
      assert s.threads[0].answer != s.threads[1].answer;
    }
  }
}
