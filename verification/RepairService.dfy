/**
  * Handling upstream events one at a time: locked start, agent phase, gated commit, persisted result, replay,
  * recovery.
  */
module RepairService {
  import opened Options
  import opened Messages
  import Gates
  import opened SessionStore
  import RunStates
  import AgentContexts
  import OnlineGate
  import AgentRunner
  import RunScripts
  import opened PhaseAnswers

  // ---- How one stored state may follow another ----

  ghost predicate RecordKept(d: Disk, e: Disk, r: EventRecord, q: EventRecord) {
    && q.key == r.key && q.status == r.status
    && (IsDone(r) ==> q == r)
    && (r.attemptId.Some? ==> q.attemptId == r.attemptId)
    && (r.resultRef.Some? ==> q == r && r.resultRef.value in d.results && r.resultRef.value in e.results
                              && e.results[r.resultRef.value] == d.results[r.resultRef.value])
  }

  /**
    * Records are only added or completed; one with a stored result never changes, nor its result, nor a processed
    * SUCCESS record.
    */
  ghost predicate Extends(d: Disk, e: Disk) {
    d.session.Some? ==>
      && e.session.Some?
      && |d.session.value.events| <= |e.session.value.events|
      && |d.session.value.attemptIds| <= |e.session.value.attemptIds|
      && forall i :: 0 <= i < |d.session.value.events| ==>
           RecordKept(d, e, d.session.value.events[i], e.session.value.events[i])
  }

  /** A processed SUCCESS record. */
  predicate IsDone(r: EventRecord) {
    r.status.SuccessEvent? && r.processingStatus.Succeeded?
  }

  lemma ExtendsTransitive(c: Disk, d: Disk, e: Disk)
    requires Extends(c, d) && Extends(d, e)
    ensures Extends(c, e)
  {
    if c.session.Some? {
      forall i | 0 <= i < |c.session.value.events|
        ensures RecordKept(c, e, c.session.value.events[i], e.session.value.events[i])
      {
        assert RecordKept(c, d, c.session.value.events[i], d.session.value.events[i]);
        assert RecordKept(d, e, d.session.value.events[i], e.session.value.events[i]);
      }
    }
  }

  ghost function Latest(d: Disk): Option<Candidate> {
    if d.session.Some? then d.session.value.latest else None
  }

  ghost function Confirmed(d: Disk): Option<Candidate> {
    if d.session.Some? then d.session.value.confirmed else None
  }

  ghost predicate IsConfirmed(d: Disk) {
    d.session.Some? && d.session.value.status.SessionConfirmed?
  }

  ghost function AttemptCount(d: Disk): nat {
    if d.session.Some? then |d.session.value.attemptIds| else 0
  }

  ghost function EventCount(d: Disk): nat {
    if d.session.Some? then |d.session.value.events| else 0
  }

  ghost predicate SameCounts(d: Disk, e: Disk) {
    AttemptCount(d) == AttemptCount(e) && EventCount(d) == EventCount(e)
  }

  /** No record of another event changes. */
  ghost predicate OthersKept(d: Disk, e: Disk, key: EventKey) {
    forall i :: 0 <= i < EventCount(d) && d.session.value.events[i].key != key ==>
      i < EventCount(e) && e.session.value.events[i] == d.session.value.events[i]
  }

  lemma OthersKeptTransitive(c: Disk, d: Disk, e: Disk, key: EventKey)
    requires OthersKept(c, d, key) && OthersKept(d, e, key)
    ensures OthersKept(c, e, key)
  {
    forall i | 0 <= i < EventCount(c) && c.session.value.events[i].key != key
      ensures i < EventCount(e) && e.session.value.events[i] == c.session.value.events[i]
    {
      assert d.session.value.events[i] == c.session.value.events[i];
    }
  }

  /** A record and an attempt are added exactly when the event has no record yet. */
  ghost predicate CountsNew(d: Disk, e: Disk, key: EventKey) {
    if RecordOf(d, key).Some? then SameCounts(d, e)
    else EventCount(e) == EventCount(d) + 1 && AttemptCount(e) == AttemptCount(d) + 1
  }

  /** The record of an event, when there is one. */
  ghost function RecordOf(d: Disk, key: EventKey): Option<EventRecord> {
    if d.session.None? then None
    else
      var i := FindEvent(d.session.value.events, key);
      if i.None? then None else Some(d.session.value.events[i.value])
  }

  /** The result stored for an event. */
  ghost function StoredResult(d: Disk, key: EventKey): Option<ExternalResult> {
    var r := RecordOf(d, key);
    if r.Some? && r.value.resultRef.Some? && r.value.resultRef.value in d.results
      then Some(d.results[r.value.resultRef.value]) else None
  }

  lemma FindDistinct(events: seq<EventRecord>, i: nat)
    requires DistinctKeys(events) && i < |events|
    ensures FindEvent(events, events[i].key) == Some(i)
  {}

  lemma StoredResultsAreKept(policy: Policy, d: Disk, e: Disk, key: EventKey)
    requires StoreInv(policy, d) && StoreInv(policy, e) && Extends(d, e) && StoredResult(d, key).Some?
    ensures StoredResult(e, key) == StoredResult(d, key)
  {
    var i := FindEvent(d.session.value.events, key).value;
    assert RecordKept(d, e, d.session.value.events[i], e.session.value.events[i]);
    FindDistinct(e.session.value.events, i);
  }

  lemma RecordsAreKept(d: Disk, e: Disk, key: EventKey)
    requires Extends(d, e) && RecordOf(d, key).Some?
    ensures RecordOf(e, key).Some?
  {
    var i := FindEvent(d.session.value.events, key).value;
    assert RecordKept(d, e, d.session.value.events[i], e.session.value.events[i]);
  }

  /** Appending records and attempts. */
  lemma GrownExtends(policy: Policy, d: Disk, e: Disk)
    requires StoreInv(policy, d) && d.session.Some? && e.session.Some? && e.results == d.results
    requires d.session.value.events <= e.session.value.events
    requires |d.session.value.attemptIds| <= |e.session.value.attemptIds|
    ensures Extends(d, e)
  {
    var s := d.session.value;
    forall k | 0 <= k < |s.events| ensures RecordKept(d, e, s.events[k], e.session.value.events[k]) {
      assert RecordOk(d, |s.attemptIds|, s.events[k]);
    }
  }

  // ---- Finishing an attempt ----

  /** Record `i` owns attempt `id` and has no result yet. */
  ghost predicate IsOpen(d: Disk, i: nat, id: nat) {
    && d.session.Some? && i < |d.session.value.events|
    && d.session.value.events[i].attemptId == Some(id) && d.session.value.events[i].resultRef.None?
  }

  function ClosedRecord(r: EventRecord, id: nat): EventRecord {
    r.(processingStatus := Succeeded, resultRef := Some(id), errorCode := None)
  }

  ghost function WithResult(d: Disk, id: nat, r: ExternalResult): Disk {
    d.(results := d.results[id := r])
  }

  /** The stored state after the result of attempt `id` has been persisted. */
  ghost function Finished(d: Disk, i: nat, id: nat, r: ExternalResult): Disk
    requires IsOpen(d, i, id)
  {
    var s := d.session.value;
    d.(results := d.results[id := r],
       session := Some(s.(lastResultRef := Some(id), events := s.events[i := ClosedRecord(s.events[i], id)])))
  }

  lemma FinishedExtends(policy: Policy, d: Disk, i: nat, id: nat, r: ExternalResult)
    requires StoreInv(policy, d) && IsOpen(d, i, id)
    ensures Extends(d, Finished(d, i, id, r))
    ensures StoredResult(Finished(d, i, id, r), d.session.value.events[i].key) == Some(r)
  {
    var s, e := d.session.value, Finished(d, i, id, r);
    var events := e.session.value.events;
    forall k | 0 <= k < |s.events| ensures RecordKept(d, e, s.events[k], events[k]) {
      assert RecordOk(d, |s.attemptIds|, s.events[k]);
    }
    assert DistinctKeys(events);
    FindDistinct(events, i);
  }

  /** The in-memory copy `a` of an attempt may be written back. */
  ghost predicate MayWrite(policy: Policy, d: Disk, i: nat, a: Attempt) {
    && IsOpen(d, i, a.attemptId) && a.sourceEventKey == d.session.value.events[i].key
    && a.attemptId in d.attempts && SameIdentity(a, d.attempts[a.attemptId])
    && CandidateOk(policy, a)
    && (d.session.value.latest.Some? ==> d.session.value.latest.value.attemptId != a.attemptId)
    && (a.attemptId in d.results ==> !d.results[a.attemptId].SqlReadyResult?)
  }

  ghost function WithAttempt(d: Disk, a: Attempt): Disk {
    d.(attempts := d.attempts[a.attemptId := a])
  }

  ghost function WithStatus(d: Disk, status: SessionStatus): Disk
    requires d.session.Some?
  {
    d.(session := Some(d.session.value.(status := status)))
  }

  /** Writing attempt files and status flags does not touch records, results or candidates. */
  lemma FlagsExtend(policy: Policy, d: Disk, a: Attempt, status: SessionStatus)
    requires StoreInv(policy, d) && d.session.Some?
    ensures Extends(d, WithStatus(d, status)) && Extends(d, WithAttempt(d, a))
            && Extends(d, WithStatus(WithAttempt(d, a), status))
  {
    var s := d.session.value;
    forall k | 0 <= k < |s.events| ensures RecordKept(d, WithStatus(d, status), s.events[k], s.events[k]) {
      assert RecordOk(d, |s.attemptIds|, s.events[k]);
    }
  }

  /** A delivered candidate cleared the gates in this run, with this run's plan, for the SQL of the event it answers. */
  ghost predicate DeliversCleared(policy: Policy, event: Event, script: PhaseScript, r: ExternalResult) {
    r.SqlReadyResult? ==> ReadyIsCleared(policy, event, script, r.sql)
  }

  /** For some draft that the agent proposed, the run released this text. */
  ghost predicate ReadyIsCleared(policy: Policy, event: Event, script: PhaseScript, sql: string) {
    exists draft :: IsClearedFor(policy, event, script, draft, sql)
  }

  ghost predicate IsClearedFor(policy: Policy, event: Event, script: PhaseScript, draft: string, sql: string) {
    && RunScripts.IsProposed(script.run, draft)
    && OnlineGate.ClearedInRun(policy.env, policy.allowMediumRisk, script.run.gate, event.sql, draft, sql)
  }

  /** The service's own risk setting replaces the script's; nothing else of the gate script changes. */
  lemma SameRelease(policy: Policy, event: Event, script: PhaseScript, draft: string, sql: string)
    requires var run := WithRisk(script.run, policy.allowMediumRisk);
             && RunScripts.IsProposed(run, draft)
             && OnlineGate.ClearedInRun(policy.env, policy.allowMediumRisk, run.gate, event.sql, draft, sql)
    ensures IsClearedFor(policy, event, script, draft, sql)
  {
    var run := WithRisk(script.run, policy.allowMediumRisk);
    var reflection :| OnlineGate.MayRelease(run.gate, draft, sql, reflection)
                      && Gates.ClearedBy(policy.env, policy.allowMediumRisk, event.sql, sql,
                                         run.gate.existingPlan.value, reflection);
    assert OnlineGate.MayRelease(script.run.gate, draft, sql, reflection);
    var k: nat :| run.turn(k).reply == RunScripts.Acts(RunScripts.Propose(draft));
    assert script.run.turn(k).reply == RunScripts.Acts(RunScripts.Propose(draft));
  }

  /** What the store asks of a candidate follows from its gates. */
  lemma ReadyIsAllowed(policy: Policy, event: Event, script: PhaseScript, key: EventKey, sql: string)
    requires ReadyIsCleared(policy, event, script, sql) && event.status.FailedEvent? && BuildEventKey(event) == key
    ensures script.run.gate.existingPlan.Some?
            && IsAllowedEvent(policy, key, script.run.gate.existingPlan.value, sql, event)
  {
    var draft :| IsClearedFor(policy, event, script, draft, sql);
  }

  /** The event's attempt holds this candidate, and the attempt's own plan allows it. */
  ghost predicate HoldsAllowed(policy: Policy, d: Disk, key: EventKey, sql: string) {
    && RecordOf(d, key).Some? && RecordOf(d, key).value.attemptId.Some?
    && var id := RecordOf(d, key).value.attemptId.value;
       id in d.attempts && d.attempts[id].sqlCandidate == Some(sql)
         && AllowedFor(policy, key, d.attempts[id].repairPlan, sql)
  }

  /** A stored SQL_READY answer is a candidate that its attempt's plan allows. */
  lemma StoredIsAllowed(policy: Policy, d: Disk, key: EventKey, sql: string)
    requires StoreInv(policy, d) && StoredResult(d, key) == Some(SqlReadyResult(sql))
    ensures HoldsAllowed(policy, d, key, sql)
  {
    var s := d.session.value;
    var i := FindEvent(s.events, key).value;
    assert RecordOk(d, |s.attemptIds|, s.events[i]);
    var id := s.events[i].resultRef.value;
    assert ResultOk(d, id) && AttemptOk(policy, d, s, id);
  }

  /** When the failed SQL is the current candidate, the candidate's attempt failed upstream. */
  ghost function MarkedFailed(d: Disk, event: Event): Disk {
    if Latest(d).Some? && Latest(d).value.sql == event.sql && Latest(d).value.attemptId in d.attempts then
      var p := Latest(d).value.attemptId;
      d.(attempts := d.attempts[p := d.attempts[p].(status := UpstreamFailed)])
    else d
  }

  // ---- What one agent phase does to the stored state ----

  /** The statuses of attempt `id` and of the session fit the answer. */
  ghost predicate ShowsAnswer(e: Disk, id: nat, r: ExternalResult) {
    && e.session.Some? && id in e.attempts
    && (r.SqlReadyResult? ==>
          && e.session.value.status.SqlReadyPendingUpstream?
          && e.attempts[id].status.SqlReady? && e.attempts[id].sqlCandidate == Some(r.sql))
    && (r.HumanRequiredResult? ==>
          e.session.value.status.SessionHumanRequired? && e.attempts[id].status.HumanRequired?)
    && (r.NoSqlResult? ==> e.attempts[id].status.ValidationBlocked? || e.attempts[id].status.ReflectionBlocked?)
  }

  /** From the running state `d`, attempt `id` of record `i` ends with result `r`. */
  ghost predicate Settles(policy: Policy, d: Disk, e: Disk, i: nat, id: nat, r: ExternalResult) {
    && IsOpen(d, i, id) && Extends(d, e) && SameCounts(e, d) && ShowsAnswer(e, id, r)
    && StoredResult(e, d.session.value.events[i].key) == Some(r)
    && Confirmed(e) == Confirmed(d) && !IsConfirmed(e)
    && OthersKept(d, e, d.session.value.events[i].key)
    && (r.SqlReadyResult? ==> id == AttemptCount(e))
    && Latest(e) == (if r.SqlReadyResult? then Some(Candidate(r.sql, id)) else Latest(d))
  }

  /** Record `i` is still open; statuses and attempt files may have changed. */
  ghost predicate Continues(d: Disk, e: Disk, i: nat, id: nat) {
    && IsOpen(d, i, id) && IsOpen(e, i, id) && Extends(d, e) && SameCounts(e, d)
    && e.session.value.events == d.session.value.events
    && Confirmed(e) == Confirmed(d) && Latest(e) == Latest(d)
  }

  lemma SettlesFromEarlier(policy: Policy, d: Disk, d1: Disk, e: Disk, i: nat, id: nat, r: ExternalResult)
    requires Continues(d, d1, i, id) && Settles(policy, d1, e, i, id, r)
    ensures Settles(policy, d, e, i, id, r)
  {
    ExtendsTransitive(d, d1, e);
  }

  /** Persisting a result without a candidate settles the attempt. */
  lemma FinishSettles(policy: Policy, d: Disk, d1: Disk, i: nat, id: nat, r: ExternalResult)
    requires StoreInv(policy, d1) && Continues(d, d1, i, id) && !IsConfirmed(d1) && !r.SqlReadyResult?
    requires ShowsAnswer(d1, id, r)
    ensures Settles(policy, d, Finished(d1, i, id, r), i, id, r)
  {
    FinishedExtends(policy, d1, i, id, r);
    ExtendsTransitive(d, d1, Finished(d1, i, id, r));
  }

  // ---- Committing a candidate ----

  /** The gate result passes and hashes the formal candidate. */
  predicate IsVouchedFor(candidate: AgentContexts.CandidateState, gate: Gates.GateResult) {
    candidate.formalSql.Some? && Gates.Passes(gate) && gate.candidateHash == Gates.Sha256(candidate.formalSql.value)
  }

  lemma NewestIsLast(policy: Policy, d: Disk, i: nat, a: Attempt)
    requires StoreInv(policy, d) && MayWrite(policy, d, i, a) && a.attemptId == AttemptCount(d)
    ensures var ids := d.session.value.attemptIds; ids != [] && a.attemptId == ids[|ids| - 1]
  {
    assert RecordOk(d, |d.session.value.attemptIds|, d.session.value.events[i]);
  }

  /** Neither write of a commit breaks the store invariant. */
  lemma CommitKeeps(policy: Policy, d: Disk, i: nat, a: Attempt, ready: Attempt, sql: string)
    requires StoreInv(policy, d) && MayWrite(policy, d, i, a) && AllowedFor(policy, a.sourceEventKey, a.repairPlan, sql)
    requires ready == a.(sqlCandidate := Some(sql), status := SqlReady)
    ensures StoreInv(policy, WithAttempt(d, ready))
    ensures StoreInv(policy, WithLatest(WithAttempt(d, ready), Candidate(sql, a.attemptId)))
  {
    assert RecordOk(d, |d.session.value.attemptIds|, d.session.value.events[i]);
    UpdateAttemptKeeps(policy, d, ready);
    SetLatestKeeps(policy, WithAttempt(d, ready), Candidate(sql, a.attemptId));
  }

  /** Stores the attempt first, then the session that points to it; writes nothing when a check fails. */
  method Commit(store: Store, ghost i: nat, a: Attempt, candidate: AgentContexts.CandidateState, gate: Gates.GateResult,
                sessionId: string, artifactExists: bool)
    returns (committed: Option<Attempt>)
    requires store.Safe() && MayWrite(store.policy, store.disk, i, a)
    requires IsVouchedFor(candidate, gate) ==>
               AllowedFor(store.policy, a.sourceEventKey, a.repairPlan, candidate.formalSql.value)
    modifies store
    ensures store.Safe()
    ensures committed.Some?
            <==> CommitAllowed(old(store.disk).session.value, a, candidate, gate, sessionId, artifactExists)
    ensures committed.None? ==> store.disk == old(store.disk) && store.written == old(store.written)
    ensures committed.Some? ==>
              && committed.value == a.(sqlCandidate := candidate.formalSql, status := SqlReady)
              && store.disk
                 == WithLatest(WithAttempt(old(store.disk), committed.value),
                               Candidate(candidate.formalSql.value, a.attemptId))
              && store.written == old(store.written) + [WithAttempt(old(store.disk), committed.value), store.disk]
              && a.attemptId == AttemptCount(old(store.disk))
  {
    var s := store.disk.session.value;
    if !CommitAllowed(s, a, candidate, gate, sessionId, artifactExists) { return None; }
    var ready := a.(sqlCandidate := candidate.formalSql, status := SqlReady);
    CommitKeeps(store.policy, store.disk, i, a, ready, candidate.formalSql.value);
    store.SaveAttempt(ready);
    store.SaveSession(s.(latest := Some(Candidate(candidate.formalSql.value, a.attemptId)),
                         status := SqlReadyPendingUpstream));
    return Some(ready);
  }

  ghost function WithLatest(d: Disk, c: Candidate): Disk
    requires d.session.Some?
  {
    d.(session := Some(d.session.value.(latest := Some(c), status := SqlReadyPendingUpstream)))
  }

  lemma CommitSettles(policy: Policy, d: Disk, i: nat, a: Attempt, sql: string)
    requires StoreInv(policy, d) && IsOpen(d, i, a.attemptId) && a.attemptId == AttemptCount(d)
    requires a.status.SqlReady? && a.sqlCandidate == Some(sql)
    requires StoreInv(policy, WithLatest(WithAttempt(d, a), Candidate(sql, a.attemptId)))
    ensures var c := WithLatest(WithAttempt(d, a), Candidate(sql, a.attemptId));
            IsOpen(c, i, a.attemptId)
              && Settles(policy, d, Finished(c, i, a.attemptId, SqlReadyResult(sql)), i, a.attemptId,
                         SqlReadyResult(sql))
  {
    var c := WithLatest(WithAttempt(d, a), Candidate(sql, a.attemptId));
    FlagsExtend(policy, d, a, SqlReadyPendingUpstream);
    assert Extends(d, c) by {
      forall k | 0 <= k < |d.session.value.events|
        ensures RecordKept(d, c, d.session.value.events[k], c.session.value.events[k])
      {
        assert RecordKept(d, WithAttempt(d, a), d.session.value.events[k], d.session.value.events[k]);
      }
    }
    FinishedExtends(policy, c, i, a.attemptId, SqlReadyResult(sql));
    ExtendsTransitive(d, c, Finished(c, i, a.attemptId, SqlReadyResult(sql)));
  }

  /** The stored state after an attempt, its session and its event have ended for a human. */
  ghost function EndedForHuman(d: Disk, i: nat, a: Attempt, message: string): Disk
    requires IsOpen(d, i, a.attemptId)
  {
    var ended := WithStatus(WithAttempt(d, a.(status := AttemptStatus.HumanRequired)), SessionHumanRequired);
    Finished(ended, i, a.attemptId, HumanRequiredResult(message))
  }

  /** Ending for a human writes the attempt again; what was written before makes no difference. */
  lemma EndedOnce(d: Disk, i: nat, a: Attempt, message: string)
    requires IsOpen(d, i, a.attemptId)
    ensures EndedForHuman(WithAttempt(d, a), i, a, message) == EndedForHuman(d, i, a, message)
  {
    var human := a.(status := AttemptStatus.HumanRequired);
    assert d.attempts[a.attemptId := a][a.attemptId := human] == d.attempts[a.attemptId := human];
  }

  /** The stored state after a committed candidate has been answered. */
  ghost function Delivered(d: Disk, i: nat, a: Attempt, sql: string): Disk
    requires IsOpen(d, i, a.attemptId)
  {
    Finished(WithLatest(WithAttempt(d, a), Candidate(sql, a.attemptId)), i, a.attemptId, SqlReadyResult(sql))
  }

  // ---- The service ----

  predicate HasEvidence(event: Event) {
    Truthy(event.logPath) || Truthy(event.errorMessage)
  }

  /** What a new FAILED event is answered once its attempt `id` is open. */
  ghost predicate AnswersFresh(policy: Policy, limits: RunStates.AgentRunLimits, event: Event, script: PhaseScript,
                               id: nat, r: ExternalResult) {
    if !HasEvidence(event) then r == HumanRequiredResult(NO_EVIDENCE)
    else if script.processorFails then r == HumanRequiredResult(INTERNAL)
    else AnswersRun(policy, limits, event, script, id, r)
  }

  /**
    * What a known event without a stored result is answered: what recovery finds, or what its resumed attempt comes to
    * when it is the newest.
    */
  ghost predicate AnswersKnown(policy: Policy, limits: RunStates.AgentRunLimits, d: Disk, event: Event,
                               script: PhaseScript, r: ExternalResult) {
    RecordOf(d, BuildEventKey(event)).Some? && StoredResult(d, BuildEventKey(event)).None? ==>
      var i := FindEvent(d.session.value.events, BuildEventKey(event)).value;
      if RecoveryOf(d, i).Recovered? then r == RecoveryOf(d, i).result
      else
        d.session.value.events[i].attemptId == Some(AttemptCount(d)) ==>
          AnswersFresh(policy, limits, event, script, AttemptCount(d), r)
  }

  /** How an attempt without a candidate ends. */
  function EndedAttempt(a: Attempt, result: AgentContexts.AgentRunResult, feedback: seq<Gates.GateFeedback>): Attempt {
    var staticBlocked := feedback != [] && feedback[|feedback| - 1].gateName.StaticValidationGate?;
    a.(status := if result.status.HumanResult? || result.status.FailedResult? then AttemptStatus.HumanRequired
                 else if staticBlocked then ValidationBlocked else ReflectionBlocked,
       stopReason := if Truthy(result.reason) then result.reason
                     else if result.stopReason.Some? then Some(RunStates.StopText(result.stopReason.value)) else None)
  }

  /** An answer given inside the locked section: nothing but the record's own result and statuses changed. */
  ghost predicate Answers(policy: Policy, d: Disk, e: Disk, key: EventKey, r: ExternalResult) {
    && Extends(d, e) && SameCounts(e, d) && Latest(e) == Latest(d) && Confirmed(e) == Confirmed(d)
    && (IsConfirmed(e) ==> IsConfirmed(d))
    && (StoredResult(e, key).Some? ==> StoredResult(e, key) == Some(r))
    && (StoredResult(d, key).Some? ==> e == d)
    && (r.SqlReadyResult? ==> StoredResult(e, key) == Some(r))
    && OthersKept(d, e, key)
  }

  datatype Recovery = Resumes | Recovered(result: ExternalResult)

  datatype Start = Answered(result: ExternalResult) | Started(i: nat, attempt: Attempt)

  function AnswerOf(start: Start): Option<ExternalResult> {
    if start.Answered? then Some(start.result) else None
  }

  function AttemptOf(start: Start): nat {
    if start.Started? then start.attempt.attemptId else 0
  }

  /** What recovery answers, as a function of the stored attempt of record `i`. */
  ghost function RecoveryOf(d: Disk, i: nat): Recovery
    requires d.session.Some? && i < |d.session.value.events|
  {
    var id := d.session.value.events[i].attemptId;
    if id.None? || id.value !in d.attempts then Recovered(HumanRequiredResult(ATTEMPT_MISSING))
    else
      var a := d.attempts[id.value];
      if a.status.SqlReady? && Truthy(a.sqlCandidate) then Recovered(SqlReadyResult(a.sqlCandidate.value))
      else if a.status.HumanRequired? || a.status.ValidationBlocked? || a.status.ReflectionBlocked? then
        Recovered(HumanRequiredResult(if Truthy(a.stopReason) then a.stopReason.value else TERMINATED))
      else if a.status.Created? && !a.staged then Resumes
      else Recovered(HumanRequiredResult(PARTIAL_MESSAGE))
  }

  /** A known event without a stored result gets what recovery says of its attempt, or its attempt is run again. */
  ghost predicate RecoversAs(d: Disk, key: EventKey, answer: Option<ExternalResult>, id: nat) {
    RecordOf(d, key).Some? && StoredResult(d, key).None? ==>
      var i := FindEvent(d.session.value.events, key).value;
      if RecoveryOf(d, i).Recovered? then answer == Some(RecoveryOf(d, i).result)
      else answer.None? && d.session.value.events[i].attemptId == Some(id)
  }

  lemma ExtendsReflexive(policy: Policy, d: Disk)
    requires StoreInv(policy, d)
    ensures Extends(d, d)
  {
    if d.session.Some? {
      var s := d.session.value;
      forall k | 0 <= k < |s.events| ensures RecordKept(d, d, s.events[k], s.events[k]) {
        assert RecordOk(d, |s.attemptIds|, s.events[k]);
      }
    }
  }

  /** The event's record and attempt are in place. */
  ghost predicate Opens(policy: Policy, d: Disk, e: Disk, event: Event, i: nat, a: Attempt) {
    && MayWrite(policy, e, i, a) && a.sourceEventKey == BuildEventKey(event)
    && Extends(d, e) && OthersKept(d, e, BuildEventKey(event)) && Latest(e) == Latest(d) && Confirmed(e) == Confirmed(d)
    && CountsNew(d, e, BuildEventKey(event)) && StoredResult(d, BuildEventKey(event)).None?
    && e.attempts[a.attemptId].status.Created?
  }

  /** The stored state just before the agent phase of a FAILED event. */
  ghost predicate Begins(policy: Policy, d: Disk, e: Disk, event: Event, i: nat, a: Attempt) {
    Opens(policy, d, e, event, i, a) && event.status.FailedEvent? && e.session.value.status.SessionRunning?
  }

  /** Marking the session as running begins the agent phase. */
  lemma OpenBegins(policy: Policy, d: Disk, d1: Disk, e: Disk, event: Event, i: nat, a: Attempt)
    requires Opens(policy, d, d1, event, i, a) && event.status.FailedEvent?
    requires e == WithStatus(d1, SessionRunning) && MayWrite(policy, e, i, a) && Extends(d1, e)
    ensures Begins(policy, d, e, event, i, a)
  {
    ExtendsTransitive(d, d1, e);
  }

  /** What handling a FAILED event does to the stored state. */
  ghost predicate Handles(policy: Policy, d: Disk, e: Disk, key: EventKey, r: ExternalResult) {
    && Extends(d, e) && OthersKept(d, e, key) && Confirmed(e) == Confirmed(d)
    && CountsNew(d, e, key) && RecordOf(e, key).Some?
    && (RecordOf(d, key).None? ==> StoredResult(e, key) == Some(r))
    && (IsConfirmed(e) ==> IsConfirmed(d) && Latest(e) == Latest(d))
    && (StoredResult(d, key).Some? ==> StoredResult(d, key) == Some(r) && e == d)
    && (StoredResult(e, key).Some? ==> StoredResult(e, key) == Some(r))
    && (r.SqlReadyResult? ==> StoredResult(e, key) == Some(r))
    && (Latest(e) == Latest(d) || (r.SqlReadyResult? && Latest(e) == Some(Candidate(r.sql, AttemptCount(e)))))
    && (RecordOf(d, key).None? ==> Latest(e) == if r.SqlReadyResult? then Some(Candidate(r.sql, AttemptCount(e)))
                                                else Latest(d))
  }

  /** A SUCCESS event confirms when it is not yet processed and carries the current candidate. */
  ghost predicate Matches(d: Disk, event: Event) {
    && Latest(d).Some? && Latest(d).value.sql == event.sql
    && !IsProcessed(d, BuildEventKey(event))
  }

  /** The attempt of the confirmed candidate is marked as confirmed. */
  ghost predicate AttemptIsConfirmed(d: Disk) {
    && Confirmed(d).Some? && Confirmed(d).value.attemptId in d.attempts
    && d.attempts[Confirmed(d).value.attemptId].status.UpstreamConfirmedSuccess?
  }

  /** The event's record says that it is processed. */
  ghost predicate IsProcessed(d: Disk, key: EventKey) {
    RecordOf(d, key).Some? && RecordOf(d, key).value.processingStatus.Succeeded?
  }

  /** What handling a SUCCESS event does to the stored state. */
  ghost predicate Confirms(d: Disk, e: Disk, event: Event, matched: bool) {
    && Extends(d, e) && OthersKept(d, e, BuildEventKey(event)) && AttemptCount(e) == AttemptCount(d)
    && Latest(e) == Latest(d)
    && RecordOf(e, BuildEventKey(event)).Some?
    && EventCount(e) == EventCount(d) + (if RecordOf(d, BuildEventKey(event)).None? then 1 else 0)
    && (matched ==> Confirmed(e) == Latest(d) && IsConfirmed(e) && AttemptIsConfirmed(e))
    && (!matched ==> Confirmed(e) == Confirmed(d) && (IsConfirmed(e) <==> IsConfirmed(d)))
  }

  const CONFIRMED := "confirmed"
  const DEGRADED := "confirmed, memory degraded"
  const UNMATCHED := "unmatched"

  /** The event's record carries this error code. */
  ghost predicate HasCode(d: Disk, key: EventKey, code: Option<string>) {
    RecordOf(d, key).Some? && RecordOf(d, key).value.errorCode == code
  }

  ghost predicate IsUnmatched(e: Disk, event: Event, r: ExternalResult) {
    r == SuccessAck(Some(UNMATCHED)) && HasCode(e, BuildEventKey(event), Some("UNMATCHED_SUCCESS"))
  }

  /** What a SUCCESS event is answered under the lock, and the code with which its record is closed. */
  ghost predicate AnswersSuccess(d: Disk, e: Disk, event: Event, script: SuccessScript, r: ExternalResult) {
    var key := BuildEventKey(event);
    if IsProcessed(d, key) then r == SuccessAck(None)
    else if !Matches(d, event) then IsUnmatched(e, event, r)
    else if script.memoryWritten && script.secondLock then r == SuccessAck(Some(CONFIRMED)) && HasCode(e, key, None)
    else if script.thirdLock then r == SuccessAck(Some(DEGRADED)) && HasCode(e, key, Some("MEMORY_WRITE_DEGRADED"))
    else r == HumanRequiredResult(INTERNAL)
  }

  /** A lock is held when the record is to be closed. */
  predicate CanClose(script: SuccessScript) {
    (script.memoryWritten && script.secondLock) || script.thirdLock
  }

  function DegradedCode(script: SuccessScript): Option<string> {
    if script.memoryWritten && script.secondLock then None else Some("MEMORY_WRITE_DEGRADED")
  }

  datatype SuccessScript = SuccessScript(firstLock: bool, memoryWritten: bool, secondLock: bool, thirdLock: bool)

  /** One event together with everything its handling takes from outside. */
  datatype Delivery = Delivery(event: Event, phase: PhaseScript, success: SuccessScript)

  /** What handling one delivery does: nothing when it is turned away, else as its kind of event demands. */
  ghost predicate Handled(policy: Policy, agenticEnabled: bool, d: Disk, e: Disk, delivery: Delivery,
                          r: ExternalResult) {
    var event := delivery.event;
    if event.status.FailedEvent? && agenticEnabled && delivery.phase.firstLock then
      && Handles(policy, d, e, BuildEventKey(event), r)
      && (RecordOf(d, BuildEventKey(event)).None? || Latest(e) != Latest(d) ==>
          DeliversCleared(policy, event, delivery.phase, r))
    else if event.status.SuccessEvent? && delivery.success.firstLock then
      && Confirms(d, e, event, Matches(d, event)) && !r.SqlReadyResult?
      && (IsProcessed(d, BuildEventKey(event)) ==> e == d && r == SuccessAck(None))
      && (IsProcessed(e, BuildEventKey(event)) <==>
            IsProcessed(d, BuildEventKey(event)) || !Matches(d, event) || CanClose(delivery.success))
    else e == d && r.HumanRequiredResult?
  }

  lemma ConfirmedIsAnswered(d: Disk, e: Disk, event: Event, script: SuccessScript, r: ExternalResult)
    requires Matches(d, event) && !IsProcessed(d, BuildEventKey(event))
    requires CanClose(script) ==> HasCode(e, BuildEventKey(event), DegradedCode(script))
    requires r == if !CanClose(script) then HumanRequiredResult(INTERNAL)
                  else SuccessAck(Some(if DegradedCode(script).None? then CONFIRMED else DEGRADED))
    ensures AnswersSuccess(d, e, event, script, r)
  {}

  /** A later change that keeps counts and candidate; it may set the confirmed candidate. */
  lemma ConfirmsThenKeeps(d: Disk, d1: Disk, e: Disk, event: Event, matched1: bool, matched: bool)
    requires Confirms(d, d1, event, matched1) && Extends(d1, e) && OthersKept(d1, e, BuildEventKey(event))
    requires matched1 ==> matched
    requires SameCounts(e, d1) && Latest(e) == Latest(d1)
    requires if matched == matched1 then Confirmed(e) == Confirmed(d1) && (IsConfirmed(e) <==> IsConfirmed(d1))
             else Confirmed(e) == Latest(d) && IsConfirmed(e) && AttemptIsConfirmed(e)
    requires matched1 ==> e.attempts == d1.attempts
    ensures Confirms(d, e, event, matched)
  {
    ExtendsTransitive(d, d1, e);
    OthersKeptTransitive(d, d1, e, BuildEventKey(event));
    RecordsAreKept(d1, e, BuildEventKey(event));
  }

  lemma StartThenSettle(policy: Policy, d: Disk, d1: Disk, e: Disk, event: Event, i: nat, a: Attempt, r: ExternalResult)
    requires StoreInv(policy, d1) && Begins(policy, d, d1, event, i, a) && Settles(policy, d1, e, i, a.attemptId, r)
    ensures Handles(policy, d, e, BuildEventKey(event), r)
  {
    OthersKeptTransitive(d, d1, e, BuildEventKey(event));
    ExtendsTransitive(d, d1, e);
  }

  /** An answer to a known event is a handling of it. */
  lemma AnswersHandle(policy: Policy, d: Disk, e: Disk, key: EventKey, r: ExternalResult)
    requires Answers(policy, d, e, key, r) && RecordOf(d, key).Some?
    ensures Handles(policy, d, e, key, r)
  {
    RecordsAreKept(d, e, key);
  }

  /** Record `i` is that of the SUCCESS event and not yet processed. */
  ghost predicate IsOpenSuccess(d: Disk, event: Event, i: nat) {
    && d.session.Some? && i < |d.session.value.events| && d.session.value.events[i].key == BuildEventKey(event)
    && d.session.value.events[i].resultRef.None? && !IsDone(d.session.value.events[i])
  }

  ghost function WithClosed(d: Disk, i: nat, errorCode: Option<string>): Disk
    requires d.session.Some? && i < |d.session.value.events|
  {
    var s := d.session.value;
    var r := s.events[i].(processingStatus := Succeeded, resultRef := None, errorCode := errorCode);
    d.(session := Some(s.(events := s.events[i := r])))
  }

  /** Closing record `i` without a result. */
  lemma ClosedWithoutResult(policy: Policy, d: Disk, e: Disk, i: nat, r: EventRecord)
    requires StoreInv(policy, d) && StoreInv(policy, e) && d.session.Some? && i < |d.session.value.events|
    requires d.session.value.events[i].resultRef.None? && r.resultRef.None? && !IsDone(d.session.value.events[i])
    requires r.key == d.session.value.events[i].key && r.status == d.session.value.events[i].status
    requires r.attemptId == d.session.value.events[i].attemptId
    requires e.session == Some(d.session.value.(events := d.session.value.events[i := r])) && e.results == d.results
    ensures Extends(d, e) && StoredResult(e, r.key).None? && StoredResult(d, r.key).None?
  {
    var s, t := d.session.value, e.session.value;
    forall k | 0 <= k < |s.events| ensures RecordKept(d, e, s.events[k], t.events[k]) {
      assert RecordOk(d, |s.attemptIds|, s.events[k]);
    }
    FindDistinct(s.events, i);
    FindDistinct(t.events, i);
  }

  /** A key's FAILED event, the attempt it runs in, and where its record is. */
  ghost predicate IsRunning(policy: Policy, d: Disk, i: nat, a: Attempt, event: Event) {
    && MayWrite(policy, d, i, a)
    && event.status.FailedEvent? && BuildEventKey(event) == a.sourceEventKey && !IsConfirmed(d)
    && d.attempts[a.attemptId].status.Created?
  }

  // ---- Candidates that a crash can lose ----

  /** The candidate that recovery would answer for an event without a stored result. */
  ghost function OpenCandidate(d: Disk, key: EventKey): Option<Candidate> {
    var r := RecordOf(d, key);
    if r.Some? && r.value.resultRef.None? && r.value.attemptId.Some? && r.value.attemptId.value in d.attempts then
      var a := d.attempts[r.value.attemptId.value];
      if a.status.SqlReady? && Truthy(a.sqlCandidate)
        then Some(Candidate(a.sqlCandidate.value, r.value.attemptId.value)) else None
    else None
  }

  /** It is what recovery answers. */
  lemma OpenCandidateIsRecovered(d: Disk, key: EventKey, c: Candidate)
    requires d.session.Some?
    ensures OpenCandidate(d, key) == Some(c) <==>
              && var i := FindEvent(d.session.value.events, key);
                 i.Some? && d.session.value.events[i.value].resultRef.None?
                 && d.session.value.events[i.value].attemptId == Some(c.attemptId)
                 && RecoveryOf(d, i.value) == Recovered(SqlReadyResult(c.sql))
  {}

  /** Recovery would answer SQL_READY with a candidate that the session does not hold. */
  ghost predicate LosesCandidate(d: Disk, key: EventKey) {
    OpenCandidate(d, key).Some? && Latest(d) != OpenCandidate(d, key)
  }

  ghost predicate QuietSince(states: seq<Disk>, n: nat, key: EventKey) {
    forall k :: n <= k < |states| ==> !LosesCandidate(states[k], key)
  }

  /** Among the states written since `n`, only the one between the two writes of a commit loses the candidate. */
  ghost predicate IsCommitWindow(states: seq<Disk>, n: nat, key: EventKey, commitAt: Option<nat>) {
    && (forall k :: n <= k < |states| ==> (LosesCandidate(states[k], key) <==> commitAt == Some(k)))
    && (commitAt.Some? ==>
          && n <= commitAt.value && commitAt.value + 1 < |states|
          && states[commitAt.value].session.Some? && OpenCandidate(states[commitAt.value], key).Some?
          && states[commitAt.value + 1]
             == WithLatest(states[commitAt.value], OpenCandidate(states[commitAt.value], key).value))
  }

  lemma UnreadyIsQuiet(d: Disk, i: nat, id: nat)
    requires IsOpen(d, i, id) && DistinctKeys(d.session.value.events)
    requires id in d.attempts ==> !d.attempts[id].status.SqlReady?
    ensures !LosesCandidate(d, d.session.value.events[i].key)
  {
    FindDistinct(d.session.value.events, i);
  }

  lemma ClosedIsQuiet(policy: Policy, d: Disk, i: nat)
    requires StoreInv(policy, d) && d.session.Some? && i < |d.session.value.events|
             && d.session.value.events[i].resultRef.Some?
    ensures !LosesCandidate(d, d.session.value.events[i].key)
  {
    FindDistinct(d.session.value.events, i);
  }

  lemma UnattachedIsQuiet(d: Disk, i: nat)
    requires d.session.Some? && i < |d.session.value.events| && DistinctKeys(d.session.value.events)
    requires d.session.value.events[i].attemptId.None?
    ensures !LosesCandidate(d, d.session.value.events[i].key)
  {
    FindDistinct(d.session.value.events, i);
  }

  lemma QuietOnly(states: seq<Disk>, more: seq<Disk>, key: EventKey)
    requires forall k :: 0 <= k < |more| ==> !LosesCandidate(more[k], key)
    ensures QuietSince(states + more, |states|, key)
  {
    forall k | |states| <= k < |states + more| ensures !LosesCandidate((states + more)[k], key) {
      assert (states + more)[k] == more[k - |states|];
    }
  }

  lemma QuietThenQuiet(w0: seq<Disk>, w1: seq<Disk>, w2: seq<Disk>, key: EventKey)
    requires w0 <= w1 <= w2 && QuietSince(w1, |w0|, key) && QuietSince(w2, |w1|, key)
    ensures QuietSince(w2, |w0|, key)
  {
    forall k | |w0| <= k < |w2| ensures !LosesCandidate(w2[k], key) {
      if k < |w1| { assert w2[k] == w1[k]; }
    }
  }

  lemma QuietThenWindow(w0: seq<Disk>, w1: seq<Disk>, w2: seq<Disk>, key: EventKey, commitAt: Option<nat>)
    requires w0 <= w1 <= w2 && QuietSince(w1, |w0|, key) && IsCommitWindow(w2, |w1|, key, commitAt)
    ensures IsCommitWindow(w2, |w0|, key, commitAt)
  {
    forall k | |w0| <= k < |w2| ensures LosesCandidate(w2[k], key) <==> commitAt == Some(k) {
      if k < |w1| { assert w2[k] == w1[k]; }
    }
  }

  lemma QuietIsWindow(states: seq<Disk>, n: nat, key: EventKey)
    requires QuietSince(states, n, key)
    ensures IsCommitWindow(states, n, key, None)
  {}

  /** The two writes that store an ended attempt and its session. */
  lemma EndedIsQuiet(d: Disk, i: nat, a: Attempt, status: SessionStatus, w: seq<Disk>)
    requires IsOpen(d, i, a.attemptId) && !a.status.SqlReady? && DistinctKeys(d.session.value.events)
    ensures var key, e := d.session.value.events[i].key, WithStatus(WithAttempt(d, a), status);
            QuietSince(w + [WithAttempt(d, a), e], |w|, key) && !LosesCandidate(e, key)
  {
    var e := WithStatus(WithAttempt(d, a), status);
    UnreadyIsQuiet(WithAttempt(d, a), i, a.attemptId);
    UnreadyIsQuiet(e, i, a.attemptId);
    QuietOnly(w, [WithAttempt(d, a), e], d.session.value.events[i].key);
  }

  /** The two writes that store a result and close the record, when the candidate was not lost before. */
  lemma PersistIsQuiet(policy: Policy, d: Disk, i: nat, id: nat, r: ExternalResult, w: seq<Disk>)
    requires StoreInv(policy, d) && IsOpen(d, i, id) && !LosesCandidate(d, d.session.value.events[i].key)
    requires StoreInv(policy, Finished(d, i, id, r))
    ensures QuietSince(w + [WithResult(d, id, r), Finished(d, i, id, r)], |w|, d.session.value.events[i].key)
  {
    ClosedIsQuiet(policy, Finished(d, i, id, r), i);
    QuietOnly(w, [WithResult(d, id, r), Finished(d, i, id, r)], d.session.value.events[i].key);
  }

  /** Between the commit's two writes the candidate is lost; after the second it is held. */
  lemma CommitIsWindow(policy: Policy, d: Disk, i: nat, a: Attempt, sql: string, w: seq<Disk>)
    requires StoreInv(policy, d) && IsOpen(d, i, a.attemptId) && IsAnswer(a, sql) && a.status.SqlReady? && sql != ""
    requires Latest(d).Some? ==> Latest(d).value.attemptId != a.attemptId
    ensures var key, first, second :=
            d.session.value.events[i].key, WithAttempt(d, a),
              WithLatest(WithAttempt(d, a), Candidate(sql, a.attemptId));
            IsCommitWindow(w + [first, second], |w|, key, Some(|w|)) && !LosesCandidate(second, key)
  {
    var first, second := WithAttempt(d, a), WithLatest(WithAttempt(d, a), Candidate(sql, a.attemptId));
    FindDistinct(d.session.value.events, i);
    var states := w + [first, second];
    assert states[|w|] == first && states[|w| + 1] == second;
  }

  lemma WindowThenQuiet(w0: seq<Disk>, w1: seq<Disk>, w2: seq<Disk>, key: EventKey, commitAt: Option<nat>)
    requires w0 <= w1 <= w2 && IsCommitWindow(w1, |w0|, key, commitAt) && QuietSince(w2, |w1|, key)
    ensures IsCommitWindow(w2, |w0|, key, commitAt)
  {
    forall k | |w0| <= k < |w2| ensures LosesCandidate(w2[k], key) <==> commitAt == Some(k) {
      if k < |w1| { assert w2[k] == w1[k]; }
    }
    if commitAt.Some? {
      assert w2[commitAt.value] == w1[commitAt.value] && w2[commitAt.value + 1] == w1[commitAt.value + 1];
    }
  }

  /** The three writes that open an attempt. */
  lemma OpeningIsQuiet(d1: Disk, d2: Disk, d3: Disk, i: nat, id: nat, w: seq<Disk>)
    requires d1.session.Some? && DistinctKeys(d1.session.value.events)
    requires d3.session.Some? && DistinctKeys(d3.session.value.events)
    requires d2.session == d1.session && i < |d1.session.value.events| && d1.session.value.events[i].attemptId.None?
    requires IsOpen(d3, i, id) && id in d3.attempts && d3.attempts[id].status.Created?
    requires d3.session.value.events[i].key == d1.session.value.events[i].key
    ensures QuietSince(w + [d1, d2, d3], |w|, d1.session.value.events[i].key)
  {
    UnattachedIsQuiet(d1, i);
    UnattachedIsQuiet(d2, i);
    UnreadyIsQuiet(d3, i, id);
    QuietOnly(w, [d1, d2, d3], d1.session.value.events[i].key);
  }

  lemma HeldIsQuiet(policy: Policy, d: Disk, i: nat, c: Candidate)
    requires StoreInv(policy, d) && IsOpen(d, i, c.attemptId) && Latest(d) == Some(c)
    ensures !LosesCandidate(d, d.session.value.events[i].key)
  {
    FindDistinct(d.session.value.events, i);
  }

  /** Closing a half-done attempt and its record. */
  lemma PartialIsAnswered(policy: Policy, d: Disk, e: Disk, i: nat, a: Attempt)
    requires StoreInv(policy, d) && StoreInv(policy, e) && IsOpen(d, i, a.attemptId) && a.status.HumanRequired?
    requires d.session.value.events[i].status.FailedEvent?
    requires var s := d.session.value;
             var r := s.events[i].(processingStatus := SystemError, resultRef := None,
                                   errorCode := Some(PARTIAL_UNSAFE));
             e == WithAttempt(d, a).(session := Some(s.(events := s.events[i := r])))
    ensures var key := d.session.value.events[i].key;
            && Answers(policy, d, e, key, HumanRequiredResult(PARTIAL_MESSAGE))
            && !LosesCandidate(WithAttempt(d, a), key) && !LosesCandidate(e, key)
  {
    UnreadyIsQuiet(WithAttempt(d, a), i, a.attemptId);
    UnreadyIsQuiet(e, i, a.attemptId);
    ClosedWithoutResult(policy, d, e, i, e.session.value.events[i]);
  }

  /** A new attempt may be written: no candidate and no result refers to it yet. */
  lemma FreshMayWrite(policy: Policy, d: Disk, e: Disk, i: nat, a: Attempt)
    requires StoreInv(policy, d) && d.session.Some? && a.attemptId == AttemptCount(d) + 1
    requires IsOpen(e, i, a.attemptId) && a.sourceEventKey == e.session.value.events[i].key
    requires a.attemptId in e.attempts && e.attempts[a.attemptId] == a && a.sqlCandidate.None?
    requires e.results == d.results && Latest(e) == Latest(d)
    ensures MayWrite(policy, e, i, a)
  {}

  /** The stored state after appending `record` and after attaching attempt `a` to it. */
  lemma AttemptIsOpened(policy: Policy, d: Disk, d1: Disk, e: Disk, record: EventRecord, a: Attempt, w: seq<Disk>)
    requires StoreInv(policy, d) && StoreInv(policy, d1) && StoreInv(policy, e) && d.session.Some?
    requires record.attemptId.None? && record.resultRef.None? && a.sourceEventKey == record.key
    requires a.attemptId == AttemptCount(d) + 1 && a.status.Created? && a.sqlCandidate.None?
    requires d1 == d.(session := Some(d.session.value.(events := d.session.value.events + [record])))
    requires var s, t := d.session.value, d1.session.value;
             var r := record.(attemptId := Some(a.attemptId), processingStatus := Processing);
             var u := t.(events := t.events[|s.events| := r], attemptIds := s.attemptIds + [a.attemptId]);
             e == WithAttempt(d1, a).(session := Some(u))
    ensures Extends(d, e) && OthersKept(d, e, record.key) && MayWrite(policy, e, EventCount(d), a)
    ensures AttemptCount(e) == AttemptCount(d) + 1 && EventCount(e) == EventCount(d) + 1
    ensures QuietSince(w + [d1, WithAttempt(d1, a), e], |w|, record.key)
  {
    OpeningIsQuiet(d1, WithAttempt(d1, a), e, EventCount(d), a.attemptId, w);
    GrownExtends(policy, d, e);
    FreshMayWrite(policy, d, e, EventCount(d), a);
  }

  /** The stored state once the session of an event is there. */
  ghost function Loaded(d: Disk, event: Event): Disk {
    if d.session.Some? then d
      else Disk(Some(Session(event.sql, SessionCreated, None, None, [], [], None)), map[], map[])
  }

  /** Creating the session makes no difference to what a SUCCESS event does. */
  lemma LoadedConfirms(policy: Policy, d: Disk, e: Disk, event: Event, matched: bool)
    requires StoreInv(policy, d) && Confirms(Loaded(d, event), e, event, matched)
    ensures Confirms(d, e, event, matched)
  {}

  lemma ProcessedConfirmsNothing(policy: Policy, d: Disk, event: Event)
    requires StoreInv(policy, d) && IsProcessed(d, BuildEventKey(event))
    ensures !Matches(d, event) && Confirms(d, d, event, false)
  {
    ExtendsReflexive(policy, d);
  }

  class RepairAgentService {
    const store: Store
    const limits: RunStates.AgentRunLimits
    const agenticEnabled: bool
    var activeKeys: set<EventKey>

    /** Between two events handled one at a time. */
    ghost predicate Idle()
      reads this, store
    {
      store.Safe() && activeKeys == {} && AgentRunner.NonNegative(limits)
    }

    constructor (store: Store, limits: RunStates.AgentRunLimits, agenticEnabled: bool)
      requires store.Safe() && AgentRunner.NonNegative(limits)
      ensures Idle() && this.store == store && this.limits == limits && this.agenticEnabled == agenticEnabled
    {
      this.store, this.limits, this.agenticEnabled, activeKeys := store, limits, agenticEnabled, {};
    }

    /** Frees the active key, stores the result, then closes the record. */
    method Persist(i: nat, a: Attempt, result: ExternalResult)
      requires store.Safe() && IsOpen(store.disk, i, a.attemptId)
      requires a.sourceEventKey == store.disk.session.value.events[i].key
      requires result.SqlReadyResult? ==>
                 a.attemptId in store.disk.attempts && IsAnswer(store.disk.attempts[a.attemptId], result.sql)
      modifies this`activeKeys, store
      ensures store.Safe() && store.disk == Finished(old(store.disk), i, a.attemptId, result)
      ensures activeKeys == old(activeKeys) - {a.sourceEventKey}
      ensures store.written == old(store.written) + [WithResult(old(store.disk), a.attemptId, result), store.disk]
    {
      activeKeys := activeKeys - {a.sourceEventKey};
      ghost var s0 := store.disk.session.value;
      assert RecordOk(store.disk, |s0.attemptIds|, s0.events[i]);
      SaveResultKeeps(store.policy, store.disk, a.attemptId, result);
      store.SaveResult(a.attemptId, result);
      var s := store.disk.session.value.(lastResultRef := Some(a.attemptId));
      FindDistinct(s.events, i);
      var k := FindEvent(s.events, a.sourceEventKey);
      var _ := store.FinishEvent(s, k.value, Some(a.attemptId), None, Succeeded);
    }

    /** Saves the attempt, then the session with the given status. */
    method SaveAttemptAndSession(ghost i: nat, a: Attempt, status: SessionStatus)
      requires store.Safe() && MayWrite(store.policy, store.disk, i, a) && !a.status.SqlReady?
      modifies store
      ensures store.Safe() && store.written == old(store.written) + [WithAttempt(old(store.disk), a), store.disk]
      ensures store.disk == WithStatus(WithAttempt(old(store.disk), a), status)
      ensures MayWrite(store.policy, store.disk, i, a) && Continues(old(store.disk), store.disk, i, a.attemptId)
      ensures QuietSince(store.written, |old(store.written)|, a.sourceEventKey)
              && !LosesCandidate(store.disk, a.sourceEventKey)
    {
      EndedIsQuiet(store.disk, i, a, status, store.written);
      FlagsExtend(store.policy, store.disk, a, status);
      var s := store.disk.session.value.(status := status);
      assert RecordOk(store.disk, |s.attemptIds|, s.events[i]);
      UpdateAttemptKeeps(store.policy, store.disk, a);
      store.SaveAttempt(a);
      SessionFlagsKeep(store.policy, store.disk, s);
      store.SaveSession(s);
    }

    /** Ends the attempt and the session for a human. */
    method Human(i: nat, a: Attempt, message: string) returns (r: ExternalResult)
      requires store.Safe() && MayWrite(store.policy, store.disk, i, a)
      modifies this`activeKeys, store
      ensures store.Safe() && r == HumanRequiredResult(message)
      ensures Settles(store.policy, old(store.disk), store.disk, i, a.attemptId, r)
      ensures Latest(store.disk) == Latest(old(store.disk))
      ensures activeKeys == old(activeKeys) - {a.sourceEventKey}
      ensures old(store.written) <= store.written && QuietSince(store.written, |old(store.written)|, a.sourceEventKey)
      ensures store.disk == EndedForHuman(old(store.disk), i, a, message)
    {
      ghost var d, w0 := store.disk, store.written;
      var ended := a.(status := AttemptStatus.HumanRequired);
      SaveAttemptAndSession(i, ended, SessionHumanRequired);
      ghost var w1 := store.written;
      r := HumanRequiredResult(message);
      PersistEnded(i, ended, r, d);
      QuietThenQuiet(w0, w1, store.written, a.sourceEventKey);
    }

    /** Persists the answer of an attempt without a candidate; `d` is the state in which the attempt ended. */
    method PersistEnded(i: nat, a: Attempt, r: ExternalResult, ghost d: Disk)
      requires store.Safe() && Continues(d, store.disk, i, a.attemptId) && !IsConfirmed(store.disk)
               && !r.SqlReadyResult?
      requires a.sourceEventKey == d.session.value.events[i].key && !LosesCandidate(store.disk, a.sourceEventKey)
      requires ShowsAnswer(store.disk, a.attemptId, r)
      modifies this`activeKeys, store
      ensures store.Safe() && store.disk == Finished(old(store.disk), i, a.attemptId, r)
      ensures Settles(store.policy, d, store.disk, i, a.attemptId, r)
      ensures activeKeys == old(activeKeys) - {a.sourceEventKey}
      ensures old(store.written) <= store.written && QuietSince(store.written, |old(store.written)|, a.sourceEventKey)
    {
      ghost var d1, w := store.disk, store.written;
      FinishSettles(store.policy, d, d1, i, a.attemptId, r);
      Persist(i, a, r);
      PersistIsQuiet(store.policy, d1, i, a.attemptId, r, w);
    }

    /** When the failed SQL is the current candidate, its attempt is marked as failed upstream. */
    method MarkPreviousAttempt(ghost i: nat, a: Attempt, event: Event)
      requires store.Safe() && IsRunning(store.policy, store.disk, i, a, event)
      modifies store
      ensures store.Safe() && old(store.written) <= store.written
              && QuietSince(store.written, |old(store.written)|, a.sourceEventKey)
      ensures IsRunning(store.policy, store.disk, i, a, event) && Extends(old(store.disk), store.disk)
      ensures store.disk.session == old(store.disk.session)
      ensures store.disk == MarkedFailed(old(store.disk), event)
      ensures !(Latest(old(store.disk)).Some? && Latest(old(store.disk)).value.sql == event.sql) ==>
                store.written == old(store.written)
    {
      ghost var w := store.written;
      var s := store.disk.session.value;
      if s.latest.Some? && s.latest.value.sql == event.sql {
        var p := s.latest.value.attemptId;
        var previous := store.disk.attempts[p].(status := UpstreamFailed);
        ghost var d := store.disk;
        assert AttemptOk(store.policy, d, s, p);
        UpdateAttemptKeeps(store.policy, store.disk, previous);
        FlagsExtend(store.policy, store.disk, previous, s.status);
        store.SaveAttempt(previous);
        UnreadyIsQuiet(store.disk, i, a.attemptId);
        QuietOnly(w, [store.disk], a.sourceEventKey);
      } else {
        FlagsExtend(store.policy, store.disk, a, s.status);
        assert Extends(store.disk, store.disk) by {
          forall k | 0 <= k < |s.events| ensures RecordKept(store.disk, store.disk, s.events[k], s.events[k]) {
            assert RecordOk(store.disk, |s.attemptIds|, s.events[k]);
          }
        }
      }
    }

    /** Ends an attempt for which the run produced no candidate. */
    method EndWithoutCandidate(i: nat, a: Attempt, event: Event, result: AgentContexts.AgentRunResult,
                               feedback: seq<Gates.GateFeedback>)
      returns (r: ExternalResult)
      requires store.Safe() && IsRunning(store.policy, store.disk, i, a, event)
      modifies this`activeKeys, store
      ensures store.Safe() && old(store.written) <= store.written
              && QuietSince(store.written, |old(store.written)|, a.sourceEventKey)
      ensures activeKeys == old(activeKeys) - {a.sourceEventKey}
      ensures Settles(store.policy, old(store.disk), store.disk, i, a.attemptId, r)
      ensures r.NoSqlResult? <==> result.status.NoSqlResult?
      ensures r.NoSqlResult? || r.HumanRequiredResult?
      ensures r.NoSqlResult? ==> r == NoSqlResult(result.reason)
      ensures r.HumanRequiredResult? ==> r == HumanRequiredResult(Explained(result.reason))
      ensures r.HumanRequiredResult? ==>
                store.disk == EndedForHuman(old(store.disk), i, EndedAttempt(a, result, feedback), r.reason)
      ensures r.NoSqlResult? ==>
                store.disk == Finished(WithAttempt(old(store.disk), EndedAttempt(a, result, feedback)), i, a.attemptId,
                                       NoSqlResult(result.reason))
    {
      ghost var d, w0 := store.disk, store.written;
      var ended := EndedAttempt(a, result, feedback);
      SaveAttemptAndSession(i, ended, store.disk.session.value.status);
      ghost var d1, w1 := store.disk, store.written;
      assert d1 == WithAttempt(d, ended);
      if result.status.NoSqlResult? {
        r := NoSqlResult(result.reason);
        PersistEnded(i, ended, r, d);
      } else {
        r := Human(i, ended, Explained(result.reason));
        SettlesFromEarlier(store.policy, d, d1, store.disk, i, a.attemptId, r);
        EndedOnce(d, i, ended, r.reason);
      }
      QuietThenQuiet(w0, w1, store.written, a.sourceEventKey);
    }

    /** Commits a ready candidate under the lock, then persists SQL_READY; any refusal goes to a human. */
    method DeliverCandidate(i: nat, a: Attempt, sessionId: string, script: PhaseScript,
                            candidate: AgentContexts.CandidateState, gate: Option<Gates.GateResult>, sql: string)
      returns (r: ExternalResult, ghost commitAt: Option<nat>)
      requires store.Safe() && MayWrite(store.policy, store.disk, i, a) && !IsConfirmed(store.disk)
      requires a.sqlCandidate == Some(sql) && candidate.formalSql == Some(sql)
      modifies this`activeKeys, store
      ensures store.Safe() && old(store.written) <= store.written
      ensures IsCommitWindow(store.written, |old(store.written)|, a.sourceEventKey, commitAt)
              && (commitAt.Some? <==> r.SqlReadyResult?)
      ensures activeKeys == old(activeKeys) - {a.sourceEventKey}
      ensures Settles(store.policy, old(store.disk), store.disk, i, a.attemptId, r)
      ensures r.SqlReadyResult? ==> r.sql == sql
      ensures r.SqlReadyResult? <==>
                script.secondLock && gate.Some?
                && CommitAllowed(old(store.disk).session.value, a, candidate, gate.value, sessionId,
                                 script.artifactExists)
      ensures r.SqlReadyResult? ==> store.disk == Delivered(old(store.disk), i, a.(status := SqlReady), sql)
      ensures !r.SqlReadyResult? ==>
                r.HumanRequiredResult? && store.disk == EndedForHuman(old(store.disk), i, a, r.reason)
    {
      ghost var d, w0 := store.disk, store.written;
      commitAt := None;
      var committed: Option<Attempt> := None;
      if script.secondLock && gate.Some? {
        committed := Commit(store, i, a, candidate, gate.value, sessionId, script.artifactExists);
      }
      if committed.None? {
        assert store.disk == d && store.written == w0;
        r := Human(i, a, if script.secondLock then INTERNAL else LOCKED);
        QuietIsWindow(store.written, |w0|, a.sourceEventKey);
        return;
      }
      var ready := a.(status := SqlReady);
      assert committed.value == ready;
      commitAt := Some(|w0|);
      PersistCommitted(i, ready, sql, d, w0);
      r := SqlReadyResult(sql);
    }

    /** Saves the committed attempt once more and persists SQL_READY; `d` is the state before the commit. */
    method PersistCommitted(i: nat, a: Attempt, sql: string, ghost d: Disk, ghost w: seq<Disk>)
      requires store.Safe() && StoreInv(store.policy, d) && IsOpen(d, i, a.attemptId) && a.attemptId == AttemptCount(d)
      requires a.sourceEventKey == d.session.value.events[i].key && IsAnswer(a, sql)
      requires a.status.SqlReady? && sql != "" && (Latest(d).Some? ==> Latest(d).value.attemptId != a.attemptId)
      requires store.disk == WithLatest(WithAttempt(d, a), Candidate(sql, a.attemptId))
      requires store.written == w + [WithAttempt(d, a), store.disk]
      modifies this`activeKeys, store
      ensures store.Safe() && w <= store.written && IsCommitWindow(store.written, |w|, a.sourceEventKey, Some(|w|))
      ensures activeKeys == old(activeKeys) - {a.sourceEventKey}
      ensures Settles(store.policy, d, store.disk, i, a.attemptId, SqlReadyResult(sql))
      ensures store.disk == Delivered(d, i, a, sql)
    {
      ghost var w0 := store.written;
      CommitIsWindow(store.policy, d, i, a, sql, w);
      PersistHeld(i, a, sql, d);
      WindowThenQuiet(w, w0, store.written, a.sourceEventKey, Some(|w|));
    }

    method PersistHeld(i: nat, a: Attempt, sql: string, ghost d: Disk)
      requires store.Safe() && StoreInv(store.policy, d) && IsOpen(d, i, a.attemptId) && a.attemptId == AttemptCount(d)
      requires a.sourceEventKey == d.session.value.events[i].key && IsAnswer(a, sql) && a.status.SqlReady?
      requires store.disk == WithLatest(WithAttempt(d, a), Candidate(sql, a.attemptId))
      modifies this`activeKeys, store
      ensures store.Safe() && old(store.written) <= store.written
              && QuietSince(store.written, |old(store.written)|, a.sourceEventKey)
      ensures activeKeys == old(activeKeys) - {a.sourceEventKey}
      ensures Settles(store.policy, d, store.disk, i, a.attemptId, SqlReadyResult(sql))
      ensures store.disk == Delivered(d, i, a, sql)
    {
      ghost var c, w0 := store.disk, store.written;
      assert store.disk.attempts[a.attemptId := a] == store.disk.attempts;
      store.SaveAttempt(a);
      ghost var w1 := store.written;
      CommitSettles(store.policy, d, i, a, sql);
      HeldIsQuiet(store.policy, c, i, Candidate(sql, a.attemptId));
      QuietOnly(w0, [c], a.sourceEventKey);
      Persist(i, a, SqlReadyResult(sql));
      PersistIsQuiet(store.policy, c, i, a.attemptId, SqlReadyResult(sql), w1);
      QuietThenQuiet(w0, w1, store.written, a.sourceEventKey);
    }

    /** The unlocked agent phase of a running attempt, up to its persisted result. */
    method AgentPhase(i: nat, a: Attempt, event: Event, script: PhaseScript)
      returns (r: ExternalResult, ghost commitAt: Option<nat>)
      requires store.Safe() && IsRunning(store.policy, store.disk, i, a, event) && a.sqlCandidate.None?
               && AgentRunner.NonNegative(limits)
      modifies this`activeKeys, store
      ensures store.Safe() && old(store.written) <= store.written
      ensures activeKeys == old(activeKeys) - {a.sourceEventKey}
      ensures Settles(store.policy, old(store.disk), store.disk, i, a.attemptId, r)
      ensures DeliversCleared(store.policy, event, script, r)
      ensures IsCommitWindow(store.written, |old(store.written)|, a.sourceEventKey, commitAt)
              && (commitAt.Some? <==> r.SqlReadyResult?)
      ensures !HasEvidence(event) ==>
                r == HumanRequiredResult(NO_EVIDENCE) && store.disk == EndedForHuman(old(store.disk), i, a, NO_EVIDENCE)
      ensures a.attemptId == AttemptCount(old(store.disk)) ==>
                AnswersFresh(store.policy, limits, event, script, a.attemptId, r)
    {
      ghost var d, w0 := store.disk, store.written;
      commitAt := None;
      if !HasEvidence(event) {
        r := Human(i, a, NO_EVIDENCE);
        QuietIsWindow(store.written, |w0|, a.sourceEventKey);
        return;
      }
      MarkPreviousAttempt(i, a, event);
      ghost var d1, w1 := store.disk, store.written;
      r, commitAt := Process(i, a, event, script);
      SettlesFromEarlier(store.policy, d, d1, store.disk, i, a.attemptId, r);
      QuietThenWindow(w0, w1, store.written, a.sourceEventKey, commitAt);
    }

    /** Sets up the processor, which may fail, and runs the agent. */
    method Process(i: nat, a: Attempt, event: Event, script: PhaseScript)
      returns (r: ExternalResult, ghost commitAt: Option<nat>)
      requires store.Safe() && IsRunning(store.policy, store.disk, i, a, event) && a.sqlCandidate.None?
               && AgentRunner.NonNegative(limits) && HasEvidence(event)
      modifies this`activeKeys, store
      ensures store.Safe() && old(store.written) <= store.written
      ensures activeKeys == old(activeKeys) - {a.sourceEventKey}
      ensures Settles(store.policy, old(store.disk), store.disk, i, a.attemptId, r)
      ensures DeliversCleared(store.policy, event, script, r)
      ensures IsCommitWindow(store.written, |old(store.written)|, a.sourceEventKey, commitAt)
              && (commitAt.Some? <==> r.SqlReadyResult?)
      ensures a.attemptId == AttemptCount(old(store.disk)) ==>
                AnswersFresh(store.policy, limits, event, script, a.attemptId, r)
    {
      ghost var w := store.written;
      if script.processorFails {
        r := Human(i, a, INTERNAL);
        commitAt := None;
        QuietIsWindow(store.written, |w|, a.sourceEventKey);
      } else {
        r, commitAt := RunAgent(i, a, event, script);
      }
    }

    /** Turns the outcome of a run into a persisted result. */
    method Conclude(i: nat, a: Attempt, event: Event, script: PhaseScript, outcome: RunScripts.RunOutcome,
                    candidate: AgentContexts.CandidateState, gate: Option<Gates.GateResult>)
      returns (r: ExternalResult, ghost commitAt: Option<nat>)
      requires store.Safe() && IsRunning(store.policy, store.disk, i, a, event) && a.sqlCandidate.None?
      requires IsReady(outcome) ==>
                 && candidate.formalSql == outcome.result.candidateSql
                 && ReadyIsCleared(store.policy, event, script, outcome.result.candidateSql.value)
      modifies this`activeKeys, store
      ensures store.Safe() && old(store.written) <= store.written
      ensures activeKeys == old(activeKeys) - {a.sourceEventKey}
      ensures Settles(store.policy, old(store.disk), store.disk, i, a.attemptId, r)
      ensures ConcludesAs(old(store.disk).session.value, a, event, script, outcome, candidate, gate, r)
      ensures IsCommitWindow(store.written, |old(store.written)|, a.sourceEventKey, commitAt)
              && (commitAt.Some? <==> r.SqlReadyResult?)
    {
      ghost var w0 := store.written;
      commitAt := None;
      if outcome.Raised? {
        r := Human(i, a, INTERNAL);
        QuietIsWindow(store.written, |w0|, a.sourceEventKey);
        return;
      }
      var staged := a.(staged := true, repairPlan := script.run.gate.existingPlan);
      if script.bookkeepingFails {
        r := Human(i, staged, INTERNAL);
        QuietIsWindow(store.written, |w0|, a.sourceEventKey);
        return;
      }
      if !IsReady(outcome) {
        r := EndWithoutCandidate(i, staged, event, outcome.result, candidate.gateFeedback);
        QuietIsWindow(store.written, |w0|, a.sourceEventKey);
        return;
      }
      var sql := outcome.result.candidateSql.value;
      ReadyIsAllowed(store.policy, event, script, a.sourceEventKey, sql);
      r, commitAt := DeliverCandidate(i, staged.(sqlCandidate := Some(sql), status := SqlReady), SafeTaskId(event.id),
                                      script, candidate, gate, sql);
    }

    /** Runs the agent on the event and persists what comes out; the newest attempt gets what the script determines. */
    method RunAgent(i: nat, a: Attempt, event: Event, script: PhaseScript)
      returns (r: ExternalResult, ghost commitAt: Option<nat>)
      requires store.Safe() && IsRunning(store.policy, store.disk, i, a, event) && a.sqlCandidate.None?
               && AgentRunner.NonNegative(limits)
      modifies this`activeKeys, store
      ensures store.Safe() && old(store.written) <= store.written
      ensures activeKeys == old(activeKeys) - {a.sourceEventKey}
      ensures Settles(store.policy, old(store.disk), store.disk, i, a.attemptId, r)
      ensures DeliversCleared(store.policy, event, script, r)
      ensures IsCommitWindow(store.written, |old(store.written)|, a.sourceEventKey, commitAt)
              && (commitAt.Some? <==> r.SqlReadyResult?)
      ensures a.attemptId == AttemptCount(old(store.disk)) ==>
                AnswersRun(store.policy, limits, event, script, a.attemptId, r)
    {
      ghost var d := store.disk;
      var outcome, candidate, gate, trace := Launch(a.attemptId, event, script);
      r, commitAt := Conclude(i, a, event, script, outcome, candidate, gate);
      if a.attemptId == AttemptCount(d) {
        NewestIsLast(store.policy, d, i, a);
        RunIsAnswered(store.policy, limits, event, script, d.session.value, a, trace, outcome, candidate, gate, r);
      }
    }

    /** One run on a fresh context and a fresh gate runner; it does not touch the store. */
    method Launch(attemptId: nat, event: Event, script: PhaseScript)
      returns (outcome: RunScripts.RunOutcome, candidate: AgentContexts.CandidateState, gate: Option<Gates.GateResult>,
               ghost trace: seq<RunScripts.RunView>)
      requires AgentRunner.NonNegative(limits)
      ensures RunEnds(store.policy, limits, event, script, attemptId, trace, outcome)
      ensures IsReady(outcome) ==> IsCommittable(outcome.result, candidate, gate)
      ensures IsReady(outcome) ==>
                && candidate.formalSql == outcome.result.candidateSql
                && ReadyIsCleared(store.policy, event, script, outcome.result.candidateSql.value)
    {
      var context := new AgentContexts.AgentContext(SafeTaskId(event.id), attemptId, event.sql);
      var state := new RunStates.AgentRunState();
      var gates := new Gates.GateRunner();
      AgentRunner.InitialPlanIsSound();
      var iterations: nat;
      ghost var entry: Option<AgentRunner.GateEntry>;
      outcome, iterations, entry, trace :=
        AgentRunner.Run(store.policy.env, limits, context, state, gates,
                        WithRisk(script.run, store.policy.allowMediumRisk));
      if IsReady(outcome) {
        SameRelease(store.policy, event, script, entry.value.proposed, outcome.result.candidateSql.value);
      }
      candidate, gate := context.candidate, gates.lastResult;
    }

    /** Decides from the stored attempt how an event without a stored result goes on. */
    method RecoverFailedEvent(i: nat) returns (recovery: Recovery)
      requires store.Safe() && store.disk.session.Some? && i < |store.disk.session.value.events|
      requires store.disk.session.value.events[i].resultRef.None?
               && store.disk.session.value.events[i].status.FailedEvent?
      modifies this`activeKeys, store
      ensures store.Safe() && old(store.written) <= store.written
      ensures !LosesCandidate(old(store.disk), old(store.disk).session.value.events[i].key) ==>
                QuietSince(store.written, |old(store.written)|, old(store.disk).session.value.events[i].key)
      ensures activeKeys <= old(activeKeys)
      ensures recovery.Recovered? ==>
                Answers(store.policy, old(store.disk), store.disk, old(store.disk).session.value.events[i].key,
                        recovery.result)
      ensures recovery.Resumes? ==>
                && store.disk == old(store.disk) && store.written == old(store.written) && activeKeys == old(activeKeys)
                && store.disk.session.value.events[i].attemptId.Some?
                && store.disk.session.value.events[i].attemptId.value in store.disk.attempts
      ensures recovery == RecoveryOf(old(store.disk), i)
    {
      ghost var w := store.written;
      ghost var d := store.disk;
      var s := store.disk.session.value;
      var record := s.events[i];
      assert RecordOk(d, |s.attemptIds|, record);
      FindDistinct(s.events, i);
      if record.attemptId.None? {
        var _ := store.FinishEvent(s, i, None, Some("RECOVERY_ATTEMPT_MISSING"), SystemError);
        ClosedWithoutResult(store.policy, d, store.disk, i, store.disk.session.value.events[i]);
        UnattachedIsQuiet(store.disk, i);
        QuietOnly(w, [store.disk], record.key);
        return Recovered(HumanRequiredResult(ATTEMPT_MISSING));
      }
      var a := store.disk.attempts[record.attemptId.value];
      assert AttemptOk(store.policy, d, s, record.attemptId.value);
      if a.status.SqlReady? && Truthy(a.sqlCandidate) {
        var r := SqlReadyResult(a.sqlCandidate.value);
        PersistRecovered(i, a, r);
        return Recovered(r);
      }
      if a.status.HumanRequired? || a.status.ValidationBlocked? || a.status.ReflectionBlocked? {
        var r := HumanRequiredResult(if Truthy(a.stopReason) then a.stopReason.value else TERMINATED);
        PersistRecovered(i, a, r);
        return Recovered(r);
      }
      if a.status.Created? && !a.staged { return Resumes; }
      EndPartialAttempt(i, a);
      return Recovered(HumanRequiredResult(PARTIAL_MESSAGE));
    }

    /** Stores the result that an interrupted handling had already reached. */
    method PersistRecovered(i: nat, a: Attempt, r: ExternalResult)
      requires store.Safe() && IsOpen(store.disk, i, a.attemptId) && !r.SuccessAck?
      requires a.sourceEventKey == store.disk.session.value.events[i].key
      requires r.SqlReadyResult? ==>
                 a.attemptId in store.disk.attempts && IsAnswer(store.disk.attempts[a.attemptId], r.sql)
      modifies this`activeKeys, store
      ensures store.Safe() && old(store.written) <= store.written && activeKeys <= old(activeKeys)
      ensures Answers(store.policy, old(store.disk), store.disk, a.sourceEventKey, r)
      ensures StoredResult(store.disk, a.sourceEventKey) == Some(r)
      ensures !LosesCandidate(old(store.disk), a.sourceEventKey) ==>
                QuietSince(store.written, |old(store.written)|, a.sourceEventKey)
    {
      FinishedExtends(store.policy, store.disk, i, a.attemptId, r);
      FindDistinct(store.disk.session.value.events, i);
      ghost var d, w := store.disk, store.written;
      Persist(i, a, r);
      if !LosesCandidate(d, a.sourceEventKey) { PersistIsQuiet(store.policy, d, i, a.attemptId, r, w); }
    }

    /** A half-done attempt is closed for a human; its event gets no stored result. */
    method EndPartialAttempt(i: nat, a: Attempt)
      requires store.Safe() && IsOpen(store.disk, i, a.attemptId)
               && store.disk.session.value.events[i].status.FailedEvent?
      requires a.attemptId in store.disk.attempts && store.disk.attempts[a.attemptId] == a
      modifies store
      ensures store.Safe() && old(store.written) <= store.written
      ensures QuietSince(store.written, |old(store.written)|, old(store.disk).session.value.events[i].key)
      ensures Answers(store.policy, old(store.disk), store.disk, old(store.disk).session.value.events[i].key,
                      HumanRequiredResult(PARTIAL_MESSAGE))
    {
      ghost var d, w := store.disk, store.written;
      var s := store.disk.session.value;
      var ended := a.(status := AttemptStatus.HumanRequired, stopReason := Some(PARTIAL_UNSAFE));
      assert RecordOk(d, |s.attemptIds|, s.events[i]) && AttemptOk(store.policy, d, s, a.attemptId);
      UpdateAttemptKeeps(store.policy, store.disk, ended);
      store.SaveAttempt(ended);
      var _ := store.FinishEvent(s, i, None, Some(PARTIAL_UNSAFE), SystemError);
      PartialIsAnswered(store.policy, d, store.disk, i, ended);
      assert store.written == w + [WithAttempt(d, ended), store.disk];
      QuietOnly(w, [WithAttempt(d, ended), store.disk], s.events[i].key);
    }

    /** Records a new FAILED event and its attempt. */
    method OpenAttempt(s: Session, event: Event) returns (i: nat, a: Attempt)
      requires store.Safe() && store.disk.session == Some(s) && event.status.FailedEvent?
      requires FindEvent(s.events, BuildEventKey(event)).None?
      modifies store
      ensures store.Safe() && old(store.written) <= store.written && store.disk.session.Some?
      ensures MayWrite(store.policy, store.disk, i, a) && a.sqlCandidate.None?
              && a.sourceEventKey == BuildEventKey(event)
      ensures store.disk.attempts[a.attemptId].status.Created?
      ensures QuietSince(store.written, |old(store.written)|, BuildEventKey(event))
      ensures Extends(old(store.disk), store.disk) && OthersKept(old(store.disk), store.disk, BuildEventKey(event))
      ensures a.attemptId == AttemptCount(store.disk) == AttemptCount(old(store.disk)) + 1
              && EventCount(store.disk) == EventCount(old(store.disk)) + 1
      ensures Latest(store.disk) == Latest(old(store.disk)) && Confirmed(store.disk) == Confirmed(old(store.disk))
    {
      ghost var d, w := store.disk, store.written;
      var record := EventRecord(BuildEventKey(event), event.status, event.sql, Received, None, None, None);
      var t := store.AppendUpstreamEvent(s, record);
      ghost var d1 := store.disk;
      i := |s.events|;
      var u: Session;
      u, a := store.CreateAttempt(t, i);
      AttemptIsOpened(store.policy, d, d1, store.disk, record, a, w);
      assert store.written == w + [d1, WithAttempt(d1, a), store.disk];
    }

    /** A known FAILED event: replay its result, refuse it while active, or recover it. */
    method ReenterFailedEvent(event: Event, i: nat) returns (answer: Option<ExternalResult>, a: Attempt)
      requires Idle() && event.status.FailedEvent? && store.disk.session.Some?
      requires FindEvent(store.disk.session.value.events, BuildEventKey(event)) == Some(i)
      modifies this`activeKeys, store
      ensures store.Safe() && old(store.written) <= store.written && activeKeys == {}
      ensures StoredResult(old(store.disk), BuildEventKey(event)).Some? ==>
                answer.Some? && store.written == old(store.written)
      ensures answer.Some? ==> Answers(store.policy, old(store.disk), store.disk, BuildEventKey(event), answer.value)
      ensures RecoversAs(old(store.disk), BuildEventKey(event), answer, a.attemptId)
      ensures answer.None? ==>
                && store.disk == old(store.disk) && store.written == old(store.written)
                && MayWrite(store.policy, store.disk, i, a) && a.sourceEventKey == BuildEventKey(event)
                && a.sqlCandidate.None? && store.disk.attempts[a.attemptId].status.Created?
      ensures !LosesCandidate(old(store.disk), BuildEventKey(event)) ==>
                QuietSince(store.written, |old(store.written)|, BuildEventKey(event))
    {
      ghost var d := store.disk;
      var s := store.disk.session.value;
      var record := s.events[i];
      ExtendsReflexive(store.policy, d);
      assert RecordOk(d, |s.attemptIds|, record);
      a := NoAttempt(event);
      if record.resultRef.Some? {
        return Some(store.disk.results[record.resultRef.value]), a;
      }
      if BuildEventKey(event) in activeKeys { return Some(HumanRequiredResult(IN_PROGRESS)), a; }
      var recovery := RecoverFailedEvent(i);
      if recovery.Recovered? { return Some(recovery.result), a; }
      assert AttemptOk(store.policy, d, s, record.attemptId.value);
      return None, store.disk.attempts[record.attemptId.value];
    }

    static function NoAttempt(event: Event): Attempt {
      Attempt(0, Created, BuildEventKey(event), event.sql, None, false, None, None, None)
    }

    /** Answers a known FAILED event, or finds or opens the attempt to run. */
    method FindOrOpenAttempt(event: Event) returns (answer: Option<ExternalResult>, i: nat, a: Attempt)
      requires Idle() && event.status.FailedEvent?
      modifies this`activeKeys, store
      ensures store.Safe() && old(store.written) <= store.written && activeKeys == {}
      ensures StoredResult(old(store.disk), BuildEventKey(event)).Some? ==>
                answer.Some? && store.written == old(store.written)
      ensures answer.Some? ==> Handles(store.policy, old(store.disk), store.disk, BuildEventKey(event), answer.value)
                               && Latest(store.disk) == Latest(old(store.disk))
                               && RecordOf(old(store.disk), BuildEventKey(event)).Some?
      ensures answer.None? ==> Opens(store.policy, old(store.disk), store.disk, event, i, a) && a.sqlCandidate.None?
      ensures answer.None? && RecordOf(old(store.disk), BuildEventKey(event)).None? ==>
                a.attemptId == AttemptCount(store.disk)
      ensures RecoversAs(old(store.disk), BuildEventKey(event), answer, a.attemptId)
      ensures !LosesCandidate(old(store.disk), BuildEventKey(event)) ==>
                QuietSince(store.written, |old(store.written)|, BuildEventKey(event))
    {
      ghost var w0 := store.written;
      var s := store.LoadOrCreateForEvent(event);
      ghost var d1, w1 := store.disk, store.written;
      ExtendsReflexive(store.policy, d1);
      var existing := FindEvent(s.events, BuildEventKey(event));
      if existing.Some? {
        i := existing.value;
        answer, a := ReenterFailedEvent(event, i);
        if answer.Some? { AnswersHandle(store.policy, d1, store.disk, BuildEventKey(event), answer.value); }
      } else {
        i, a := OpenAttempt(s, event);
        answer := None;
        QuietThenQuiet(w0, w1, store.written, BuildEventKey(event));
      }
    }

    /** The locked section at the start of a FAILED event. */
    method StartFailedEvent(event: Event) returns (start: Start)
      requires Idle() && event.status.FailedEvent?
      modifies this`activeKeys, store
      ensures store.Safe() && old(store.written) <= store.written
      ensures StoredResult(old(store.disk), BuildEventKey(event)).Some? ==>
                start.Answered? && store.written == old(store.written)
      ensures start.Answered? ==>
                activeKeys == {}
                  && Handles(store.policy, old(store.disk), store.disk, BuildEventKey(event), start.result)
                                  && Latest(store.disk) == Latest(old(store.disk))
                                  && RecordOf(old(store.disk), BuildEventKey(event)).Some?
      ensures start.Started? && RecordOf(old(store.disk), BuildEventKey(event)).None? ==>
                start.attempt.attemptId == AttemptCount(store.disk)
      ensures RecoversAs(old(store.disk), BuildEventKey(event), AnswerOf(start), AttemptOf(start))
      ensures start.Started? ==> activeKeys == {BuildEventKey(event)}
                                 && Begins(store.policy, old(store.disk), store.disk, event, start.i, start.attempt)
                                 && start.attempt.sqlCandidate.None?
      ensures !LosesCandidate(old(store.disk), BuildEventKey(event)) ==>
                QuietSince(store.written, |old(store.written)|, BuildEventKey(event))
    {
      ghost var d, w0 := store.disk, store.written;
      var answer, i, a := FindOrOpenAttempt(event);
      if answer.Some? { return Answered(answer.value); }
      ghost var d2, w1 := store.disk, store.written;
      activeKeys := activeKeys + {BuildEventKey(event)};
      MarkRunning(i, a);
      if !LosesCandidate(d, a.sourceEventKey) { QuietThenQuiet(w0, w1, store.written, a.sourceEventKey); }
      OpenBegins(store.policy, d, d2, store.disk, event, i, a);
      start := Started(i, a);
    }

    method MarkRunning(ghost i: nat, a: Attempt)
      requires store.Safe() && MayWrite(store.policy, store.disk, i, a)
               && store.disk.attempts[a.attemptId].status.Created?
      modifies store
      ensures store.Safe() && old(store.written) <= store.written
      ensures QuietSince(store.written, |old(store.written)|, a.sourceEventKey)
      ensures store.disk == WithStatus(old(store.disk), SessionRunning)
      ensures MayWrite(store.policy, store.disk, i, a) && Extends(old(store.disk), store.disk)
    {
      FlagsExtend(store.policy, store.disk, a, SessionRunning);
      var s := store.disk.session.value.(status := SessionRunning);
      SessionFlagsKeep(store.policy, store.disk, s);
      ghost var w := store.written;
      store.SaveSession(s);
      UnreadyIsQuiet(store.disk, i, a.attemptId);
      QuietOnly(w, [store.disk], a.sourceEventKey);
    }

    /** Handles one FAILED event; `commitAt` is where the first of the commit's two writes went. */
    method HandleFailedEvent(event: Event, script: PhaseScript) returns (r: ExternalResult, ghost commitAt: Option<nat>)
      requires Idle() && event.status.FailedEvent?
      modifies this`activeKeys, store
      ensures Idle() && old(store.written) <= store.written
      ensures script.firstLock ==> Handles(store.policy, old(store.disk), store.disk, BuildEventKey(event), r)
      ensures !script.firstLock ==>
                store.disk == old(store.disk) && store.written == old(store.written) && r == HumanRequiredResult(LOCKED)
                  && commitAt.None?
      ensures StoredResult(old(store.disk), BuildEventKey(event)).Some? ==> store.written == old(store.written)
      ensures RecordOf(old(store.disk), BuildEventKey(event)).None? || Latest(store.disk) != Latest(old(store.disk)) ==>
                DeliversCleared(store.policy, event, script, r) && (commitAt.Some? <==> r.SqlReadyResult?)
      ensures script.firstLock && RecordOf(old(store.disk), BuildEventKey(event)).None? ==>
                && AnswersFresh(store.policy, limits, event, script, AttemptCount(store.disk), r)
                && ShowsAnswer(store.disk, AttemptCount(store.disk), r)
      ensures script.firstLock ==> AnswersKnown(store.policy, limits, old(store.disk), event, script, r)
      ensures !LosesCandidate(old(store.disk), BuildEventKey(event)) ==>
                IsCommitWindow(store.written, |old(store.written)|, BuildEventKey(event), commitAt)
    {
      commitAt := None;
      if !script.firstLock { return HumanRequiredResult(LOCKED), None; }
      ghost var d, w0 := store.disk, store.written;
      var start := StartFailedEvent(event);
      if start.Answered? {
        if !LosesCandidate(d, BuildEventKey(event)) { QuietIsWindow(store.written, |w0|, BuildEventKey(event)); }
        return start.result, None;
      }
      ghost var d1, w1 := store.disk, store.written;
      r, commitAt := AgentPhase(start.i, start.attempt, event, script);
      StartThenSettle(store.policy, d, d1, store.disk, event, start.i, start.attempt, r);
      if !LosesCandidate(d, BuildEventKey(event)) {
        QuietThenWindow(w0, w1, store.written, BuildEventKey(event), commitAt);
      }
    }

    /** Finds or adds the record of a SUCCESS event that is not yet processed. */
    method AttachSuccess(s: Session, event: Event) returns (t: Session, i: nat)
      requires store.Safe() && store.disk.session == Some(s) && event.status.SuccessEvent?
      requires !IsProcessed(store.disk, BuildEventKey(event))
      modifies store
      ensures store.Safe() && old(store.written) <= store.written && store.disk.session == Some(t)
      ensures IsOpenSuccess(store.disk, event, i)
      ensures Confirms(old(store.disk), store.disk, event, false) && t == s.(events := t.events)
    {
      ghost var d := store.disk;
      ExtendsReflexive(store.policy, d);
      var existing := FindEvent(s.events, BuildEventKey(event));
      var record := EventRecord(BuildEventKey(event), event.status, event.sql, Received, None, None, None);
      t := store.AppendUpstreamEvent(s, record);
      i := if existing.Some? then existing.value else |s.events|;
      if existing.Some? {
        assert RecordOk(d, |s.attemptIds|, s.events[i]);
      } else {
        GrownExtends(store.policy, d, store.disk);
      }
    }

    /** Closes a SUCCESS record. */
    method CloseSuccess(event: Event, i: nat, errorCode: Option<string>)
      requires store.Safe() && store.disk.session.Some? && i < |store.disk.session.value.events|
      requires store.disk.session.value.events[i].resultRef.None? && !IsDone(store.disk.session.value.events[i])
      modifies store
      ensures store.Safe() && old(store.written) <= store.written && Extends(old(store.disk), store.disk)
      ensures store.disk == WithClosed(old(store.disk), i, errorCode)
      ensures IsProcessed(store.disk, old(store.disk.session.value.events[i].key))
      ensures HasCode(store.disk, old(store.disk.session.value.events[i].key), errorCode)
    {
      ghost var d := store.disk;
      var s := store.disk.session.value;
      var _ := store.FinishEvent(s, i, None, errorCode, Succeeded);
      FindDistinct(store.disk.session.value.events, i);
      ClosedWithoutResult(store.policy, d, store.disk, i, store.disk.session.value.events[i]);
    }

    /** Marks the candidate's attempt and the session as confirmed. */
    method ConfirmLatest(s: Session)
      requires store.Safe() && store.disk.session == Some(s) && s.latest.Some?
      modifies store
      ensures store.Safe() && old(store.written) <= store.written
      ensures store.disk.session == Some(s.(status := SessionConfirmed, confirmed := s.latest))
              && AttemptIsConfirmed(store.disk)
      ensures Extends(old(store.disk), store.disk)
    {
      ghost var d := store.disk;
      var id := s.latest.value.attemptId;
      var matched := store.disk.attempts[id].(status := UpstreamConfirmedSuccess);
      assert AttemptOk(store.policy, d, s, id);
      UpdateAttemptKeeps(store.policy, store.disk, matched);
      store.SaveAttempt(matched);
      var t := s.(status := SessionConfirmed, confirmed := s.latest);
      SessionFlagsKeep(store.policy, store.disk, t);
      store.SaveSession(t);
      forall k | 0 <= k < |s.events| ensures RecordKept(d, store.disk, s.events[k], t.events[k]) {
        assert RecordOk(d, |s.attemptIds|, s.events[k]);
      }
    }

    /** The locked section of a SUCCESS event: an answer, or the candidate is confirmed and record `i` still open. */
    method ConfirmSuccess(event: Event) returns (answer: Option<ExternalResult>, i: nat)
      requires Idle() && event.status.SuccessEvent?
      modifies store
      ensures store.Safe() && old(store.written) <= store.written
      ensures Confirms(old(store.disk), store.disk, event, Matches(old(store.disk), event))
      ensures answer.None? <==> Matches(old(store.disk), event)
      ensures IsProcessed(old(store.disk), BuildEventKey(event)) ==>
                answer == Some(SuccessAck(None)) && store.disk == old(store.disk) && store.written == old(store.written)
      ensures answer.None? ==> !IsProcessed(store.disk, BuildEventKey(event)) && IsOpenSuccess(store.disk, event, i)
      ensures answer.Some? ==> answer.value.SuccessAck? && IsProcessed(store.disk, BuildEventKey(event))
      ensures answer.Some? && !IsProcessed(old(store.disk), BuildEventKey(event)) ==>
                IsUnmatched(store.disk, event, answer.value)
    {
      ghost var d := store.disk;
      var s := store.LoadOrCreateForEvent(event);
      ghost var d1 := store.disk;
      answer, i := ConfirmInSession(event, s);
      LoadedConfirms(store.policy, d, store.disk, event, Matches(d1, event));
    }

    /** The same once the session is there. */
    method ConfirmInSession(event: Event, s: Session) returns (answer: Option<ExternalResult>, i: nat)
      requires store.Safe() && store.disk.session == Some(s) && event.status.SuccessEvent?
      modifies store
      ensures store.Safe() && old(store.written) <= store.written
      ensures Confirms(old(store.disk), store.disk, event, Matches(old(store.disk), event))
      ensures answer.None? <==> Matches(old(store.disk), event)
      ensures IsProcessed(old(store.disk), BuildEventKey(event)) ==>
                answer == Some(SuccessAck(None)) && store.disk == old(store.disk) && store.written == old(store.written)
      ensures answer.None? ==> !IsProcessed(store.disk, BuildEventKey(event)) && IsOpenSuccess(store.disk, event, i)
      ensures answer.Some? ==> answer.value.SuccessAck? && IsProcessed(store.disk, BuildEventKey(event))
      ensures answer.Some? && !IsProcessed(old(store.disk), BuildEventKey(event)) ==>
                IsUnmatched(store.disk, event, answer.value)
    {
      ghost var d1 := store.disk;
      var existing := FindEvent(s.events, BuildEventKey(event));
      if existing.Some? && s.events[existing.value].processingStatus.Succeeded? {
        ProcessedConfirmsNothing(store.policy, d1, event);
        return Some(SuccessAck(None)), 0;
      }
      answer, i := ConfirmUnprocessed(event, s);
    }

    /** The same for an event that is not yet processed. */
    method ConfirmUnprocessed(event: Event, s: Session) returns (answer: Option<ExternalResult>, i: nat)
      requires store.Safe() && store.disk.session == Some(s) && event.status.SuccessEvent?
      requires !IsProcessed(store.disk, BuildEventKey(event))
      modifies store
      ensures store.Safe() && old(store.written) <= store.written
      ensures Confirms(old(store.disk), store.disk, event, answer.None?)
      ensures answer.None? <==> Matches(old(store.disk), event)
      ensures answer.None? ==> !IsProcessed(store.disk, BuildEventKey(event)) && IsOpenSuccess(store.disk, event, i)
      ensures answer.Some? ==>
                && answer.value.SuccessAck? && IsProcessed(store.disk, BuildEventKey(event))
                && IsUnmatched(store.disk, event, answer.value)
    {
      ghost var d1 := store.disk;
      var t: Session;
      t, i := AttachSuccess(s, event);
      ghost var d2 := store.disk;
      answer := DecideSuccess(event, t, i);
      ConfirmsThenKeeps(d1, d2, store.disk, event, false, answer.None?);
    }

    /** Confirms the candidate that an open SUCCESS record reports, or closes the record as unmatched. */
    method DecideSuccess(event: Event, t: Session, i: nat) returns (answer: Option<ExternalResult>)
      requires store.Safe() && store.disk.session == Some(t) && IsOpenSuccess(store.disk, event, i)
      modifies store
      ensures store.Safe() && old(store.written) <= store.written && Extends(old(store.disk), store.disk)
      ensures OthersKept(old(store.disk), store.disk, BuildEventKey(event))
      ensures SameCounts(store.disk, old(store.disk)) && Latest(store.disk) == Latest(old(store.disk))
      ensures answer.None? <==> t.latest.Some? && event.sql == t.latest.value.sql
      ensures answer.None? ==>
                && Confirmed(store.disk) == t.latest && IsConfirmed(store.disk) && AttemptIsConfirmed(store.disk)
                && store.disk.session.value.events == t.events
      ensures answer.Some? ==>
                && Confirmed(store.disk) == t.confirmed && (IsConfirmed(store.disk) <==> t.status.SessionConfirmed?)
                && answer.value.SuccessAck? && IsProcessed(store.disk, BuildEventKey(event))
                && IsUnmatched(store.disk, event, answer.value)
    {
      if t.latest.None? || event.sql != t.latest.value.sql {
        CloseSuccess(event, i, Some("UNMATCHED_SUCCESS"));
        return Some(SuccessAck(Some(UNMATCHED)));
      }
      ConfirmLatest(t);
      return None;
    }

    /** Closes the record of a confirmed SUCCESS event once the experience is written, or says that it was not. */
    method CompleteSuccess(event: Event, i: nat, script: SuccessScript) returns (r: ExternalResult)
      requires store.Safe() && IsOpenSuccess(store.disk, event, i)
      modifies store
      ensures store.Safe() && old(store.written) <= store.written && Extends(old(store.disk), store.disk)
      ensures OthersKept(old(store.disk), store.disk, BuildEventKey(event))
      ensures store.disk == if CanClose(script) then WithClosed(old(store.disk), i, DegradedCode(script))
                            else old(store.disk)
      ensures CanClose(script) ==>
                IsProcessed(store.disk, BuildEventKey(event))
                && HasCode(store.disk, BuildEventKey(event), DegradedCode(script))
      ensures r == if !CanClose(script) then HumanRequiredResult(INTERNAL)
                   else SuccessAck(Some(if DegradedCode(script).None? then CONFIRMED else DEGRADED))
    {
      if script.memoryWritten && script.secondLock {
        CloseSuccess(event, i, None);
        return SuccessAck(Some(CONFIRMED));
      }
      ExtendsReflexive(store.policy, store.disk);
      if !script.thirdLock { return HumanRequiredResult(INTERNAL); }
      CloseSuccess(event, i, Some("MEMORY_WRITE_DEGRADED"));
      return SuccessAck(Some(DEGRADED));
    }

    /**
      * Handles one SUCCESS event. Only the current candidate can be confirmed, and only then an experience is
      * written.
      */
    method HandleSuccessEvent(event: Event, script: SuccessScript) returns (r: ExternalResult, writesMemory: bool)
      requires Idle() && event.status.SuccessEvent?
      modifies store
      ensures Idle() && old(store.written) <= store.written
      ensures script.firstLock ==> Confirms(old(store.disk), store.disk, event, Matches(old(store.disk), event))
      ensures !script.firstLock ==>
                store.disk == old(store.disk) && store.written == old(store.written) && r == HumanRequiredResult(LOCKED)
      ensures !r.SqlReadyResult?
      ensures script.firstLock && IsProcessed(old(store.disk), BuildEventKey(event)) ==>
                r == SuccessAck(None) && store.disk == old(store.disk) && store.written == old(store.written)
      ensures writesMemory <==> script.firstLock && Matches(old(store.disk), event)
      ensures script.firstLock ==>
                (IsProcessed(store.disk, BuildEventKey(event)) <==>
                   IsProcessed(old(store.disk), BuildEventKey(event)) || !Matches(old(store.disk), event)
                     || CanClose(script))
      ensures script.firstLock && CanClose(script) ==> r.SuccessAck? && IsProcessed(store.disk, BuildEventKey(event))
      ensures script.firstLock ==> AnswersSuccess(old(store.disk), store.disk, event, script, r)
    {
      if !script.firstLock { return HumanRequiredResult(LOCKED), false; }
      ghost var d := store.disk;
      var answer, i := ConfirmSuccess(event);
      if answer.Some? { return answer.value, false; }
      ghost var d1 := store.disk;
      writesMemory := true;
      r := CompleteSuccess(event, i, script);
      ConfirmsThenKeeps(d, d1, store.disk, event, true, true);
      ConfirmedIsAnswered(d, store.disk, event, script, r);
    }

    /** Handles one event of either kind. */
    method HandleUpstreamEvent(delivery: Delivery) returns (r: ExternalResult, ghost commitAt: Option<nat>)
      requires Idle()
      modifies this`activeKeys, store
      ensures Idle() && old(store.written) <= store.written
      ensures Handled(store.policy, agenticEnabled, old(store.disk), store.disk, delivery, r)
      ensures delivery.event.status.FailedEvent?
              && StoredResult(old(store.disk), BuildEventKey(delivery.event)).Some? ==>
                store.written == old(store.written)
      ensures delivery.event.status.SuccessEvent? && IsProcessed(old(store.disk), BuildEventKey(delivery.event)) ==>
                store.written == old(store.written)
      ensures delivery.event.status.FailedEvent? && !LosesCandidate(old(store.disk), BuildEventKey(delivery.event)) ==>
                IsCommitWindow(store.written, |old(store.written)|, BuildEventKey(delivery.event), commitAt)
      ensures commitAt.Some? ==> delivery.event.status.FailedEvent? && agenticEnabled && delivery.phase.firstLock
      ensures delivery.event.status.FailedEvent? && agenticEnabled && delivery.phase.firstLock
              && RecordOf(old(store.disk), BuildEventKey(delivery.event)).None? ==>
                && (commitAt.Some? <==> r.SqlReadyResult?)
                && AnswersFresh(store.policy, limits, delivery.event, delivery.phase, AttemptCount(store.disk), r)
      ensures delivery.event.status.FailedEvent? && agenticEnabled && delivery.phase.firstLock ==>
                AnswersKnown(store.policy, limits, old(store.disk), delivery.event, delivery.phase, r)
    {
      if delivery.event.status.FailedEvent? {
        commitAt := None;
        if !agenticEnabled { return HumanRequiredResult(ROLLED_BACK), None; }
        r, commitAt := HandleFailedEvent(delivery.event, delivery.phase);
      } else {
        var writesMemory: bool;
        r, writesMemory := HandleSuccessEvent(delivery.event, delivery.success);
        commitAt := None;
      }
    }
  }
}
