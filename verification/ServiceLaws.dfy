/** The service's small decisions, case by case. */
module ServiceLaws {
  import opened Options
  import opened Messages
  import opened SessionStore
  import opened AgentContexts
  import opened PhaseAnswers
  import opened RepairService
  import Gates
  import RunStates

  predicate IsSafeCharacter(c: char) {
    'A' <= c <= 'Z' || 'a' <= c <= 'z' || '0' <= c <= '9' || c in {'.', '_', '-'}
  }

  /** A task's directory has a name of safe characters: its id, where that is one already. */
  lemma SafeTaskIdIs(id: string)
    ensures var safe := SafeTaskId(id);
            && safe != [] && (forall i :: 0 <= i < |safe| ==> IsSafeCharacter(safe[i]))
            && (id == "" ==> safe == "task")
            && (id != "" ==>
                  && |safe| == |id|
                  && forall i :: 0 <= i < |id| ==> safe[i] == if IsSafeCharacter(id[i]) then id[i] else '_')
  {}

  /** What an interrupted event is answered, by the status its attempt was left in. */
  lemma RecoveryTable(policy: Policy, d: Disk, i: nat)
    requires StoreInv(policy, d) && d.session.Some? && i < |d.session.value.events|
    requires d.session.value.events[i].attemptId.Some?
    ensures d.session.value.events[i].attemptId.value in d.attempts
    ensures var a := d.attempts[d.session.value.events[i].attemptId.value];
            match a.status
            case SqlReady =>
              RecoveryOf(d, i) == Recovered(if Truthy(a.sqlCandidate) then SqlReadyResult(a.sqlCandidate.value)
                                            else HumanRequiredResult(PARTIAL_MESSAGE))
            case HumanRequired => RecoveryOf(d, i) == Recovered(HumanRequiredResult(Reason(a)))
            case ValidationBlocked => RecoveryOf(d, i) == Recovered(HumanRequiredResult(Reason(a)))
            case ReflectionBlocked => RecoveryOf(d, i) == Recovered(HumanRequiredResult(Reason(a)))
            case Created =>
              RecoveryOf(d, i) == if a.staged then Recovered(HumanRequiredResult(PARTIAL_MESSAGE)) else Resumes
            case _ => RecoveryOf(d, i) == Recovered(HumanRequiredResult(PARTIAL_MESSAGE))
  {
    assert RecordOk(d, |d.session.value.attemptIds|, d.session.value.events[i]);
  }

  function Reason(a: Attempt): string {
    if Truthy(a.stopReason) then a.stopReason.value else TERMINATED
  }

  /** How an attempt without a candidate ends: by the run's status, then by the gate that spoke last. */
  lemma EndedAttemptIs(a: Attempt, result: AgentRunResult, feedback: seq<Gates.GateFeedback>)
    ensures var ended := EndedAttempt(a, result, feedback);
            && (ended.status.HumanRequired? <==> result.status.HumanResult? || result.status.FailedResult?)
            && (ended.status.ValidationBlocked? <==>
                  && (result.status.NoSqlResult? || result.status.CandidateReady?)
                  && feedback != [] && feedback[|feedback| - 1].gateName == Gates.StaticValidationGate)
            && (ended.status.HumanRequired? || ended.status.ValidationBlocked? || ended.status.ReflectionBlocked?)
            && (Truthy(result.reason) ==> ended.stopReason == result.reason)
            && (!Truthy(result.reason) && result.stopReason.Some? ==>
                  ended.stopReason == Some(RunStates.StopText(result.stopReason.value)))
            && SameIdentity(a, ended) && ended.sqlCandidate == a.sqlCandidate && ended.repairPlan == a.repairPlan
  {}

  /** Only the current candidate's attempt is marked, and only when the event's SQL is that candidate. */
  lemma MarkedFailedIs(policy: Policy, d: Disk, event: Event)
    requires StoreInv(policy, d)
    ensures var e := MarkedFailed(d, event);
            && e.session == d.session && e.results == d.results && e.attempts.Keys == d.attempts.Keys
            && forall id :: id in d.attempts ==>
                 if Latest(d).Some? && Latest(d).value == Candidate(event.sql, id)
                 then e.attempts[id] == d.attempts[id].(status := UpstreamFailed)
                 else e.attempts[id] == d.attempts[id]
  {}

  /** A finished record is processed, refers to its result and carries no error. */
  lemma FinishedRecordIs(d: Disk, i: nat, id: nat, r: ExternalResult)
    requires IsOpen(d, i, id)
    ensures var e := Finished(d, i, id, r);
            && e.session.value.events[i].processingStatus == ProcessingStatus.Succeeded
            && e.session.value.events[i].resultRef == Some(id) && e.session.value.events[i].errorCode == None
            && e.session.value.lastResultRef == Some(id) && e.results[id] == r && e.attempts == d.attempts
            && e.session.value.status == d.session.value.status
            && e.session.value.latest == d.session.value.latest
  {}
}
