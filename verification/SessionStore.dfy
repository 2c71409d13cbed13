/** Persisted sessions: the records, what every stored state satisfies, and which changes keep it. */
module SessionStore {
  import opened Options
  import opened Text
  import opened RepairModels
  import opened Gates

  // ---- Events ----

  datatype EventStatus = FailedEvent | SuccessEvent

  datatype Event = Event(id: string, status: EventStatus, sql: string, errorMessage: Option<string>,
                         logPath: Option<string>)

  /** The hashed payload of an event; the hash is injective, so the payload stands for it. */
  datatype EventKey = EventKey(id: string, status: EventStatus, sql: string, errorMessage: Option<string>,
                               logPath: Option<string>)

  function NormalizeText(value: Option<string>): Option<string> {
    if value.None? then None else Some(Strip(UniversalNewlines(value.value)))
  }

  function NormalizeSql(value: string): string {
    Join(" ", Words(value))
  }

  function BuildEventKey(e: Event): EventKey {
    EventKey(e.id, e.status, NormalizeSql(e.sql), NormalizeText(e.errorMessage), NormalizeText(e.logPath))
  }

  // ---- Records ----

  datatype ProcessingStatus = Received | Processing | Succeeded | SystemError

  /** `resultRef` names the attempt whose result file is referenced. */
  datatype EventRecord = EventRecord(
    key: EventKey,
    status: EventStatus,
    sql: string,
    processingStatus: ProcessingStatus,
    attemptId: Option<nat>,
    resultRef: Option<nat>,
    errorCode: Option<string>)

  datatype AttemptStatus =
    | Created | Diagnosed | Planned | Generated | ValidationBlocked | ReflectionBlocked | SqlReady
    | UpstreamFailed | UpstreamConfirmedSuccess | HumanRequired | AttemptSystemError

  /** `staged` says that some stage artifact was recorded; `repairPlan` is the recorded plan. */
  datatype Attempt = Attempt(
    attemptId: nat,
    status: AttemptStatus,
    sourceEventKey: EventKey,
    inputFailedSql: string,
    previousAttemptId: Option<nat>,
    staged: bool,
    repairPlan: Option<RepairPlan>,
    sqlCandidate: Option<string>,
    stopReason: Option<string>)

  datatype SessionStatus = SessionCreated | SessionRunning | SqlReadyPendingUpstream | SessionConfirmed
    | SessionHumanRequired

  /** A SQL text together with the attempt it came from. */
  datatype Candidate = Candidate(sql: string, attemptId: nat)

  datatype Session = Session(
    originalSql: string,
    status: SessionStatus,
    latest: Option<Candidate>,
    confirmed: Option<Candidate>,
    events: seq<EventRecord>,
    attemptIds: seq<nat>,
    lastResultRef: Option<nat>)

  datatype ExternalResult =
    | SqlReadyResult(sql: string)
    | NoSqlResult(message: Option<string>)
    | HumanRequiredResult(reason: string)
    | SuccessAck(message: Option<string>)

  /** The files of one task; every atomic write changes one entry. */
  datatype Disk = Disk(session: Option<Session>, attempts: map<nat, Attempt>, results: map<nat, ExternalResult>)

  const EMPTY_DISK := Disk(None, map[], map[])

  /** The position of the record with this key. */
  function FindEvent(events: seq<EventRecord>, key: EventKey): (i: Option<nat>)
    ensures i.Some? ==> i.value < |events| && events[i.value].key == key
    ensures i.None? ==> forall j :: 0 <= j < |events| ==> events[j].key != key
  {
    if events == [] then None
    else if events[0].key == key then Some(0)
    else
      var rest := FindEvent(events[1..], key);
      if rest.Some? then Some(rest.value + 1) else
        assert forall j :: 0 < j < |events| ==> events[j] == events[1..][j - 1];
        None
  }

  // ---- What every stored state satisfies ----

  /**
    * Which candidates may be stored: those that the attempt's own plan allows for a FAILED event with the attempt's
    * key.
    */
  datatype Policy = Policy(env: GateEnv, allowMediumRisk: bool)

  ghost predicate AllowedFor(policy: Policy, key: EventKey, plan: Option<RepairPlan>, sql: string) {
    plan.Some? && exists e: Event :: IsAllowedEvent(policy, key, plan.value, sql, e)
  }

  ghost predicate IsAllowedEvent(policy: Policy, key: EventKey, plan: RepairPlan, sql: string, e: Event) {
    && e.status.FailedEvent? && BuildEventKey(e) == key
    && StaticallyAllowed(policy.env, policy.allowMediumRisk, e.sql, sql, plan)
  }

  /** The candidate of an attempt, if it has one, is allowed by the attempt's plan; a fresh attempt has none. */
  ghost predicate CandidateOk(policy: Policy, a: Attempt) {
    a.sqlCandidate.Some? ==>
        !a.status.Created? && AllowedFor(policy, a.sourceEventKey, a.repairPlan, a.sqlCandidate.value)
  }

  ghost predicate DistinctKeys(events: seq<EventRecord>) {
    forall i, j :: 0 <= i < j < |events| ==> events[i].key != events[j].key
  }

  /** Attempt numbers are 1, 2, ... without gaps. */
  ghost predicate GapFree(attemptIds: seq<nat>) {
    forall i :: 0 <= i < |attemptIds| ==> attemptIds[i] == i + 1
  }

  ghost predicate RecordOk(d: Disk, n: nat, r: EventRecord) {
    && r.status == r.key.status
    && (r.attemptId.Some? ==>
          && r.status.FailedEvent? && 1 <= r.attemptId.value <= n
          && r.attemptId.value in d.attempts && d.attempts[r.attemptId.value].sourceEventKey == r.key)
    && (r.resultRef.Some? ==> r.resultRef == r.attemptId && r.resultRef.value in d.results)
  }

  ghost predicate AttemptOk(policy: Policy, d: Disk, s: Session, id: nat) {
    && id in d.attempts
    && d.attempts[id].attemptId == id
    && d.attempts[id].previousAttemptId == (if id == 1 then None else Some(id - 1))
    && (exists i :: 0 <= i < |s.events| && s.events[i].attemptId == Some(id))
    && CandidateOk(policy, d.attempts[id])
  }

  /** A ready result is the candidate of its attempt, which is past its beginning. */
  ghost predicate ResultOk(d: Disk, id: nat)
    requires id in d.results
  {
    d.results[id].SqlReadyResult? ==> id in d.attempts && IsAnswer(d.attempts[id], d.results[id].sql)
  }

  predicate IsAnswer(a: Attempt, sql: string) {
    a.sqlCandidate == Some(sql) && !a.status.Created?
  }

  ghost predicate OwnedOnce(events: seq<EventRecord>) {
    forall i, j :: 0 <= i < j < |events| && events[i].attemptId.Some? ==> events[i].attemptId != events[j].attemptId
  }

  ghost predicate LatestOk(d: Disk, s: Session) {
    s.latest.Some? ==>
      && 1 <= s.latest.value.attemptId <= |s.attemptIds| && s.latest.value.attemptId in d.attempts
      && IsAnswer(d.attempts[s.latest.value.attemptId], s.latest.value.sql)
  }

  /** The store invariant. An attempt file one past the list may be left over from an interrupted creation. */
  ghost predicate StoreInv(policy: Policy, d: Disk) {
    if d.session.None? then d.attempts == map[] && d.results == map[]
    else
      var s := d.session.value;
      var n := |s.attemptIds|;
      && DistinctKeys(s.events) && OwnedOnce(s.events) && GapFree(s.attemptIds)
      && (forall i :: 0 <= i < |s.events| ==> RecordOk(d, n, s.events[i]))
      && (forall id :: 1 <= id <= n ==> AttemptOk(policy, d, s, id))
      && (forall id :: id in d.attempts ==> 1 <= id <= n + 1)
      && (forall id :: id in d.results ==> 1 <= id <= n && ResultOk(d, id))
      && LatestOk(d, s)
  }

  // ---- Changes that keep the invariant, one per kind of write ----

  lemma CreateSessionKeeps(policy: Policy, d: Disk, sql: string)
    requires StoreInv(policy, d) && d.session.None?
    ensures StoreInv(policy, d.(session := Some(Session(sql, SessionCreated, None, None, [], [], None))))
  {}

  lemma AppendEventKeeps(policy: Policy, d: Disk, r: EventRecord)
    requires StoreInv(policy, d) && d.session.Some?
    requires FindEvent(d.session.value.events, r.key).None?
    requires r.status == r.key.status && r.attemptId.None? && r.resultRef.None?
    ensures var s := d.session.value;
            StoreInv(policy, d.(session := Some(s.(events := s.events + [r]))))
  {
    var s := d.session.value;
    var t := s.(events := s.events + [r]);
    forall id | 1 <= id <= |t.attemptIds| ensures AttemptOk(policy, d.(session := Some(t)), t, id) {
      assert AttemptOk(policy, d, s, id);
      var i :| 0 <= i < |s.events| && s.events[i].attemptId == Some(id);
      assert t.events[i].attemptId == Some(id);
    }
  }

  /** Flags of a session that no clause of the invariant mentions. */
  lemma SessionFlagsKeep(policy: Policy, d: Disk, s: Session)
    requires StoreInv(policy, d) && d.session.Some?
    requires s == d.session.value.(status := s.status, lastResultRef := s.lastResultRef, confirmed := s.confirmed)
    ensures StoreInv(policy, d.(session := Some(s)))
  {
    var t := d.session.value;
    forall id | 1 <= id <= |s.attemptIds| ensures AttemptOk(policy, d.(session := Some(s)), s, id) {
      assert AttemptOk(policy, d, t, id);
    }
    forall i | 0 <= i < |s.events| ensures RecordOk(d.(session := Some(s)), |s.attemptIds|, s.events[i]) {
      assert RecordOk(d, |t.attemptIds|, t.events[i]);
    }
  }

  /** Writing the file one past the list, over a possible leftover. */
  lemma OrphanAttemptKeeps(policy: Policy, d: Disk, a: Attempt)
    requires StoreInv(policy, d) && d.session.Some? && a.attemptId == |d.session.value.attemptIds| + 1
    ensures StoreInv(policy, d.(attempts := d.attempts[a.attemptId := a]))
  {
    var s, e := d.session.value, d.(attempts := d.attempts[a.attemptId := a]);
    forall id | 1 <= id <= |s.attemptIds| ensures AttemptOk(policy, e, s, id) {
      assert AttemptOk(policy, d, s, id);
    }
    forall i | 0 <= i < |s.events| ensures RecordOk(e, |s.attemptIds|, s.events[i]) {
      assert RecordOk(d, |s.attemptIds|, s.events[i]);
    }
  }

  /** Same owner and place; status and products may differ. */
  ghost predicate SameIdentity(a: Attempt, b: Attempt) {
    a.attemptId == b.attemptId && a.sourceEventKey == b.sourceEventKey && a.previousAttemptId == b.previousAttemptId
  }

  lemma UpdateAttemptKeeps(policy: Policy, d: Disk, a: Attempt)
    requires StoreInv(policy, d) && d.session.Some? && 1 <= a.attemptId <= |d.session.value.attemptIds|
    requires a.attemptId in d.attempts && SameIdentity(a, d.attempts[a.attemptId])
    requires CandidateOk(policy, a)
    requires var latest := d.session.value.latest;
             latest.Some? && latest.value.attemptId == a.attemptId ==> IsAnswer(a, latest.value.sql)
    requires a.attemptId in d.results && d.results[a.attemptId].SqlReadyResult? ==>
               IsAnswer(a, d.results[a.attemptId].sql)
    ensures StoreInv(policy, d.(attempts := d.attempts[a.attemptId := a]))
  {
    var s, e := d.session.value, d.(attempts := d.attempts[a.attemptId := a]);
    forall id | 1 <= id <= |s.attemptIds| ensures AttemptOk(policy, e, s, id) {
      assert AttemptOk(policy, d, s, id);
    }
    forall i | 0 <= i < |s.events| ensures RecordOk(e, |s.attemptIds|, s.events[i]) {
      assert RecordOk(d, |s.attemptIds|, s.events[i]);
    }
  }

  lemma SaveResultKeeps(policy: Policy, d: Disk, id: nat, r: ExternalResult)
    requires StoreInv(policy, d) && d.session.Some? && 1 <= id <= |d.session.value.attemptIds|
    requires r.SqlReadyResult? ==> id in d.attempts && IsAnswer(d.attempts[id], r.sql)
    ensures StoreInv(policy, d.(results := d.results[id := r]))
  {
    var s, e := d.session.value, d.(results := d.results[id := r]);
    forall k | 1 <= k <= |s.attemptIds| ensures AttemptOk(policy, e, s, k) {
      assert AttemptOk(policy, d, s, k);
    }
    forall i | 0 <= i < |s.events| ensures RecordOk(e, |s.attemptIds|, s.events[i]) {
      assert RecordOk(d, |s.attemptIds|, s.events[i]);
    }
  }

  /** Replacing a record by one with the same key and attempt. */
  lemma UpdateRecordKeeps(policy: Policy, d: Disk, i: nat, r: EventRecord)
    requires StoreInv(policy, d) && d.session.Some? && i < |d.session.value.events|
    requires r.key == d.session.value.events[i].key && r.attemptId == d.session.value.events[i].attemptId
    requires RecordOk(d, |d.session.value.attemptIds|, r)
    ensures StoreInv(policy, d.(session := Some(d.session.value.(events := d.session.value.events[i := r]))))
  {
    var s := d.session.value;
    var t := s.(events := s.events[i := r]);
    var e := d.(session := Some(t));
    forall id | 1 <= id <= |t.attemptIds| ensures AttemptOk(policy, e, t, id) {
      assert AttemptOk(policy, d, s, id);
      var k :| 0 <= k < |s.events| && s.events[k].attemptId == Some(id);
      assert t.events[k].attemptId == Some(id);
    }
    forall k | 0 <= k < |t.events| ensures RecordOk(e, |t.attemptIds|, t.events[k]) {
      assert RecordOk(d, |s.attemptIds|, s.events[k]);
    }
  }

  /** Listing the attempt that was just written and giving it to its record. */
  lemma AttachAttemptKeeps(policy: Policy, d: Disk, i: nat, r: EventRecord)
    requires StoreInv(policy, d) && d.session.Some? && i < |d.session.value.events|
    requires var s, n := d.session.value, |d.session.value.attemptIds| + 1;
             && s.events[i].attemptId.None? && s.events[i].resultRef.None?
             && r == s.events[i].(attemptId := Some(n), processingStatus := r.processingStatus) && r.status.FailedEvent?
             && n in d.attempts && d.attempts[n].attemptId == n && d.attempts[n].sourceEventKey == r.key
             && d.attempts[n].previousAttemptId == (if n == 1 then None else Some(n - 1))
                && d.attempts[n].sqlCandidate.None?
    ensures var s, n := d.session.value, |d.session.value.attemptIds| + 1;
            StoreInv(policy, d.(session := Some(s.(events := s.events[i := r], attemptIds := s.attemptIds + [n]))))
  {
    var s, n := d.session.value, |d.session.value.attemptIds| + 1;
    var t := s.(events := s.events[i := r], attemptIds := s.attemptIds + [n]);
    var e := d.(session := Some(t));
    forall id | 1 <= id <= n ensures AttemptOk(policy, e, t, id) {
      if id < n {
        assert AttemptOk(policy, d, s, id);
        var k :| 0 <= k < |s.events| && s.events[k].attemptId == Some(id);
        assert t.events[k].attemptId == Some(id);
      } else {
        assert t.events[i].attemptId == Some(id);
      }
    }
    forall k | 0 <= k < |t.events| ensures RecordOk(e, n, t.events[k]) {
      assert RecordOk(d, n - 1, s.events[k]);
    }
  }

  /** The session's new candidate is the one stored with its attempt. */
  lemma SetLatestKeeps(policy: Policy, d: Disk, c: Candidate)
    requires StoreInv(policy, d) && d.session.Some? && 1 <= c.attemptId <= |d.session.value.attemptIds|
    requires c.attemptId in d.attempts && IsAnswer(d.attempts[c.attemptId], c.sql)
    ensures StoreInv(policy,
                     d.(session := Some(d.session.value.(latest := Some(c), status := SqlReadyPendingUpstream))))
  {
    var s := d.session.value;
    var t := s.(latest := Some(c), status := SqlReadyPendingUpstream);
    var e := d.(session := Some(t));
    forall id | 1 <= id <= |t.attemptIds| ensures AttemptOk(policy, e, t, id) {
      assert AttemptOk(policy, d, s, id);
    }
    forall i | 0 <= i < |t.events| ensures RecordOk(e, |t.attemptIds|, t.events[i]) {
      assert RecordOk(d, |s.attemptIds|, s.events[i]);
    }
  }

  ghost predicate IsValidAt(policy: Policy, states: seq<Disk>, i: nat)
    requires i < |states|
  {
    StoreInv(policy, states[i])
  }

  ghost predicate AllValid(policy: Policy, states: seq<Disk>) {
    forall i :: 0 <= i < |states| ==> IsValidAt(policy, states, i)
  }

  lemma AllValidAndOne(policy: Policy, states: seq<Disk>, d: Disk)
    requires AllValid(policy, states) && StoreInv(policy, d)
    ensures AllValid(policy, states + [d])
  {
    forall i | 0 <= i < |states + [d]| ensures IsValidAt(policy, states + [d], i) {
      if i < |states| { assert IsValidAt(policy, states, i); }
    }
  }

  // ---- The store ----

  /** `written` lists the stored state after every atomic write: the points where a crash may fall. */
  class Store {
    const policy: Policy
    var disk: Disk
    var written: seq<Disk>

    ghost predicate Safe()
      reads this
    {
      StoreInv(policy, disk) && AllValid(policy, written)
    }

    /** Opens whatever an earlier process left behind. */
    constructor (policy: Policy, disk: Disk)
      requires StoreInv(policy, disk)
      ensures this.policy == policy && this.disk == disk && written == [] && Safe()
    {
      this.policy, this.disk, written := policy, disk, [];
    }

    method SaveSession(s: Session)
      requires Safe() && StoreInv(policy, disk.(session := Some(s)))
      modifies this
      ensures Safe() && disk == old(disk).(session := Some(s)) && written == old(written) + [disk]
    {
      disk := disk.(session := Some(s));
      AllValidAndOne(policy, written, disk);
      written := written + [disk];
    }

    method SaveAttempt(a: Attempt)
      requires Safe() && StoreInv(policy, disk.(attempts := disk.attempts[a.attemptId := a]))
      modifies this
      ensures Safe() && disk == old(disk).(attempts := old(disk).attempts[a.attemptId := a])
              && written == old(written) + [disk]
    {
      disk := disk.(attempts := disk.attempts[a.attemptId := a]);
      AllValidAndOne(policy, written, disk);
      written := written + [disk];
    }

    method SaveResult(id: nat, r: ExternalResult)
      requires Safe() && StoreInv(policy, disk.(results := disk.results[id := r]))
      modifies this
      ensures Safe() && disk == old(disk).(results := old(disk).results[id := r]) && written == old(written) + [disk]
    {
      disk := disk.(results := disk.results[id := r]);
      AllValidAndOne(policy, written, disk);
      written := written + [disk];
    }

    method LoadOrCreateForEvent(e: Event) returns (s: Session)
      requires Safe()
      modifies this
      ensures Safe() && disk.session == Some(s)
      ensures old(disk).session.Some? ==> disk == old(disk) && written == old(written)
      ensures old(disk).session.None? ==>
                disk == Disk(Some(Session(e.sql, SessionCreated, None, None, [], [], None)), map[], map[])
                  && written == old(written) + [disk]
    {
      if disk.session.Some? { return disk.session.value; }
      s := Session(e.sql, SessionCreated, None, None, [], [], None);
      CreateSessionKeeps(policy, disk, e.sql);
      SaveSession(s);
    }

    /** Appends a record unless one with its key is there. */
    method AppendUpstreamEvent(s: Session, r: EventRecord) returns (t: Session)
      requires Safe() && disk.session == Some(s)
      requires r.status == r.key.status && r.attemptId.None? && r.resultRef.None?
      modifies this
      ensures Safe() && disk == old(disk).(session := Some(t))
      ensures t == if FindEvent(s.events, r.key).None? then s.(events := s.events + [r]) else s
      ensures written == if FindEvent(s.events, r.key).None? then old(written) + [disk] else old(written)
    {
      if FindEvent(s.events, r.key).Some? { return s; }
      AppendEventKeeps(policy, disk, r);
      t := s.(events := s.events + [r]);
      SaveSession(t);
    }

    /** Gives a FAILED record its attempt: first the attempt file, then the session that lists it. */
    method CreateAttempt(s: Session, i: nat) returns (t: Session, a: Attempt)
      requires Safe() && disk.session == Some(s) && i < |s.events|
      requires s.events[i].status.FailedEvent? && s.events[i].attemptId.None?
      modifies this
      ensures Safe() && disk.session == Some(t)
      ensures written == old(written) + [old(disk).(attempts := old(disk).attempts[a.attemptId := a]), disk]
      ensures var n := |s.attemptIds| + 1;
              && a == Attempt(n, Created, s.events[i].key, s.events[i].sql, if n == 1 then None
                              else Some(n - 1), false, None, None, None)
              && t == s.(events := s.events[i := s.events[i].(attemptId := Some(n), processingStatus := Processing)],
                         attemptIds := s.attemptIds + [n])
              && disk == old(disk).(session := Some(t), attempts := old(disk).attempts[n := a])
    {
      var n := |s.attemptIds| + 1;
      assert RecordOk(disk, |s.attemptIds|, s.events[i]);
      a := Attempt(n, Created, s.events[i].key, s.events[i].sql,
                   if s.attemptIds == [] then None
                     else Some(s.attemptIds[|s.attemptIds| - 1]), false, None, None, None);
      var r := s.events[i].(attemptId := Some(n), processingStatus := Processing);
      OrphanAttemptKeeps(policy, disk, a);
      SaveAttempt(a);
      AttachAttemptKeeps(policy, disk, i, r);
      t := s.(events := s.events[i := r], attemptIds := s.attemptIds + [n]);
      SaveSession(t);
    }

    /** Closes a record; `resultRef` must name a stored result of the record's own attempt. */
    method FinishEvent(s: Session, i: nat, resultRef: Option<nat>, errorCode: Option<string>, status: ProcessingStatus)
      returns (t: Session)
      requires Safe() && disk.session.Some? && i < |s.events|
      requires s == disk.session.value.(lastResultRef := s.lastResultRef)
      requires resultRef.Some? ==> resultRef == s.events[i].attemptId && resultRef.value in disk.results
      modifies this
      ensures Safe() && disk == old(disk).(session := Some(t)) && written == old(written) + [disk]
      ensures var r := s.events[i].(processingStatus := status, resultRef := resultRef, errorCode := errorCode);
              t == s.(events := s.events[i := r])
    {
      var before := disk.session.value;
      var r := s.events[i].(processingStatus := status, resultRef := resultRef, errorCode := errorCode);
      assert RecordOk(disk, |before.attemptIds|, before.events[i]);
      UpdateRecordKeeps(policy, disk, i, r);
      t := s.(events := s.events[i := r]);
      ghost var d := disk.(session := Some(before.(events := before.events[i := r])));
      SessionFlagsKeep(policy, d, t);
      assert disk.(session := Some(t)) == d.(session := Some(t));
      SaveSession(t);
    }
  }
}
