/**
  * Whole runs of the service: end-to-end safety, exact replay, one attempt per event, and crashes between any two
  * writes.
  */
module EventRuns {
  import opened Options
  import opened RepairModels
  import opened SessionStore
  import opened PhaseAnswers
  import opened RepairService
  import AgentRunner
  import RunScripts
  import ColumnChoice
  import Gates
  import OnlineGate
  import PlannedRepairs
  import RunStates
  import SqlDiff

  // ---- Runs without crashes ----

  /** `states[k]` is what is stored before delivery `k`, which is answered by `results[k]`. */
  datatype Run = Run(
    policy: Policy,
    agenticEnabled: bool,
    states: seq<Disk>,
    deliveries: seq<Delivery>,
    results: seq<ExternalResult>)

  ghost predicate IsRun(run: Run) {
    && |run.states| == |run.deliveries| + 1 && |run.results| == |run.deliveries|
    && (forall k :: 0 <= k < |run.states| ==> IsSafe(run, k))
    && (forall k :: 0 <= k < |run.deliveries| ==> IsStep(run, k))
  }

  ghost predicate IsSafe(run: Run, k: nat)
    requires k < |run.states|
  {
    StoreInv(run.policy, run.states[k])
  }

  ghost predicate IsStep(run: Run, k: nat)
    requires k + 1 < |run.states| && k < |run.deliveries| && k < |run.results|
  {
    Handled(run.policy, run.agenticEnabled, run.states[k], run.states[k + 1], run.deliveries[k], run.results[k])
  }

  /** A run that starts from an empty store. */
  ghost predicate IsFreshRun(run: Run) {
    IsRun(run) && run.states[0] == EMPTY_DISK
  }

  function KeyAt(run: Run, k: nat): EventKey
    requires k < |run.deliveries|
  {
    BuildEventKey(run.deliveries[k].event)
  }

  function Grown(run: Run, e: Disk, delivery: Delivery, r: ExternalResult): Run {
    run.(states := run.states + [e], deliveries := run.deliveries + [delivery], results := run.results + [r])
  }

  lemma RunGrows(run: Run, e: Disk, delivery: Delivery, r: ExternalResult)
    requires IsRun(run) && StoreInv(run.policy, e)
    requires Handled(run.policy, run.agenticEnabled, run.states[|run.deliveries|], e, delivery, r)
    ensures IsRun(Grown(run, e, delivery, r))
  {
    var grown := Grown(run, e, delivery, r);
    forall k | 0 <= k < |grown.states| ensures IsSafe(grown, k) {
      if k < |run.states| { StateOfGrown(run, e, delivery, r, k); }
    }
    forall k | 0 <= k < |grown.deliveries| ensures IsStep(grown, k) {
      if k < |run.deliveries| { StepOfGrown(run, e, delivery, r, k); }
    }
  }

  lemma StateOfGrown(run: Run, e: Disk, delivery: Delivery, r: ExternalResult, k: nat)
    requires IsRun(run) && k < |run.states|
    ensures IsSafe(Grown(run, e, delivery, r), k)
  {
    assert IsSafe(run, k);
  }

  lemma StepOfGrown(run: Run, e: Disk, delivery: Delivery, r: ExternalResult, k: nat)
    requires IsRun(run) && k < |run.deliveries|
    ensures IsStep(Grown(run, e, delivery, r), k)
  {
    assert IsStep(run, k);
  }

  lemma StepExtends(run: Run, k: nat)
    requires IsRun(run) && k < |run.deliveries|
    ensures Extends(run.states[k], run.states[k + 1])
  {
    assert IsStep(run, k) && IsSafe(run, k);
    if run.states[k + 1] == run.states[k] { ExtendsReflexive(run.policy, run.states[k]); }
  }

  lemma StepKeepsStored(run: Run, k: nat, key: EventKey)
    requires IsRun(run) && k < |run.deliveries| && StoredResult(run.states[k], key).Some?
    ensures StoredResult(run.states[k + 1], key) == StoredResult(run.states[k], key)
  {
    assert IsSafe(run, k) && IsSafe(run, k + 1);
    StepExtends(run, k);
    StoredResultsAreKept(run.policy, run.states[k], run.states[k + 1], key);
  }

  // ---- End-to-end safety ----

  /**
    * Delivery `k` is a FAILED event answered with this SQL, which cleared the gates of its own run for the very SQL
    * that failed.
    */
  ghost predicate Delivered(run: Run, k: nat, sql: string) {
    && k < |run.deliveries| && k < |run.results|
    && run.deliveries[k].event.status.FailedEvent? && run.results[k] == SqlReadyResult(sql)
    && ReadyIsCleared(run.policy, run.deliveries[k].event, run.deliveries[k].phase, sql)
  }

  /** Delivery `j` is a SUCCESS event that reports this SQL. */
  predicate Reported(run: Run, j: nat, sql: string) {
    j < |run.deliveries| && run.deliveries[j].event.status.SuccessEvent? && run.deliveries[j].event.sql == sql
  }

  lemma StepLatest(run: Run, k: nat)
    requires IsRun(run) && k < |run.deliveries|
    ensures var d, e := run.states[k], run.states[k + 1];
            Latest(e) == Latest(d) || (Latest(e).Some? && Delivered(run, k, Latest(e).value.sql))
  {
    assert IsStep(run, k);
  }

  /** The current candidate was delivered before step `n`. */
  lemma {:induction false} LatestWasDelivered(run: Run, n: nat) returns (k: nat)
    requires IsFreshRun(run) && n <= |run.deliveries| && Latest(run.states[n]).Some?
    ensures k < n && Delivered(run, k, Latest(run.states[n]).value.sql)
  {
    StepLatest(run, n - 1);
    if Latest(run.states[n]) == Latest(run.states[n - 1]) {
      k := LatestWasDelivered(run, n - 1);
    } else {
      k := n - 1;
    }
  }

  /** The delivery is a SUCCESS event that confirms the current candidate of `d`. */
  ghost predicate ConfirmsNow(d: Disk, delivery: Delivery) {
    delivery.event.status.SuccessEvent? && delivery.success.firstLock && Matches(d, delivery.event)
  }

  lemma StepConfirmed(run: Run, k: nat)
    requires IsRun(run) && k < |run.deliveries|
    ensures var d, e, event := run.states[k], run.states[k + 1], run.deliveries[k].event;
            if ConfirmsNow(d, run.deliveries[k]) then
              Confirmed(e) == Latest(d) == Latest(e) && Latest(d).Some? && Latest(d).value.sql == event.sql
                && IsConfirmed(e) && AttemptIsConfirmed(e)
            else Confirmed(e) == Confirmed(d) && (IsConfirmed(e) ==> IsConfirmed(d) && Latest(e) == Latest(d))
  {
    assert IsStep(run, k);
  }

  /** A confirmed session confirms its current candidate. */
  lemma {:induction false} ConfirmedIsCurrent(run: Run, n: nat)
    requires IsFreshRun(run) && n <= |run.deliveries| && IsConfirmed(run.states[n])
    ensures Confirmed(run.states[n]).Some? && Confirmed(run.states[n]) == Latest(run.states[n])
  {
    StepConfirmed(run, n - 1);
    if !ConfirmsNow(run.states[n - 1], run.deliveries[n - 1]) { ConfirmedIsCurrent(run, n - 1); }
  }

  /** The confirmed SQL was first delivered and later reported successful. */
  lemma {:induction false} ConfirmedWasDelivered(run: Run, n: nat) returns (k: nat, j: nat)
    requires IsFreshRun(run) && n <= |run.deliveries| && Confirmed(run.states[n]).Some?
    ensures var sql := Confirmed(run.states[n]).value.sql;
            k < j < n && Delivered(run, k, sql) && Reported(run, j, sql)
  {
    StepConfirmed(run, n - 1);
    if ConfirmsNow(run.states[n - 1], run.deliveries[n - 1]) {
      k := LatestWasDelivered(run, n - 1);
      j := n - 1;
    } else {
      k, j := ConfirmedWasDelivered(run, n - 1);
    }
  }

  /** What the agent proposed in this run, or what the generator made of it. */
  ghost predicate IsOfRun(script: RunScripts.RunScript, sql: string) {
    RunScripts.IsProposed(script, sql) || script.gate.regenerated == Some(sql)
  }

  lemma ClearedIsPlanned(policy: Policy, event: Event, script: PhaseScript, sql: string)
    requires ReadyIsCleared(policy, event, script, sql)
    ensures var plan := script.run.gate.existingPlan;
            && plan.Some? && SqlDiff.MatchesPlan(policy.env.sql, event.sql, sql, plan.value)
            && !policy.env.sql.isDangerous(sql) && IsOfRun(script.run, sql)
  {
    var draft :| IsClearedFor(policy, event, script, draft, sql);
    var gate := script.run.gate;
    var reflection :| OnlineGate.MayRelease(gate, draft, sql, reflection)
                      && Gates.ClearedBy(policy.env, policy.allowMediumRisk, event.sql, sql, gate.existingPlan.value,
                                         reflection);
    Gates.ClearedMeansPlanned(policy.env, policy.allowMediumRisk, event.sql, sql, gate.existingPlan.value, reflection);
  }

  /**
    * Every SQL ever confirmed was delivered for a FAILED event, as that run's agent proposed it or its generator made
    * it, and is equivalent to that delivery's own plan applied to that event's SQL.
    */
  lemma ConfirmedSqlIsPlanned(run: Run, n: nat) returns (k: nat)
    requires IsFreshRun(run) && n <= |run.deliveries| && Confirmed(run.states[n]).Some?
    ensures var sql := Confirmed(run.states[n]).value.sql;
            && k < n && Delivered(run, k, sql) && !run.policy.env.sql.isDangerous(sql)
            && IsOfRun(run.deliveries[k].phase.run, sql)
            && run.deliveries[k].phase.run.gate.existingPlan.Some?
            && SqlDiff.MatchesPlan(run.policy.env.sql, run.deliveries[k].event.sql, sql,
                                   run.deliveries[k].phase.run.gate.existingPlan.value)
  {
    var j: nat;
    k, j := ConfirmedWasDelivered(run, n);
    ClearedIsPlanned(run.policy, run.deliveries[k].event, run.deliveries[k].phase, Confirmed(run.states[n]).value.sql);
  }

  /** Every plan handed to the gates comes from the planner, as the source has it. */
  ghost predicate PlansArePlanners(run: Run, alphabet: ColumnChoice.Alphabet, inputs: seq<ColumnChoice.PlannerInput>) {
    && |inputs| == |run.deliveries|
    && forall k :: 0 <= k < |run.deliveries| ==>
         PlanIsPlanners(run.deliveries[k].phase.run.gate.existingPlan, alphabet, inputs[k])
  }

  predicate PlanIsPlanners(plan: Option<RepairPlan>, alphabet: ColumnChoice.Alphabet,
                           input: ColumnChoice.PlannerInput) {
    plan.Some? ==> plan.value == ColumnChoice.PlanRepair(alphabet, input)
  }

  /**
    * Every SQL ever confirmed is equivalent to the SQL of a FAILED event with at most one place rewritten as the
    * planner decided.
    */
  lemma ConfirmedSqlIsOneRewrite(run: Run, n: nat, alphabet: ColumnChoice.Alphabet,
                                 inputs: seq<ColumnChoice.PlannerInput>)
    returns (k: nat, rewritten: string)
    requires IsFreshRun(run) && n <= |run.deliveries| && Confirmed(run.states[n]).Some?
    requires PlansArePlanners(run, alphabet, inputs)
    ensures var sql := Confirmed(run.states[n]).value.sql;
            && k < n && Delivered(run, k, sql) && SqlDiff.SqlEquivalent(run.policy.env.sql, rewritten, sql)
            && PlannedRepairs.IsPlannedRewrite(run.policy.env.sql.templates, alphabet, inputs[k],
                                               run.deliveries[k].event.sql, rewritten)
  {
    k := ConfirmedSqlIsPlanned(run, n);
    assert PlanIsPlanners(run.deliveries[k].phase.run.gate.existingPlan, alphabet, inputs[k]);
    rewritten := PlannedRepairs.MatchingCandidateIsOneRewrite(
      run.policy.env.sql, alphabet, inputs[k], run.deliveries[k].event.sql, Confirmed(run.states[n]).value.sql);
  }

  // ---- Exact replay ----

  predicate Admitted(agenticEnabled: bool, delivery: Delivery) {
    delivery.event.status.FailedEvent? && agenticEnabled && delivery.phase.firstLock
  }

  predicate AdmittedAt(run: Run, k: nat)
    requires k < |run.deliveries|
  {
    Admitted(run.agenticEnabled, run.deliveries[k])
  }

  lemma KeysAreKept(d: Disk, e: Disk)
    requires Extends(d, e)
    ensures EventCount(d) <= EventCount(e)
    ensures forall i :: 0 <= i < EventCount(d) ==> e.session.value.events[i].key == d.session.value.events[i].key
  {
    forall i | 0 <= i < EventCount(d) ensures e.session.value.events[i].key == d.session.value.events[i].key {
      assert RecordKept(d, e, d.session.value.events[i], e.session.value.events[i]);
    }
  }

  /** Handling a delivery adds no record but that of its own event. */
  lemma OnlyOwnRecordIsNew(run: Run, k: nat, key: EventKey)
    requires IsRun(run) && k < |run.deliveries| && RecordOf(run.states[k + 1], key).Some? && key != KeyAt(run, k)
    ensures RecordOf(run.states[k], key).Some?
  {
    assert IsStep(run, k);
    StepExtends(run, k);
    KeysAreKept(run.states[k], run.states[k + 1]);
  }

  /** In a run from an empty store, a recorded FAILED event has its result stored. */
  lemma {:induction false} RecordedMeansStored(run: Run, n: nat, key: EventKey)
    requires IsFreshRun(run) && n <= |run.deliveries| && RecordOf(run.states[n], key).Some? && key.status.FailedEvent?
    ensures StoredResult(run.states[n], key).Some?
  {
    if n > 0 {
      if RecordOf(run.states[n - 1], key).Some? {
        RecordedMeansStored(run, n - 1, key);
        StepKeepsStored(run, n - 1, key);
      } else {
        NewRecordIsStored(run, n - 1, key);
      }
    }
  }

  lemma NewRecordIsStored(run: Run, k: nat, key: EventKey)
    requires IsRun(run) && k < |run.deliveries| && key.status.FailedEvent?
    requires RecordOf(run.states[k], key).None? && RecordOf(run.states[k + 1], key).Some?
    ensures StoredResult(run.states[k + 1], key).Some?
  {
    if key != KeyAt(run, k) { OnlyOwnRecordIsNew(run, k, key); }
    assert IsStep(run, k);
  }

  /** An admitted FAILED event has its answer stored. */
  lemma AnswerIsStored(run: Run, j: nat)
    requires IsFreshRun(run) && j < |run.deliveries| && AdmittedAt(run, j)
    ensures StoredResult(run.states[j + 1], KeyAt(run, j)) == Some(run.results[j])
  {
    assert IsStep(run, j);
    RecordedMeansStored(run, j + 1, KeyAt(run, j));
  }

  lemma {:induction false} AnswerStaysStored(run: Run, j: nat, k: nat, key: EventKey)
    requires IsRun(run) && j <= k <= |run.deliveries| && StoredResult(run.states[j], key).Some?
    ensures StoredResult(run.states[k], key) == StoredResult(run.states[j], key)
  {
    if j < k {
      AnswerStaysStored(run, j, k - 1, key);
      StepKeepsStored(run, k - 1, key);
    }
  }

  /**
    * In a run from any stored state, also one that a crash left, an answer that is stored at some time is given to
    * every later delivery of its event, which changes nothing.
    */
  lemma StoredAnswerIsReplayed(run: Run, j: nat, k: nat)
    requires IsRun(run) && j <= k < |run.deliveries| && AdmittedAt(run, k)
    requires StoredResult(run.states[j], KeyAt(run, k)).Some?
    ensures run.results[k] == StoredResult(run.states[j], KeyAt(run, k)).value && run.states[k + 1] == run.states[k]
  {
    AnswerStaysStored(run, j, k, KeyAt(run, k));
    assert IsStep(run, k);
  }

  /** A FAILED event delivered again is answered as before and writes nothing, whatever came in between. */
  lemma ReplayIsExact(run: Run, j: nat, k: nat)
    requires IsFreshRun(run) && j < k < |run.deliveries| && AdmittedAt(run, j) && AdmittedAt(run, k)
    requires KeyAt(run, j) == KeyAt(run, k)
    ensures run.results[k] == run.results[j] && run.states[k + 1] == run.states[k]
  {
    AnswerIsStored(run, j);
    StoredAnswerIsReplayed(run, j + 1, k);
  }

  // ---- One attempt per event ----

  /** The FAILED events admitted before step `n`. */
  ghost function AdmittedKeys(run: Run, n: nat): set<EventKey>
    requires n <= |run.deliveries|
  {
    set k | 0 <= k < n && AdmittedAt(run, k) :: KeyAt(run, k)
  }

  lemma AdmittedKeysNext(run: Run, n: nat)
    requires n < |run.deliveries|
    ensures AdmittedKeys(run, n + 1) == AdmittedKeys(run, n) + if AdmittedAt(run, n) then {KeyAt(run, n)} else {}
  {}

  /** A FAILED event gets its record exactly by being admitted. */
  lemma StepRecords(run: Run, k: nat, key: EventKey)
    requires IsRun(run) && k < |run.deliveries| && key.status.FailedEvent?
    ensures RecordOf(run.states[k + 1], key).Some? <==>
              RecordOf(run.states[k], key).Some? || (AdmittedAt(run, k) && key == KeyAt(run, k))
  {
    assert IsStep(run, k);
    StepExtends(run, k);
    if RecordOf(run.states[k], key).Some? {
      RecordsAreKept(run.states[k], run.states[k + 1], key);
    } else if RecordOf(run.states[k + 1], key).Some? && key != KeyAt(run, k) {
      OnlyOwnRecordIsNew(run, k, key);
    }
  }

  lemma {:induction false} RecordedMeansAdmitted(run: Run, n: nat, key: EventKey)
    requires IsFreshRun(run) && n <= |run.deliveries| && key.status.FailedEvent?
    ensures RecordOf(run.states[n], key).Some? <==> key in AdmittedKeys(run, n)
  {
    if n > 0 {
      RecordedMeansAdmitted(run, n - 1, key);
      StepRecords(run, n - 1, key);
      AdmittedKeysNext(run, n - 1);
    }
  }

  lemma StepAttempts(run: Run, k: nat)
    requires IsRun(run) && k < |run.deliveries|
    ensures AttemptCount(run.states[k + 1]) == AttemptCount(run.states[k])
              + if AdmittedAt(run, k) && RecordOf(run.states[k], KeyAt(run, k)).None? then 1 else 0
  {
    assert IsStep(run, k);
  }

  lemma AdmittedKeysGrow(run: Run, n: nat)
    requires n < |run.deliveries|
    ensures |AdmittedKeys(run, n + 1)|
            == |AdmittedKeys(run, n)| + if AdmittedAt(run, n) && KeyAt(run, n) !in AdmittedKeys(run, n) then 1 else 0
  {
    AdmittedKeysNext(run, n);
    Grows(AdmittedKeys(run, n), KeyAt(run, n));
    assert AdmittedKeys(run, n) + {} == AdmittedKeys(run, n);
  }

  lemma Grows(keys: set<EventKey>, key: EventKey)
    ensures |keys + {key}| == |keys| + if key in keys then 0 else 1
  {
    if key in keys { assert keys + {key} == keys; }
  }

  /** There are exactly as many attempts as different admitted FAILED events. */
  lemma {:induction false} OneAttemptPerEvent(run: Run, n: nat)
    requires IsFreshRun(run) && n <= |run.deliveries|
    ensures AttemptCount(run.states[n]) == |AdmittedKeys(run, n)|
  {
    if n == 0 {
      assert AdmittedKeys(run, 0) == {};
    } else {
      OneAttemptPerEvent(run, n - 1);
      StepAttempts(run, n - 1);
      if AdmittedAt(run, n - 1) { RecordedMeansAdmitted(run, n - 1, KeyAt(run, n - 1)); }
      AdmittedKeysGrow(run, n - 1);
    }
  }

  // ---- The current candidate ----

  /** Delivery `k` is the first admitted one of its FAILED event and is answered with a candidate. */
  ghost predicate IsFreshReady(run: Run, k: nat)
    requires k < |run.deliveries| && k < |run.results|
  {
    AdmittedAt(run, k) && KeyAt(run, k) !in AdmittedKeys(run, k) && run.results[k].SqlReadyResult?
  }

  /** A freshly delivered SQL, and nothing else, becomes the session's candidate; it belongs to the newest attempt. */
  lemma LatestIsFreshlyDelivered(run: Run, k: nat)
    requires IsFreshRun(run) && k < |run.deliveries|
    ensures Latest(run.states[k + 1])
            == if IsFreshReady(run, k) then Some(Candidate(run.results[k].sql, |AdmittedKeys(run, k + 1)|))
               else Latest(run.states[k])
  {
    assert IsStep(run, k);
    OneAttemptPerEvent(run, k + 1);
    if AdmittedAt(run, k) {
      RecordedMeansAdmitted(run, k, KeyAt(run, k));
      if RecordOf(run.states[k], KeyAt(run, k)).Some? { RecordedMeansStored(run, k, KeyAt(run, k)); }
    }
  }

  // ---- Repeated SUCCESS events ----

  /** Delivery `k` is a SUCCESS event that gets the session lock. */
  predicate AdmittedSuccess(run: Run, k: nat)
    requires k < |run.deliveries|
  {
    run.deliveries[k].event.status.SuccessEvent? && run.deliveries[k].success.firstLock
  }

  /**
    * Delivery `k` is an admitted SUCCESS event with this key that reports no current candidate, or whose record can
    * be closed.
    */
  ghost predicate Closes(run: Run, k: nat, key: EventKey)
    requires k < |run.states| && k < |run.deliveries|
  {
    && AdmittedSuccess(run, k) && KeyAt(run, k) == key
    && (!Matches(run.states[k], run.deliveries[k].event) || CanClose(run.deliveries[k].success))
  }

  ghost predicate ClosedBefore(run: Run, n: nat, key: EventKey)
    requires n <= |run.states| && n <= |run.deliveries|
  {
    exists k: nat :: k < n && Closes(run, k, key)
  }

  lemma OwnRecordOnly(policy: Policy, d: Disk, e: Disk, own: EventKey, key: EventKey)
    requires StoreInv(policy, d) && StoreInv(policy, e) && OthersKept(d, e, own) && key != own && RecordOf(d, key).Some?
    ensures RecordOf(e, key) == RecordOf(d, key)
  {
    var i := FindEvent(d.session.value.events, key).value;
    FindDistinct(e.session.value.events, i);
  }

  /** Once processed, a SUCCESS record stays as it is. */
  lemma ProcessedIsKept(policy: Policy, d: Disk, e: Disk, key: EventKey)
    requires StoreInv(policy, d) && StoreInv(policy, e) && Extends(d, e) && key.status.SuccessEvent?
             && IsProcessed(d, key)
    ensures RecordOf(e, key) == RecordOf(d, key)
  {
    var s := d.session.value;
    var i := FindEvent(s.events, key).value;
    assert RecordOk(d, |s.attemptIds|, s.events[i]) && RecordKept(d, e, s.events[i], e.session.value.events[i]);
    FindDistinct(e.session.value.events, i);
  }

  lemma StepProcesses(run: Run, k: nat, key: EventKey)
    requires IsRun(run) && k < |run.deliveries| && key.status.SuccessEvent?
    ensures IsProcessed(run.states[k + 1], key) <==> IsProcessed(run.states[k], key) || Closes(run, k, key)
  {
    var d, e := run.states[k], run.states[k + 1];
    assert IsStep(run, k) && IsSafe(run, k) && IsSafe(run, k + 1);
    StepExtends(run, k);
    if IsProcessed(d, key) {
      ProcessedIsKept(run.policy, d, e, key);
    } else if key != KeyAt(run, k) && e != d && RecordOf(e, key).Some? {
      OnlyOwnRecordIsNew(run, k, key);
      OwnRecordOnly(run.policy, d, e, KeyAt(run, k), key);
    }
  }

  /** A SUCCESS event counts as processed exactly when an earlier delivery of it was unmatched or could be closed. */
  lemma {:induction false} ProcessedIffClosed(run: Run, n: nat, key: EventKey)
    requires IsFreshRun(run) && n <= |run.deliveries| && key.status.SuccessEvent?
    ensures IsProcessed(run.states[n], key) <==> ClosedBefore(run, n, key)
  {
    if n > 0 {
      ProcessedIffClosed(run, n - 1, key);
      StepProcesses(run, n - 1, key);
      if ClosedBefore(run, n, key) {
        var k: nat :| k < n && Closes(run, k, key);
        assert k < n - 1 ==> ClosedBefore(run, n - 1, key);
      }
    }
  }

  /** Delivery `k` is an admitted SUCCESS event with the current candidate's text that no earlier one closed. */
  ghost predicate IsConfirming(run: Run, k: nat)
    requires k < |run.states| && k < |run.deliveries|
  {
    && AdmittedSuccess(run, k)
    && Latest(run.states[k]).Some? && Latest(run.states[k]).value.sql == run.deliveries[k].event.sql
    && !ClosedBefore(run, k, KeyAt(run, k))
  }

  /** Exactly those deliveries make the current candidate the confirmed one; all others leave it as it was. */
  lemma ConfirmsIff(run: Run, k: nat)
    requires IsFreshRun(run) && k < |run.deliveries|
    ensures ConfirmsNow(run.states[k], run.deliveries[k]) <==> IsConfirming(run, k)
    ensures var d, e := run.states[k], run.states[k + 1];
            if IsConfirming(run, k) then Confirmed(e) == Latest(d) && IsConfirmed(e) && AttemptIsConfirmed(e)
            else Confirmed(e) == Confirmed(d) && (IsConfirmed(e) ==> IsConfirmed(d))
  {
    if AdmittedSuccess(run, k) { ProcessedIffClosed(run, k, KeyAt(run, k)); }
    StepConfirmed(run, k);
  }

  /**
    * A SUCCESS event that came too early or was closed degraded confirms at no later step: it is acknowledged and
    * nothing changes.
    */
  lemma ClosedNeverConfirms(run: Run, j: nat, k: nat)
    requires IsFreshRun(run) && j < k < |run.deliveries| && Closes(run, j, KeyAt(run, k)) && AdmittedSuccess(run, k)
    ensures !ConfirmsNow(run.states[k], run.deliveries[k])
    ensures run.results[k] == SuccessAck(None) && run.states[k + 1] == run.states[k]
  {
    ProcessedIffClosed(run, k, KeyAt(run, k));
    assert IsStep(run, k);
  }

  // ---- Crashes ----

  /** No event's candidate is lost between two deliveries of a run from an empty store. */
  lemma NothingIsLostBetween(run: Run, n: nat, key: EventKey)
    requires IsFreshRun(run) && n <= |run.deliveries|
    ensures !LosesCandidate(run.states[n], key)
  {
    var d := run.states[n];
    assert IsSafe(run, n);
    if RecordOf(d, key).Some? {
      var s := d.session.value;
      var i := FindEvent(s.events, key).value;
      assert RecordOk(d, |s.attemptIds|, s.events[i]);
      if key.status.FailedEvent? { RecordedMeansStored(run, n, key); }
    }
  }

  /**
    * What was written while delivery `k` was handled: `marks[k]` writes came before it, and `commits[k]` is its
    * commit, if any.
    */
  ghost predicate IsWindow(run: Run, k: nat, written: seq<Disk>, marks: seq<nat>, commits: seq<Option<nat>>)
    requires k < |run.deliveries| && k < |run.results| && k < |commits| && k + 1 < |marks|
  {
    && marks[k] <= marks[k + 1] <= |written|
    && (commits[k].Some? <==> IsFreshReady(run, k))
    && (run.deliveries[k].event.status.FailedEvent? ==>
        IsCommitWindow(written[..marks[k + 1]], marks[k], KeyAt(run, k), commits[k]))
  }

  /**
    * A delivery of a FAILED event commits exactly when it delivers a fresh candidate; among the states written for
    * it, only the one between the two writes of the commit loses the candidate.
    */
  ghost predicate HasWindows(run: Run, written: seq<Disk>, marks: seq<nat>, commits: seq<Option<nat>>) {
    && |run.results| == |run.deliveries| && |marks| == |run.deliveries| + 1 && |commits| == |run.deliveries|
    && marks[|run.deliveries|] == |written|
    && forall k :: 0 <= k < |run.deliveries| ==> IsWindow(run, k, written, marks, commits)
  }

  /**
    * A crash that leaves state `p` while FAILED event `k` is handled loses its candidate exactly when the delivery
    * commits and `p` is the state between the commit's two writes: the next write gives the session that candidate.
    * `HandleAll` establishes the windows for any deliveries.
    */
  lemma CandidateIsLostIff(run: Run, written: seq<Disk>, marks: seq<nat>, commits: seq<Option<nat>>, k: nat, p: nat)
    requires HasWindows(run, written, marks, commits)
    requires k < |run.deliveries| && run.deliveries[k].event.status.FailedEvent? && marks[k] <= p < marks[k + 1]
    ensures marks[k + 1] <= |written| && (LosesCandidate(written[p], KeyAt(run, k)) <==> commits[k] == Some(p))
    ensures commits[k].Some? <==> IsFreshReady(run, k)
    ensures commits[k] == Some(p) ==>
              && p + 1 < marks[k + 1] && written[p].session.Some? && OpenCandidate(written[p], KeyAt(run, k)).Some?
              && written[p + 1] == WithLatest(written[p], OpenCandidate(written[p], KeyAt(run, k)).value)
  {
    assert IsWindow(run, k, written, marks, commits);
    var states := written[..marks[k + 1]];
    assert states[p] == written[p];
    assert p + 1 < marks[k + 1] ==> states[p + 1] == written[p + 1];
  }

  /** Among the states written for FAILED events, the candidate is lost in those between a commit's two writes only. */
  ghost predicate OnlyCommitsLose(run: Run, written: seq<Disk>, marks: seq<nat>, commits: seq<Option<nat>>)
    requires HasWindows(run, written, marks, commits)
  {
    forall k, p :: 0 <= k < |run.deliveries| && run.deliveries[k].event.status.FailedEvent?
                   && marks[k] <= p < marks[k + 1] && p < |written| ==>
      (LosesCandidate(written[p], KeyAt(run, k)) <==> commits[k] == Some(p))
  }

  lemma WindowsMeanOnlyCommitsLose(run: Run, written: seq<Disk>, marks: seq<nat>, commits: seq<Option<nat>>)
    requires HasWindows(run, written, marks, commits)
    ensures OnlyCommitsLose(run, written, marks, commits)
  {
    forall k: nat, p: nat | k < |run.deliveries| && run.deliveries[k].event.status.FailedEvent?
                            && marks[k] <= p < marks[k + 1] && p < |written|
      ensures LosesCandidate(written[p], KeyAt(run, k)) <==> commits[k] == Some(p)
    {
      CandidateIsLostIff(run, written, marks, commits, k, p);
    }
  }

  lemma SameAdmittedKeys(run: Run, e: Disk, delivery: Delivery, r: ExternalResult, k: nat)
    requires k <= |run.deliveries|
    ensures AdmittedKeys(Grown(run, e, delivery, r), k) == AdmittedKeys(run, k)
  {
    var grown := Grown(run, e, delivery, r);
    assert forall j :: 0 <= j < k ==> grown.deliveries[j] == run.deliveries[j];
    assert forall j :: 0 <= j < k ==> AdmittedAt(grown, j) == AdmittedAt(run, j) && KeyAt(grown, j) == KeyAt(run, j);
  }

  lemma WindowsGrow(run: Run, written: seq<Disk>, marks: seq<nat>, commits: seq<Option<nat>>, e: Disk,
                    delivery: Delivery,
                    r: ExternalResult, more: seq<Disk>, commitAt: Option<nat>)
    requires HasWindows(run, written, marks, commits) && written <= more
    requires delivery.event.status.FailedEvent? ==>
               IsCommitWindow(more, |written|, BuildEventKey(delivery.event), commitAt)
    requires commitAt.Some? <==>
               && Admitted(run.agenticEnabled, delivery)
               && BuildEventKey(delivery.event) !in AdmittedKeys(run, |run.deliveries|)
               && r.SqlReadyResult?
    ensures HasWindows(Grown(run, e, delivery, r), more, marks + [|more|], commits + [commitAt])
  {
    var grown, ms, cs := Grown(run, e, delivery, r), marks + [|more|], commits + [commitAt];
    forall k | 0 <= k < |grown.deliveries| ensures IsWindow(grown, k, more, ms, cs) {
      SameAdmittedKeys(run, e, delivery, r, k);
      if k < |run.deliveries| {
        assert IsWindow(run, k, written, marks, commits);
        assert more[..marks[k + 1]] == written[..marks[k + 1]];
      } else {
        assert more[..|more|] == more;
      }
    }
  }

  /** The run has brought the service to where it is. */
  ghost predicate LeadsTo(run: Run, service: RepairAgentService)
    reads service, service.store
  {
    && IsRun(run) && run.policy == service.store.policy && run.agenticEnabled == service.agenticEnabled
    && run.states[|run.deliveries|] == service.store.disk
  }

  method HandleNext(service: RepairAgentService, delivery: Delivery, ghost run: Run, ghost marks: seq<nat>,
                    ghost commits: seq<Option<nat>>)
    returns (r: ExternalResult, ghost commitAt: Option<nat>)
    requires service.Idle() && LeadsTo(run, service)
    requires IsFreshRun(run) ==> HasWindows(run, service.store.written, marks, commits)
    modifies service`activeKeys, service.store
    ensures service.Idle() && old(service.store.written) <= service.store.written
    ensures var grown := Grown(run, service.store.disk, delivery, r);
            && LeadsTo(grown, service)
            && (IsFreshRun(run) ==>
                  HasWindows(grown, service.store.written, marks + [|service.store.written|], commits + [commitAt]))
  {
    ghost var before := service.store.written;
    if IsFreshRun(run) { NothingIsLostBetween(run, |run.deliveries|, BuildEventKey(delivery.event)); }
    r, commitAt := service.HandleUpstreamEvent(delivery);
    RunGrows(run, service.store.disk, delivery, r);
    if IsFreshRun(run) {
      if Admitted(run.agenticEnabled, delivery) {
        RecordedMeansAdmitted(run, |run.deliveries|, BuildEventKey(delivery.event));
        if BuildEventKey(delivery.event) in AdmittedKeys(run, |run.deliveries|) {
          RecordedMeansStored(run, |run.deliveries|, BuildEventKey(delivery.event));
        }
      }
      WindowsGrow(run, before, marks, commits, service.store.disk, delivery, r, service.store.written, commitAt);
    }
  }

  /** Handles the deliveries one after the other. */
  method HandleAll(service: RepairAgentService, deliveries: seq<Delivery>)
    returns (results: seq<ExternalResult>, ghost run: Run, ghost marks: seq<nat>, ghost commits: seq<Option<nat>>)
    requires service.Idle()
    modifies service`activeKeys, service.store
    ensures service.Idle() && old(service.store.written) <= service.store.written
    ensures LeadsTo(run, service) && run.states[0] == old(service.store.disk)
    ensures run.deliveries == deliveries && run.results == results
    ensures old(service.store.disk) == EMPTY_DISK ==>
              && HasWindows(run, service.store.written, marks, commits)
              && OnlyCommitsLose(run, service.store.written, marks, commits)
  {
    results, marks, commits := [], [|service.store.written|], [];
    run := Run(service.store.policy, service.agenticEnabled, [service.store.disk], [], []);
    for n := 0 to |deliveries|
      invariant service.Idle() && old(service.store.written) <= service.store.written
      invariant LeadsTo(run, service) && run.states[0] == old(service.store.disk)
      invariant run.deliveries == deliveries[..n] && run.results == results
      invariant IsFreshRun(run) ==> HasWindows(run, service.store.written, marks, commits)
    {
      var r, commitAt := HandleNext(service, deliveries[n], run, marks, commits);
      assert deliveries[..n + 1] == deliveries[..n] + [deliveries[n]];
      run := Grown(run, service.store.disk, deliveries[n], r);
      results, marks, commits := results + [r], marks + [|service.store.written|], commits + [commitAt];
    }
    assert deliveries[..|deliveries|] == deliveries;
    if IsFreshRun(run) { WindowsMeanOnlyCommitsLose(run, service.store.written, marks, commits); }
  }

  /** A process handles some deliveries; a crash leaves one of the states between two writes, if `crashAt` names one. */
  datatype Round = Round(deliveries: seq<Delivery>, crashAt: Option<nat>)

  /** Restarts after every round on whatever was left behind: the store invariant survives any sequence of crashes. */
  method RunWithCrashes(policy: Policy, limits: RunStates.AgentRunLimits, agenticEnabled: bool, rounds: seq<Round>)
    returns (disk: Disk)
    requires AgentRunner.NonNegative(limits)
    ensures StoreInv(policy, disk)
  {
    disk := EMPTY_DISK;
    for n := 0 to |rounds|
      invariant StoreInv(policy, disk)
    {
      var store := new Store(policy, disk);
      var service := new RepairAgentService(store, limits, agenticEnabled);
      var _, _, _, _ := HandleAll(service, rounds[n].deliveries);
      var crashAt := rounds[n].crashAt;
      if crashAt.Some? && crashAt.value < |store.written| {
        assert IsValidAt(policy, store.written, crashAt.value);
      }
      disk := if crashAt.Some? && crashAt.value < |store.written| then store.written[crashAt.value] else store.disk;
    }
  }

  /**
    * In every stored state, crashes or not, a SQL_READY answer is a candidate of the event's own attempt, and it is
    * equivalent to the plan recorded with that attempt, applied to the SQL of a FAILED event with that key.
    */
  lemma StoredAnswerIsPlanned(policy: Policy, d: Disk, key: EventKey, sql: string) returns (e: Event, plan: RepairPlan)
    requires StoreInv(policy, d) && StoredResult(d, key) == Some(SqlReadyResult(sql))
    ensures HoldsAllowed(policy, d, key, sql)
    ensures d.attempts[RecordOf(d, key).value.attemptId.value].repairPlan == Some(plan)
    ensures e.status.FailedEvent? && BuildEventKey(e) == key && !policy.env.sql.isDangerous(sql)
    ensures SqlDiff.MatchesPlan(policy.env.sql, e.sql, sql, plan)
  {
    StoredIsAllowed(policy, d, key, sql);
    plan := d.attempts[RecordOf(d, key).value.attemptId.value].repairPlan.value;
    e :| IsAllowedEvent(policy, key, plan, sql, e);
    Gates.AllowedMeansPlanned(policy.env, policy.allowMediumRisk, e.sql, sql, plan);
  }

  /** In every stored state no two attempts were made for the same event. */
  lemma AttemptsHaveDifferentEvents(policy: Policy, d: Disk, a: nat, b: nat)
    requires StoreInv(policy, d) && 1 <= a < b <= AttemptCount(d)
    ensures a in d.attempts && b in d.attempts && d.attempts[a].sourceEventKey != d.attempts[b].sourceEventKey
  {
    var s := d.session.value;
    assert AttemptOk(policy, d, s, a) && AttemptOk(policy, d, s, b);
    var i :| 0 <= i < |s.events| && s.events[i].attemptId == Some(a);
    var j :| 0 <= j < |s.events| && s.events[j].attemptId == Some(b);
    assert RecordOk(d, |s.attemptIds|, s.events[i]) && RecordOk(d, |s.attemptIds|, s.events[j]);
  }

  /**
    * What recovery makes of an open candidate: it answers SQL_READY in every case, but the answer is the session's
    * candidate, which a SUCCESS event can confirm, exactly when the candidate was not lost.
    */
  lemma RecoveredIsCurrentIffNotLost(policy: Policy, d: Disk, key: EventKey, i: nat)
    requires StoreInv(policy, d) && OpenCandidate(d, key).Some? && FindEvent(d.session.value.events, key) == Some(i)
    ensures var c := OpenCandidate(d, key).value;
            && RecoveryOf(d, i) == Recovered(SqlReadyResult(c.sql)) && IsOpen(d, i, c.attemptId)
            && var e := Finished(d, i, c.attemptId, SqlReadyResult(c.sql));
               && StoredResult(e, key) == Some(SqlReadyResult(c.sql))
               && (Latest(e) == Some(c) <==> !LosesCandidate(d, key))
  {
    var c := OpenCandidate(d, key).value;
    OpenCandidateIsRecovered(d, key, c);
    FinishedExtends(policy, d, i, c.attemptId, SqlReadyResult(c.sql));
  }

  /** A lost candidate is confirmable afterwards exactly when the session's candidate happens to have the same text. */
  lemma LostIsConfirmableIffSameText(policy: Policy, d: Disk, key: EventKey, i: nat, success: Event)
    requires StoreInv(policy, d) && OpenCandidate(d, key).Some? && FindEvent(d.session.value.events, key) == Some(i)
    requires success.status.SuccessEvent? && success.sql == OpenCandidate(d, key).value.sql
             && !IsProcessed(d, BuildEventKey(success))
    requires key.status.FailedEvent?
    ensures var c := OpenCandidate(d, key).value;
            && IsOpen(d, i, c.attemptId)
            && (Matches(Finished(d, i, c.attemptId, SqlReadyResult(c.sql)), success) <==>
                  Latest(d).Some? && Latest(d).value.sql == c.sql)
  {
    var c := OpenCandidate(d, key).value;
    var e := Finished(d, i, c.attemptId, SqlReadyResult(c.sql));
    OtherRecordAfterFinish(policy, d, i, c.attemptId, SqlReadyResult(c.sql), BuildEventKey(success));
  }

  lemma OtherRecordAfterFinish(policy: Policy, d: Disk, i: nat, id: nat, r: ExternalResult, key: EventKey)
    requires StoreInv(policy, d) && IsOpen(d, i, id) && d.session.value.events[i].key != key
    ensures RecordOf(Finished(d, i, id, r), key) == RecordOf(d, key)
  {
    var s, e := d.session.value, Finished(d, i, id, r);
    var j := FindEvent(s.events, key);
    assert forall k :: 0 <= k < |s.events| ==> e.session.value.events[k].key == s.events[k].key;
    if j.Some? {
      assert e.session.value.events[j.value] == s.events[j.value];
      assert DistinctKeys(e.session.value.events);
      FindDistinct(e.session.value.events, j.value);
    }
  }
}
