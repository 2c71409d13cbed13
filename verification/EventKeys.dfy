/** When two events are the same, and that different ones have different attempts. */
module EventKeys {
  import opened Options
  import opened Text
  import opened TextLaws
  import opened SessionStore
  import opened RepairService
  import opened EventRuns

  /** The same optional text up to line ends and blanks at its ends. */
  predicate IsSameText(x: Option<string>, y: Option<string>) {
    if x.Some? && y.Some? then Strip(UniversalNewlines(x.value)) == Strip(UniversalNewlines(y.value)) else x == y
  }

  /** Two events have the same key exactly when they agree in everything but blanks and line ends. */
  lemma SameKeyIff(e: Event, f: Event)
    ensures BuildEventKey(e) == BuildEventKey(f) <==>
              && e.id == f.id && e.status == f.status && Words(e.sql) == Words(f.sql)
              && IsSameText(e.errorMessage, f.errorMessage) && IsSameText(e.logPath, f.logPath)
  {
    WordsAreSolid(e.sql);
    WordsAreSolid(f.sql);
    WordsOfJoined(Words(e.sql));
    WordsOfJoined(Words(f.sql));
  }

  /** Different admitted FAILED events own different attempts. */
  lemma DifferentEventsOwnDifferentAttempts(run: Run, n: nat, j: nat, k: nat)
    requires IsFreshRun(run) && j < n && k < n && n <= |run.deliveries| && AdmittedAt(run, j) && AdmittedAt(run, k)
    requires var (e, f) := (run.deliveries[j].event, run.deliveries[k].event);
             e.id != f.id || Words(e.sql) != Words(f.sql) || !IsSameText(e.errorMessage, f.errorMessage)
             || !IsSameText(e.logPath, f.logPath)
    ensures var (r, q) := (RecordOf(run.states[n], KeyAt(run, j)), RecordOf(run.states[n], KeyAt(run, k)));
            r.Some? && q.Some? && r.value.attemptId.Some? && q.value.attemptId.Some?
            && r.value.attemptId != q.value.attemptId
  {
    SameKeyIff(run.deliveries[j].event, run.deliveries[k].event);
    AnswerIsStored(run, j);
    AnswerIsStored(run, k);
    AnswerStaysStored(run, j + 1, n, KeyAt(run, j));
    AnswerStaysStored(run, k + 1, n, KeyAt(run, k));
    assert IsSafe(run, n);
    DifferentKeysOwnDifferentAttempts(run.policy, run.states[n], KeyAt(run, j), KeyAt(run, k));
  }

  lemma DifferentKeysOwnDifferentAttempts(policy: Policy, d: Disk, x: EventKey, y: EventKey)
    requires StoreInv(policy, d) && x != y && StoredResult(d, x).Some? && StoredResult(d, y).Some?
    ensures RecordOf(d, x).value.attemptId.Some? && RecordOf(d, y).value.attemptId.Some?
    ensures RecordOf(d, x).value.attemptId != RecordOf(d, y).value.attemptId
  {
    var s := d.session.value;
    var i, j := FindEvent(s.events, x).value, FindEvent(s.events, y).value;
    assert RecordOk(d, |s.attemptIds|, s.events[i]) && RecordOk(d, |s.attemptIds|, s.events[j]);
    assert i != j;
  }
}
