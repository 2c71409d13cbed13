/** Deterministic trimming of the observation log: newest first, one per marker, bounded. */
module ContextTrim {
  import opened Options
  import opened RunStates

  function Marker(o: Observation): (string, ObservationStatus, string) {
    (o.actionType, o.status, o.summary)
  }

  /** Finished work with artifacts that does not belong to the current step. */
  predicate IsExpendable(o: Observation, currentStepId: Option<string>) {
    o.status.ActionSucceeded? && o.artifactRefs != [] && o.planStepId != currentStepId
  }

  ghost predicate IsNewest(log: seq<Observation>, i: nat)
    requires i < |log|
  {
    forall j :: i < j < |log| ==> Marker(log[j]) != Marker(log[i])
  }

  ghost predicate IsKept(log: seq<Observation>, i: nat, currentStepId: Option<string>)
    requires i < |log|
  {
    IsNewest(log, i) && !IsExpendable(log[i], currentStepId)
  }

  /** The kept observations from position `i` on, oldest first. */
  ghost function KeptFrom(log: seq<Observation>, i: nat, currentStepId: Option<string>): seq<Observation>
    requires i <= |log|
    decreases |log| - i
  {
    if i == |log| then []
    else (if IsKept(log, i, currentStepId) then [log[i]] else []) + KeptFrom(log, i + 1, currentStepId)
  }

  ghost function Newest(kept: seq<Observation>, limit: nat): seq<Observation> {
    if |kept| <= limit then kept else kept[|kept| - limit..]
  }

  ghost function Trimmed(log: seq<Observation>, currentStepId: Option<string>, limit: nat): seq<Observation> {
    Newest(KeptFrom(log, 0, currentStepId), limit)
  }

  function Reversed(xs: seq<Observation>): (r: seq<Observation>)
    ensures |r| == |xs| && forall i :: 0 <= i < |xs| ==> r[i] == xs[|xs| - 1 - i]
  {
    seq(|xs|, i requires 0 <= i < |xs| => xs[|xs| - 1 - i])
  }

  /** Walks the log from the newest entry; a marker is remembered even when its entry is dropped. */
  method TrimObservations(log: seq<Observation>, currentStepId: Option<string>, limit: nat)
    returns (result: seq<Observation>)
    ensures result == Trimmed(log, currentStepId, limit)
  {
    var seen: set<(string, ObservationStatus, string)> := {};
    var retained: seq<Observation> := [];
    var i := |log|;
    while i > 0
      invariant 0 <= i <= |log|
      invariant forall m :: m in seen <==> exists j :: i <= j < |log| && Marker(log[j]) == m
      invariant Reversed(retained) == KeptFrom(log, i, currentStepId)
    {
      i := i - 1;
      var observation := log[i];
      if Marker(observation) !in seen {
        seen := seen + {Marker(observation)};
        if !IsExpendable(observation, currentStepId) {
          assert Reversed(retained + [observation]) == [observation] + Reversed(retained);
          retained := retained + [observation];
        }
      }
    }
    var bounded := if |retained| <= limit then retained else retained[..limit];
    result := Reversed(bounded);
  }

  ghost predicate DistinctMarkers(log: seq<Observation>) {
    forall i, j :: 0 <= i < j < |log| ==> Marker(log[i]) != Marker(log[j])
  }

  lemma {:induction false} KeptAreDistinct(log: seq<Observation>, i: nat, currentStepId: Option<string>)
    requires i <= |log|
    ensures DistinctMarkers(KeptFrom(log, i, currentStepId))
    ensures forall k :: 0 <= k < |KeptFrom(log, i, currentStepId)| ==>
              && !IsExpendable(KeptFrom(log, i, currentStepId)[k], currentStepId)
              && exists j :: i <= j < |log| && log[j] == KeptFrom(log, i, currentStepId)[k]
    decreases |log| - i
  {
    if i < |log| { KeptAreDistinct(log, i + 1, currentStepId); }
  }

  lemma {:induction false} NothingLeftToDrop(log: seq<Observation>, i: nat, currentStepId: Option<string>)
    requires i <= |log| && DistinctMarkers(log)
    requires forall k :: 0 <= k < |log| ==> !IsExpendable(log[k], currentStepId)
    ensures KeptFrom(log, i, currentStepId) == log[i..]
    decreases |log| - i
  {
    if i < |log| {
      NothingLeftToDrop(log, i + 1, currentStepId);
      assert IsKept(log, i, currentStepId);
      assert log[i..] == [log[i]] + log[i + 1..];
    }
  }

  /** Trimming twice is trimming once, and a trimmed log has no two entries with the same marker. */
  lemma TrimIsIdempotent(log: seq<Observation>, currentStepId: Option<string>, limit: nat)
    ensures var once := Trimmed(log, currentStepId, limit);
            && |once| <= limit && DistinctMarkers(once)
            && Trimmed(once, currentStepId, limit) == once
  {
    KeptAreDistinct(log, 0, currentStepId);
    var once := Trimmed(log, currentStepId, limit);
    NothingLeftToDrop(once, 0, currentStepId);
  }
}
