/** The optional value behind Python's `None`. */
module Options {
  datatype Option<+T> = None | Some(value: T)

  /** Python's truth value of an optional string. */
  predicate Truthy(text: Option<string>) {
    text.Some? && text.value != ""
  }
}

/** The texts the service answers with. */
module Messages {
  const ROLLED_BACK := "agentic handling is switched off"
  const IN_PROGRESS := "the event is being processed"
  const LOCKED := "the session is being processed"
  const ATTEMPT_MISSING := "recovery failed: no attempt"
  const PARTIAL_UNSAFE := "RECOVERY_PARTIAL_STATE_UNSAFE"
  const PARTIAL_MESSAGE := "partial state cannot be resumed"
  const TERMINATED := "the earlier attempt ended, a human is needed"
  const NO_EVIDENCE := "no log and no error message"
  const INTERNAL := "internal failure"
  const NO_SAFE_CANDIDATE := "no safe candidate"
}

module Collections {
  function Elements<T(==)>(xs: seq<T>): set<T> {
    set x | x in xs
  }

  lemma SubsetSize<T>(a: set<T>, b: set<T>)
    requires a <= b
    ensures |a| <= |b|
  {
    assert b == a + (b - a);
  }

  /** Finds the first element of `xs` in a permutation of it; what remains is a permutation of the tail. */
  lemma TakeFirst<T>(xs: seq<T>, ys: seq<T>) returns (k: nat)
    requires multiset(xs) == multiset(ys) && xs != []
    ensures k < |ys| && ys[k] == xs[0]
    ensures multiset(xs[1..]) == multiset(ys[..k] + ys[k + 1..])
  {
    assert xs[0] in multiset(ys);
    k :| 0 <= k < |ys| && ys[k] == xs[0];
    calc {
      multiset(xs[1..]);
      { assert xs == [xs[0]] + xs[1..]; }
      multiset(xs) - multiset{xs[0]};
      { assert ys == ys[..k] + [ys[k]] + ys[k + 1..]; }
      multiset(ys[..k] + ys[k + 1..]);
    }
  }
}

/** The repair plan and the values it is built from. */
module RepairModels {
  import opened Options

  datatype ErrorType =
    | SqlSyntaxError | ColumnNotFound | TableNotFound | AmbiguousColumn | TypeMismatch
    | InvalidFunction | AggregationError | PartitionError | DialectIncompatibility
    | PermissionError | ResourceExhausted | InfrastructureError | DataQualityError | Unknown

  datatype Diagnosis = Diagnosis(
    errorType: ErrorType,
    isRepairable: bool,
    manualRepairReason: Option<string>,
    primaryEntity: Option<string>)

  datatype Column = Column(name: string, dataType: Option<string>)
  datatype Table = Table(tableName: string, columns: seq<Column>)

  datatype RepairActionType =
    | ReplaceColumn | AddCast | ReplaceTable | AddPartitionFilter
    | RewriteFunction | QualifyColumn | FixSyntax | NoSafeRepair

  /** Actions never carry the fourth level, BLOCKED. */
  datatype ActionRisk = LowAction | MediumAction | HighAction

  datatype RepairAction = RepairAction(
    actionType: RepairActionType,
    targetFragment: Option<string>,
    replacementFragment: Option<string>,
    reason: string,
    risk: ActionRisk)

  datatype RepairPlan = RepairPlan(
    repairable: bool,
    actions: seq<RepairAction>,
    manualRepairRecommendation: Option<string>,
    confidence: real)

  datatype ChangedFragment = ChangedFragment(
    before: string,
    after: string,
    actionType: RepairActionType,
    reason: string)
}
