/**
 * The snapshot validators (packages/workflows/src/validation.ts).
 *
 * Each predicate says which snapshots the corresponding assertion lets through. The two
 * assertions that are index loops over mutable cursors and flags are also given as methods
 * with those loops, proved to decide the predicates.
 */
module WorkflowValidation {
  import opened Options
  import opened WorkflowTypes

  const MAX_TIMESTAMP: int := 8_640_000_000_000_000

  predicate IsTimestamp(t: Time) {
    0 <= t <= MAX_TIMESTAMP
  }

  // ---------------------------------------------------------------- steps

  predicate HasOutput(state: StepState) {
    state.Committed? || state.Compensating? || state.CompensationWaitingRetry? || state.Compensated? || state.CompensationFailed?
  }

  predicate NeedsAttempt(state: StepState) {
    state.Running? || state.WaitingRetry? || state.Failed?
  }

  predicate NeedsCompensationAttempt(state: StepState) {
    state.Compensating? || state.CompensationWaitingRetry? || state.Compensated? || state.CompensationFailed?
  }

  predicate HasRetry(state: StepState) {
    state.WaitingRetry? || state.CompensationWaitingRetry?
  }

  predicate HasError(state: StepState) {
    state.WaitingRetry? || state.Failed? || state.CompensationWaitingRetry? || state.CompensationFailed?
  }

  /** assertStep */
  predicate ValidStep(step: StepSnapshot) {
    && (HasOutput(step.state) <==> step.output.Some?)
    && (HasOutput(step.state) || NeedsAttempt(step.state) ==> step.attempts >= 1)
    && (NeedsCompensationAttempt(step.state) ==> step.compensationAttempts >= 1 && step.compensationKey.Some?)
    && (HasRetry(step.state) <==> step.retryAt.Some?)
    && (step.retryAt.Some? ==> IsTimestamp(step.retryAt.value))
    && (HasError(step.state) <==> step.error.Some?)
  }

  // ------------------------------------------------- forward boundary

  /** The index of the first step that is not committed: `findIndex(step => step.state !== 'committed')`. */
  function FirstUncommitted(steps: seq<StepSnapshot>): (k: nat)
    ensures k <= |steps|
    ensures forall j :: 0 <= j < k ==> steps[j].state.Committed?
    ensures k < |steps| ==> !steps[k].state.Committed?
  {
    if |steps| == 0 || !steps[0].state.Committed? then 0 else 1 + FirstUncommitted(steps[1..])
  }

  lemma FirstUncommittedIs(steps: seq<StepSnapshot>, k: nat)
    requires k <= |steps|
    requires forall j :: 0 <= j < k ==> steps[j].state.Committed?
    requires k < |steps| ==> !steps[k].state.Committed?
    ensures FirstUncommitted(steps) == k
  {
    var _ := FirstUncommitted(steps);
  }

  predicate PendingFrom(steps: seq<StepSnapshot>, k: nat) {
    forall j :: k <= j < |steps| ==> steps[j].state.Pending?
  }

  /**
   * Committed steps, then one step in the marker state, then pending steps; the marker
   * step may be absent when it is optional.
   */
  predicate ForwardBoundary(steps: seq<StepSnapshot>, marker: StepState, markerOptional: bool) {
    var k := FirstUncommitted(steps);
    if k < |steps| && steps[k].state == marker then PendingFrom(steps, k + 1)
    else markerOptional && PendingFrom(steps, k)
  }

  /** assertForwardBoundary: three loops sharing one cursor. */
  method CheckForwardBoundary(steps: seq<StepSnapshot>, marker: StepState, markerOptional: bool) returns (ok: bool)
    requires marker.Running? || marker.WaitingRetry? || marker.Failed?
    ensures ok <==> ForwardBoundary(steps, marker, markerOptional)
  {
    var index := 0;
    while index < |steps| && steps[index].state.Committed?
      invariant 0 <= index <= |steps|
      invariant forall j :: 0 <= j < index ==> steps[j].state.Committed?
    {
      index := index + 1;
    }
    ghost var first := index;
    assert first == FirstUncommitted(steps);
    if index < |steps| && steps[index].state == marker {
      index := index + 1;
    } else if !markerOptional {
      return false;
    }
    ghost var resumed := index;
    while index < |steps| && steps[index].state.Pending?
      invariant resumed <= index <= |steps|
      invariant forall j :: resumed <= j < index ==> steps[j].state.Pending?
    {
      index := index + 1;
    }
    return index == |steps|;
  }

  // --------------------------------------------- compensation boundary

  predicate IsActive(step: StepSnapshot) {
    step.state.Compensating? || step.state.CompensationWaitingRetry?
  }

  /** A committed step whose effect a compensation handler can undo. */
  predicate IsCompensatableCommit(step: StepSnapshot) {
    step.state.Committed? && step.compensationKey.Some?
  }

  predicate IsCompensationFailed(step: StepSnapshot) {
    step.state.CompensationFailed?
  }

  predicate AtMostOneActive(steps: seq<StepSnapshot>) {
    forall i, j :: 0 <= i < j < |steps| ==> !(IsActive(steps[i]) && IsActive(steps[j]))
  }

  predicate AtMostOneFailed(steps: seq<StepSnapshot>) {
    forall i, j :: 0 <= i < j < |steps| ==> !(steps[i].state.Failed? && steps[j].state.Failed?)
  }

  /** Which active step, if any, goes with each workflow state. */
  predicate ActiveFits(state: WorkflowState, steps: seq<StepSnapshot>) {
    match state
    case CompensationWaitingRetry =>
      && (exists i :: 0 <= i < |steps| && IsActive(steps[i]))
      && (forall i :: 0 <= i < |steps| && IsActive(steps[i]) ==> steps[i].state.CompensationWaitingRetry?)
    case Compensating =>
      forall i :: 0 <= i < |steps| && IsActive(steps[i]) ==> steps[i].state.Compensating?
    case _ =>
      forall i :: 0 <= i < |steps| ==> !IsActive(steps[i])
  }

  /** No running or waiting step, and pending steps only at the end. */
  predicate SettledShape(steps: seq<StepSnapshot>) {
    && (forall i :: 0 <= i < |steps| ==> !steps[i].state.Running? && !steps[i].state.WaitingRetry?)
    && (forall i, j :: 0 <= i < j < |steps| && steps[i].state.Pending? ==> steps[j].state.Pending?)
  }

  /** Everything after `at` is no longer compensatable, nothing before it is compensated yet. */
  predicate ReverseOrderAt(steps: seq<StepSnapshot>, at: nat) {
    && (forall j :: 0 <= at < j < |steps| ==> !IsCompensatableCommit(steps[j]))
    && (forall j :: 0 <= j < at && j < |steps| ==> !steps[j].state.Compensated?)
  }

  predicate UniqueCompensationFailure(steps: seq<StepSnapshot>) {
    && (exists f :: 0 <= f < |steps| && IsCompensationFailed(steps[f]))
    && (forall i, j :: 0 <= i < j < |steps| ==> !(IsCompensationFailed(steps[i]) && IsCompensationFailed(steps[j])))
    && (forall f :: 0 <= f < |steps| && IsCompensationFailed(steps[f]) ==> ReverseOrderAt(steps, f))
  }

  /** assertCompensationBoundary */
  predicate CompensationBoundary(state: WorkflowState, steps: seq<StepSnapshot>) {
    && AtMostOneActive(steps)
    && ActiveFits(state, steps)
    && AtMostOneFailed(steps)
    && (state.Compensating? || state.Compensated? ==> exists i :: 0 <= i < |steps| && !steps[i].state.Pending?)
    && (state.Compensated? ==> exists i :: 0 <= i < |steps| && steps[i].state.Compensated?)
    && SettledShape(steps)
    && (forall i :: 0 <= i < |steps| && IsActive(steps[i]) ==> ReverseOrderAt(steps, i))
    && (state.Compensated? || state.Cancelled? ==>
          forall i :: 0 <= i < |steps| ==> !IsCompensationFailed(steps[i]) && !IsCompensatableCommit(steps[i]))
    && (state.CompensationFailed? ==> UniqueCompensationFailure(steps))
  }

  // ------------------------------------------------------- snapshots

  predicate Untouched(step: StepSnapshot) {
    step.state.Pending? && step.attempts == 0 && step.compensationAttempts == 0
  }

  /** assertStateBoundary */
  predicate StateBoundary(s: Snapshot) {
    match s.state
    case Pending => forall i :: 0 <= i < |s.steps| ==> Untouched(s.steps[i])
    case Completed => !s.cancellationRequested && forall i :: 0 <= i < |s.steps| ==> s.steps[i].state.Committed?
    case Running => ForwardBoundary(s.steps, StepState.Running, true)
    case WaitingRetry => ForwardBoundary(s.steps, StepState.WaitingRetry, false)
    case Failed => !s.cancellationRequested && ForwardBoundary(s.steps, StepState.Failed, false)
    case Cancelled => s.cancellationRequested && CompensationBoundary(s.state, s.steps)
    case _ => CompensationBoundary(s.state, s.steps)
  }

  predicate ValidTimes(s: Snapshot) {
    && IsTimestamp(s.header.createdAt)
    && IsTimestamp(s.updatedAt)
    && s.header.createdAt <= s.updatedAt
    && (s.lease.Some? ==> IsTimestamp(s.lease.value.expiresAt))
  }

  predicate ValidSteps(steps: seq<StepSnapshot>) {
    forall i :: 0 <= i < |steps| ==> ValidStep(steps[i])
  }

  predicate DistinctNames(steps: seq<StepSnapshot>) {
    forall i, j :: 0 <= i < j < |steps| ==> steps[i].name != steps[j].name
  }

  /** assertSnapshot */
  predicate ValidSnapshot(s: Snapshot) {
    && ValidTimes(s)
    && ValidSteps(s.steps)
    && DistinctNames(s.steps)
    && StateBoundary(s)
  }

  predicate StepMatches(id: string, i: nat, d: StepDefinition, step: StepSnapshot) {
    && step.name == d.name
    && step.key == StepKey(id, i)
    && step.compensationKey == (if d.compensatable then Some(CompensationKey(id, i)) else None)
    && step.attempts <= d.maxAttempts
    && step.compensationAttempts <= d.maxAttempts
    && (step.state.WaitingRetry? ==> step.attempts < d.maxAttempts)
    && (step.state.CompensationWaitingRetry? ==> step.compensationAttempts < d.maxAttempts)
  }

  predicate HasCompensatableCommit(steps: seq<StepSnapshot>) {
    exists i :: 0 <= i < |steps| && IsCompensatableCommit(steps[i])
  }

  predicate HasActive(steps: seq<StepSnapshot>) {
    exists i :: 0 <= i < |steps| && IsActive(steps[i])
  }

  predicate HasCompensated(steps: seq<StepSnapshot>) {
    exists i :: 0 <= i < |steps| && steps[i].state.Compensated?
  }

  predicate StepsMatch(id: string, def: Definition, steps: seq<StepSnapshot>) {
    && |steps| == |def.steps|
    && (forall i :: 0 <= i < |steps| ==> StepMatches(id, i, def.steps[i], steps[i]))
  }

  /** What each workflow state demands of the steps beyond the boundary, once the definition is known. */
  predicate StateMatches(state: WorkflowState, steps: seq<StepSnapshot>) {
    && (state.Failed? ==> !HasCompensatableCommit(steps))
    && (state.Compensating? ==> HasActive(steps) || HasCompensatableCommit(steps) || HasCompensated(steps))
  }

  /** assertWorkflowSnapshotMatchesDefinition */
  predicate MatchesDefinition(s: Snapshot, def: Definition) {
    && ValidSnapshot(s)
    && s.header.workflowName == def.name
    && s.header.workflowVersion == def.version
    && StepsMatch(s.header.id, def, s.steps)
    && StateMatches(s.state, s.steps)
  }

  // ------------------------- the compensation boundary as the source checks it

  /** Indices of the active steps, in order: `steps.map(...).filter(...)`. */
  method CollectActive(steps: seq<StepSnapshot>) returns (active: seq<nat>)
    ensures forall a :: 0 <= a < |active| ==> active[a] < |steps| && IsActive(steps[active[a]])
    ensures forall a, b :: 0 <= a < b < |active| ==> active[a] < active[b]
    ensures forall i :: 0 <= i < |steps| && IsActive(steps[i]) ==> i in active
  {
    active := [];
    for index := 0 to |steps|
      invariant forall a :: 0 <= a < |active| ==> active[a] < index && IsActive(steps[active[a]])
      invariant forall a, b :: 0 <= a < b < |active| ==> active[a] < active[b]
      invariant forall i :: 0 <= i < index && IsActive(steps[i]) ==> i in active
    {
      if IsActive(steps[index]) {
        active := active + [index];
      }
    }
  }

  /** The `pendingSeen` loop. */
  method CheckSettledShape(steps: seq<StepSnapshot>) returns (ok: bool)
    ensures ok <==> SettledShape(steps)
  {
    var pendingSeen := false;
    for index := 0 to |steps|
      invariant pendingSeen <==> exists i :: 0 <= i < index && steps[i].state.Pending?
      invariant SettledShape(steps[..index])
    {
      if steps[index].state.Running? || steps[index].state.WaitingRetry? {
        return false;
      }
      if steps[index].state.Pending? {
        pendingSeen := true;
      } else if pendingSeen {
        return false;
      }
    }
    assert steps[..|steps|] == steps;
    return true;
  }

  /** The loop around the single active step. */
  method CheckReverseOrderAt(steps: seq<StepSnapshot>, at: nat) returns (ok: bool)
    requires at < |steps|
    ensures ok <==> ReverseOrderAt(steps, at)
  {
    for index := 0 to |steps|
      invariant forall j :: at < j < index ==> !IsCompensatableCommit(steps[j])
      invariant forall j :: 0 <= j < at && j < index ==> !steps[j].state.Compensated?
    {
      if index > at && IsCompensatableCommit(steps[index]) {
        return false;
      }
      if index < at && steps[index].state.Compensated? {
        return false;
      }
    }
    return true;
  }

  /** The first five checks: how many steps are active and in which state, and that something was started. */
  method CheckActive(state: WorkflowState, steps: seq<StepSnapshot>, active: seq<nat>) returns (ok: bool)
    requires forall a :: 0 <= a < |active| ==> active[a] < |steps| && IsActive(steps[active[a]])
    requires forall a, b :: 0 <= a < b < |active| ==> active[a] < active[b]
    requires forall i :: 0 <= i < |steps| && IsActive(steps[i]) ==> i in active
    ensures ok <==> AtMostOneActive(steps) && ActiveFits(state, steps)
  {
    if |active| > 1 {
      assert IsActive(steps[active[0]]) && IsActive(steps[active[1]]);
      return false;
    }
    assert |active| == 1 ==> IsActive(steps[active[0]]);
    if state.CompensationWaitingRetry? {
      return |active| == 1 && steps[active[0]].state.CompensationWaitingRetry?;
    }
    if state.Compensating? {
      return |active| == 1 ==> steps[active[0]].state.Compensating?;
    }
    return |active| == 0;
  }

  /** Indices of the steps in one state, in order. */
  method Collect(steps: seq<StepSnapshot>, state: StepState) returns (found: seq<nat>)
    ensures forall a :: 0 <= a < |found| ==> found[a] < |steps| && steps[found[a]].state == state
    ensures forall a, b :: 0 <= a < b < |found| ==> found[a] < found[b]
    ensures forall i :: 0 <= i < |steps| && steps[i].state == state ==> i in found
  {
    found := [];
    for index := 0 to |steps|
      invariant forall a :: 0 <= a < |found| ==> found[a] < index && steps[found[a]].state == state
      invariant forall a, b :: 0 <= a < b < |found| ==> found[a] < found[b]
      invariant forall i :: 0 <= i < index && steps[i].state == state ==> i in found
    {
      if steps[index].state == state {
        found := found + [index];
      }
    }
  }

  method CheckAtMostOneFailed(steps: seq<StepSnapshot>) returns (ok: bool)
    ensures ok <==> AtMostOneFailed(steps)
  {
    var failed := Collect(steps, StepState.Failed);
    if |failed| > 1 {
      assert steps[failed[0]].state.Failed? && steps[failed[1]].state.Failed?;
    }
    return |failed| <= 1;
  }

  method CheckCompensationFailure(steps: seq<StepSnapshot>) returns (ok: bool)
    ensures ok <==> UniqueCompensationFailure(steps)
  {
    hide ReverseOrderAt;
    var failures := Collect(steps, StepState.CompensationFailed);
    if |failures| != 1 {
      if |failures| > 1 {
        assert IsCompensationFailed(steps[failures[0]]) && IsCompensationFailed(steps[failures[1]]);
      }
      return false;
    }
    ok := CheckReverseOrderAt(steps, failures[0]);
    assert IsCompensationFailed(steps[failures[0]]);
  }

  /** assertCompensationBoundary, check by check in the source's order. */
  method CheckCompensationBoundary(state: WorkflowState, steps: seq<StepSnapshot>) returns (ok: bool)
    ensures ok <==> CompensationBoundary(state, steps)
  {
    var active := CollectActive(steps);
    var activeOk := CheckActive(state, steps, active);
    if !activeOk { return false; }
    var failedOk := CheckAtMostOneFailed(steps);
    if !failedOk { return false; }
    if (state.Compensating? || state.Compensated?) && forall i :: 0 <= i < |steps| ==> steps[i].state.Pending? {
      return false;
    }
    if state.Compensated? && !HasCompensated(steps) { return false; }
    var settled := CheckSettledShape(steps);
    if !settled { return false; }
    if |active| > 0 {
      var ordered := CheckReverseOrderAt(steps, active[0]);
      if !ordered { return false; }
    }
    if (state.Compensated? || state.Cancelled?)
       && exists i :: 0 <= i < |steps| && (IsCompensationFailed(steps[i]) || IsCompensatableCommit(steps[i])) {
      return false;
    }
    if state.CompensationFailed? {
      ok := CheckCompensationFailure(steps);
      return;
    }
    return true;
  }
}
