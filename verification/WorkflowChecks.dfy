/**
 * The snapshot validators as the source runs them (packages/workflows/src/validation.ts:164-340):
 * state sets, early exits and loops, proved to decide the predicates of `WorkflowValidation`.
 */
module WorkflowChecks {
  import opened Options
  import opened WorkflowTypes
  import opened WorkflowValidation
  import opened WorkflowStore

  const OUTPUT_STATES: set<StepState> :=
    {StepState.Committed, StepState.Compensating, StepState.CompensationWaitingRetry, StepState.Compensated, StepState.CompensationFailed}
  const ATTEMPT_STATES: set<StepState> := {StepState.Running, StepState.WaitingRetry, StepState.Failed}
  const COMPENSATION_ATTEMPT_STATES: set<StepState> :=
    {StepState.Compensating, StepState.CompensationWaitingRetry, StepState.Compensated, StepState.CompensationFailed}
  const WAITING_STATES: set<StepState> := {StepState.WaitingRetry, StepState.CompensationWaitingRetry}
  const ERROR_STATES: set<StepState> :=
    {StepState.WaitingRetry, StepState.Failed, StepState.CompensationWaitingRetry, StepState.CompensationFailed}

  /** assertTimestamp: a hundred million days of 86,400 seconds, in milliseconds. */
  method CheckTimestamp(value: Time) returns (ok: bool)
    ensures ok <==> IsTimestamp(value)
  {
    return !(value < 0 || value > 100_000_000 * 86_400 * 1000);
  }

  /** assertStep */
  method CheckStep(step: StepSnapshot) returns (ok: bool)
    ensures ok <==> ValidStep(step)
  {
    if step.state in OUTPUT_STATES {
      if step.attempts < 1 || step.output.None? { return false; }
    } else if step.output.Some? {
      return false;
    }
    if step.state in ATTEMPT_STATES && step.attempts < 1 { return false; }
    if step.state in COMPENSATION_ATTEMPT_STATES {
      if step.compensationAttempts < 1 || step.compensationKey.None? { return false; }
    }
    if step.retryAt.Some? {
      var representable := CheckTimestamp(step.retryAt.value);
      if !representable { return false; }
    }
    if step.state in WAITING_STATES {
      if step.retryAt.None? || step.error.None? { return false; }
    } else if step.retryAt.Some? {
      return false;
    }
    return if step.state in ERROR_STATES then step.error.Some? else step.error.None?;
  }

  /** The loop over the steps: each valid, no name twice. */
  method CheckSteps(steps: seq<StepSnapshot>) returns (ok: bool)
    ensures ok <==> ValidSteps(steps) && DistinctNames(steps)
  {
    hide ValidStep;
    var names: set<string> := {};
    for index := 0 to |steps|
      invariant forall i :: 0 <= i < index ==> ValidStep(steps[i])
      invariant forall i, j :: 0 <= i < j < index ==> steps[i].name != steps[j].name
      invariant forall i :: 0 <= i < index ==> steps[i].name in names
      invariant forall name :: name in names ==> exists i :: 0 <= i < index && steps[i].name == name
    {
      var valid := CheckStep(steps[index]);
      if !valid || steps[index].name in names { return false; }
      names := names + {steps[index].name};
    }
    return true;
  }

  method AllUntouched(steps: seq<StepSnapshot>) returns (ok: bool)
    ensures ok <==> forall i :: 0 <= i < |steps| ==> Untouched(steps[i])
  {
    for index := 0 to |steps|
      invariant forall i :: 0 <= i < index ==> Untouched(steps[i])
    {
      if !steps[index].state.Pending? || steps[index].attempts != 0 || steps[index].compensationAttempts != 0 { return false; }
    }
    return true;
  }

  method AllCommitted(steps: seq<StepSnapshot>) returns (ok: bool)
    ensures ok <==> forall i :: 0 <= i < |steps| ==> steps[i].state.Committed?
  {
    for index := 0 to |steps|
      invariant forall i :: 0 <= i < index ==> steps[i].state.Committed?
    {
      if steps[index].state != StepState.Committed { return false; }
    }
    return true;
  }

  /** assertStateBoundary, in the source's order of checks. */
  method CheckStateBoundary(s: Snapshot) returns (ok: bool)
    ensures ok <==> StateBoundary(s)
  {
    hide ForwardBoundary, CompensationBoundary, Untouched;
    if s.state.Pending? {
      ok := AllUntouched(s.steps);
      return;
    }
    if s.state.Completed? {
      ok := AllCommitted(s.steps);
      return !s.cancellationRequested && ok;
    }
    if s.state.Failed? && s.cancellationRequested { return false; }
    if s.state.Cancelled? && !s.cancellationRequested { return false; }
    if s.state.Running? {
      ok := CheckForwardBoundary(s.steps, StepState.Running, true);
    } else if s.state.WaitingRetry? {
      ok := CheckForwardBoundary(s.steps, StepState.WaitingRetry, false);
    } else if s.state.Failed? {
      ok := CheckForwardBoundary(s.steps, StepState.Failed, false);
    } else {
      ok := CheckCompensationBoundary(s.state, s.steps);
    }
  }

  /** assertSnapshot */
  method CheckSnapshot(s: Snapshot) returns (ok: bool)
    ensures ok <==> ValidSnapshot(s)
  {
    hide ValidSteps, DistinctNames, StateBoundary;
    var created := CheckTimestamp(s.header.createdAt);
    var updated := CheckTimestamp(s.updatedAt);
    if !created || !updated || s.updatedAt < s.header.createdAt { return false; }
    if s.lease.Some? {
      var expires := CheckTimestamp(s.lease.value.expiresAt);
      if !expires { return false; }
    }
    var steps := CheckSteps(s.steps);
    if !steps { return false; }
    ok := CheckStateBoundary(s);
  }

  /** assertWorkflowIdentityUnchanged */
  method CheckIdentity(current: Snapshot, candidate: Snapshot) returns (ok: bool)
    ensures ok <==> SameIdentity(current, candidate)
  {
    var h, c := current.header, candidate.header;
    if h.id != c.id || h.workflowName != c.workflowName || h.workflowVersion != c.workflowVersion || h.startKey != c.startKey
       || h.createdAt != c.createdAt || h.input != c.input || |current.steps| != |candidate.steps| {
      return false;
    }
    for index := 0 to |current.steps|
      invariant forall i :: 0 <= i < index ==> SameStepIdentity(current.steps[i], candidate.steps[i])
    {
      var left, right := current.steps[index], candidate.steps[index];
      if left.name != right.name || left.key != right.key || left.compensationKey != right.compensationKey { return false; }
    }
    return true;
  }

  // ----------------------------------------------------------- against the definition

  /** The definition says which steps can be compensated; the keys in the snapshot say the same. */
  predicate NamesMatch(id: string, def: Definition, steps: seq<StepSnapshot>) {
    && |steps| == |def.steps|
    && (forall i :: 0 <= i < |steps| ==>
          && steps[i].name == def.steps[i].name && steps[i].key == StepKey(id, i)
          && steps[i].compensationKey == (if def.steps[i].compensatable then Some(CompensationKey(id, i)) else None))
  }

  method CheckNames(id: string, def: Definition, steps: seq<StepSnapshot>) returns (ok: bool)
    ensures ok <==> NamesMatch(id, def, steps)
  {
    if |steps| != |def.steps| { return false; }
    for index := 0 to |steps|
      invariant NamesMatch(id, def.(steps := def.steps[..index]), steps[..index])
    {
      var d, step := def.steps[index], steps[index];
      if step.name != d.name || step.key != StepKey(id, index) { return false; }
      if d.compensatable && step.compensationKey != Some(CompensationKey(id, index)) { return false; }
      if !d.compensatable && step.compensationKey.Some? { return false; }
    }
    assert steps[..|steps|] == steps && def.steps[..|steps|] == def.steps;
    return true;
  }

  method CheckAttempts(s: Snapshot, def: Definition) returns (ok: bool)
    requires NamesMatch(s.header.id, def, s.steps)
    ensures ok <==> StepsMatch(s.header.id, def, s.steps) && (s.state.Failed? ==> !HasCompensatableCommit(s.steps))
  {
    for index := 0 to |s.steps|
      invariant forall i :: 0 <= i < index ==> StepMatches(s.header.id, i, def.steps[i], s.steps[i])
      invariant forall i :: 0 <= i < index && s.state.Failed? ==> !IsCompensatableCommit(s.steps[i])
    {
      var d, step := def.steps[index], s.steps[index];
      if step.attempts > d.maxAttempts || step.compensationAttempts > d.maxAttempts { return false; }
      if step.state.WaitingRetry? && step.attempts >= d.maxAttempts { return false; }
      if step.state.CompensationWaitingRetry? && step.compensationAttempts >= d.maxAttempts { return false; }
      if s.state.Failed? && step.state.Committed? && d.compensatable { return false; }
    }
    return true;
  }

  /** The three `some` of the compensating state. */
  method CheckSomethingToUndo(s: Snapshot, def: Definition) returns (ok: bool)
    requires NamesMatch(s.header.id, def, s.steps)
    ensures ok <==> HasActive(s.steps) || HasCompensatableCommit(s.steps) || HasCompensated(s.steps)
  {
    for index := 0 to |s.steps|
      invariant forall i :: 0 <= i < index ==> !IsActive(s.steps[i]) && !IsCompensatableCommit(s.steps[i]) && !s.steps[i].state.Compensated?
    {
      var step := s.steps[index];
      if step.state.Compensating? || step.state.CompensationWaitingRetry? || step.state.Compensated? { return true; }
      if step.state.Committed? && def.steps[index].compensatable { return true; }
    }
    return false;
  }

  /** assertWorkflowSnapshotMatchesDefinition */
  method CheckMatchesDefinition(s: Snapshot, def: Definition) returns (ok: bool)
    ensures ok <==> MatchesDefinition(s, def)
  {
    hide ValidSnapshot, HasActive, HasCompensatableCommit, HasCompensated;
    ok := CheckSnapshot(s);
    if !ok || s.header.workflowName != def.name || s.header.workflowVersion != def.version { return false; }
    var names := CheckNames(s.header.id, def, s.steps);
    if !names { return false; }
    ok := CheckAttempts(s, def);
    if ok && s.state.Compensating? {
      ok := CheckSomethingToUndo(s, def);
    }
  }
}
