/**
 * The transitions the workflow manager computes between two store calls
 * (packages/workflows/src/manager.ts, `advance`, `execute`, `compensate` and the failure paths).
 *
 * A handler is an oracle: its outcome is a parameter. A retry schedule is an oracle too: a
 * failure carries the time at which the schedule wants the next attempt, or None when it
 * answers null.
 */
module WorkflowManager {
  import opened Options
  import opened WorkflowTypes
  import opened WorkflowValidation

  datatype Outcome =
    | Success(output: Json)
    | CancelledByHeartbeat
    | Failure(error: ErrorText, retryAt: Option<Time>)

  // ------------------------------------------------------- choosing a step

  predicate Compensatable(def: Definition, i: int) {
    0 <= i < |def.steps| && def.steps[i].compensatable
  }

  /** A step the compensation loop still has to deal with. */
  predicate IsOpen(def: Definition, steps: seq<StepSnapshot>, i: int) {
    0 <= i < |steps| && (steps[i].state.Committed? || IsActive(steps[i])) && Compensatable(def, i)
  }

  /** The greatest open index at or below `cursor`, or -1. */
  function LastOpen(def: Definition, steps: seq<StepSnapshot>, cursor: int): (r: int)
    requires -1 <= cursor < |steps|
    ensures -1 <= r <= cursor
    ensures r >= 0 ==> IsOpen(def, steps, r)
    ensures forall j :: r < j <= cursor ==> !IsOpen(def, steps, j)
    decreases cursor + 1
  {
    if cursor < 0 then -1
    else if IsOpen(def, steps, cursor) then cursor
    else LastOpen(def, steps, cursor - 1)
  }

  /** The downward cursor loop of `compensate`. */
  method FindCompensation(def: Definition, steps: seq<StepSnapshot>) returns (index: int)
    ensures index == LastOpen(def, steps, |steps| - 1)
  {
    index := -1;
    var cursor := |steps| - 1;
    while cursor >= 0
      invariant -1 <= cursor < |steps|
      invariant index == -1
      invariant LastOpen(def, steps, |steps| - 1) == LastOpen(def, steps, cursor)
    {
      var state := steps[cursor].state;
      if (state.Committed? || state.CompensationWaitingRetry? || state.Compensating?) && Compensatable(def, cursor) {
        index := cursor;
        break;
      }
      cursor := cursor - 1;
    }
  }

  // ---------------------------------------------------------- candidates

  predicate HasCompensation(def: Definition, steps: seq<StepSnapshot>) {
    exists i :: 0 <= i < |steps| && steps[i].state.Committed? && Compensatable(def, i)
  }

  /** beginCompensationOrCancel */
  function BeginCompensationOrCancel(s: Snapshot, def: Definition, cancellation: bool): Snapshot {
    s.(state :=
      if HasCompensation(def, s.steps) then WorkflowState.Compensating
      else if cancellation then WorkflowState.Cancelled
      else WorkflowState.Failed)
  }

  function ResetWaiting(step: StepSnapshot): StepSnapshot {
    if step.state.WaitingRetry? then step.(state := StepState.Pending, retryAt := None, error := None) else step
  }

  function ResetAll(steps: seq<StepSnapshot>): (r: seq<StepSnapshot>)
    ensures |r| == |steps|
    ensures forall i :: 0 <= i < |steps| ==> r[i] == ResetWaiting(steps[i])
  {
    seq(|steps|, i requires 0 <= i < |steps| => ResetWaiting(steps[i]))
  }

  /** `advance` under a requested cancellation. */
  function CancelCandidate(s: Snapshot, def: Definition): Snapshot {
    BeginCompensationOrCancel(s.(steps := ResetAll(s.steps)), def, true)
  }

  function WithStep(s: Snapshot, i: nat, step: StepSnapshot, state: WorkflowState): Snapshot
    requires i < |s.steps|
  {
    s.(steps := s.steps[i := step], state := state)
  }

  /** The boundary `execute` persists before it calls the handler. */
  function StartForward(s: Snapshot, i: nat): Snapshot
    requires i < |s.steps|
  {
    var step := s.steps[i];
    WithStep(s, i, step.(state := StepState.Running, attempts := step.attempts + 1, retryAt := None, error := None), WorkflowState.Running)
  }

  function CommitForward(s: Snapshot, i: nat, output: Json, cancellationObserved: bool): Snapshot
    requires i < |s.steps|
  {
    WithStep(s, i, s.steps[i].(state := StepState.Committed, output := Some(output)), WorkflowState.Running)
      .(cancellationRequested := cancellationObserved || s.cancellationRequested)
  }

  function AbandonForward(s: Snapshot, def: Definition, i: nat): Snapshot
    requires i < |s.steps|
  {
    BeginCompensationOrCancel(
      WithStep(s, i, s.steps[i].(state := StepState.Pending), WorkflowState.Running).(cancellationRequested := true),
      def, true)
  }

  predicate RetriesForward(s: Snapshot, def: Definition, i: nat, retryAt: Option<Time>)
    requires i < |s.steps| && i < |def.steps|
  {
    s.steps[i].attempts < def.steps[i].maxAttempts && retryAt.Some?
  }

  /** finishForwardFailure */
  function FailForward(s: Snapshot, def: Definition, i: nat, error: ErrorText, retryAt: Option<Time>): Snapshot
    requires i < |s.steps| && i < |def.steps|
  {
    if RetriesForward(s, def, i, retryAt) then
      WithStep(s, i, s.steps[i].(state := StepState.WaitingRetry, error := Some(error), retryAt := retryAt), WorkflowState.WaitingRetry)
    else
      BeginCompensationOrCancel(
        WithStep(s, i, s.steps[i].(state := StepState.Failed, error := Some(error)), WorkflowState.Failed),
        def, false)
  }

  function FinishForward(s: Snapshot, def: Definition, i: nat, outcome: Outcome, cancellationObserved: bool): Snapshot
    requires i < |s.steps| && i < |def.steps|
  {
    match outcome
    case Success(output) => CommitForward(s, i, output, cancellationObserved)
    case CancelledByHeartbeat => AbandonForward(s, def, i)
    case Failure(error, retryAt) => FailForward(s, def, i, error, retryAt)
  }

  function StartCompensation(s: Snapshot, i: nat): Snapshot
    requires i < |s.steps|
  {
    var step := s.steps[i];
    WithStep(s, i,
      step.(state := StepState.Compensating, compensationAttempts := step.compensationAttempts + 1, retryAt := None, error := None),
      WorkflowState.Compensating)
  }

  predicate RetriesCompensation(s: Snapshot, def: Definition, i: nat, retryAt: Option<Time>)
    requires i < |s.steps| && i < |def.steps|
  {
    s.steps[i].compensationAttempts < def.steps[i].maxAttempts && retryAt.Some?
  }

  /** finishCompensationFailure */
  function FailCompensation(s: Snapshot, def: Definition, i: nat, error: ErrorText, retryAt: Option<Time>): Snapshot
    requires i < |s.steps| && i < |def.steps|
  {
    if RetriesCompensation(s, def, i, retryAt) then
      WithStep(s, i, s.steps[i].(state := StepState.CompensationWaitingRetry, error := Some(error), retryAt := retryAt),
        WorkflowState.CompensationWaitingRetry)
    else
      WithStep(s, i, s.steps[i].(state := StepState.CompensationFailed, error := Some(error)), WorkflowState.CompensationFailed)
  }

  /** What `compensate` commits after its handler settled; a heartbeat never aborts a compensation. */
  function FinishCompensation(s: Snapshot, def: Definition, i: nat, outcome: Outcome): Snapshot
    requires i < |s.steps| && i < |def.steps|
  {
    match outcome
    case Failure(error, retryAt) => FailCompensation(s, def, i, error, retryAt)
    case _ => WithStep(s, i, s.steps[i].(state := StepState.Compensated), WorkflowState.Compensating)
  }

  function SettleCompensation(s: Snapshot): Snapshot {
    s.(state := if s.cancellationRequested then WorkflowState.Cancelled else WorkflowState.Compensated)
  }

  // --------------------------------------------------------------- advance

  datatype Direction = Forward | Compensation

  /** What a claim holder does next: one final commit, or a start boundary followed by a handler. */
  datatype Plan =
    | Finish(next: Snapshot)
    | Start(next: Snapshot, direction: Direction, index: nat)

  /**
   * `advance`, `execute` and `compensate` up to their first commit. `error` and `retryAt` are
   * what the failure path would use if the step turns out to have been interrupted.
   */
  function Advance(s: Snapshot, def: Definition, error: ErrorText, retryAt: Option<Time>): Plan
    requires |s.steps| == |def.steps|
  {
    if s.cancellationRequested && !IsCompensating(s.state) then
      Finish(CancelCandidate(s, def))
    else if IsCompensating(s.state) then
      var index := LastOpen(def, s.steps, |s.steps| - 1);
      if index < 0 then Finish(SettleCompensation(s))
      else if s.steps[index].state.Compensating? then Finish(FailCompensation(s, def, index, error, retryAt))
      else Start(StartCompensation(s, index), Compensation, index)
    else
      var index := FirstUncommitted(s.steps);
      if index == |s.steps| then Finish(s.(state := WorkflowState.Completed))
      else if s.steps[index].state.Running? then Finish(FailForward(s, def, index, error, retryAt))
      else Start(StartForward(s, index), Forward, index)
  }

  // ------------------------------------------------------------- soundness

  /**
   * What the validators leave open and every run keeps: a step that has not been tried in a
   * forward state has no attempts, a step whose compensation has not started has no
   * compensation attempts, and compensation proceeds strictly from the last step to the first.
   */
  predicate StepSound(state: WorkflowState, step: StepSnapshot) {
    && (step.state.Pending? && IsForward(state) ==> step.attempts == 0)
    && (!NeedsCompensationAttempt(step.state) ==> step.compensationAttempts == 0)
  }

  predicate StepsSound(state: WorkflowState, steps: seq<StepSnapshot>) {
    forall i :: 0 <= i < |steps| ==> StepSound(state, steps[i])
  }

  predicate CompensationOrder(steps: seq<StepSnapshot>) {
    && (forall i, j :: 0 <= i < j < |steps| && steps[i].state.Compensated? ==> !IsCompensatableCommit(steps[j]) && !IsActive(steps[j]))
    && (forall i :: 0 <= i < |steps| ==> !IsCompensationFailed(steps[i]))
  }

  predicate Sound(s: Snapshot, def: Definition) {
    && MatchesDefinition(s, def)
    && StepsSound(s.state, s.steps)
    && (IsCompensating(s.state) ==> CompensationOrder(s.steps))
  }
}
