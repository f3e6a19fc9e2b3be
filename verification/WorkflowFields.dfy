/**
 * What the candidates of the manager hold, field by field
 * (packages/workflows/src/manager.ts:135-233): which step changes, to which state, with which
 * output, error and retry time, and what the workflow state becomes.
 */
module WorkflowFields {
  import opened Options
  import opened WorkflowTypes
  import opened WorkflowValidation
  import opened WorkflowManager
  import opened WorkflowProtocol

  /** Only step `i`, the workflow state and the cancellation flag differ. */
  predicate OnlyStep(s: Snapshot, c: Snapshot, i: nat) {
    && c.header == s.header && c.revision == s.revision && c.lease == s.lease && c.updatedAt == s.updatedAt
    && |c.steps| == |s.steps| && i < |s.steps|
    && (forall j :: 0 <= j < |s.steps| && j != i ==> c.steps[j] == s.steps[j])
    && c.steps[i].name == s.steps[i].name && c.steps[i].key == s.steps[i].key && c.steps[i].compensationKey == s.steps[i].compensationKey
  }

  predicate SameAttempts(a: StepSnapshot, b: StepSnapshot) {
    a.attempts == b.attempts && a.compensationAttempts == b.compensationAttempts
  }

  /** Some committed step of the list has a compensation handler. */
  predicate SomethingToUndo(def: Definition, steps: seq<StepSnapshot>) {
    exists k :: 0 <= k < |steps| && k < |def.steps| && steps[k].state.Committed? && def.steps[k].compensatable
  }

  // ------------------------------------------------------------------ forward outcomes

  /** What the handler returned is what is stored, and nothing else changes. */
  lemma ReturnedIsStored(s: Snapshot, def: Definition, i: nat, x: Json, observed: bool)
    requires i < |s.steps| && i < |def.steps|
    ensures var c := FinishForward(s, def, i, Success(x), observed);
      && OnlyStep(s, c, i) && SameAttempts(c.steps[i], s.steps[i])
      && c.steps[i].state.Committed? && c.steps[i].output == Some(x)
      && c.steps[i].retryAt == s.steps[i].retryAt && c.steps[i].error == s.steps[i].error
      && c.state.Running? && (c.cancellationRequested <==> observed || s.cancellationRequested)
  {
  }

  /** A failure with attempts left and a scheduled time waits, with exactly that error and time; any other is final. */
  lemma FailureIsStored(s: Snapshot, def: Definition, i: nat, e: ErrorText, t: Option<Time>, observed: bool)
    requires i < |s.steps| && i < |def.steps|
    ensures var c := FinishForward(s, def, i, Failure(e, t), observed);
      && OnlyStep(s, c, i) && SameAttempts(c.steps[i], s.steps[i])
      && c.steps[i].error == Some(e) && c.steps[i].output == s.steps[i].output && c.cancellationRequested == s.cancellationRequested
      && (if s.steps[i].attempts < def.steps[i].maxAttempts && t.Some?
          then c.steps[i].state.WaitingRetry? && c.steps[i].retryAt == t && c.state.WaitingRetry?
          else c.steps[i].state.Failed? && c.steps[i].retryAt == s.steps[i].retryAt
               && (if SomethingToUndo(def, c.steps) then c.state.Compensating? else c.state.Failed?))
  {
    var c := FinishForward(s, def, i, Failure(e, t), observed);
    assert HasCompensation(def, c.steps) <==> SomethingToUndo(def, c.steps) by { UndoByDefinition(def, c.steps); }
  }

  lemma UndoByDefinition(def: Definition, steps: seq<StepSnapshot>)
    ensures HasCompensation(def, steps) <==> SomethingToUndo(def, steps)
  {
    if i :| 0 <= i < |steps| && steps[i].state.Committed? && Compensatable(def, i) {
      assert steps[i].state.Committed? && def.steps[i].compensatable;
    }
    if k :| 0 <= k < |steps| && k < |def.steps| && steps[k].state.Committed? && def.steps[k].compensatable {
      assert Compensatable(def, k);
    }
  }

  /** A handler that gave up because of a cancellation leaves its step untouched but pending. */
  lemma AbandonedIsStored(s: Snapshot, def: Definition, i: nat, observed: bool)
    requires i < |s.steps| && i < |def.steps|
    ensures var c := FinishForward(s, def, i, CancelledByHeartbeat, observed);
      && OnlyStep(s, c, i) && SameAttempts(c.steps[i], s.steps[i]) && c.cancellationRequested
      && c.steps[i] == s.steps[i].(state := StepState.Pending)
      && (if SomethingToUndo(def, c.steps) then c.state.Compensating? else c.state.Cancelled?)
  {
    UndoByDefinition(def, FinishForward(s, def, i, CancelledByHeartbeat, observed).steps);
  }

  // ------------------------------------------------------------- compensation outcomes

  lemma CompensationIsStored(s: Snapshot, def: Definition, i: nat, outcome: Outcome)
    requires i < |s.steps| && i < |def.steps|
    ensures var c := FinishCompensation(s, def, i, outcome);
      && OnlyStep(s, c, i) && SameAttempts(c.steps[i], s.steps[i])
      && c.steps[i].output == s.steps[i].output && c.cancellationRequested == s.cancellationRequested
      && (match outcome
          case Failure(e, t) =>
            && c.steps[i].error == Some(e)
            && (if s.steps[i].compensationAttempts < def.steps[i].maxAttempts && t.Some?
                then c.steps[i].state.CompensationWaitingRetry? && c.steps[i].retryAt == t && c.state.CompensationWaitingRetry?
                else c.steps[i].state.CompensationFailed? && c.steps[i].retryAt == s.steps[i].retryAt && c.state.CompensationFailed?)
          case _ =>
            c.steps[i].state.Compensated? && c.steps[i].error == s.steps[i].error && c.steps[i].retryAt == s.steps[i].retryAt && c.state.Compensating?)
  {
  }

  // ------------------------------------------------------------- handlers and candidates

  /** How a settled handler becomes a candidate, with and without a cancellation that a heartbeat saw. */
  lemma HandlerDecides(def: Definition, p: Phase, handler: HandlerResult)
    requires p.Handling? && p.index < |p.view.steps| && p.index < |def.steps|
    ensures var c := FinishCandidate(def, p, handler);
      var step := c.steps[p.index];
      && OnlyStep(p.view, c, p.index)
      && (p.direction.Forward? ==>
            && (handler.Returned? <==> step.state.Committed?)
            && (handler.Returned? ==> step.output == Some(handler.output))
            && (handler.Threw? && p.cancellationSeen <==> step.state.Pending?)
            && (!handler.Returned? && !step.state.Pending? ==> step.error == Some(handler.error)))
      && (p.direction.Compensation? ==>
            && (handler.Threw? <==> !step.state.Compensated?)
            && (handler.Threw? ==> step.error == Some(handler.error)))
  {
    hide HasCompensation;
  }

  // -------------------------------------------------------------------------- advance

  /** Every waiting step becomes pending again, without its error and its time; nothing else changes. */
  predicate Reset(a: StepSnapshot, b: StepSnapshot) {
    if a.state.WaitingRetry? then b == a.(state := StepState.Pending, retryAt := None, error := None) else b == a
  }

  /** A requested cancellation stops the forward steps. */
  lemma CancellationStops(s: Snapshot, def: Definition, error: ErrorText, retryAt: Option<Time>)
    requires |s.steps| == |def.steps| && s.cancellationRequested && !IsCompensating(s.state)
    ensures var plan := Advance(s, def, error, retryAt);
      && plan.Finish? && plan.next.cancellationRequested && |plan.next.steps| == |s.steps|
      && (forall i :: 0 <= i < |s.steps| ==> Reset(s.steps[i], plan.next.steps[i]))
      && (if SomethingToUndo(def, s.steps) then plan.next.state.Compensating? else plan.next.state.Cancelled?)
  {
    var next := Advance(s, def, error, retryAt).next;
    UndoByDefinition(def, next.steps);
    assert SomethingToUndo(def, next.steps) <==> SomethingToUndo(def, s.steps) by { ResetKeepsCommitted(def, s.steps, next.steps); }
  }

  lemma ResetKeepsCommitted(def: Definition, a: seq<StepSnapshot>, b: seq<StepSnapshot>)
    requires |a| == |b| && forall i :: 0 <= i < |a| ==> Reset(a[i], b[i])
    ensures SomethingToUndo(def, b) <==> SomethingToUndo(def, a)
  {
    assert forall i :: 0 <= i < |a| ==> (a[i].state.Committed? <==> b[i].state.Committed?);
  }

  /** Step `i` was committed or is being compensated, and has a handler for it. */
  predicate ToUndo(def: Definition, steps: seq<StepSnapshot>, i: int) {
    && 0 <= i < |steps| && i < |def.steps| && def.steps[i].compensatable
    && (steps[i].state.Committed? || steps[i].state.Compensating? || steps[i].state.CompensationWaitingRetry?)
  }

  /** Unwinding takes the last step there is to undo; when none is left the workflow is cancelled or compensated. */
  lemma UnwindingTakesLast(s: Snapshot, def: Definition, error: ErrorText, retryAt: Option<Time>)
    requires |s.steps| == |def.steps| && IsCompensating(s.state)
    ensures var plan := Advance(s, def, error, retryAt);
      && ((forall i :: 0 <= i < |s.steps| ==> !ToUndo(def, s.steps, i)) ==>
            plan.Finish? && plan.next == s.(state := if s.cancellationRequested then WorkflowState.Cancelled else WorkflowState.Compensated))
      && (forall i: nat :: ToUndo(def, s.steps, i) && (forall j :: i < j < |s.steps| ==> !ToUndo(def, s.steps, j)) ==>
            OnlyStep(s, plan.next, i) && UndoStep(s, def, plan, i, error, retryAt))
  {
    hide Advance, UndoStep, ToUndo, IsOpen;
    var r := LastOpen(def, s.steps, |s.steps| - 1);
    UndoAtLast(s, def, error, retryAt);
    forall j | 0 <= j < |s.steps| ensures ToUndo(def, s.steps, j) <==> IsOpen(def, s.steps, j) { OpenIsToUndo(def, s.steps, j); }
    forall i: nat | ToUndo(def, s.steps, i) && (forall j :: i < j < |s.steps| ==> !ToUndo(def, s.steps, j))
      ensures OnlyStep(s, Advance(s, def, error, retryAt).next, i) && UndoStep(s, def, Advance(s, def, error, retryAt), i, error, retryAt)
    {
      InRange(def, s.steps, i);
      assert i == r;
    }
  }

  lemma OpenIsToUndo(def: Definition, steps: seq<StepSnapshot>, j: int)
    ensures ToUndo(def, steps, j) <==> IsOpen(def, steps, j)
  {
  }

  lemma InRange(def: Definition, steps: seq<StepSnapshot>, i: int)
    requires ToUndo(def, steps, i)
    ensures 0 <= i < |steps|
  {
  }

  lemma UndoAtLast(s: Snapshot, def: Definition, error: ErrorText, retryAt: Option<Time>)
    requires |s.steps| == |def.steps| && IsCompensating(s.state)
    ensures var plan := Advance(s, def, error, retryAt);
      var r := LastOpen(def, s.steps, |s.steps| - 1);
      if r < 0 then plan.Finish? && plan.next == s.(state := if s.cancellationRequested then WorkflowState.Cancelled else WorkflowState.Compensated)
      else OnlyStep(s, plan.next, r) && UndoStep(s, def, plan, r, error, retryAt)
  {
  }

  /** An interrupted compensation is recorded as a failure; any other is started once more. */
  predicate UndoStep(s: Snapshot, def: Definition, plan: Plan, i: nat, error: ErrorText, retryAt: Option<Time>)
    requires i < |s.steps| == |def.steps| && i < |plan.next.steps|
  {
    var before, after := s.steps[i], plan.next.steps[i];
    if before.state.Compensating? then
      && plan.Finish? && SameAttempts(after, before) && after.error == Some(error) && after.output == before.output
      && (if before.compensationAttempts < def.steps[i].maxAttempts && retryAt.Some?
          then after.state.CompensationWaitingRetry? && after.retryAt == retryAt && plan.next.state.CompensationWaitingRetry?
          else after.state.CompensationFailed? && after.retryAt == before.retryAt && plan.next.state.CompensationFailed?)
    else
      && plan == Start(plan.next, Compensation, i) && plan.next.state.Compensating? && after.state.Compensating?
      && after.compensationAttempts == before.compensationAttempts + 1 && after.attempts == before.attempts
      && after.retryAt.None? && after.error.None? && after.output == before.output
  }

  /** Going forward takes the first step that is not committed; when all are, the workflow is completed. */
  lemma ForwardTakesFirst(s: Snapshot, def: Definition, error: ErrorText, retryAt: Option<Time>)
    requires |s.steps| == |def.steps| && !IsCompensating(s.state) && !s.cancellationRequested
    ensures var plan := Advance(s, def, error, retryAt);
      && ((forall i :: 0 <= i < |s.steps| ==> s.steps[i].state.Committed?) ==>
            plan.Finish? && plan.next == s.(state := WorkflowState.Completed))
      && (forall i: nat :: i < |s.steps| && !s.steps[i].state.Committed? && (forall j :: 0 <= j < i ==> s.steps[j].state.Committed?) ==>
            OnlyStep(s, plan.next, i) && ForwardStep(s, def, plan, i, error, retryAt))
  {
    hide Advance, OnlyStep, ForwardStep;
    var k := FirstUncommitted(s.steps);
    ForwardAtFirst(s, def, error, retryAt);
    forall i: nat | i < |s.steps| && !s.steps[i].state.Committed? && (forall j :: 0 <= j < i ==> s.steps[j].state.Committed?) ensures i == k {
      FirstUncommittedIs(s.steps, i);
    }
  }

  lemma ForwardAtFirst(s: Snapshot, def: Definition, error: ErrorText, retryAt: Option<Time>)
    requires |s.steps| == |def.steps| && !IsCompensating(s.state) && !s.cancellationRequested
    ensures var plan := Advance(s, def, error, retryAt);
      var k := FirstUncommitted(s.steps);
      if k == |s.steps| then plan.Finish? && plan.next == s.(state := WorkflowState.Completed)
      else OnlyStep(s, plan.next, k) && ForwardStep(s, def, plan, k, error, retryAt)
  {
    hide HasCompensation, SomethingToUndo;
    UndoByDefinition(def, Advance(s, def, error, retryAt).next.steps);
  }

  /** An interrupted step is recorded as a failure; any other is started once more. */
  predicate ForwardStep(s: Snapshot, def: Definition, plan: Plan, i: nat, error: ErrorText, retryAt: Option<Time>)
    requires i < |s.steps| == |def.steps| && i < |plan.next.steps|
  {
    var before, after := s.steps[i], plan.next.steps[i];
    if before.state.Running? then
      && plan.Finish? && SameAttempts(after, before) && after.error == Some(error) && after.output == before.output
      && (if before.attempts < def.steps[i].maxAttempts && retryAt.Some?
          then after.state.WaitingRetry? && after.retryAt == retryAt && plan.next.state.WaitingRetry?
          else after.state.Failed? && after.retryAt == before.retryAt
               && (if SomethingToUndo(def, plan.next.steps) then plan.next.state.Compensating? else plan.next.state.Failed?))
    else
      && plan == Start(plan.next, Forward, i) && plan.next.state.Running? && after.state.Running?
      && after.attempts == before.attempts + 1 && after.compensationAttempts == before.compensationAttempts
      && after.retryAt.None? && after.error.None? && after.output == before.output
  }

  /**
   * After a race lost to a cancellation: a failure is kept, step by step, on the authoritative row; a
   * completion is dropped for what the row says; either way the workflow compensates or is cancelled.
   */
  lemma LostRaceIsStored(def: Definition, authoritative: Snapshot, candidate: Snapshot)
    ensures var c := ReconcileCandidate(def, authoritative, candidate);
      && c.steps == (if candidate.state.Failed? then candidate.steps else authoritative.steps)
      && c.header == (if candidate.state.Failed? then candidate.header else authoritative.header)
      && c.revision == authoritative.revision && c.lease == authoritative.lease
      && c.cancellationRequested == (candidate.state.Failed? || authoritative.cancellationRequested)
      && c.updatedAt == (if candidate.state.Failed? then Max(candidate.updatedAt, authoritative.updatedAt) else authoritative.updatedAt)
      && (if SomethingToUndo(def, c.steps) then c.state.Compensating? else c.state.Cancelled?)
  {
    UndoByDefinition(def, ReconcileCandidate(def, authoritative, candidate).steps);
  }
}
