/**
 * Progress: which candidates built by the manager pass both validators.
 */
module WorkflowProgress {
  import opened Options
  import opened WorkflowTypes
  import opened WorkflowValidation
  import opened WorkflowManager

  // -------------------------------------------------- facts about single steps

  /** The part of soundness that speaks about each step on its own. */
  predicate StepwiseSound(id: string, def: Definition, state: WorkflowState, steps: seq<StepSnapshot>) {
    ValidSteps(steps) && DistinctNames(steps) && StepsMatch(id, def, steps) && StepsSound(state, steps)
  }

  /** Replacing one step by a good one, in a workflow state that is no more demanding. */
  lemma ReplaceStep(id: string, def: Definition, state: WorkflowState, steps: seq<StepSnapshot>, i: nat, step: StepSnapshot, next: WorkflowState)
    requires StepwiseSound(id, def, state, steps) && i < |steps|
    requires ValidStep(step) && StepMatches(id, i, def.steps[i], step) && StepSound(next, step)
    requires IsForward(next) ==> IsForward(state)
    ensures StepwiseSound(id, def, next, steps[i := step])
  {
    var r := steps[i := step];
    assert StepMatches(id, i, def.steps[i], steps[i]);
    forall k | 0 <= k < |r|
      ensures ValidStep(r[k]) && StepMatches(id, k, def.steps[k], r[k]) && StepSound(next, r[k]) && r[k].name == steps[k].name
    {
      if k != i {
        assert ValidStep(steps[k]) && StepMatches(id, k, def.steps[k], steps[k]) && StepSound(state, steps[k]);
      }
    }
  }

  lemma CompensationByKey(id: string, def: Definition, steps: seq<StepSnapshot>)
    requires StepsMatch(id, def, steps)
    ensures HasCompensation(def, steps) <==> HasCompensatableCommit(steps)
  {
    forall i | 0 <= i < |steps|
      ensures steps[i].state.Committed? && Compensatable(def, i) <==> IsCompensatableCommit(steps[i])
    {
      assert StepMatches(id, i, def.steps[i], steps[i]);
    }
  }

  lemma OpenByKey(id: string, def: Definition, steps: seq<StepSnapshot>)
    requires StepsMatch(id, def, steps) && ValidSteps(steps)
    ensures forall i :: IsOpen(def, steps, i) <==> 0 <= i < |steps| && (IsCompensatableCommit(steps[i]) || IsActive(steps[i]))
  {
    forall i | 0 <= i < |steps|
      ensures IsOpen(def, steps, i) <==> IsCompensatableCommit(steps[i]) || IsActive(steps[i])
    {
      assert StepMatches(id, i, def.steps[i], steps[i]) && ValidStep(steps[i]);
    }
  }

  // ------------------------------------------------------------ forward

  /** Everything in soundness except the relation between the workflow state and the step states. */
  predicate Base(s: Snapshot, def: Definition) {
    && ValidTimes(s)
    && s.header.workflowName == def.name && s.header.workflowVersion == def.version
    && StepwiseSound(s.header.id, def, s.state, s.steps)
  }

  predicate CommittedUpTo(steps: seq<StepSnapshot>, k: nat) {
    k <= |steps| && forall j :: 0 <= j < k ==> steps[j].state.Committed?
  }

  /** Committed steps, then step `k` (if there is one) in some forward state, then pending steps. */
  predicate ForwardAt(steps: seq<StepSnapshot>, k: nat) {
    && CommittedUpTo(steps, k)
    && PendingFrom(steps, k + 1)
    && (k < |steps| ==> steps[k].state.Pending? || steps[k].state.Running? || steps[k].state.WaitingRetry?)
  }

  /** A forward state is its stepwise part plus its shape. */
  lemma ForwardIsSound(s: Snapshot, def: Definition)
    requires Sound(s, def) && IsForward(s.state)
    ensures Base(s, def)
    ensures ForwardAt(s.steps, FirstUncommitted(s.steps))
    ensures HasRunning(s.steps) ==> s.state.Running? && s.steps[FirstUncommitted(s.steps)].state.Running?
  {
    var k := FirstUncommitted(s.steps);
  }

  lemma RunningShape(s: Snapshot, def: Definition, k: nat)
    requires Base(s, def) && s.state.Running?
    requires CommittedUpTo(s.steps, k)
    requires (k < |s.steps| && s.steps[k].state.Running? && PendingFrom(s.steps, k + 1)) || PendingFrom(s.steps, k)
    ensures Sound(s, def)
  {
    FirstUncommittedIs(s.steps, k);
  }

  lemma StartForwardSound(s: Snapshot, def: Definition, i: nat)
    requires ValidDefinition(def) && Base(s, def) && IsForward(s.state)
    requires i < |s.steps| && ForwardAt(s.steps, i) && !s.steps[i].state.Running?
    ensures Sound(StartForward(s, i), def)
  {
    var c := StartForward(s, i);
    assert ValidStep(s.steps[i]) && StepMatches(s.header.id, i, def.steps[i], s.steps[i]) && StepSound(s.state, s.steps[i]);
    ReplaceStep(s.header.id, def, s.state, s.steps, i, c.steps[i], c.state);
    assert CommittedUpTo(c.steps, i) && PendingFrom(c.steps, i + 1);
    RunningShape(c, def, i);
  }

  /** The snapshot a forward handler runs under. */
  predicate RunningAt(s: Snapshot, def: Definition, i: nat) {
    Base(s, def) && s.state.Running? && i < |s.steps| && ForwardAt(s.steps, i) && s.steps[i].state.Running?
  }

  lemma CommitForwardSound(s: Snapshot, def: Definition, i: nat, output: Json, observed: bool)
    requires RunningAt(s, def, i)
    ensures Sound(CommitForward(s, i, output, observed), def)
  {
    var c := CommitForward(s, i, output, observed);
    assert ValidStep(s.steps[i]) && StepMatches(s.header.id, i, def.steps[i], s.steps[i]) && StepSound(s.state, s.steps[i]);
    ReplaceStep(s.header.id, def, s.state, s.steps, i, c.steps[i], c.state);
    assert CommittedUpTo(c.steps, i + 1) && PendingFrom(c.steps, i + 1);
    RunningShape(c, def, i + 1);
  }

  /** A forward shape without a running or waiting step is also a legal compensation shape. */
  lemma SettleForwardShape(steps: seq<StepSnapshot>, k: nat, state: WorkflowState)
    requires CommittedUpTo(steps, k) && PendingFrom(steps, k + 1)
    requires k < |steps| ==> steps[k].state.Pending? || steps[k].state.Failed?
    requires if HasCompensatableCommit(steps) then state.Compensating? else state.Cancelled?
    ensures CompensationBoundary(state, steps) && CompensationOrder(steps)
  {
    assert forall j :: 0 <= j < |steps| ==> j < k || j == k || steps[j].state.Pending?;
  }

  /** The snapshot that `beginCompensationOrCancel` leaves behind. */
  lemma UnwindSound(s: Snapshot, def: Definition, k: nat)
    requires Base(s, def) && CommittedUpTo(s.steps, k) && PendingFrom(s.steps, k + 1)
    requires k < |s.steps| ==> s.steps[k].state.Pending? || s.steps[k].state.Failed?
    requires s.state == if HasCompensation(def, s.steps) then WorkflowState.Compensating else WorkflowState.Cancelled
    requires s.state.Cancelled? ==> s.cancellationRequested
    ensures Sound(s, def)
  {
    CompensationByKey(s.header.id, def, s.steps);
    SettleForwardShape(s.steps, k, s.state);
  }

  /** `execution.cancelled`: the running step goes back to pending and the saga unwinds. */
  lemma AbandonForwardSound(s: Snapshot, def: Definition, i: nat)
    requires RunningAt(s, def, i)
    ensures Sound(AbandonForward(s, def, i), def)
  {
    var c := AbandonForward(s, def, i);
    assert ValidStep(s.steps[i]) && StepMatches(s.header.id, i, def.steps[i], s.steps[i]) && StepSound(s.state, s.steps[i]);
    ReplaceStep(s.header.id, def, s.state, s.steps, i, c.steps[i], c.state);
    assert CommittedUpTo(c.steps, i) && PendingFrom(c.steps, i + 1);
    UnwindSound(c, def, i);
  }

  /** A retry passes exactly when the schedule's time is a representable timestamp. */
  lemma RetryForwardExact(s: Snapshot, def: Definition, i: nat, error: ErrorText, retryAt: Option<Time>)
    requires RunningAt(s, def, i) && RetriesForward(s, def, i, retryAt)
    ensures MatchesDefinition(FailForward(s, def, i, error, retryAt), def) <==> IsTimestamp(retryAt.value)
    ensures IsTimestamp(retryAt.value) ==> Sound(FailForward(s, def, i, error, retryAt), def)
  {
    var c := FailForward(s, def, i, error, retryAt);
    if IsTimestamp(retryAt.value) {
      assert ValidStep(s.steps[i]) && StepMatches(s.header.id, i, def.steps[i], s.steps[i]) && StepSound(s.state, s.steps[i]);
      ReplaceStep(s.header.id, def, s.state, s.steps, i, c.steps[i], c.state);
      assert CommittedUpTo(c.steps, i) && PendingFrom(c.steps, i + 1);
      FirstUncommittedIs(c.steps, i);
    } else {
      assert !ValidStep(c.steps[i]);
    }
  }

  /** An exhausted failure passes exactly when there is something to compensate or nobody asked to cancel. */
  lemma ExhaustForwardExact(s: Snapshot, def: Definition, i: nat, error: ErrorText, retryAt: Option<Time>)
    requires RunningAt(s, def, i) && !RetriesForward(s, def, i, retryAt)
    ensures MatchesDefinition(FailForward(s, def, i, error, retryAt), def) <==> HasCompensation(def, s.steps) || !s.cancellationRequested
    ensures HasCompensation(def, s.steps) || !s.cancellationRequested ==> Sound(FailForward(s, def, i, error, retryAt), def)
  {
    var c := FailForward(s, def, i, error, retryAt);
    assert ValidStep(s.steps[i]) && StepMatches(s.header.id, i, def.steps[i], s.steps[i]) && StepSound(s.state, s.steps[i]);
    ReplaceStep(s.header.id, def, s.state, s.steps, i, c.steps[i], c.state);
    assert HasCompensation(def, c.steps) <==> HasCompensation(def, s.steps) by {
      assert forall j :: 0 <= j < |s.steps| ==> (c.steps[j].state.Committed? <==> s.steps[j].state.Committed?);
    }
    assert CommittedUpTo(c.steps, i) && PendingFrom(c.steps, i + 1);
    if HasCompensation(def, c.steps) {
      UnwindSound(c, def, i);
    } else {
      CompensationByKey(s.header.id, def, c.steps);
      FirstUncommittedIs(c.steps, i);
    }
  }

  predicate HasRunning(steps: seq<StepSnapshot>) {
    exists i :: 0 <= i < |steps| && steps[i].state.Running?
  }

  lemma ResetAllSound(id: string, def: Definition, state: WorkflowState, steps: seq<StepSnapshot>, next: WorkflowState)
    requires StepwiseSound(id, def, state, steps) && !IsForward(next)
    ensures StepwiseSound(id, def, next, ResetAll(steps))
  {
    var r := ResetAll(steps);
    forall k | 0 <= k < |r|
      ensures ValidStep(r[k]) && StepMatches(id, k, def.steps[k], r[k]) && StepSound(next, r[k]) && r[k].name == steps[k].name
    {
      assert ValidStep(steps[k]) && StepMatches(id, k, def.steps[k], steps[k]) && StepSound(state, steps[k]);
    }
  }

  /** A requested cancellation can be carried out exactly when no step is left running. */
  lemma CancelExact(s: Snapshot, def: Definition, k: nat)
    requires Base(s, def) && IsForward(s.state) && s.cancellationRequested && ForwardAt(s.steps, k)
    ensures MatchesDefinition(CancelCandidate(s, def), def) <==> !HasRunning(s.steps)
    ensures !HasRunning(s.steps) ==> Sound(CancelCandidate(s, def), def)
  {
    var c := CancelCandidate(s, def);
    if HasRunning(s.steps) {
      var i :| 0 <= i < |s.steps| && s.steps[i].state.Running?;
      assert c.steps[i].state.Running?;
    } else {
      ResetAllSound(s.header.id, def, s.state, s.steps, c.state);
      assert CommittedUpTo(c.steps, k) && PendingFrom(c.steps, k + 1);
      UnwindSound(c, def, k);
    }
  }

  lemma CompleteSound(s: Snapshot, def: Definition)
    requires Base(s, def) && IsForward(s.state) && !s.cancellationRequested && CommittedUpTo(s.steps, |s.steps|)
    ensures Sound(s.(state := WorkflowState.Completed), def)
  {
    forall i | 0 <= i < |s.steps| ensures StepSound(WorkflowState.Completed, s.steps[i]) {
      assert StepSound(s.state, s.steps[i]);
    }
  }

  // ------------------------------------------------------- compensation

  /** A compensation in progress: its stepwise part plus its shape. */
  predicate UnwindingAt(s: Snapshot, def: Definition) {
    && Base(s, def) && IsCompensating(s.state)
    && CompensationBoundary(s.state, s.steps) && CompensationOrder(s.steps)
  }

  lemma CompensatingIsSound(s: Snapshot, def: Definition)
    requires Sound(s, def) && IsCompensating(s.state)
    ensures UnwindingAt(s, def)
  {
  }

  /** Step `i` is the last one the compensation still has to deal with. */
  predicate LastOpenAt(steps: seq<StepSnapshot>, i: nat) {
    && i < |steps|
    && (IsCompensatableCommit(steps[i]) || IsActive(steps[i]))
    && (forall j :: i < j < |steps| ==> !IsCompensatableCommit(steps[j]) && !IsActive(steps[j]))
  }

  lemma LastOpenByKey(s: Snapshot, def: Definition, i: int)
    requires Base(s, def) && i == LastOpen(def, s.steps, |s.steps| - 1)
    ensures i >= 0 ==> LastOpenAt(s.steps, i)
    ensures i < 0 ==> forall j :: 0 <= j < |s.steps| ==> !IsCompensatableCommit(s.steps[j]) && !IsActive(s.steps[j])
  {
    OpenByKey(s.header.id, def, s.steps);
  }

  /** Nothing before the last open step is compensated or active. */
  lemma BeforeLastOpen(state: WorkflowState, steps: seq<StepSnapshot>, i: nat)
    requires CompensationBoundary(state, steps) && CompensationOrder(steps) && LastOpenAt(steps, i)
    ensures forall j :: 0 <= j < i ==> !IsActive(steps[j]) && !steps[j].state.Compensated?
  {
    forall j | 0 <= j < i ensures !IsActive(steps[j]) && !steps[j].state.Compensated? {
      ActiveReverse(state, steps, j);
    }
  }

  lemma ActiveReverse(state: WorkflowState, steps: seq<StepSnapshot>, j: nat)
    requires CompensationBoundary(state, steps) && j < |steps|
    ensures !IsActive(steps[j]) || ReverseOrderAt(steps, j)
  {
  }

  /** Replacing the last open step by one that is still in progress or finished keeps the reverse order. */
  lemma ReplaceLastOpen(state: WorkflowState, steps: seq<StepSnapshot>, i: nat, step: StepSnapshot, next: WorkflowState)
    requires CompensationBoundary(state, steps) && CompensationOrder(steps) && LastOpenAt(steps, i)
    requires IsCompensating(next)
    requires if next.CompensationWaitingRetry? then step.state.CompensationWaitingRetry? else step.state.Compensating? || step.state.Compensated?
    ensures CompensationBoundary(next, steps[i := step]) && CompensationOrder(steps[i := step])
  {
    BeforeLastOpen(state, steps, i);
    var r := steps[i := step];
    assert forall j :: 0 <= j < |r| && IsActive(r[j]) ==> j == i;
    assert !r[i].state.Pending?;
    assert ReverseOrderAt(r, i);
    assert next.CompensationWaitingRetry? ==> IsActive(r[i]);
  }

  lemma StartCompensationSound(s: Snapshot, def: Definition, i: nat)
    requires ValidDefinition(def) && UnwindingAt(s, def) && LastOpenAt(s.steps, i) && !s.steps[i].state.Compensating?
    ensures Sound(StartCompensation(s, i), def)
  {
    var c := StartCompensation(s, i);
    assert ValidStep(s.steps[i]) && StepMatches(s.header.id, i, def.steps[i], s.steps[i]) && StepSound(s.state, s.steps[i]);
    ReplaceStep(s.header.id, def, s.state, s.steps, i, c.steps[i], c.state);
    ReplaceLastOpen(s.state, s.steps, i, c.steps[i], c.state);
    assert IsActive(c.steps[i]);
  }

  /** The snapshot a compensation handler runs under. */
  predicate CompensatingAt(s: Snapshot, def: Definition, i: nat) {
    UnwindingAt(s, def) && LastOpenAt(s.steps, i) && s.steps[i].state.Compensating?
  }

  lemma CommitCompensationSound(s: Snapshot, def: Definition, i: nat, outcome: Outcome)
    requires CompensatingAt(s, def, i) && !outcome.Failure?
    ensures Sound(FinishCompensation(s, def, i, outcome), def)
  {
    var c := FinishCompensation(s, def, i, outcome);
    assert ValidStep(s.steps[i]) && StepMatches(s.header.id, i, def.steps[i], s.steps[i]) && StepSound(s.state, s.steps[i]);
    ReplaceStep(s.header.id, def, s.state, s.steps, i, c.steps[i], c.state);
    ReplaceLastOpen(s.state, s.steps, i, c.steps[i], c.state);
    assert c.steps[i].state.Compensated?;
  }

  lemma RetryCompensationExact(s: Snapshot, def: Definition, i: nat, error: ErrorText, retryAt: Option<Time>)
    requires CompensatingAt(s, def, i) && RetriesCompensation(s, def, i, retryAt)
    ensures MatchesDefinition(FailCompensation(s, def, i, error, retryAt), def) <==> IsTimestamp(retryAt.value)
    ensures IsTimestamp(retryAt.value) ==> Sound(FailCompensation(s, def, i, error, retryAt), def)
  {
    var c := FailCompensation(s, def, i, error, retryAt);
    if IsTimestamp(retryAt.value) {
      assert ValidStep(s.steps[i]) && StepMatches(s.header.id, i, def.steps[i], s.steps[i]) && StepSound(s.state, s.steps[i]);
      ReplaceStep(s.header.id, def, s.state, s.steps, i, c.steps[i], c.state);
      ReplaceLastOpen(s.state, s.steps, i, c.steps[i], c.state);
    } else {
      assert !ValidStep(c.steps[i]);
    }
  }

  lemma ExhaustCompensationShape(state: WorkflowState, steps: seq<StepSnapshot>, i: nat, step: StepSnapshot)
    requires CompensationBoundary(state, steps) && CompensationOrder(steps) && LastOpenAt(steps, i)
    requires step.state.CompensationFailed?
    ensures CompensationBoundary(WorkflowState.CompensationFailed, steps[i := step])
  {
    BeforeLastOpen(state, steps, i);
    var r := steps[i := step];
    assert IsCompensationFailed(r[i]);
    assert ReverseOrderAt(r, i);
  }

  lemma ExhaustCompensationSound(s: Snapshot, def: Definition, i: nat, error: ErrorText, retryAt: Option<Time>)
    requires CompensatingAt(s, def, i) && !RetriesCompensation(s, def, i, retryAt)
    ensures Sound(FailCompensation(s, def, i, error, retryAt), def)
  {
    var c := FailCompensation(s, def, i, error, retryAt);
    assert ValidStep(s.steps[i]) && StepMatches(s.header.id, i, def.steps[i], s.steps[i]) && StepSound(s.state, s.steps[i]);
    ReplaceStep(s.header.id, def, s.state, s.steps, i, c.steps[i], c.state);
    ExhaustCompensationShape(s.state, s.steps, i, c.steps[i]);
  }

  /** Once nothing is open the saga is over. */
  lemma SettleCompensationSound(s: Snapshot, def: Definition)
    requires Sound(s, def) && IsCompensating(s.state)
    requires forall j :: 0 <= j < |s.steps| ==> !IsCompensatableCommit(s.steps[j]) && !IsActive(s.steps[j])
    ensures Sound(SettleCompensation(s), def)
  {
    var c := SettleCompensation(s);
    assert s.state.Compensating? && HasCompensated(s.steps);
  }

  // --------------------------------------------------------- the exact condition

  /**
   * The guard under which the first candidate of a claim holder passes the validators: no step
   * is left running under a requested cancellation, and a retry that an interrupted step asks
   * for is a representable time.
   */
  predicate AdvanceGuard(s: Snapshot, def: Definition, retryAt: Option<Time>)
    requires |s.steps| == |def.steps|
  {
    if s.cancellationRequested && !IsCompensating(s.state) then !HasRunning(s.steps)
    else if IsCompensating(s.state) then
      var i := LastOpen(def, s.steps, |s.steps| - 1);
      i >= 0 && s.steps[i].state.Compensating? && RetriesCompensation(s, def, i, retryAt) ==> IsTimestamp(retryAt.value)
    else
      var i := FirstUncommitted(s.steps);
      i < |s.steps| && s.steps[i].state.Running? && RetriesForward(s, def, i, retryAt) ==> IsTimestamp(retryAt.value)
  }

  lemma AdvanceForwardExact(s: Snapshot, def: Definition, error: ErrorText, retryAt: Option<Time>)
    requires ValidDefinition(def) && Base(s, def) && IsForward(s.state) && !s.cancellationRequested
    requires ForwardAt(s.steps, FirstUncommitted(s.steps))
    requires HasRunning(s.steps) ==> s.state.Running?
    ensures var plan := Advance(s, def, error, retryAt);
      && (MatchesDefinition(plan.next, def) <==> AdvanceGuard(s, def, retryAt))
      && (AdvanceGuard(s, def, retryAt) ==> Sound(plan.next, def))
  {
    var i := FirstUncommitted(s.steps);
    if i == |s.steps| {
      CompleteSound(s, def);
    } else if s.steps[i].state.Running? {
      if RetriesForward(s, def, i, retryAt) {
        RetryForwardExact(s, def, i, error, retryAt);
      } else {
        ExhaustForwardExact(s, def, i, error, retryAt);
      }
    } else {
      StartForwardSound(s, def, i);
    }
  }

  lemma AdvanceCompensationExact(s: Snapshot, def: Definition, error: ErrorText, retryAt: Option<Time>)
    requires ValidDefinition(def) && Sound(s, def) && IsCompensating(s.state)
    ensures var plan := Advance(s, def, error, retryAt);
      && (MatchesDefinition(plan.next, def) <==> AdvanceGuard(s, def, retryAt))
      && (AdvanceGuard(s, def, retryAt) ==> Sound(plan.next, def))
  {
    CompensatingIsSound(s, def);
    var i := LastOpen(def, s.steps, |s.steps| - 1);
    LastOpenByKey(s, def, i);
    if i < 0 {
      SettleCompensationSound(s, def);
    } else if s.steps[i].state.Compensating? {
      if RetriesCompensation(s, def, i, retryAt) {
        RetryCompensationExact(s, def, i, error, retryAt);
      } else {
        ExhaustCompensationSound(s, def, i, error, retryAt);
      }
    } else {
      StartCompensationSound(s, def, i);
    }
  }

  /**
   * Progress of a claim holder, exactly: from any sound non-terminal snapshot the candidate that
   * `advance` builds passes both validators if and only if the guard holds, and then it is sound.
   */
  lemma AdvanceExact(s: Snapshot, def: Definition, error: ErrorText, retryAt: Option<Time>)
    requires ValidDefinition(def) && Sound(s, def) && !Terminal(s.state)
    ensures var plan := Advance(s, def, error, retryAt);
      && (MatchesDefinition(plan.next, def) <==> AdvanceGuard(s, def, retryAt))
      && (AdvanceGuard(s, def, retryAt) ==> Sound(plan.next, def))
  {
    if IsCompensating(s.state) {
      AdvanceCompensationExact(s, def, error, retryAt);
    } else {
      ForwardIsSound(s, def);
      if s.cancellationRequested {
        CancelExact(s, def, FirstUncommitted(s.steps));
      } else {
        AdvanceForwardExact(s, def, error, retryAt);
      }
    }
  }

  /** The guard under which a finished forward handler can be recorded. */
  predicate FinishGuard(s: Snapshot, def: Definition, i: nat, outcome: Outcome)
    requires i < |s.steps| && i < |def.steps|
  {
    outcome.Failure? ==>
      if RetriesForward(s, def, i, outcome.retryAt) then IsTimestamp(outcome.retryAt.value)
      else HasCompensation(def, s.steps) || !s.cancellationRequested
  }

  /** Progress after a forward handler, exactly, for every outcome. */
  lemma FinishForwardExact(s: Snapshot, def: Definition, i: nat, outcome: Outcome, observed: bool)
    requires RunningAt(s, def, i)
    ensures var c := FinishForward(s, def, i, outcome, observed);
      && (MatchesDefinition(c, def) <==> FinishGuard(s, def, i, outcome))
      && (FinishGuard(s, def, i, outcome) ==> Sound(c, def))
  {
    match outcome
    case Success(output) => CommitForwardSound(s, def, i, output, observed);
    case CancelledByHeartbeat => AbandonForwardSound(s, def, i);
    case Failure(error, retryAt) =>
      if RetriesForward(s, def, i, retryAt) {
        RetryForwardExact(s, def, i, error, retryAt);
      } else {
        ExhaustForwardExact(s, def, i, error, retryAt);
      }
  }

  /** Progress after a compensation handler, exactly, for every outcome. */
  lemma FinishCompensationExact(s: Snapshot, def: Definition, i: nat, outcome: Outcome)
    requires CompensatingAt(s, def, i)
    ensures var c := FinishCompensation(s, def, i, outcome);
      && (MatchesDefinition(c, def) <==>
          (outcome.Failure? && RetriesCompensation(s, def, i, outcome.retryAt) ==> IsTimestamp(outcome.retryAt.value)))
      && (MatchesDefinition(c, def) ==> Sound(c, def))
  {
    if outcome.Failure? {
      if RetriesCompensation(s, def, i, outcome.retryAt) {
        RetryCompensationExact(s, def, i, outcome.error, outcome.retryAt);
      } else {
        ExhaustCompensationSound(s, def, i, outcome.error, outcome.retryAt);
      }
    } else {
      CommitCompensationSound(s, def, i, outcome);
    }
  }

  /** What a start boundary hands to its handler. */
  lemma StartedShape(s: Snapshot, def: Definition, error: ErrorText, retryAt: Option<Time>)
    requires ValidDefinition(def) && Sound(s, def) && !Terminal(s.state)
    ensures var plan := Advance(s, def, error, retryAt);
      plan.Start? ==>
        && (plan.direction.Forward? ==> RunningAt(plan.next, def, plan.index))
        && (plan.direction.Compensation? ==> CompensatingAt(plan.next, def, plan.index))
  {
    AdvanceExact(s, def, error, retryAt);
    var plan := Advance(s, def, error, retryAt);
    if plan.Start? {
      if plan.direction.Forward? {
        StartedForward(s, def, plan.next, plan.index);
      } else {
        StartedCompensation(s, def, plan.next, plan.index);
      }
    }
  }

  lemma StartedForward(s: Snapshot, def: Definition, next: Snapshot, i: nat)
    requires i == FirstUncommitted(s.steps) < |s.steps| && next == StartForward(s, i) && Sound(next, def)
    ensures RunningAt(next, def, i)
  {
    FirstUncommittedIs(next.steps, i);
    ForwardIsSound(next, def);
  }

  lemma StartedCompensation(s: Snapshot, def: Definition, next: Snapshot, i: nat)
    requires Sound(s, def) && IsCompensating(s.state) && Sound(next, def) && |s.steps| == |def.steps|
    requires i < |s.steps| && i == LastOpen(def, s.steps, |s.steps| - 1) && next == StartCompensation(s, i)
    ensures CompensatingAt(next, def, i)
  {
    CompensatingIsSound(next, def);
    CompensatingIsSound(s, def);
    LastOpenByKey(s, def, i);
  }
}
