/**
 * What any manager candidate does to the steps, and the measure that every one of them
 * decreases (packages/workflows/src/manager.ts:135-255).
 */
module WorkflowEffects {
  import opened Options
  import opened WorkflowTypes
  import opened WorkflowValidation
  import opened WorkflowManager
  import opened WorkflowProgress

  // ---------------------------------------------------------------- measure

  function ForwardWeight(d: StepDefinition, step: StepSnapshot): int {
    match step.state
    case Running => 2 * (d.maxAttempts - step.attempts) + 1
    case Pending => 2 * (d.maxAttempts - step.attempts)
    case WaitingRetry => 2 * (d.maxAttempts - step.attempts)
    case _ => 0
  }

  function CompensationWeight(d: StepDefinition, step: StepSnapshot): int {
    match step.state
    case Compensated => 0
    case CompensationFailed => 0
    case Compensating => 2 * (d.maxAttempts - step.compensationAttempts) + 1
    case _ => 2 * (d.maxAttempts - step.compensationAttempts)
  }

  function StepWeight(d: StepDefinition, step: StepSnapshot): int {
    ForwardWeight(d, step) + CompensationWeight(d, step)
  }

  /** The handler starts and finishes the first `n` steps can still have. */
  function StepsWeight(def: Definition, steps: seq<StepSnapshot>, n: nat): int
    requires n <= |steps| && n <= |def.steps|
  {
    if n == 0 then 0 else StepsWeight(def, steps, n - 1) + StepWeight(def.steps[n - 1], steps[n - 1])
  }

  function PhaseRank(state: WorkflowState): nat {
    if Terminal(state) then 0 else if IsCompensating(state) then 1 else 2
  }

  function Measure(def: Definition, s: Snapshot): int
    requires |s.steps| == |def.steps|
  {
    StepsWeight(def, s.steps, |s.steps|) + PhaseRank(s.state)
  }

  lemma {:induction false} WeightNonnegative(id: string, def: Definition, steps: seq<StepSnapshot>, n: nat)
    requires StepsMatch(id, def, steps) && n <= |steps|
    ensures StepsWeight(def, steps, n) >= 0
  {
    if n > 0 {
      WeightNonnegative(id, def, steps, n - 1);
      assert StepMatches(id, n - 1, def.steps[n - 1], steps[n - 1]);
    }
  }

  /** Pointwise smaller weights have a smaller sum. */
  lemma {:induction false} WeightMonotone(def: Definition, a: seq<StepSnapshot>, b: seq<StepSnapshot>, n: nat)
    requires n <= |a| == |b| && n <= |def.steps|
    requires forall i :: 0 <= i < n ==> StepWeight(def.steps[i], b[i]) <= StepWeight(def.steps[i], a[i])
    ensures StepsWeight(def, b, n) <= StepsWeight(def, a, n)
  {
    if n > 0 {
      WeightMonotone(def, a, b, n - 1);
    }
  }

  /** Replacing one step changes the sum by the change of that step. */
  lemma {:induction false} WeightReplace(def: Definition, steps: seq<StepSnapshot>, i: nat, step: StepSnapshot, n: nat)
    requires n <= |steps| && n <= |def.steps| && i < |steps|
    ensures StepsWeight(def, steps[i := step], n)
      == StepsWeight(def, steps, n) + (if i < n then StepWeight(def.steps[i], step) - StepWeight(def.steps[i], steps[i]) else 0)
  {
    if n > 0 {
      WeightReplace(def, steps, i, step, n - 1);
    }
  }

  // ----------------------------------------------------------------- effect

  /**
   * What one commit may do to one step: attempts only grow, an output once committed stays, a
   * new output comes from a running step in a forward state, and nothing becomes active or
   * committed again once the saga unwinds.
   */
  predicate StepEffect(forward: bool, a: StepSnapshot, b: StepSnapshot) {
    && a.name == b.name && a.key == b.key && a.compensationKey == b.compensationKey
    && a.attempts <= b.attempts && a.compensationAttempts <= b.compensationAttempts
    && (HasOutput(a.state) ==> HasOutput(b.state) && b.output == a.output)
    && (b.state.Committed? && !a.state.Committed? ==> forward && a.state.Running?)
    && (IsActive(b) ==> IsActive(a) || (a.state.Committed? && !forward))
    && (a.state.Compensated? ==> b.state.Compensated?)
  }

  predicate StepsEffect(forward: bool, a: seq<StepSnapshot>, b: seq<StepSnapshot>) {
    |a| == |b| && forall i :: 0 <= i < |a| ==> StepEffect(forward, a[i], b[i])
  }

  /** A candidate `c` built from the snapshot `s`. */
  predicate Effect(def: Definition, s: Snapshot, c: Snapshot) {
    && c.header == s.header
    && c.revision == s.revision
    && c.lease == s.lease
    && c.updatedAt >= s.updatedAt
    && (s.cancellationRequested ==> c.cancellationRequested)
    && (IsForward(c.state) ==> IsForward(s.state))
    && |s.steps| == |def.steps|
    && StepsEffect(IsForward(s.state), s.steps, c.steps)
    && Measure(def, c) < Measure(def, s)
  }

  lemma EffectOfReplace(def: Definition, s: Snapshot, i: nat, step: StepSnapshot, c: Snapshot)
    requires |s.steps| == |def.steps| && i < |s.steps|
    requires c == s.(steps := s.steps[i := step], state := c.state, cancellationRequested := c.cancellationRequested)
    requires s.cancellationRequested ==> c.cancellationRequested
    requires IsForward(c.state) ==> IsForward(s.state)
    requires PhaseRank(c.state) <= PhaseRank(s.state)
    requires StepEffect(IsForward(s.state), s.steps[i], step)
    requires StepWeight(def.steps[i], step) < StepWeight(def.steps[i], s.steps[i])
    ensures Effect(def, s, c)
  {
    WeightReplace(def, s.steps, i, step, |s.steps|);
  }

  /** The state a commit leaves is never an earlier phase. */
  lemma FinishForwardEffect(s: Snapshot, def: Definition, i: nat, outcome: Outcome, observed: bool)
    requires RunningAt(s, def, i)
    ensures Effect(def, s, FinishForward(s, def, i, outcome, observed))
  {
    var c := FinishForward(s, def, i, outcome, observed);
    assert ValidStep(s.steps[i]) && StepMatches(s.header.id, i, def.steps[i], s.steps[i]) && StepSound(s.state, s.steps[i]);
    EffectOfReplace(def, s, i, c.steps[i], c);
  }

  lemma FinishCompensationEffect(s: Snapshot, def: Definition, i: nat, outcome: Outcome)
    requires Base(s, def) && IsCompensating(s.state) && i < |s.steps| && s.steps[i].state.Compensating?
    ensures Effect(def, s, FinishCompensation(s, def, i, outcome))
  {
    var c := FinishCompensation(s, def, i, outcome);
    assert ValidStep(s.steps[i]) && StepMatches(s.header.id, i, def.steps[i], s.steps[i]) && StepSound(s.state, s.steps[i]);
    EffectOfReplace(def, s, i, c.steps[i], c);
  }

  /** A candidate that only settles the workflow, resetting waiting steps on the way. */
  lemma CancelEffect(s: Snapshot, def: Definition)
    requires |s.steps| == |def.steps| && IsForward(s.state) && s.cancellationRequested
    ensures Effect(def, s, CancelCandidate(s, def))
  {
    var c := CancelCandidate(s, def);
    forall i | 0 <= i < |s.steps|
      ensures StepWeight(def.steps[i], c.steps[i]) <= StepWeight(def.steps[i], s.steps[i])
      ensures StepEffect(IsForward(s.state), s.steps[i], c.steps[i])
    {
      assert c.steps[i] == ResetWaiting(s.steps[i]);
    }
    WeightMonotone(def, s.steps, c.steps, |s.steps|);
  }

  lemma AdvanceEffect(s: Snapshot, def: Definition, error: ErrorText, retryAt: Option<Time>)
    requires ValidDefinition(def) && Sound(s, def) && !Terminal(s.state)
    ensures Effect(def, s, Advance(s, def, error, retryAt).next)
  {
    if s.cancellationRequested && !IsCompensating(s.state) {
      CancelEffect(s, def);
    } else if IsCompensating(s.state) {
      CompensatingIsSound(s, def);
      AdvanceCompensationEffect(s, def, error, retryAt);
    } else {
      ForwardIsSound(s, def);
      AdvanceForwardEffect(s, def, error, retryAt);
    }
  }

  lemma AdvanceForwardEffect(s: Snapshot, def: Definition, error: ErrorText, retryAt: Option<Time>)
    requires Base(s, def) && IsForward(s.state) && !s.cancellationRequested && ForwardAt(s.steps, FirstUncommitted(s.steps))
    requires HasRunning(s.steps) ==> s.state.Running?
    ensures Effect(def, s, Advance(s, def, error, retryAt).next)
  {
    var i := FirstUncommitted(s.steps);
    if i < |s.steps| {
      var c := Advance(s, def, error, retryAt).next;
      assert ValidStep(s.steps[i]) && StepMatches(s.header.id, i, def.steps[i], s.steps[i]) && StepSound(s.state, s.steps[i]);
      EffectOfReplace(def, s, i, c.steps[i], c);
    }
  }

  lemma StartCompensationEffect(s: Snapshot, def: Definition, i: nat)
    requires Base(s, def) && IsCompensating(s.state) && i < |s.steps|
    requires s.steps[i].state.Committed? || s.steps[i].state.CompensationWaitingRetry?
    ensures Effect(def, s, StartCompensation(s, i))
  {
    var c := StartCompensation(s, i);
    EffectOfReplace(def, s, i, c.steps[i], c);
  }

  lemma AdvanceCompensationEffect(s: Snapshot, def: Definition, error: ErrorText, retryAt: Option<Time>)
    requires Base(s, def) && IsCompensating(s.state)
    ensures Effect(def, s, Advance(s, def, error, retryAt).next)
  {
    var i := LastOpen(def, s.steps, |s.steps| - 1);
    if i >= 0 {
      if s.steps[i].state.Compensating? {
        FinishCompensationEffect(s, def, i, Failure(error, retryAt));
      } else {
        StartCompensationEffect(s, def, i);
      }
    }
  }
}
