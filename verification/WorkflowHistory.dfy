/**
 * What the history of a whole run says: fencing, one cancellation, handler bounds, saga order
 * and accounting, and termination (packages/workflows/src/manager.ts:124-255,
 * packages/workflows/src/store.ts:84-128).
 */
module WorkflowHistory {
  import opened Options
  import opened WorkflowTypes
  import opened WorkflowValidation
  import opened WorkflowManager
  import opened WorkflowProgress
  import opened WorkflowEffects
  import opened WorkflowStore
  import opened WorkflowProtocol
  import opened WorkflowSafety

  // ------------------------------------------------- what one accepted commit does

  predicate IsOpenStep(step: StepSnapshot) {
    IsCompensatableCommit(step) || IsActive(step)
  }

  /** The steps that gained an output are exactly those the history says, with the value it says. */
  predicate OutputsOk(before: seq<StepSnapshot>, after: seq<StepSnapshot>, outs: seq<Event>) {
    && |before| == |after|
    && (|| (outs == [] && NoNewOutput(before, after))
        || (|outs| == 1 && outs[0].OutputCommitted? && outs[0].index < |before|
            && !HasOutput(before[outs[0].index].state) && HasOutput(after[outs[0].index].state)
            && after[outs[0].index].output == Some(outs[0].output)
            && (forall i :: 0 <= i < |before| && i != outs[0].index && HasOutput(after[i].state) ==> HasOutput(before[i].state))))
  }

  /** A start takes the next attempt of its step; a compensation starts at the last open step. */
  predicate StartsOk(row: Snapshot, row': Snapshot, starts: seq<Event>) {
    && |row.steps| == |row'.steps|
    && (|| starts == []
        || (|starts| == 1 && starts[0].Started? && starts[0].index < |row.steps|
            && starts[0].attempt == AttemptOf(starts[0].direction, row'.steps[starts[0].index])
            && starts[0].attempt == AttemptOf(starts[0].direction, row.steps[starts[0].index]) + 1
            && (starts[0].direction.Forward? ==> IsForward(row.state))
            && (starts[0].direction.Compensation? ==> CompensationStart(row, row', starts[0].index))))
  }

  predicate CompensationStart(v: Snapshot, next: Snapshot, i: nat) {
    && !IsForward(v.state) && !IsForward(next.state)
    && i < |v.steps| && IsOpenStep(v.steps[i]) && LastOpenAt(next.steps, i)
  }

  predicate CommitStep(def: Definition, g: World, g': World, t: Token, outs: seq<Event>, starts: seq<Event>) {
    && Holds(g.row, t)
    && (g'.row.lease.None? || g'.row.lease == g.row.lease)
    && g'.row.header == g.row.header && g'.row.revision == g.row.revision + 1
    && g'.row.cancellationRequested == g.row.cancellationRequested
    && (IsForward(g'.row.state) ==> IsForward(g.row.state))
    && |g.row.steps| == |def.steps|
    && StepsEffect(IsForward(g.row.state), g.row.steps, g'.row.steps)
    && Measure(def, g'.row) < Measure(def, g.row)
    && OutputsOk(g.row.steps, g'.row.steps, outs)
    && StartsOk(g.row, g'.row, starts)
    && g'.log == g.log + [CommitAccepted(t)] + outs + starts
  }

  /** Where new outputs of a candidate may come from. */
  predicate OutputSource(p: Phase, next: Snapshot)
    requires !p.Idle?
  {
    && |p.view.steps| == |next.steps|
    && (forall i :: 0 <= i < |next.steps| && HasOutput(next.steps[i].state) && !HasOutput(p.view.steps[i].state) ==>
          p.Handling? && p.direction.Forward? && i == p.index && next.steps[i].state.Committed? && next.steps[i].output.Some?)
    && (p.Handling? && p.direction.Forward? ==> p.index < |p.view.steps| && !HasOutput(p.view.steps[p.index].state))
  }

  predicate StartSource(v: Snapshot, plan: Plan) {
    plan.Start? ==>
      && plan.index < |v.steps| == |plan.next.steps|
      && AttemptOf(plan.direction, plan.next.steps[plan.index]) == AttemptOf(plan.direction, v.steps[plan.index]) + 1
      && (plan.direction.Forward? ==> IsForward(v.state))
      && (plan.direction.Compensation? ==> CompensationStart(v, plan.next, plan.index))
  }

  function StartEvents(plan: Plan): seq<Event> {
    if plan.Start? && plan.index < |plan.next.steps|
    then [Started(plan.direction, plan.index, AttemptOf(plan.direction, plan.next.steps[plan.index]))] else []
  }

  predicate Unchanged(g: World, g': World) {
    g'.row == g.row && g'.log == g.log
  }

  lemma CommitFacts(def: Definition, g: World, w: nat, now: Time, plan: Plan)
    requires Inv(def, g) && (PhaseOf(g, w).Claimed? || PhaseOf(g, w).Handling? || PhaseOf(g, w).Reconciling?)
    requires Effect(def, PhaseOf(g, w).view, plan.next)
    requires OutputSource(PhaseOf(g, w), plan.next) && StartSource(PhaseOf(g, w).view, plan)
    requires Holds(g.row, PhaseOf(g, w).token) && plan.next.cancellationRequested ==> g.row.cancellationRequested
    ensures var g' := CommitBy(def, g, w, Touch(plan.next, now), now, plan);
      || Unchanged(g, g')
      || CommitStep(def, g, g', PhaseOf(g, w).token, OutputEvents(PhaseOf(g, w), Touch(plan.next, now)), StartEvents(plan))
  {
    hide Sound, MatchesDefinition, HandlingAt, SameIdentity, ValidSnapshot, StepEffect, StepsWeight, LastOpenAt;
    var p := PhaseOf(g, w);
    var candidate := Touch(plan.next, now);
    var g' := CommitBy(def, g, w, candidate, now, plan);
    assert PhaseOk(def, g.row, g.used, p);
    if !Unchanged(g, g') {
      assert HolderView(g.row, p.view);
      var row' := CommitRow(g.row, candidate, p.view.revision, p.token, now, plan.Finish?).value;
      assert row'.steps == plan.next.steps && row'.state == plan.next.state;
      assert OutputsOk(g.row.steps, row'.steps, OutputEvents(p, candidate));
      assert g'.log == g.log + [CommitAccepted(p.token)] + OutputEvents(p, candidate) + StartEvents(plan);
    }
  }

  // ------------------------------------------------------- the three committing actions

  /** How the history may grow when a worker tries to commit. */
  ghost predicate MaybeCommit(def: Definition, g: World, g': World, t: Token) {
    Unchanged(g, g') || exists outs, starts :: CommitStep(def, g, g', t, outs, starts)
  }

  lemma AdvanceOutputs(s: Snapshot, def: Definition, error: ErrorText, retryAt: Option<Time>)
    requires |s.steps| == |def.steps|
    ensures var next := Advance(s, def, error, retryAt).next;
      NoNewOutput(s.steps, next.steps) && next.cancellationRequested == s.cancellationRequested
  {
    hide HasCompensation;
  }

  lemma AdvanceStarts(s: Snapshot, def: Definition, error: ErrorText, retryAt: Option<Time>)
    requires Base(s, def)
    requires !IsCompensating(s.state) ==> IsForward(s.state)
    ensures StartSource(s, Advance(s, def, error, retryAt))
  {
    hide StepwiseSound, HasCompensation, ValidTimes;
    assert |s.steps| == |def.steps| by { StepCount(s, def); }
    var plan := Advance(s, def, error, retryAt);
    if plan.Start? && plan.direction.Compensation? {
      LastOpenByKey(s, def, plan.index);
    }
  }

  lemma StepCount(s: Snapshot, def: Definition)
    requires Base(s, def)
    ensures |s.steps| == |def.steps|
  {
    hide ValidSteps, DistinctNames, StepsSound;
  }

  lemma AdvanceSources(s: Snapshot, def: Definition, error: ErrorText, retryAt: Option<Time>)
    requires Sound(s, def) && !Terminal(s.state)
    ensures |s.steps| == |def.steps|
    ensures var plan := Advance(s, def, error, retryAt);
      StartSource(s, plan) && NoNewOutput(s.steps, plan.next.steps) && plan.next.cancellationRequested == s.cancellationRequested
  {
    hide Sound, StartSource, NoNewOutput, Base, Advance;
    BaseOf(s, def);
    StepCount(s, def);
    AdvanceOutputs(s, def, error, retryAt);
    AdvanceStarts(s, def, error, retryAt);
  }

  lemma BaseOf(s: Snapshot, def: Definition)
    requires Sound(s, def)
    ensures Base(s, def)
  {
    hide StateBoundary, ValidSteps, DistinctNames, StepsSound, CompensationOrder, StateMatches;
  }

  lemma AdvanceCommits(def: Definition, g: World, a: Action)
    requires ValidDefinition(def) && Inv(def, g) && a.AdvanceStep?
    ensures Unchanged(g, Next(def, g, a)) || (PhaseOf(g, a.w).Claimed? && MaybeCommit(def, g, Next(def, g, a), PhaseOf(g, a.w).token))
  {
    hide Sound, HandlingAt, Effect, MatchesDefinition, ValidDefinition, StartSource, CommitStep;
    var p := PhaseOf(g, a.w);
    if p.Claimed? && |p.view.steps| == |def.steps| {
      assert PhaseOk(def, g.row, g.used, p);
      var plan := Advance(p.view, def, a.error, a.retryAt);
      AdvanceEffect(p.view, def, a.error, a.retryAt);
      AdvanceSources(p.view, def, a.error, a.retryAt);
      CommitFacts(def, g, a.w, a.now, plan);
    }
  }

  lemma FinishSources(def: Definition, p: Phase, handler: HandlerResult)
    requires p.Handling? && HandlingAt(def, p.view, p.direction, p.index) && (p.cancellationSeen ==> p.direction.Forward?)
    ensures p.index < |p.view.steps| && p.index < |def.steps|
    ensures var next := FinishCandidate(def, p, handler);
      OutputSource(p, next) && (next.cancellationRequested ==> p.view.cancellationRequested || p.cancellationSeen)
  {
    hide CompensationBoundary, CompensationOrder, ValidSteps, DistinctNames, StepsSound, PendingFrom, CommittedUpTo;
  }

  lemma FinishCommits(def: Definition, g: World, a: Action)
    requires Inv(def, g) && a.FinishStep?
    ensures Unchanged(g, Next(def, g, a)) || (PhaseOf(g, a.w).Handling? && MaybeCommit(def, g, Next(def, g, a), PhaseOf(g, a.w).token))
  {
    hide Sound, RunningAt, CompensatingAt, Effect, MatchesDefinition, OutputSource, CommitStep, FinishCandidate;
    var p := PhaseOf(g, a.w);
    if p.Handling? && p.invoked && p.index < |p.view.steps| && p.index < |def.steps| {
      assert PhaseOk(def, g.row, g.used, p);
      var next := FinishCandidate(def, p, a.handler);
      FinishSources(def, p, a.handler);
      FinishEffect(def, p, a.handler);
      CommitFacts(def, g, a.w, a.now, Finish(next));
    }
  }

  lemma FinishEffect(def: Definition, p: Phase, handler: HandlerResult)
    requires p.Handling? && HandlingAt(def, p.view, p.direction, p.index) && p.index < |p.view.steps| && p.index < |def.steps|
    ensures Effect(def, p.view, FinishCandidate(def, p, handler))
  {
    hide RunningAt, CompensatingAt, Effect;
    var outcome := OutcomeOf(p.direction, handler, p.cancellationSeen);
    if p.direction.Forward? {
      FinishForwardEffect(p.view, def, p.index, outcome, p.cancellationSeen);
    } else {
      CompensatingBase(p.view, def, p.index);
      FinishCompensationEffect(p.view, def, p.index, outcome);
    }
  }

  lemma RecommitCommits(def: Definition, g: World, a: Action)
    requires Inv(def, g) && a.Recommit?
    ensures Unchanged(g, Next(def, g, a)) || (PhaseOf(g, a.w).Reconciling? && MaybeCommit(def, g, Next(def, g, a), PhaseOf(g, a.w).token))
  {
    hide Sound, HandlingAt, Effect, CommitStep, MatchesDefinition;
    var p := PhaseOf(g, a.w);
    if p.Reconciling? {
      assert PhaseOk(def, g.row, g.used, p);
      CommitFacts(def, g, a.w, a.now, Finish(p.candidate));
    }
  }

  // ------------------------------------------------------------- kinds of actions

  predicate ClaimStep(g: World, g': World, t: Token) {
    && t !in g.used
    && g'.row == g.row.(revision := g.row.revision + 1, lease := g'.row.lease, updatedAt := g'.row.updatedAt)
    && g'.row.lease.Some? && g'.row.lease.value.token == t
    && g'.used == g.used + {t}
    && g'.log == g.log + [ClaimAccepted(t)]
  }

  predicate RenewStep(g: World, g': World, t: Token) {
    Holds(g.row, t) && g'.row == g.row.(lease := g'.row.lease) && Holds(g'.row, t) && g'.log == g.log + [RenewAccepted(t)]
  }

  predicate CancelStep(g: World, g': World) {
    && !g.row.cancellationRequested && !Terminal(g.row.state)
    && g'.row == g.row.(revision := g.row.revision + 1, cancellationRequested := true, updatedAt := g'.row.updatedAt)
    && g'.log == g.log + [CancelAccepted]
  }

  predicate InvokeStep(g: World, g': World, w: nat) {
    && PhaseOf(g, w).Handling? && !PhaseOf(g, w).invoked && PhaseOf(g, w).index < |PhaseOf(g, w).view.steps|
    && g'.row == g.row
    && g'.log == g.log + [InvocationOf(PhaseOf(g, w))]
  }

  function InvocationOf(p: Phase): Event
    requires p.Handling? && p.index < |p.view.steps|
  {
    Invoked(p.direction, p.index, AttemptOf(p.direction, p.view.steps[p.index]))
  }

  /** Every action is one of these. */
  ghost predicate Step(def: Definition, g: World, g': World, w: nat) {
    || Unchanged(g, g')
    || (exists t :: ClaimStep(g, g', t))
    || (exists t :: RenewStep(g, g', t))
    || CancelStep(g, g')
    || InvokeStep(g, g', w)
    || (exists t, outs, starts :: CommitStep(def, g, g', t, outs, starts))
  }

  lemma EveryAction(def: Definition, g: World, a: Action)
    requires ValidDefinition(def) && Inv(def, g)
    ensures Step(def, g, Next(def, g, a), a.w)
    ensures g.used <= Next(def, g, a).used
    ensures !a.Claim? ==> Next(def, g, a).used == g.used
  {
    hide Sound, HandlingAt, Effect, CommitStep, ValidDefinition, MatchesDefinition, CommitRow;
    var g' := Next(def, g, a);
    var p := PhaseOf(g, a.w);
    assert p.Idle? || PhaseOk(def, g.row, g.used, p);
    match a
    case AdvanceStep(_, _, _, _) => AdvanceCommits(def, g, a);
    case FinishStep(_, _, _) => FinishCommits(def, g, a);
    case Recommit(_, _) => RecommitCommits(def, g, a);
    case Claim(_, token, _, _) => assert Unchanged(g, g') || ClaimStep(g, g', token);
    case Renew(_, _, _) => assert Unchanged(g, g') || RenewStep(g, g', p.token);
    case RequestCancel(_, _) => assert Unchanged(g, g') || CancelStep(g, g');
    case Invoke(_) => assert Unchanged(g, g') || InvokeStep(g, g', a.w);
    case _ => assert Unchanged(g, g');
  }
}
