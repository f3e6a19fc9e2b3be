/**
 * What every interleaving keeps (packages/workflows/src/store.ts:103-128,
 * packages/workflows/src/manager.ts:235-255, packages/workflows/src/validation.ts:342-358).
 */
module WorkflowSafety {
  import opened Options
  import opened WorkflowTypes
  import opened WorkflowValidation
  import opened WorkflowManager
  import opened WorkflowProgress
  import opened WorkflowEffects
  import opened WorkflowStore
  import opened WorkflowProtocol

  // ------------------------------------------------------------- the invariant

  predicate SameBody(a: Snapshot, b: Snapshot) {
    a.header == b.header && a.state == b.state && a.steps == b.steps
  }

  predicate SameLeaseOwner(a: Snapshot, b: Snapshot) {
    (a.lease.Some? <==> b.lease.Some?) && (a.lease.Some? ==> a.lease.value.token == b.lease.value.token)
  }

  /** Equal revisions mean equal contents, except that a renewal may have moved the lease deadline. */
  predicate Agree(v: Snapshot, row: Snapshot) {
    && SameBody(v, row) && SameLeaseOwner(v, row)
    && v.cancellationRequested == row.cancellationRequested && v.updatedAt == row.updatedAt
  }

  predicate ViewOk(def: Definition, row: Snapshot, v: Snapshot) {
    && Sound(v, def)
    && v.header == row.header
    && v.revision <= row.revision
    && (v.revision == row.revision ==> Agree(v, row))
  }

  /** What a lease holder last saw is the row, or the row before one cancellation. */
  predicate HolderView(row: Snapshot, v: Snapshot) {
    && SameBody(v, row)
    && (|| (v.revision == row.revision && v.cancellationRequested == row.cancellationRequested && v.updatedAt == row.updatedAt)
        || (row.revision == v.revision + 1 && !v.cancellationRequested && row.cancellationRequested && v.updatedAt <= row.updatedAt))
  }

  predicate TokenOk(row: Snapshot, used: set<Token>, v: Snapshot, t: Token) {
    && t in used && v.lease.Some? && v.lease.value.token == t
    && (Holds(row, t) ==> HolderView(row, v) && v.lease.value.expiresAt <= row.lease.value.expiresAt)
  }

  predicate HandlingAt(def: Definition, v: Snapshot, direction: Direction, i: nat) {
    if direction.Forward? then RunningAt(v, def, i) else CompensatingAt(v, def, i)
  }

  predicate SeenOk(row: Snapshot, p: Phase)
    requires p.Handling?
  {
    && (Holds(row, p.token) ==> HolderView(row, p.seen) && p.seen.lease == row.lease)
    && p.view.revision <= p.seen.revision
    && (p.cancellationSeen ==> p.direction.Forward? && (Holds(row, p.token) ==> row.cancellationRequested))
  }

  /** How a candidate that ends the workflow going forward was built. */
  predicate TerminalForward(v: Snapshot, c: Snapshot) {
    IsForward(v.state) && NoNewOutput(v.steps, c.steps) && (c.state.Failed? || (c.state.Completed? && c.steps == v.steps))
  }

  predicate NoNewOutput(a: seq<StepSnapshot>, b: seq<StepSnapshot>) {
    |a| == |b| && forall i :: 0 <= i < |a| && HasOutput(b[i].state) ==> HasOutput(a[i].state)
  }

  predicate PhaseOk(def: Definition, row: Snapshot, used: set<Token>, p: Phase) {
    match p
    case Idle => true
    case Observed(v) => ViewOk(def, row, v) && !Terminal(v.state)
    case Cancelling(v) => ViewOk(def, row, v) && !v.cancellationRequested
    case Claimed(v, t) => ViewOk(def, row, v) && TokenOk(row, used, v, t) && !Terminal(v.state)
    case Handling(v, t, _, direction, index, _, _) =>
      ViewOk(def, row, v) && TokenOk(row, used, v, t) && HandlingAt(def, v, direction, index) && SeenOk(row, p)
    case Conflicted(v, t, c) =>
      ViewOk(def, row, v) && TokenOk(row, used, v, t) && Sound(c, def) && Effect(def, v, c)
      && TerminalForward(v, c)
    case Reconciling(v, t, c) =>
      ViewOk(def, row, v) && TokenOk(row, used, v, t) && Sound(c, def) && Effect(def, v, c)
      && v.cancellationRequested && (c.state.Compensating? || c.state.Cancelled?) && NoNewOutput(v.steps, c.steps)
  }

  function TokenOf(p: Phase): Option<Token> {
    if p.Claimed? || p.Handling? || p.Conflicted? || p.Reconciling? then Some(p.token) else None
  }

  predicate DistinctTokens(g: World) {
    forall a, b :: a in g.workers && b in g.workers && a != b && TokenOf(g.workers[a]).Some? ==> TokenOf(g.workers[a]) != TokenOf(g.workers[b])
  }

  ghost predicate Inv(def: Definition, g: World) {
    && Sound(g.row, def)
    && (g.row.lease.Some? ==> g.row.lease.value.token in g.used)
    && (forall w :: w in g.workers ==> PhaseOk(def, g.row, g.used, g.workers[w]))
    && DistinctTokens(g)
  }

  // ------------------------------------------------------------ moves of the row

  predicate CancelMove(row: Snapshot, row': Snapshot) {
    && SameBody(row, row') && row'.revision == row.revision + 1
    && !row.cancellationRequested && row'.cancellationRequested && row.updatedAt <= row'.updatedAt
  }

  predicate RenewMove(row: Snapshot, row': Snapshot) {
    row'.revision == row.revision && Agree(row, row')
  }

  /** A worker holding `t` is not affected, except that it may meet a cancellation. */
  predicate Undisturbed(row: Snapshot, row': Snapshot, t: Token) {
    Holds(row', t) ==> Holds(row, t) && row'.lease == row.lease && (row' == row || CancelMove(row, row'))
  }

  predicate Moves(row: Snapshot, row': Snapshot) {
    row'.header == row.header && (row'.revision > row.revision || RenewMove(row, row'))
  }

  lemma PhaseSurvives(def: Definition, row: Snapshot, row': Snapshot, used: set<Token>, used': set<Token>, p: Phase)
    requires PhaseOk(def, row, used, p) && Moves(row, row') && used <= used'
    requires TokenOf(p).Some? ==> Undisturbed(row, row', TokenOf(p).value)
    ensures PhaseOk(def, row', used', p)
  {
    hide Sound, RunningAt, CompensatingAt, Effect;
  }

  /** One worker moves and perhaps moves the row; everyone else stays consistent. */
  lemma Assemble(def: Definition, g: World, g': World, w: nat, p: Phase)
    requires Inv(def, g)
    requires g'.workers == g.workers[w := p] && g.used <= g'.used
    requires Sound(g'.row, def) && Moves(g.row, g'.row)
    requires g'.row.lease.Some? ==> g'.row.lease.value.token in g'.used
    requires PhaseOk(def, g'.row, g'.used, p)
    requires TokenOf(p).Some? ==> TokenOf(p) == TokenOf(PhaseOf(g, w)) || TokenOf(p).value !in g.used
    requires forall t :: t in g.used && TokenOf(PhaseOf(g, w)) != Some(t) ==> Undisturbed(g.row, g'.row, t)
    ensures Inv(def, g')
  {
    hide Sound, RunningAt, CompensatingAt, Effect, Undisturbed, Moves;
    forall v | v in g'.workers
      ensures PhaseOk(def, g'.row, g'.used, g'.workers[v])
    {
      if v != w {
        TokenInUse(def, g, v);
        PhaseSurvives(def, g.row, g'.row, g.used, g'.used, g.workers[v]);
      }
    }
    forall v | v in g.workers ensures TokenOf(g.workers[v]).Some? ==> TokenOf(g.workers[v]).value in g.used {
      TokenInUse(def, g, v);
    }
  }

  lemma TokenInUse(def: Definition, g: World, v: nat)
    requires Inv(def, g) && v in g.workers
    ensures TokenOf(g.workers[v]).Some? ==> TokenOf(g.workers[v]).value in g.used
  {
    hide Sound, RunningAt, CompensatingAt, Effect;
    assert PhaseOk(def, g.row, g.used, g.workers[v]);
  }

  // ----------------------------------------------------- soundness of new rows

  /** Revision, lease, time and an added cancellation do not touch the boundary of a live snapshot. */
  lemma ManagedFieldsSound(def: Definition, s: Snapshot, s': Snapshot)
    requires Sound(s, def) && SameBody(s, s') && ValidTimes(s')
    requires s'.cancellationRequested == s.cancellationRequested
      || (s'.cancellationRequested && !s.state.Completed? && !s.state.Failed?)
    ensures Sound(s', def)
  {
    hide ForwardBoundary, CompensationBoundary, ValidSteps, DistinctNames, StepsMatch, StepsSound, CompensationOrder, StateMatches;
  }

  lemma ManagedFieldsMatch(def: Definition, s: Snapshot, s': Snapshot)
    requires MatchesDefinition(s, def) && SameBody(s, s') && ValidTimes(s') && s.cancellationRequested == s'.cancellationRequested
    ensures MatchesDefinition(s', def)
  {
    hide ForwardBoundary, CompensationBoundary, ValidSteps, DistinctNames, StepsMatch, StepsSound, CompensationOrder, StateMatches;
  }

  lemma HandlingManaged(def: Definition, s: Snapshot, s': Snapshot, direction: Direction, i: nat)
    requires HandlingAt(def, s, direction, i) && SameBody(s, s') && ValidTimes(s')
    ensures HandlingAt(def, s', direction, i)
  {
    hide ForwardAt, CompensationBoundary, StepwiseSound, CompensationOrder, LastOpenAt;
  }

  lemma SoundTimes(def: Definition, s: Snapshot)
    requires Sound(s, def)
    ensures ValidTimes(s) && ValidSnapshot(s) && MatchesDefinition(s, def)
  {
    hide StateBoundary, ValidSteps, DistinctNames, StepsMatch, StepsSound, CompensationOrder, StateMatches;
  }

  // ------------------------------------------------------------- one commit

  /** The row a commit writes is sound, also when it absorbs a cancellation. */
  lemma CommitRowSound(def: Definition, row: Snapshot, view: Snapshot, candidate: Snapshot, token: Token, now: Time, release: bool)
    requires Sound(row, def) && Sound(candidate, def) && SameHeaderAndFlag(view, candidate)
    requires Holds(row, token) ==> HolderView(row, view)
    requires CommitRow(row, candidate, view.revision, token, now, release).Ok?
    ensures Sound(CommitRow(row, candidate, view.revision, token, now, release).value, def)
  {
    hide Sound, MatchesDefinition, ValidSnapshot, SameIdentity;
    SoundTimes(def, row);
    SoundTimes(def, candidate);
    ManagedFieldsSound(def, candidate, CommitRow(row, candidate, view.revision, token, now, release).value);
  }

  predicate SameHeaderAndFlag(view: Snapshot, candidate: Snapshot) {
    candidate.header == view.header && (view.cancellationRequested ==> candidate.cancellationRequested)
  }

  lemma TouchedCandidate(def: Definition, view: Snapshot, next: Snapshot, now: Time)
    requires Effect(def, view, next) && ValidTimes(next)
    requires MatchesDefinition(next, def) ==> Sound(next, def)
    requires MatchesDefinition(Touch(next, now), def)
    ensures Sound(Touch(next, now), def) && Effect(def, view, Touch(next, now)) && SameHeaderAndFlag(view, Touch(next, now))
  {
    hide Sound, MatchesDefinition, StepEffect, Measure;
    var candidate := Touch(next, now);
    assert ValidTimes(candidate) by { MatchTimes(def, candidate); }
    ManagedFieldsMatch(def, candidate, next);
    ManagedFieldsSound(def, next, candidate);
    assert Measure(def, candidate) == Measure(def, next) by { MeasureOfBody(def, candidate, next); }
  }

  lemma MeasureOfBody(def: Definition, a: Snapshot, b: Snapshot)
    requires a.steps == b.steps && a.state == b.state && |a.steps| == |def.steps|
    ensures Measure(def, a) == Measure(def, b)
  {
  }

  lemma MatchTimes(def: Definition, s: Snapshot)
    requires MatchesDefinition(s, def)
    ensures ValidTimes(s)
  {
    hide StateBoundary, ValidSteps, DistinctNames, StepsMatch, StateMatches;
  }

  /** Any commit attempt of a worker keeps the invariant. */
  lemma CommitKeeps(def: Definition, g: World, w: nat, next: Snapshot, now: Time, plan: Plan)
    requires Inv(def, g) && (PhaseOf(g, w).Claimed? || PhaseOf(g, w).Handling? || PhaseOf(g, w).Reconciling?)
    requires Effect(def, PhaseOf(g, w).view, next) && ValidTimes(next)
    requires MatchesDefinition(next, def) ==> Sound(next, def)
    requires plan.Start? ==> HandlingAt(def, next, plan.direction, plan.index)
    requires next.state.Completed? || next.state.Failed? ==> TerminalForward(PhaseOf(g, w).view, next)
    ensures Inv(def, CommitBy(def, g, w, Touch(next, now), now, plan))
  {
    hide Sound, MatchesDefinition, Effect, HandlingAt, SameIdentity, ValidSnapshot;
    var p := PhaseOf(g, w);
    var candidate := Touch(next, now);
    var g' := CommitBy(def, g, w, candidate, now, plan);
    assert PhaseOk(def, g.row, g.used, p);
    if MatchesDefinition(candidate, def) {
      TouchedCandidate(def, p.view, next, now);
      var result := CommitRow(g.row, candidate, p.view.revision, p.token, now, plan.Finish?);
      if result.Ok? {
        CommitRowSound(def, g.row, p.view, candidate, p.token, now, plan.Finish?);
        SoundTimes(def, result.value);
        if plan.Start? {
          HandlingManaged(def, next, result.value, plan.direction, plan.index);
        }
      }
    }
    Assemble(def, g, g', w, g'.workers[w]);
  }

  // ------------------------------------------------------------- one action

  lemma ObserveKeeps(def: Definition, g: World, a: Action)
    requires Inv(def, g) && (a.Observe? || a.ObserveToCancel? || a.Invoke? || a.Crash?)
    ensures Inv(def, Next(def, g, a))
  {
    hide Sound, HandlingAt, Effect;
    var g' := Next(def, g, a);
    assert a.w in g.workers ==> PhaseOk(def, g.row, g.used, g.workers[a.w]);
    if g' != g {
      Assemble(def, g, g', a.w, g'.workers[a.w]);
    }
  }

  lemma ClaimKeeps(def: Definition, g: World, a: Action)
    requires Inv(def, g) && a.Claim?
    ensures Inv(def, Next(def, g, a))
  {
    hide Sound, HandlingAt, Effect;
    var g' := Next(def, g, a);
    var p := PhaseOf(g, a.w);
    if p.Observed? && a.token !in g.used {
      assert PhaseOk(def, g.row, g.used, p);
      var result := ClaimRow(g.row, p.view.revision, a.token, a.now, a.expiresAt);
      if result.Ok? {
        SoundTimes(def, g.row);
        ManagedFieldsSound(def, g.row, result.value);
      }
      Assemble(def, g, g', a.w, g'.workers[a.w]);
    }
  }

  lemma RenewKeeps(def: Definition, g: World, a: Action)
    requires Inv(def, g) && a.Renew?
    ensures Inv(def, Next(def, g, a))
  {
    hide Sound, HandlingAt, Effect;
    var g' := Next(def, g, a);
    var p := PhaseOf(g, a.w);
    if p.Handling? {
      assert PhaseOk(def, g.row, g.used, p);
      var result := RenewRow(g.row, p.view.revision, p.token, a.now, a.expiresAt);
      if result.Ok? {
        SoundTimes(def, g.row);
        ManagedFieldsSound(def, g.row, result.value);
      }
      Assemble(def, g, g', a.w, g'.workers[a.w]);
    }
  }

  lemma CancelKeeps(def: Definition, g: World, a: Action)
    requires Inv(def, g) && a.RequestCancel?
    ensures Inv(def, Next(def, g, a))
  {
    hide Sound, HandlingAt, Effect;
    var g' := Next(def, g, a);
    var p := PhaseOf(g, a.w);
    if p.Cancelling? {
      assert PhaseOk(def, g.row, g.used, p);
      var result := CancelRow(g.row, p.view.revision, a.now);
      if result.Ok? {
        SoundTimes(def, g.row);
        ManagedFieldsSound(def, g.row, result.value);
      }
      Assemble(def, g, g', a.w, g'.workers[a.w]);
    }
  }

  lemma AdvanceKeeps(def: Definition, g: World, a: Action)
    requires ValidDefinition(def) && Inv(def, g) && a.AdvanceStep?
    ensures Inv(def, Next(def, g, a))
  {
    hide Sound, HandlingAt, Effect, MatchesDefinition, ValidDefinition;
    var p := PhaseOf(g, a.w);
    if p.Claimed? && |p.view.steps| == |def.steps| {
      assert PhaseOk(def, g.row, g.used, p);
      var plan := Advance(p.view, def, a.error, a.retryAt);
      AdvanceExact(p.view, def, a.error, a.retryAt);
      AdvanceEffect(p.view, def, a.error, a.retryAt);
      StartedShape(p.view, def, a.error, a.retryAt);
      SoundTimes(def, p.view);
      if plan.Start? {
        DirectionShape(def, plan);
      }
      EffectOfPlan(def, p.view, a.error, a.retryAt);
      CommitKeeps(def, g, a.w, plan.next, a.now, plan);
    }
  }

  lemma DirectionShape(def: Definition, plan: Plan)
    requires plan.Start?
    requires plan.direction.Forward? ==> RunningAt(plan.next, def, plan.index)
    requires plan.direction.Compensation? ==> CompensatingAt(plan.next, def, plan.index)
    ensures HandlingAt(def, plan.next, plan.direction, plan.index)
  {
    hide RunningAt, CompensatingAt;
  }

  lemma EffectOfPlan(def: Definition, s: Snapshot, error: ErrorText, retryAt: Option<Time>)
    requires |s.steps| == |def.steps| && ValidTimes(s)
    ensures ValidTimes(Advance(s, def, error, retryAt).next)
    ensures var next := Advance(s, def, error, retryAt).next;
      !Terminal(s.state) && (next.state.Completed? || next.state.Failed?) ==> TerminalForward(s, next)
  {
  }

  lemma FinishKeeps(def: Definition, g: World, a: Action)
    requires Inv(def, g) && a.FinishStep?
    ensures Inv(def, Next(def, g, a))
  {
    hide Sound, RunningAt, CompensatingAt, Effect, MatchesDefinition, FinishGuard, FinishForward, FinishCompensation, CommitBy, TerminalForward;
    var p := PhaseOf(g, a.w);
    if p.Handling? && p.invoked && p.index < |p.view.steps| && p.index < |def.steps| {
      assert PhaseOk(def, g.row, g.used, p);
      var next := FinishCandidate(def, p, a.handler);
      var outcome := OutcomeOf(p.direction, a.handler, p.cancellationSeen);
      if p.direction.Forward? {
        FinishForwardExact(p.view, def, p.index, outcome, p.cancellationSeen);
        FinishForwardEffect(p.view, def, p.index, outcome, p.cancellationSeen);
        RunningState(p.view, def, p.index);
      } else {
        FinishCompensationExact(p.view, def, p.index, outcome);
        CompensatingBase(p.view, def, p.index);
        FinishCompensationEffect(p.view, def, p.index, outcome);
      }
      SoundTimes(def, p.view);
      FinishShape(p.view, def, p.index, outcome, p.cancellationSeen);
      CommitKeeps(def, g, a.w, next, a.now, Finish(next));
    }
  }

  lemma FinishShape(s: Snapshot, def: Definition, i: nat, outcome: Outcome, observed: bool)
    requires i < |s.steps| && i < |def.steps| && ValidTimes(s)
    ensures ValidTimes(FinishForward(s, def, i, outcome, observed)) && ValidTimes(FinishCompensation(s, def, i, outcome))
    ensures var next := FinishForward(s, def, i, outcome, observed);
      s.state.Running? && (next.state.Completed? || next.state.Failed?) ==> TerminalForward(s, next)
    ensures var next := FinishCompensation(s, def, i, outcome); !next.state.Completed? && !next.state.Failed?
  {
    hide HasCompensation;
  }

  lemma RunningState(s: Snapshot, def: Definition, i: nat)
    requires RunningAt(s, def, i)
    ensures s.state.Running?
  {
    hide ForwardAt, StepwiseSound;
  }

  lemma CompensatingBase(s: Snapshot, def: Definition, i: nat)
    requires CompensatingAt(s, def, i)
    ensures Base(s, def) && IsCompensating(s.state) && i < |s.steps| && s.steps[i].state.Compensating?
  {
    hide CompensationBoundary, CompensationOrder, StepwiseSound;
  }

  /** The second candidate of a lost race unwinds the saga from what is really persisted. */
  lemma ReconcileFailed(def: Definition, row: Snapshot, candidate: Snapshot)
    requires Sound(candidate, def) && candidate.state.Failed? && ValidTimes(row) && row.lease.Some?
    ensures Sound(ReconcileCandidate(def, row, candidate), def) && ReconcileCandidate(def, row, candidate).state.Cancelled?
  {
    var next := ReconcileCandidate(def, row, candidate);
    CompensationByKey(candidate.header.id, def, candidate.steps);
    UnwindSound(next, def, FirstUncommitted(candidate.steps));
  }

  lemma ReconcileCompleted(def: Definition, row: Snapshot, candidate: Snapshot)
    requires Base(row, def) && IsForward(row.state) && row.cancellationRequested && candidate.state.Completed?
    requires CommittedUpTo(row.steps, |row.steps|)
    ensures Sound(ReconcileCandidate(def, row, candidate), def)
  {
    var next := ReconcileCandidate(def, row, candidate);
    forall i | 0 <= i < |row.steps| ensures StepSound(next.state, row.steps[i]) {
      assert StepSound(row.state, row.steps[i]);
    }
    UnwindSound(next, def, |row.steps|);
  }

  lemma CompletedSteps(def: Definition, candidate: Snapshot)
    requires Sound(candidate, def) && candidate.state.Completed?
    ensures CommittedUpTo(candidate.steps, |candidate.steps|)
  {
    hide CompensationBoundary;
  }

  /** The measure already fell for the first candidate, and settling a live row lowers the phase. */
  lemma ReconcileEffect(def: Definition, row: Snapshot, view: Snapshot, candidate: Snapshot)
    requires Effect(def, view, candidate) && HolderView(row, view) && row.cancellationRequested
    requires candidate.state.Failed? || candidate.state.Completed?
    requires candidate.state.Failed? ==> ReconcileCandidate(def, row, candidate).state.Cancelled?
    requires IsForward(row.state)
    ensures Effect(def, row, ReconcileCandidate(def, row, candidate))
  {
    hide StepEffect, StepsWeight;
    var next := ReconcileCandidate(def, row, candidate);
    assert row.steps == view.steps;
    if !candidate.state.Failed? {
      assert StepsEffect(IsForward(row.state), row.steps, row.steps) by {
        forall i | 0 <= i < |row.steps| ensures StepEffect(IsForward(row.state), row.steps[i], row.steps[i]) {
          ReflexiveEffect(IsForward(row.state), row.steps[i]);
        }
      }
    }
  }

  lemma ReflexiveEffect(forward: bool, step: StepSnapshot)
    ensures StepEffect(forward, step, step)
  {
  }

  lemma ReconcileOk(def: Definition, row: Snapshot, view: Snapshot, candidate: Snapshot)
    requires Sound(row, def) && row.cancellationRequested && row.lease.Some? && HolderView(row, view)
    requires Sound(candidate, def) && Effect(def, view, candidate) && TerminalForward(view, candidate)
    ensures var next := ReconcileCandidate(def, row, candidate);
      Sound(next, def) && Effect(def, row, next) && (next.state.Compensating? || next.state.Cancelled?) && NoNewOutput(row.steps, next.steps)
  {
    hide Sound, Effect;
    SoundTimes(def, row);
    if candidate.state.Failed? {
      ReconcileFailed(def, row, candidate);
    } else {
      CompletedSteps(def, candidate);
      ForwardIsSound(row, def);
      ReconcileCompleted(def, row, candidate);
    }
    ReconcileEffect(def, row, view, candidate);
  }

  lemma RereadKeeps(def: Definition, g: World, a: Action)
    requires Inv(def, g) && a.Reread?
    ensures Inv(def, Next(def, g, a))
  {
    hide Sound, HandlingAt, Effect, ReconcileCandidate;
    var g' := Next(def, g, a);
    var p := PhaseOf(g, a.w);
    if p.Conflicted? {
      assert PhaseOk(def, g.row, g.used, p);
      if g.row.cancellationRequested && Holds(g.row, p.token) {
        ReconcileOk(def, g.row, p.view, p.candidate);
      }
      Assemble(def, g, g', a.w, g'.workers[a.w]);
    }
  }

  lemma RecommitKeeps(def: Definition, g: World, a: Action)
    requires Inv(def, g) && a.Recommit?
    ensures Inv(def, Next(def, g, a))
  {
    hide Sound, HandlingAt, Effect;
    var p := PhaseOf(g, a.w);
    if p.Reconciling? {
      assert PhaseOk(def, g.row, g.used, p);
      SoundTimes(def, p.candidate);
      CommitKeeps(def, g, a.w, p.candidate, a.now, Finish(p.candidate));
    }
  }

  /** Every action keeps the invariant. */
  lemma NextKeeps(def: Definition, g: World, a: Action)
    requires ValidDefinition(def) && Inv(def, g)
    ensures Inv(def, Next(def, g, a))
  {
    hide Inv, Next;
    match a
    case Claim(_, _, _, _) => ClaimKeeps(def, g, a);
    case AdvanceStep(_, _, _, _) => AdvanceKeeps(def, g, a);
    case Renew(_, _, _) => RenewKeeps(def, g, a);
    case FinishStep(_, _, _) => FinishKeeps(def, g, a);
    case Reread(_) => RereadKeeps(def, g, a);
    case Recommit(_, _) => RecommitKeeps(def, g, a);
    case RequestCancel(_, _) => CancelKeeps(def, g, a);
    case _ => ObserveKeeps(def, g, a);
  }

  lemma InitialInv(def: Definition, g: World)
    requires Initial(def, g)
    ensures Inv(def, g)
  {
    assert forall i :: 0 <= i < |g.row.steps| ==> Untouched(g.row.steps[i]);
  }

  lemma {:induction false} RunKeeps(def: Definition, g: World, actions: seq<Action>)
    requires ValidDefinition(def) && Inv(def, g)
    ensures Inv(def, Run(def, g, actions))
    decreases |actions|
  {
    hide Inv, Next;
    if |actions| > 0 {
      NextKeeps(def, g, actions[0]);
      RunKeeps(def, Next(def, g, actions[0]), actions[1..]);
    }
  }

  /**
   * Over every interleaving of workers, crashes, lease expiries and cancellations, the persisted
   * snapshot passes both validators, also right after the store merged a cancellation into it.
   */
  lemma PersistedSnapshotsValid(def: Definition, g: World, actions: seq<Action>)
    requires ValidDefinition(def) && Initial(def, g)
    ensures MatchesDefinition(Run(def, g, actions).row, def)
    ensures Run(def, g, actions).row.cancellationRequested ==>
      !Run(def, g, actions).row.state.Completed? && !Run(def, g, actions).row.state.Failed?
  {
    hide MatchesDefinition;
    InitialInv(def, g);
    RunKeeps(def, g, actions);
    CancelledNeverCompletes(def, Run(def, g, actions).row);
  }

  lemma CancelledNeverCompletes(def: Definition, s: Snapshot)
    requires Sound(s, def)
    ensures MatchesDefinition(s, def)
    ensures s.cancellationRequested ==> !s.state.Completed? && !s.state.Failed?
  {
    hide CompensationBoundary, ForwardBoundary;
  }
}
