/**
 * Where the engine stops making progress: a requested cancellation meets a step that is still
 * marked running. `advance` resets only waiting steps (packages/workflows/src/manager.ts:137-143)
 * and `finishForwardFailure` does not look at the cancellation
 * (packages/workflows/src/manager.ts:181-182), while the validator admits neither a running step
 * outside a forward state nor a failed workflow with a requested cancellation
 * (packages/workflows/src/validation.ts:352, 381).
 */
module WorkflowWedge {
  import opened Options
  import opened WorkflowTypes
  import opened WorkflowValidation
  import opened WorkflowManager
  import opened WorkflowProgress
  import opened WorkflowEffects
  import opened WorkflowStore
  import opened WorkflowProtocol
  import opened WorkflowSafety
  import opened WorkflowHistory

  /** The row itself: cancellation requested, still forward, a step marked running. */
  predicate StuckRow(row: Snapshot) {
    row.cancellationRequested && IsForward(row.state) && HasRunning(row.steps)
  }

  /** Nobody holds the lease except perhaps a worker that already saw the cancellation when it claimed. */
  predicate HarmlessHolder(row: Snapshot, p: Phase) {
    TokenOf(p).Some? && Holds(row, TokenOf(p).value) ==> p.Claimed? && p.view.cancellationRequested
  }

  ghost predicate Wedged(g: World) {
    StuckRow(g.row) && forall w :: w in g.workers ==> HarmlessHolder(g.row, g.workers[w])
  }

  /** The cancellation candidate of such a snapshot never passes, whatever the clock says. */
  lemma CancelRefused(def: Definition, view: Snapshot, now: Time)
    requires Sound(view, def) && StuckRow(view)
    ensures !MatchesDefinition(Touch(CancelCandidate(view, def), now), def)
  {
    hide Sound, MatchesDefinition;
    ForwardIsSound(view, def);
    SoundTimes(def, view);
    var next := CancelCandidate(view, def);
    CancelExact(view, def, FirstUncommitted(view.steps));
    if MatchesDefinition(Touch(next, now), def) {
      ManagedFieldsMatch(def, Touch(next, now), next);
    }
  }

  lemma AdvanceWhenStuck(def: Definition, g: World, a: Action)
    requires Inv(def, g) && Wedged(g) && a.AdvanceStep?
    ensures Unchanged(g, Next(def, g, a))
    ensures Next(def, g, a).workers == g.workers || !TokenOf(PhaseOf(Next(def, g, a), a.w)).Some?
      || (PhaseOf(Next(def, g, a), a.w).Conflicted? && !Holds(g.row, PhaseOf(Next(def, g, a), a.w).token))
  {
    hide Sound, HandlingAt, Effect, MatchesDefinition, Advance;
    var p := PhaseOf(g, a.w);
    if p.Claimed? && |p.view.steps| == |def.steps| {
      assert PhaseOk(def, g.row, g.used, p) && HarmlessHolder(g.row, p);
      if Holds(g.row, p.token) {
        CancelRefused(def, p.view, a.now);
        assert Advance(p.view, def, a.error, a.retryAt) == Finish(CancelCandidate(p.view, def)) by { AdvanceCancels(def, p.view, a.error, a.retryAt); }
      }
    }
  }

  lemma AdvanceCancels(def: Definition, s: Snapshot, error: ErrorText, retryAt: Option<Time>)
    requires |s.steps| == |def.steps| && s.cancellationRequested && IsForward(s.state)
    ensures Advance(s, def, error, retryAt) == Finish(CancelCandidate(s, def))
  {
    hide CancelCandidate;
  }

  /** What an action other than `advance` leaves of a stuck row and of the acting worker. */
  predicate Harmless(g: World, g': World, w: nat) {
    && SameBody(g.row, g'.row) && g'.row.cancellationRequested
    && (g'.workers == g.workers || g'.workers == g.workers[w := PhaseOf(g', w)])
    && HarmlessHolder(g'.row, PhaseOf(g', w))
    && (forall t :: t in g.used && Holds(g'.row, t) ==> Holds(g.row, t))
  }

  /** Without the lease nothing is committed. */
  lemma CommitWhenStuck(def: Definition, g: World, w: nat, candidate: Snapshot, now: Time, plan: Plan)
    requires StuckRow(g.row) && (PhaseOf(g, w).Handling? || PhaseOf(g, w).Reconciling?) && !Holds(g.row, PhaseOf(g, w).token)
    ensures Harmless(g, CommitBy(def, g, w, candidate, now, plan), w)
  {
    hide MatchesDefinition, SameIdentity, HasRunning, ValidSnapshot;
  }

  lemma ActorWhenStuck(def: Definition, g: World, a: Action)
    requires Inv(def, g) && Wedged(g) && !a.AdvanceStep?
    ensures Harmless(g, Next(def, g, a), a.w)
  {
    hide Sound, HandlingAt, Effect, MatchesDefinition, Advance, FinishCandidate, ReconcileCandidate, MustWait, HasRunning, CommitBy;
    var p := PhaseOf(g, a.w);
    assert p.Idle? || (PhaseOk(def, g.row, g.used, p) && HarmlessHolder(g.row, p));
    match a
    case FinishStep(w, now, handler) =>
      if p.Handling? && p.invoked && p.index < |p.view.steps| && p.index < |def.steps| {
        var next := FinishCandidate(def, p, handler);
        CommitWhenStuck(def, g, w, Touch(next, now), now, Finish(next));
      }
    case Recommit(w, now) =>
      if p.Reconciling? {
        CommitWhenStuck(def, g, w, Touch(p.candidate, now), now, Finish(p.candidate));
      }
    case _ =>
  }

  lemma OthersWhenStuck(def: Definition, g: World, a: Action)
    requires Inv(def, g) && Wedged(g) && !a.AdvanceStep?
    ensures SameBody(g.row, Next(def, g, a).row) && Next(def, g, a).row.cancellationRequested
    ensures Wedged(Next(def, g, a))
  {
    hide Inv, Next, HasRunning;
    ActorWhenStuck(def, g, a);
    var g' := Next(def, g, a);
    forall w | w in g'.workers ensures HarmlessHolder(g'.row, g'.workers[w]) {
      if w != a.w {
        assert HarmlessHolder(g.row, g.workers[w]);
        TokenInUse(def, g, w);
      }
    }
  }

  lemma WedgedKept(def: Definition, g: World, a: Action)
    requires Inv(def, g) && Wedged(g)
    ensures SameBody(g.row, Next(def, g, a).row) && Wedged(Next(def, g, a))
  {
    hide Inv, Next, HasRunning;
    if a.AdvanceStep? {
      AdvanceWhenStuck(def, g, a);
      var g' := Next(def, g, a);
      assert g'.workers == g.workers || g'.workers == g.workers[a.w := PhaseOf(g', a.w)] by { AdvanceWorkers(def, g, a); }
      forall w | w in g'.workers ensures HarmlessHolder(g'.row, g'.workers[w]) {
        if w in g.workers {
          assert HarmlessHolder(g.row, g.workers[w]);
        }
      }
    } else {
      OthersWhenStuck(def, g, a);
    }
  }

  lemma AdvanceWorkers(def: Definition, g: World, a: Action)
    requires a.AdvanceStep?
    ensures Next(def, g, a).workers == g.workers || Next(def, g, a).workers == g.workers[a.w := PhaseOf(Next(def, g, a), a.w)]
  {
    hide MatchesDefinition, Advance, CommitRow;
  }

  /**
   * A wedged workflow stays as it is for ever: no sequence of claims, retries, crashes or further
   * cancellations changes its state or its steps, so it never reaches a terminal state.
   */
  lemma {:induction false} WedgedForever(def: Definition, g: World, actions: seq<Action>)
    requires ValidDefinition(def) && Inv(def, g) && Wedged(g)
    ensures SameBody(g.row, Run(def, g, actions).row) && !Terminal(Run(def, g, actions).row.state)
    decreases |actions|
  {
    hide Inv, Next, ValidDefinition, HasRunning;
    if |actions| > 0 {
      WedgedKept(def, g, actions[0]);
      NextKeeps(def, g, actions[0]);
      WedgedForever(def, Next(def, g, actions[0]), actions[1..]);
    }
  }

  // ------------------------------------------------------------ it does happen

  const SINGLE: Definition := Definition("single", "1", [StepDefinition("only", false, 1)])

  function SingleStep(state: StepState, attempts: nat): StepSnapshot {
    StepSnapshot("only", StepKey("id", 0), None, state, attempts, 0, None, None, None)
  }

  function SingleRow(state: WorkflowState, revision: nat, step: StepSnapshot, lease: Option<Lease>, cancel: bool, updatedAt: Time): Snapshot {
    Snapshot(Header("id", "single", "1", "start", "null", 0), state, revision, [step], lease, cancel, updatedAt)
  }

  function SingleWorld(): World {
    World(SingleRow(WorkflowState.Pending, 0, SingleStep(StepState.Pending, 0), None, false, 0), map[], {}, [], map[])
  }

  lemma SingleInitial()
    ensures ValidDefinition(SINGLE) && Initial(SINGLE, SingleWorld())
  {
  }

  /** The two forward shapes of the single step. */
  lemma SingleMatches(s: Snapshot)
    requires |s.steps| == 1 && s == SingleRow(s.state, s.revision, s.steps[0], s.lease, s.cancellationRequested, s.updatedAt)
    requires 0 <= s.updatedAt <= 1000 && (s.lease.Some? ==> 0 <= s.lease.value.expiresAt <= 1000)
    requires (s.state.Pending? && s.steps[0] == SingleStep(StepState.Pending, 0)) || (s.state.Running? && s.steps[0] == SingleStep(StepState.Running, 1))
    ensures ValidSnapshot(s) && MatchesDefinition(s, SINGLE) && FirstUncommitted(s.steps) == 0
  {
    FirstUncommittedIs(s.steps, 0);
  }

  function ClaimedSingle(cancelled: bool): Snapshot {
    SingleRow(WorkflowState.Pending, if cancelled then 2 else 1, SingleStep(StepState.Pending, 0), Some(Lease(7, 100)), cancelled, 10)
  }

  function StartedSingle(cancelled: bool): Snapshot {
    SingleRow(WorkflowState.Running, if cancelled then 3 else 2, SingleStep(StepState.Running, 1), Some(Lease(7, 100)), cancelled, 10)
  }

  /** The start boundary of the single step, with or without a cancellation that arrived after the claim. */
  lemma SingleStart(cancelled: bool)
    ensures var plan := Advance(ClaimedSingle(false), SINGLE, "", None);
      && plan == Start(plan.next, Forward, 0)
      && MatchesDefinition(Touch(plan.next, 10), SINGLE)
      && CommitRow(ClaimedSingle(cancelled), Touch(plan.next, 10), 1, 7, 10, false) == Ok(StartedSingle(cancelled))
  {
    hide MatchesDefinition, ValidSnapshot;
    SingleMatches(ClaimedSingle(false));
    SingleMatches(ClaimedSingle(cancelled));
    var candidate := Touch(StartForward(ClaimedSingle(false), 0), 10);
    assert candidate == SingleRow(WorkflowState.Running, 1, SingleStep(StepState.Running, 1), Some(Lease(7, 100)), false, 10);
    SingleMatches(candidate);
  }

  function AfterClaim(): World {
    World(ClaimedSingle(false), map[0 := Claimed(ClaimedSingle(false), 7)], {7}, [ClaimAccepted(7)], map[7 := 10])
  }

  lemma ReachClaim()
    ensures Next(SINGLE, Next(SINGLE, SingleWorld(), Observe(0)), Claim(0, 7, 10, 100)) == AfterClaim()
  {
    hide MatchesDefinition, Advance, CommitRow;
    var g1 := Next(SINGLE, SingleWorld(), Observe(0));
    assert g1 == SingleWorld().(workers := map[0 := Observed(SingleWorld().row)]);
    var g2 := Next(SINGLE, g1, Claim(0, 7, 10, 100));
    assert g2.row == ClaimedSingle(false) && g2.log == AfterClaim().log && g2.workers == AfterClaim().workers;
  }

  function HandlingSingle(cancelled: bool, invoked: bool): Phase {
    Handling(StartedSingle(cancelled), 7, StartedSingle(cancelled), Forward, 0, false, invoked)
  }

  /** The start boundary as an action, from any world in which worker 0 just claimed. */
  lemma ReachStart(g: World, cancelled: bool)
    requires g.row == ClaimedSingle(cancelled) && PhaseOf(g, 0) == Claimed(ClaimedSingle(false), 7)
    ensures var g' := Next(SINGLE, g, AdvanceStep(0, 10, "", None));
      g'.row == StartedSingle(cancelled) && g'.workers == g.workers[0 := HandlingSingle(cancelled, false)] && g'.used == g.used
  {
    hide MatchesDefinition, Advance, CommitRow;
    SingleStart(cancelled);
    assert |ClaimedSingle(false).steps| == |SINGLE.steps|;
  }

  /** A worker crashes inside its handler, then the workflow is cancelled: wedged. */
  lemma CrashThenCancelWedges(actions: seq<Action>)
    requires actions == [Observe(0), Claim(0, 7, 10, 100), AdvanceStep(0, 10, "", None), Crash(0), ObserveToCancel(1), RequestCancel(1, 20)]
    ensures Initial(SINGLE, SingleWorld()) && Wedged(Run(SINGLE, SingleWorld(), actions))
  {
    hide MatchesDefinition, Advance, CommitRow, CommitBy, ValidDefinition;
    SingleInitial();
    ReachClaim();
    ReachStart(AfterClaim(), false);
    var g1 := Next(SINGLE, SingleWorld(), actions[0]);
    var g3 := Next(SINGLE, AfterClaim(), actions[2]);
    var g4 := Next(SINGLE, g3, actions[3]);
    var g5 := Next(SINGLE, g4, actions[4]);
    var g6 := Next(SINGLE, g5, actions[5]);
    CrashThenCancel(g3);
    RunStates(SINGLE, SingleWorld(), actions, [g1, AfterClaim(), g3, g4, g5, g6]);
  }

  lemma CrashThenCancel(g: World)
    requires g.row == StartedSingle(false) && g.workers == map[0 := HandlingSingle(false, false)]
    ensures Wedged(Next(SINGLE, Next(SINGLE, Next(SINGLE, g, Crash(0)), ObserveToCancel(1)), RequestCancel(1, 20)))
  {
    hide CommitBy, MatchesDefinition, Advance, CommitRow, RenewRow, ClaimRow;
    var g1 := Next(SINGLE, g, Crash(0));
    var g2 := Next(SINGLE, g1, ObserveToCancel(1));
    assert g2.row == g.row && PhaseOf(g2, 1) == Cancelling(g.row);
    var g3 := Next(SINGLE, g2, RequestCancel(1, 20));
    assert g3.row == g.row.(revision := 3, cancellationRequested := true, updatedAt := 20);
    assert g3.row.steps[0].state.Running?;
  }

  lemma ExhaustedUnderCancel(g: World)
    requires g.row == StartedSingle(true) && g.workers == map[0 := HandlingSingle(true, true), 1 := Idle]
    ensures Wedged(Next(SINGLE, g, FinishStep(0, 30, Threw("boom", None))))
  {
    hide CommitRow;
    var next := FinishCandidate(SINGLE, PhaseOf(g, 0), Threw("boom", None));
    assert next.state.Failed? && next.cancellationRequested;
    assert !MatchesDefinition(Touch(next, 30), SINGLE);
    assert g.row.steps[0].state.Running?;
  }

  /**
   * A cancellation merged into the start boundary, then a failure with no attempt left and nothing
   * to compensate: the candidate is refused and the workflow is wedged.
   */
  lemma ExhaustedUnderCancelWedges(actions: seq<Action>)
    requires actions == [Observe(0), Claim(0, 7, 10, 100), ObserveToCancel(1), RequestCancel(1, 10), AdvanceStep(0, 10, "", None), Invoke(0),
                         FinishStep(0, 30, Threw("boom", None))]
    ensures Initial(SINGLE, SingleWorld()) && Wedged(Run(SINGLE, SingleWorld(), actions))
  {
    hide Next, ValidDefinition, Wedged;
    SingleInitial();
    ReachClaim();
    CancelAfterClaim();
    var g1 := Next(SINGLE, SingleWorld(), actions[0]);
    var g3 := Next(SINGLE, AfterClaim(), actions[2]);
    var g4 := Next(SINGLE, g3, actions[3]);
    var g5 := Next(SINGLE, g4, actions[4]);
    var g6 := Next(SINGLE, g5, actions[5]);
    StartAndInvoke(g4);
    ExhaustedUnderCancel(g6);
    var g7 := Next(SINGLE, g6, actions[6]);
    RunStates(SINGLE, SingleWorld(), actions, [g1, AfterClaim(), g3, g4, g5, g6, g7]);
  }

  lemma CancelAfterClaim()
    ensures var g := Next(SINGLE, Next(SINGLE, AfterClaim(), ObserveToCancel(1)), RequestCancel(1, 10));
      g.row == ClaimedSingle(true) && g.workers == map[0 := Claimed(ClaimedSingle(false), 7), 1 := Idle]
  {
    hide CommitBy, MatchesDefinition, Advance, CommitRow, RenewRow, ClaimRow, FinishCandidate;
    var g := Next(SINGLE, AfterClaim(), ObserveToCancel(1));
    assert g.row == ClaimedSingle(false) && g.workers == map[0 := Claimed(ClaimedSingle(false), 7), 1 := Cancelling(ClaimedSingle(false))];
    assert CancelRow(g.row, 1, 10) == Ok(ClaimedSingle(true));
  }

  lemma StartAndInvoke(g: World)
    requires g.row == ClaimedSingle(true) && g.workers == map[0 := Claimed(ClaimedSingle(false), 7), 1 := Idle]
    ensures var g' := Next(SINGLE, Next(SINGLE, g, AdvanceStep(0, 10, "", None)), Invoke(0));
      g'.row == StartedSingle(true) && g'.workers == map[0 := HandlingSingle(true, true), 1 := Idle]
  {
    hide CommitBy, MatchesDefinition, Advance, CommitRow, RenewRow, ClaimRow, FinishCandidate;
    ReachStart(g, true);
    var g1 := Next(SINGLE, g, AdvanceStep(0, 10, "", None));
    assert PhaseOf(g1, 0) == HandlingSingle(true, false);
  }

  /** A run given by its intermediate worlds. */
  lemma RunStates(def: Definition, g: World, actions: seq<Action>, states: seq<World>)
    requires |actions| == |states| > 0
    requires states[0] == Next(def, g, actions[0]) && forall i :: 0 < i < |states| ==> states[i] == Next(def, states[i - 1], actions[i])
    ensures Run(def, g, actions) == states[|states| - 1]
  {
    hide Next;
    assert Run(def, g, actions) == Run(def, states[0], actions[1..]);
    RunFrom(def, actions, states, 0);
  }

  lemma {:induction false} RunFrom(def: Definition, actions: seq<Action>, states: seq<World>, i: nat)
    requires |actions| == |states| && i < |states|
    requires forall j :: 0 < j < |states| ==> states[j] == Next(def, states[j - 1], actions[j])
    ensures Run(def, states[i], actions[i + 1..]) == states[|states| - 1]
    decreases |states| - i
  {
    hide Next;
    if i + 1 < |states| {
      assert actions[i + 1..][1..] == actions[i + 2..];
      RunFrom(def, actions, states, i + 1);
    }
  }
}
