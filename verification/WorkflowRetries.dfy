/**
 * Retry times (packages/workflows/src/state.ts:13-16, packages/workflows/src/manager.ts:103-104,
 * 175-183, 215-223): where the time a waiting workflow waits for is stored, and that no attempt
 * starts under a claim made before it.
 */
module WorkflowRetries {
  import opened Options
  import opened WorkflowTypes
  import opened WorkflowValidation
  import opened WorkflowManager
  import opened WorkflowEffects
  import opened WorkflowStore
  import opened WorkflowProtocol
  import opened WorkflowSafety

  // ------------------------------------------------------------ where the time is stored

  /** The one step that waits. */
  predicate OnlyWaiting(steps: seq<StepSnapshot>, i: int) {
    && 0 <= i < |steps| && steps[i].retryAt.Some?
    && forall j :: 0 <= j < |steps| && j != i ==> steps[j].retryAt.None?
  }

  /** A cancellation overrides the wait of a forward step. */
  predicate Overridden(s: Snapshot) {
    s.state.WaitingRetry? && s.cancellationRequested
  }

  lemma {:induction false} FirstRetryAt(steps: seq<StepSnapshot>, i: nat)
    requires i < |steps| && HasRetry(steps[i].state) && forall j :: 0 <= j < i ==> !HasRetry(steps[j].state)
    ensures FirstRetry(steps) == steps[i].retryAt
    decreases i
  {
    if i > 0 {
      FirstRetryAt(steps[1..], i - 1);
    }
  }

  lemma {:induction false} NoRetry(steps: seq<StepSnapshot>)
    requires forall j :: 0 <= j < |steps| ==> !HasRetry(steps[j].state)
    ensures FirstRetry(steps) == None
    decreases |steps|
  {
    if |steps| > 0 {
      NoRetry(steps[1..]);
    }
  }

  /** Exactly one step waits in a waiting state, and none in any other. */
  lemma WaitingShape(s: Snapshot) returns (i: int)
    requires ValidSnapshot(s)
    ensures Waiting(s.state) ==> 0 <= i < |s.steps| && HasRetry(s.steps[i].state) && forall j :: 0 <= j < |s.steps| && j != i ==> !HasRetry(s.steps[j].state)
    ensures !Waiting(s.state) ==> forall j :: 0 <= j < |s.steps| ==> !HasRetry(s.steps[j].state)
  {
    i := -1;
    if s.state.WaitingRetry? {
      i := FirstUncommitted(s.steps);
    } else if s.state.CompensationWaitingRetry? {
      i :| 0 <= i < |s.steps| && IsActive(s.steps[i]);
      forall j | 0 <= j < |s.steps| && j != i ensures !HasRetry(s.steps[j].state) {
        OneActive(s.steps, i, j);
      }
    }
  }

  lemma OneActive(steps: seq<StepSnapshot>, i: nat, j: nat)
    requires AtMostOneActive(steps) && i < |steps| && j < |steps| && i != j && IsActive(steps[i])
    ensures !IsActive(steps[j])
  {
    var low, high := if i < j then i else j, if i < j then j else i;
    assert !(IsActive(steps[low]) && IsActive(steps[high]));
  }

  /**
   * In a waiting state exactly one step waits, and its own time is the time to come back at, unless a
   * cancellation overrides it; in every other state there is no such time and no step has one.
   */
  lemma RetryTimeExact(s: Snapshot)
    requires ValidSnapshot(s)
    ensures Waiting(s.state) ==> exists i :: OnlyWaiting(s.steps, i) && (!Overridden(s) ==> NextRetryAt(s) == s.steps[i].retryAt)
    ensures !Waiting(s.state) ==> forall j :: 0 <= j < |s.steps| ==> s.steps[j].retryAt.None?
    ensures !Waiting(s.state) || Overridden(s) ==> NextRetryAt(s) == None
  {
    hide StateBoundary, ValidTimes, DistinctNames, FirstRetry;
    var i := WaitingShape(s);
    assert forall j :: 0 <= j < |s.steps| ==> ValidStep(s.steps[j]);
    if Waiting(s.state) {
      FirstRetryAt(s.steps, i);
      assert OnlyWaiting(s.steps, i);
    } else {
      NoRetry(s.steps);
    }
  }

  // -------------------------------------------------------------- claims come afterwards

  /** Every stored retry time has been reached at `now`, or a cancellation overrides it. */
  predicate RetryDue(s: Snapshot, now: Time) {
    forall i :: 0 <= i < |s.steps| && s.steps[i].retryAt.Some? ==> s.steps[i].retryAt.value <= now || Overridden(s)
  }

  lemma NotWaitingIsDue(s: Snapshot, now: Time)
    requires ValidSnapshot(s)
    ensures MustWait(s, now) <==> !RetryDue(s, now)
  {
    hide ValidSnapshot, NextRetryAt;
    RetryTimeExact(s);
    if Waiting(s.state) {
      var i :| OnlyWaiting(s.steps, i) && (!Overridden(s) ==> NextRetryAt(s) == s.steps[i].retryAt);
    }
  }

  /** Every worker that has the claim made it when all retry times had been reached. */
  predicate ClaimsDue(g: World) {
    forall w :: w in g.workers && g.workers[w].Claimed? ==>
      g.workers[w].token in g.claimedAt && RetryDue(g.workers[w].view, g.claimedAt[g.workers[w].token])
  }

  lemma ClaimDue(def: Definition, g: World, a: Action)
    requires Inv(def, g) && a.Claim? && PhaseOf(g, a.w).Observed? && !MustWait(PhaseOf(g, a.w).view, a.now)
    requires ClaimRow(g.row, PhaseOf(g, a.w).view.revision, a.token, a.now, a.expiresAt).Ok?
    ensures RetryDue(ClaimRow(g.row, PhaseOf(g, a.w).view.revision, a.token, a.now, a.expiresAt).value, a.now)
  {
    hide Sound, HandlingAt, Effect, MustWait, ValidSnapshot;
    var p := PhaseOf(g, a.w);
    assert PhaseOk(def, g.row, g.used, p);
    SoundTimes(def, p.view);
    NotWaitingIsDue(p.view, a.now);
  }

  predicate Claims(g: World, a: Action) {
    && a.Claim? && PhaseOf(g, a.w).Observed? && a.token !in g.used && !MustWait(PhaseOf(g, a.w).view, a.now)
    && ClaimRow(g.row, PhaseOf(g, a.w).view.revision, a.token, a.now, a.expiresAt).Ok?
  }

  lemma CommitEndsClaim(def: Definition, g: World, w: nat, candidate: Snapshot, now: Time, plan: Plan)
    requires PhaseOf(g, w).Claimed? || PhaseOf(g, w).Handling? || PhaseOf(g, w).Reconciling?
    ensures var g' := CommitBy(def, g, w, candidate, now, plan);
      g'.claimedAt == g.claimedAt && g'.workers == g.workers[w := PhaseOf(g', w)] && !PhaseOf(g', w).Claimed?
  {
    hide MatchesDefinition, CommitRow;
  }

  /** Nothing but a claim makes a worker a claim holder. */
  lemma OnlyClaimsClaim(def: Definition, g: World, a: Action)
    requires !Claims(g, a)
    ensures var g' := Next(def, g, a);
      g'.claimedAt == g.claimedAt && forall w :: w in g'.workers && g'.workers[w].Claimed? ==> w in g.workers && g'.workers[w] == g.workers[w]
  {
    hide MustWait, CommitBy, Advance, FinishCandidate, ReconcileCandidate, ClaimRow, RenewRow, CancelRow;
    var p := PhaseOf(g, a.w);
    match a
    case AdvanceStep(w, now, error, retryAt) =>
      if p.Claimed? && |p.view.steps| == |def.steps| {
        var plan := Advance(p.view, def, error, retryAt);
        CommitEndsClaim(def, g, w, Touch(plan.next, now), now, plan);
      }
    case FinishStep(w, now, handler) =>
      if p.Handling? && p.invoked && p.index < |p.view.steps| && p.index < |def.steps| {
        var next := FinishCandidate(def, p, handler);
        CommitEndsClaim(def, g, w, Touch(next, now), now, Finish(next));
      }
    case Recommit(w, now) =>
      if p.Reconciling? { CommitEndsClaim(def, g, w, Touch(p.candidate, now), now, Finish(p.candidate)); }
    case _ =>
  }

  lemma ClaimsDueKept(def: Definition, g: World, a: Action)
    requires Inv(def, g) && ClaimsDue(g)
    ensures ClaimsDue(Next(def, g, a))
  {
    if Claims(g, a) {
      hide Sound, HandlingAt, Effect, MustWait, RetryDue, Inv;
      ClaimDue(def, g, a);
      forall w | w in g.workers && g.workers[w].Claimed? ensures g.workers[w].token != a.token {
        TokenInUse(def, g, w);
      }
    } else {
      hide Inv, Next, RetryDue, Claims;
      OnlyClaimsClaim(def, g, a);
    }
  }

  lemma {:induction false} ClaimsDueAlong(def: Definition, g: World, actions: seq<Action>)
    requires ValidDefinition(def) && Inv(def, g) && ClaimsDue(g)
    ensures ClaimsDue(Run(def, g, actions))
    decreases |actions|
  {
    hide Inv, Next, ValidDefinition, ClaimsDue;
    if |actions| > 0 {
      ClaimsDueKept(def, g, actions[0]);
      NextKeeps(def, g, actions[0]);
      ClaimsDueAlong(def, Next(def, g, actions[0]), actions[1..]);
    }
  }

  /** The step whose attempt this action starts, if it starts one. */
  predicate Starts(def: Definition, g: World, a: Action, i: nat) {
    && a.AdvanceStep? && PhaseOf(g, a.w).Claimed? && i < |g.row.steps|
    && exists k :: |g.log| <= k < |Next(def, g, a).log| && Next(def, g, a).log[k].Started? && Next(def, g, a).log[k].index == i
  }

  lemma StartNotOverridden(def: Definition, g: World, a: Action)
    requires Inv(def, g) && a.AdvanceStep? && PhaseOf(g, a.w).Claimed?
    requires exists k :: |g.log| <= k < |Next(def, g, a).log| && Next(def, g, a).log[k].Started?
    ensures Holds(g.row, PhaseOf(g, a.w).token) && g.row.steps == PhaseOf(g, a.w).view.steps
    ensures !Overridden(PhaseOf(g, a.w).view)
  {
    hide Sound, HandlingAt, Effect, MatchesDefinition, ValidSnapshot, SameIdentity, CancelCandidate, FailForward, FailCompensation;
    var p := PhaseOf(g, a.w);
    assert PhaseOk(def, g.row, g.used, p);
    assert OutputEvents(p, Touch(Advance(p.view, def, a.error, a.retryAt).next, a.now)) == [];
  }

  /**
   * Retry times are respected: in every run, whenever an attempt of a step starts for which a failure
   * stored a retry time, the claim under which it starts was made at or after that time.
   */
  lemma RetryRespected(def: Definition, g: World, actions: seq<Action>, a: Action, i: nat)
    requires ValidDefinition(def) && Initial(def, g) && Starts(def, Run(def, g, actions), a, i)
    ensures var end := Run(def, g, actions);
      var token := PhaseOf(end, a.w).token;
      token in end.claimedAt && (end.row.steps[i].retryAt.Some? ==> end.row.steps[i].retryAt.value <= end.claimedAt[token])
  {
    hide Run, Next, Inv, ValidDefinition, MatchesDefinition;
    InitialInv(def, g);
    RunKeeps(def, g, actions);
    ClaimsDueAlong(def, g, actions);
    var end := Run(def, g, actions);
    StartNotOverridden(def, end, a);
  }

  /** A claim is turned away as too early exactly while a stored retry time that nothing overrides is ahead. */
  lemma ClaimWaitsExactly(def: Definition, g: World, actions: seq<Action>, w: nat, now: Time)
    requires ValidDefinition(def) && Initial(def, g) && PhaseOf(Run(def, g, actions), w).Observed?
    ensures var view := PhaseOf(Run(def, g, actions), w).view;
      MustWait(view, now) <==> exists i :: 0 <= i < |view.steps| && view.steps[i].retryAt.Some? && view.steps[i].retryAt.value > now && !Overridden(view)
  {
    hide Run, Sound, HandlingAt, Effect, MatchesDefinition, ValidDefinition, ValidSnapshot, MustWait;
    InitialInv(def, g);
    RunKeeps(def, g, actions);
    var end := Run(def, g, actions);
    assert PhaseOk(def, end.row, end.used, PhaseOf(end, w));
    SoundTimes(def, PhaseOf(end, w).view);
    NotWaitingIsDue(PhaseOf(end, w).view, now);
  }
}
