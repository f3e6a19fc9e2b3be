/**
 * No lost wake-up (packages/workflows-reliability/src/index.ts:89-197, packages/workflows/src/manager.ts:100-122):
 * exactly which steps leave a live workflow without a wake that will bring somebody back, that no
 * such step happens while clocks do not lag behind delivered wakes, and that a reconciliation
 * repairs the damage.
 */
module WorkflowWakeGuards {
  import opened Options
  import opened WorkflowTypes
  import opened WorkflowValidation
  import opened WorkflowManager
  import opened WorkflowEffects
  import opened WorkflowStore
  import opened WorkflowProtocol
  import opened WorkflowSafety
  import opened WorkflowHistory
  import opened WorkflowWakeUps

  // ------------------------------------------------------------------------- guards

  /** Nobody has to come back before the wake does. */
  predicate NotEarly(row: Snapshot, wake: Wake) {
    Due(row).Some? ==> Due(row).value <= wake.availableAt
  }

  /** Not early, and at the due time, the time of the last change, or a time the reconciler chose. */
  predicate RightTime(ww: WakeWorld, wake: Wake) {
    match Due(ww.g.row)
    case Some(due) =>
      || wake.availableAt == due
      || (due <= wake.availableAt && (wake.availableAt in ww.reconciled || (ww.g.row.cancellationRequested && wake.availableAt == ww.changed)))
    case None => wake.availableAt == ww.changed || wake.availableAt in ww.reconciled
  }

  /** Not consumed, and if delivered then to a worker that has not been overtaken. */
  predicate Alive(ww: WakeWorld, wake: Wake) {
    match wake.state
    case Undelivered => true
    case InHand(w) =>
      var p := PhaseOf(ww.g, w);
      TokenOf(p).None? && (p.Observed? ==> p.view.revision == ww.g.row.revision)
    case Consumed => false
  }

  predicate Guards(ww: WakeWorld, k: int) {
    0 <= k < |ww.wakes| && RightTime(ww, ww.wakes[k]) && Alive(ww, ww.wakes[k])
  }

  /** The workflow is finished, or somebody will come back to it. */
  ghost predicate Guarded(ww: WakeWorld) {
    Terminal(ww.g.row.state) || exists k :: Guards(ww, k)
  }

  // ------------------------------------------------------- what holds whatever the clocks say

  /** A waiting workflow is claimed only after its retry time. */
  predicate ClaimedAfterRetry(row: Snapshot) {
    row.lease.Some? && Waiting(row.state) && NextRetryAt(row).Some? ==> NextRetryAt(row).value < row.lease.value.expiresAt
  }

  /** A delivered wake was available. */
  predicate DeliveredPassed(ww: WakeWorld) {
    forall k :: 0 <= k < |ww.wakes| && ww.wakes[k].state.InHand? ==> ww.wakes[k].availableAt <= ww.passed
  }

  ghost predicate WakeBase(def: Definition, ww: WakeWorld) {
    Inv(def, ww.g) && ClaimedAfterRetry(ww.g.row) && DeliveredPassed(ww)
  }

  lemma SameRetry(a: Snapshot, b: Snapshot)
    requires a.state == b.state && a.steps == b.steps && (a.state.WaitingRetry? ==> a.cancellationRequested == b.cancellationRequested)
    ensures NextRetryAt(a) == NextRetryAt(b)
  {
  }

  lemma DeliveredKept(def: Definition, ww: WakeWorld, act: WakeAction)
    requires DeliveredPassed(ww)
    ensures DeliveredPassed(WakeNext(def, ww, act))
  {
    hide Next, Appended, ScanOf;
    match act
    case Do(a) =>
      var outcome := Settlement(ww.g, a, Next(def, ww.g, a));
      assert outcome.Some? ==> !outcome.value.InHand? by { SettlesOut(ww.g, a, Next(def, ww.g, a)); }
    case _ =>
  }

  lemma SettlesOut(g: World, a: Action, g': World)
    ensures Settlement(g, a, g').Some? ==> !Settlement(g, a, g').value.InHand?
  {
  }

  lemma RetryKept(def: Definition, g: World, a: Action)
    requires Inv(def, g) && ClaimedAfterRetry(g.row)
    ensures ClaimedAfterRetry(Next(def, g, a).row)
  {
    hide Sound, HandlingAt, Effect, FirstRetry, CommitBy, Advance, FinishCandidate, ReconcileCandidate;
    var g' := Next(def, g, a);
    var p := PhaseOf(g, a.w);
    assert p.Idle? || PhaseOk(def, g.row, g.used, p);
    if Commits(a) {
      assert ClaimedAfterRetry(g'.row) by { CommitRetryKept(def, g, a); }
    }
  }

  lemma CommitRetryKept(def: Definition, g: World, a: Action)
    requires Inv(def, g) && ClaimedAfterRetry(g.row) && Commits(a)
    ensures ClaimedAfterRetry(Next(def, g, a).row)
  {
    hide Inv, Next, NextRetryAt;
    CommittingAction(def, g, a);
  }

  lemma BaseKept(def: Definition, ww: WakeWorld, act: WakeAction)
    requires ValidDefinition(def) && WakeBase(def, ww)
    ensures WakeBase(def, WakeNext(def, ww, act))
  {
    hide Inv, Next, ClaimedAfterRetry, DeliveredPassed, ValidDefinition, WakeNext;
    DeliveredKept(def, ww, act);
    RowOf(def, ww, act);
    if act.Do? {
      NextKeeps(def, ww.g, act.a);
      RetryKept(def, ww.g, act.a);
    }
  }

  // ------------------------------------------------------------- which steps lose the guard

  /** Every guarding wake is in the hand of a worker that has already read the row. */
  predicate OnlyObservedHands(ww: WakeWorld) {
    forall k :: 0 <= k < |ww.wakes| && Guards(ww, k) ==> ww.wakes[k].state.InHand? && PhaseOf(ww.g, ww.wakes[k].state.w).Observed?
  }

  predicate OnlyHandOf(ww: WakeWorld, w: nat) {
    forall k :: 0 <= k < |ww.wakes| && Guards(ww, k) ==> ww.wakes[k].state == InHand(w)
  }

  predicate Before(now: Time, due: Option<Time>) {
    due.Some? && now < due.value
  }

  /** A worker that read the row asks for the claim, with an early clock, and is turned away. */
  predicate RefusedEarly(ww: WakeWorld, a: Action) {
    && a.Claim? && PhaseOf(ww.g, a.w).Observed? && a.token !in ww.g.used
    && Before(a.now, Due(ww.g.row)) && (MustWait(ww.g.row, a.now) || ValidLeaseArguments(a.now, a.expiresAt))
  }

  /**
   * The three steps that can take the last guard away: the worker that has it is turned away
   * because its clock is early; a start boundary that keeps the lease, or a cancellation whose own
   * wake comes before the due time, overtakes every worker that has one.
   */
  predicate LosesGuard(def: Definition, ww: WakeWorld, act: WakeAction) {
    && act.Do? && !Terminal(ww.g.row.state)
    && var g' := Next(def, ww.g, act.a);
       || (RefusedEarly(ww, act.a) && OnlyHandOf(ww, act.a.w))
       || (Commits(act.a) && Accepted(ww.g, g') && g'.row.lease.Some? && OnlyObservedHands(ww))
       || (act.a.RequestCancel? && Accepted(ww.g, g') && Before(act.a.now, Due(g'.row)) && OnlyObservedHands(ww))
  }

  /** The acting worker gives its wake back, or keeps it and is up to date. */
  predicate KeepsHold(g: World, a: Action, g': World) {
    var p := PhaseOf(g', a.w);
    match Settlement(g, a, g')
    case Some(outcome) => outcome.Undelivered?
    case None => TokenOf(p).None? && (p.Observed? ==> p.view.revision == g'.row.revision)
  }

  lemma SameTime(ww: WakeWorld, a: Wake, b: Wake)
    requires RightTime(ww, a) && a.availableAt == b.availableAt
    ensures RightTime(ww, b)
  {
  }

  /** Wake `k` guards on when its time stays right and nobody overtakes the worker that has it. */
  lemma GuardStays(def: Definition, ww: WakeWorld, a: Action, k: nat)
    requires Guards(ww, k)
    requires var ww' := WakeNext(def, ww, Do(a));
      RightTime(ww', ww.wakes[k]) && OnlyMoves(ww.g, ww'.g, a.w)
    requires ww.wakes[k].state.InHand? && PhaseOf(ww.g, ww.wakes[k].state.w).Observed? ==> Next(def, ww.g, a).row.revision == ww.g.row.revision
    requires ww.wakes[k].state == InHand(a.w) ==> KeepsHold(ww.g, a, Next(def, ww.g, a))
    ensures Guards(WakeNext(def, ww, Do(a)), k)
  {
    hide Next, Settlement, Appended, RightTime;
    var ww' := WakeNext(def, ww, Do(a));
    assert ww'.wakes[k] == Settled(ww.wakes, a.w, Settlement(ww.g, a, ww'.g))[k];
    assert RightTime(ww', ww'.wakes[k]) by { SameTime(ww', ww.wakes[k], ww'.wakes[k]); }
  }

  /** A wake appended now is undelivered, so it guards as soon as its time is right. */
  lemma NewGuard(def: Definition, ww: WakeWorld, a: Action)
    requires Appended(ww.g, a, Next(def, ww.g, a)).Some?
    requires RightTime(WakeNext(def, ww, Do(a)), Wake(Appended(ww.g, a, Next(def, ww.g, a)).value, Undelivered))
    ensures Guarded(WakeNext(def, ww, Do(a)))
  {
    hide Next, Settlement, Appended, RightTime;
    assert Guards(WakeNext(def, ww, Do(a)), |ww.wakes|);
  }

  // ------------------------------------------------------------------ action by action

  lemma QuietExact(def: Definition, ww: WakeWorld, a: Action)
    requires WakeBase(def, ww) && Guarded(ww) && !HasNow(a)
    ensures Guarded(WakeNext(def, ww, Do(a)))
  {
    hide Inv, ReconcileCandidate, NextRetryAt;
    if !Terminal(ww.g.row.state) {
      var k :| Guards(ww, k);
      GuardStays(def, ww, a, k);
    }
  }

  lemma RenewExact(def: Definition, ww: WakeWorld, a: Action)
    requires WakeBase(def, ww) && Guarded(ww) && a.Renew?
    ensures Guarded(WakeNext(def, ww, Do(a)))
  {
    hide Inv, NextRetryAt;
    var g' := Next(def, ww.g, a);
    if Accepted(ww.g, g') {
      NewGuard(def, ww, a);
    } else if !Terminal(ww.g.row.state) {
      var k :| Guards(ww, k);
      GuardStays(def, ww, a, k);
    }
  }

  /** Somebody with a guard in hand is turned away exactly when its clock is before the due time. */
  lemma TurnedAwayExact(def: Definition, ww: WakeWorld, a: Action, k: nat)
    requires WakeBase(def, ww) && Guards(ww, k) && ww.wakes[k].state == InHand(a.w)
    requires a.Claim? && PhaseOf(ww.g, a.w).Observed? && a.token !in ww.g.used
    ensures Settlement(ww.g, a, Next(def, ww.g, a)) == Some(Consumed) <==> RefusedEarly(ww, a)
    ensures RefusedEarly(ww, a) ==> !Accepted(ww.g, Next(def, ww.g, a))
  {
    hide Sound, HandlingAt, Effect, NextRetryAt;
    var p := PhaseOf(ww.g, a.w);
    assert PhaseOk(def, ww.g.row, ww.g.used, p);
    SameRetry(p.view, ww.g.row);
  }

  /** After a claim that was turned away the guards are those the worker did not have in hand. */
  lemma TurnedAway(def: Definition, ww: WakeWorld, a: Action, k: int)
    requires a.Claim? && !Accepted(ww.g, Next(def, ww.g, a)) && Settlement(ww.g, a, Next(def, ww.g, a)) == Some(Consumed)
    ensures Guards(WakeNext(def, ww, Do(a)), k) <==> Guards(ww, k) && ww.wakes[k].state != InHand(a.w)
  {
    hide NextRetryAt, MustWait, Due;
    var ww' := WakeNext(def, ww, Do(a));
    assert ww'.wakes == Settled(ww.wakes, a.w, Some(Consumed));
    assert ww'.g == At(ww.g, a.w, Idle);
  }

  lemma ClaimExact(def: Definition, ww: WakeWorld, a: Action)
    requires WakeBase(def, ww) && Guarded(ww) && a.Claim?
    ensures Guarded(WakeNext(def, ww, Do(a))) <==> !LosesGuard(def, ww, Do(a))
  {
    hide Inv, NextRetryAt, RightTime, Alive, MustWait;
    var g' := Next(def, ww.g, a);
    if !Terminal(ww.g.row.state) {
      var k :| Guards(ww, k);
      if ww.wakes[k].state == InHand(a.w) && PhaseOf(ww.g, a.w).Observed? && a.token !in ww.g.used {
        TurnedAwayExact(def, ww, a, k);
      }
      if Accepted(ww.g, g') {
        assert Guarded(WakeNext(def, ww, Do(a))) by { ClaimGuards(def, ww, a); }
      } else if Settlement(ww.g, a, g') == Some(Consumed) {
        forall j ensures Guards(WakeNext(def, ww, Do(a)), j) <==> Guards(ww, j) && ww.wakes[j].state != InHand(a.w) { TurnedAway(def, ww, a, j); }
      } else {
        assert Guards(WakeNext(def, ww, Do(a)), k) by { ClaimStays(def, ww, a, k); }
      }
    }
  }

  lemma ClaimGuards(def: Definition, ww: WakeWorld, a: Action)
    requires a.Claim? && Accepted(ww.g, Next(def, ww.g, a))
    ensures Guarded(WakeNext(def, ww, Do(a)))
  {
    hide NextRetryAt, MustWait;
    NewGuard(def, ww, a);
  }

  lemma ClaimStays(def: Definition, ww: WakeWorld, a: Action, k: nat)
    requires a.Claim? && !Accepted(ww.g, Next(def, ww.g, a)) && Guards(ww, k)
    requires Settlement(ww.g, a, Next(def, ww.g, a)) != Some(Consumed)
    ensures Guards(WakeNext(def, ww, Do(a)), k)
  {
    hide NextRetryAt, MustWait;
    GuardStays(def, ww, a, k);
  }

  predicate InObservedHand(ww: WakeWorld, wake: Wake) {
    wake.state.InHand? && PhaseOf(ww.g, wake.state.w).Observed?
  }

  /** Who has read the row before it moved on has been overtaken. */
  lemma Overtaken(def: Definition, g: World, g': World, v: nat)
    requires Inv(def, g) && g'.row.revision > g.row.revision && PhaseOf(g, v).Observed?
    ensures PhaseOf(g, v).view.revision != g'.row.revision
  {
    hide Sound, HandlingAt, Effect;
    assert PhaseOk(def, g.row, g.used, PhaseOf(g, v));
  }

  lemma CommitFlag(def: Definition, g: World, a: Action)
    requires ValidDefinition(def) && Inv(def, g) && Commits(a)
    ensures var g' := Next(def, g, a);
      Unchanged(g, g') || (g'.row.cancellationRequested == g.row.cancellationRequested && g'.row.revision == g.row.revision + 1)
  {
    hide Inv, Next, ValidDefinition, Measure, StepsEffect, OutputsOk, StartsOk;
    match a
    case AdvanceStep(_, _, _, _) => AdvanceCommits(def, g, a);
    case FinishStep(_, _, _) => FinishCommits(def, g, a);
    case Recommit(_, _) => RecommitCommits(def, g, a);
  }

  /** After a start boundary the guards are those that no worker had read the row for. */
  lemma StartOvertakes(def: Definition, ww: WakeWorld, a: Action, k: int)
    requires ValidDefinition(def) && WakeBase(def, ww) && Commits(a)
    requires Accepted(ww.g, Next(def, ww.g, a)) && Next(def, ww.g, a).row.lease.Some?
    ensures 0 <= k < |ww.wakes| ==> (Guards(WakeNext(def, ww, Do(a)), k) <==> Guards(ww, k) && !InObservedHand(ww, ww.wakes[k]))
    ensures |WakeNext(def, ww, Do(a)).wakes| == |ww.wakes|
  {
    hide Inv, Next, NextRetryAt, ValidDefinition;
    var g' := Next(def, ww.g, a);
    CommittingAction(def, ww.g, a);
    CommitFlag(def, ww.g, a);
    if 0 <= k < |ww.wakes| && InObservedHand(ww, ww.wakes[k]) {
      Overtaken(def, ww.g, g', ww.wakes[k].state.w);
    }
  }

  lemma CommitExact(def: Definition, ww: WakeWorld, a: Action)
    requires ValidDefinition(def) && WakeBase(def, ww) && Guarded(ww) && Commits(a)
    ensures Guarded(WakeNext(def, ww, Do(a))) <==> !LosesGuard(def, ww, Do(a))
  {
    hide Inv, Next, NextRetryAt, RightTime, Alive, ValidDefinition;
    var g' := Next(def, ww.g, a);
    var ww' := WakeNext(def, ww, Do(a));
    CommittingAction(def, ww.g, a);
    if Accepted(ww.g, g') && g'.row.lease.Some? {
      forall k | 0 <= k < |ww.wakes| ensures Guards(ww', k) <==> Guards(ww, k) && !InObservedHand(ww, ww.wakes[k]) { StartOvertakes(def, ww, a, k); }
      StartOvertakes(def, ww, a, 0);
      assert ww'.g == g' && !Terminal(g'.row.state);
    } else if Accepted(ww.g, g') {
      assert Guarded(ww') by { ReleaseGuards(def, ww, a); }
    } else {
      assert Guarded(ww') by { CommitRefused(def, ww, a); }
    }
  }

  lemma ReleaseGuards(def: Definition, ww: WakeWorld, a: Action)
    requires Commits(a) && Accepted(ww.g, Next(def, ww.g, a)) && Next(def, ww.g, a).row.lease.None?
    ensures Guarded(WakeNext(def, ww, Do(a)))
  {
    hide Next, NextRetryAt;
    if !Terminal(Next(def, ww.g, a).row.state) {
      NewGuard(def, ww, a);
    }
  }

  lemma CommitRefused(def: Definition, ww: WakeWorld, a: Action)
    requires WakeBase(def, ww) && Guarded(ww) && Commits(a) && !Accepted(ww.g, Next(def, ww.g, a))
    ensures Guarded(WakeNext(def, ww, Do(a)))
  {
    hide Inv, Next, NextRetryAt;
    CommittingAction(def, ww.g, a);
    if !Terminal(ww.g.row.state) {
      var k :| Guards(ww, k);
      GuardStays(def, ww, a, k);
    }
  }

  /** What an accepted cancellation does. */
  lemma CancelFacts(def: Definition, g: World, a: Action)
    requires Inv(def, g) && a.RequestCancel? && Accepted(g, Next(def, g, a))
    ensures var g' := Next(def, g, a);
      && PhaseOf(g, a.w).Cancelling? && g'.workers == g.workers[a.w := Idle]
      && !g.row.cancellationRequested && !Terminal(g.row.state)
      && g'.row == g.row.(cancellationRequested := true, revision := g.row.revision + 1, updatedAt := g'.row.updatedAt)
  {
    hide Sound, HandlingAt, Effect, MustWait, CommitBy;
    assert PhaseOf(g, a.w).Idle? || PhaseOk(def, g.row, g.used, PhaseOf(g, a.w));
  }

  /** After a cancellation whose own wake is early the guards are those that no worker had read the row for. */
  lemma CancelOvertakes(def: Definition, ww: WakeWorld, a: Action, k: int)
    requires WakeBase(def, ww) && a.RequestCancel? && Accepted(ww.g, Next(def, ww.g, a)) && Before(a.now, Due(Next(def, ww.g, a).row))
    ensures Guards(WakeNext(def, ww, Do(a)), k) <==> k != |ww.wakes| && Guards(ww, k) && !InObservedHand(ww, ww.wakes[k])
  {
    hide Inv, Next, FirstRetry;
    var g' := Next(def, ww.g, a);
    CancelFacts(def, ww.g, a);
    assert Settlement(ww.g, a, g') == None;
    if 0 <= k < |ww.wakes| && InObservedHand(ww, ww.wakes[k]) {
      Overtaken(def, ww.g, g', ww.wakes[k].state.w);
    }
  }

  lemma CancellationExact(def: Definition, ww: WakeWorld, a: Action)
    requires WakeBase(def, ww) && Guarded(ww) && a.RequestCancel?
    ensures Guarded(WakeNext(def, ww, Do(a))) <==> !LosesGuard(def, ww, Do(a))
  {
    hide Inv, Next, NextRetryAt, RightTime, Alive;
    var g' := Next(def, ww.g, a);
    var ww' := WakeNext(def, ww, Do(a));
    if !Accepted(ww.g, g') {
      assert Guarded(ww') by { CancelRefusedStays(def, ww, a); }
    } else {
      CancelFacts(def, ww.g, a);
      if Before(a.now, Due(g'.row)) {
        forall k ensures Guards(ww', k) <==> k != |ww.wakes| && Guards(ww, k) && !InObservedHand(ww, ww.wakes[k]) { CancelOvertakes(def, ww, a, k); }
      } else {
        assert Guarded(ww') by { CancelGuards(def, ww, a); }
      }
    }
  }

  lemma CancelGuards(def: Definition, ww: WakeWorld, a: Action)
    requires Inv(def, ww.g) && a.RequestCancel? && Accepted(ww.g, Next(def, ww.g, a)) && !Before(a.now, Due(Next(def, ww.g, a).row))
    ensures Guarded(WakeNext(def, ww, Do(a)))
  {
    hide Inv, Next, FirstRetry;
    CancelFacts(def, ww.g, a);
    NewGuard(def, ww, a);
  }

  lemma CancelRefusedStays(def: Definition, ww: WakeWorld, a: Action)
    requires WakeBase(def, ww) && Guarded(ww) && a.RequestCancel? && !Accepted(ww.g, Next(def, ww.g, a))
    ensures Guarded(WakeNext(def, ww, Do(a)))
  {
    hide Inv, NextRetryAt;
    if !Terminal(ww.g.row.state) {
      var k :| Guards(ww, k);
      GuardStays(def, ww, a, k);
    }
  }

  lemma OtherStepsKeep(def: Definition, ww: WakeWorld, act: WakeAction)
    requires Guarded(ww) && !act.Do?
    ensures Guarded(WakeNext(def, ww, act))
  {
    hide NextRetryAt, ScanOf;
    if !Terminal(ww.g.row.state) {
      var k :| Guards(ww, k);
      assert Guards(WakeNext(def, ww, act), k);
    }
  }

  /** A step leaves a guarded workflow without a guard if and only if it is one of the three. */
  lemma StepExact(def: Definition, ww: WakeWorld, act: WakeAction)
    requires ValidDefinition(def) && WakeBase(def, ww) && Guarded(ww)
    ensures Guarded(WakeNext(def, ww, act)) <==> !LosesGuard(def, ww, act)
  {
    hide WakeNext, Next, Guarded, WakeBase, ValidDefinition, OnlyHandOf, OnlyObservedHands, MustWait;
    if !act.Do? {
      OtherStepsKeep(def, ww, act);
    } else if act.a.Claim? {
      ClaimExact(def, ww, act.a);
    } else if act.a.RequestCancel? {
      CancellationExact(def, ww, act.a);
    } else if Commits(act.a) {
      CommitExact(def, ww, act.a);
    } else if act.a.Renew? {
      RenewExact(def, ww, act.a);
    } else {
      QuietExact(def, ww, act.a);
    }
  }

  // ------------------------------------------------------------------------ every run

  /** Every state of the run is guarded. */
  ghost predicate AlwaysGuarded(def: Definition, ww: WakeWorld, acts: seq<WakeAction>)
    decreases |acts|
  {
    Guarded(ww) && (|acts| > 0 ==> AlwaysGuarded(def, WakeNext(def, ww, acts[0]), acts[1..]))
  }

  predicate NeverLoses(def: Definition, ww: WakeWorld, acts: seq<WakeAction>)
    decreases |acts|
  {
    |acts| > 0 ==> !LosesGuard(def, ww, acts[0]) && NeverLoses(def, WakeNext(def, ww, acts[0]), acts[1..])
  }

  lemma {:induction false} RunExactFrom(def: Definition, ww: WakeWorld, acts: seq<WakeAction>)
    requires ValidDefinition(def) && WakeBase(def, ww) && Guarded(ww)
    ensures AlwaysGuarded(def, ww, acts) <==> NeverLoses(def, ww, acts)
    decreases |acts|
  {
    hide WakeNext, WakeBase, Guarded, LosesGuard, ValidDefinition;
    if |acts| > 0 {
      var ww' := WakeNext(def, ww, acts[0]);
      StepExact(def, ww, acts[0]);
      BaseKept(def, ww, acts[0]);
      if Guarded(ww') {
        RunExactFrom(def, ww', acts[1..]);
      }
    }
  }

  lemma WakeInitialBase(def: Definition, ww: WakeWorld)
    requires WakeInitial(def, ww)
    ensures WakeBase(def, ww) && Guarded(ww)
  {
    hide MatchesDefinition, NextRetryAt;
    InitialInv(def, ww.g);
    assert Guards(ww, 0);
  }

  /**
   * Lost wake-ups, exactly: all along a run the workflow is finished or has a wake that will bring
   * somebody back, if and only if the run makes none of the three losing steps.
   */
  lemma LostWakeUpExact(def: Definition, ww: WakeWorld, acts: seq<WakeAction>)
    requires ValidDefinition(def) && WakeInitial(def, ww)
    ensures AlwaysGuarded(def, ww, acts) <==> NeverLoses(def, ww, acts)
  {
    hide WakeNext, WakeBase, Guarded, ValidDefinition, AlwaysGuarded, NeverLoses, WakeInitial;
    WakeInitialBase(def, ww);
    RunExactFrom(def, ww, acts);
  }

  // ------------------------------------------------------------------- clocks that agree

  /** The clocks behind store calls do not lag behind a wake that was already delivered. */
  predicate Timely(ww: WakeWorld, act: WakeAction) {
    act.Do? && HasNow(act.a) ==> act.a.now >= ww.passed
  }

  predicate AllTimely(def: Definition, ww: WakeWorld, acts: seq<WakeAction>)
    decreases |acts|
  {
    |acts| > 0 ==> Timely(ww, acts[0]) && AllTimely(def, WakeNext(def, ww, acts[0]), acts[1..])
  }

  /** Then none of the three steps can happen. */
  lemma TimelySpares(def: Definition, ww: WakeWorld, act: WakeAction)
    requires WakeBase(def, ww) && Guarded(ww) && Timely(ww, act)
    ensures !LosesGuard(def, ww, act)
  {
    hide Inv, Next, FirstRetry;
    if act.Do? && !Terminal(ww.g.row.state) {
      var k :| Guards(ww, k);
      var g' := Next(def, ww.g, act.a);
      if Commits(act.a) {
        CommittingAction(def, ww.g, act.a);
      } else if act.a.RequestCancel? && Accepted(ww.g, g') {
        CancelFacts(def, ww.g, act.a);
      }
    }
  }

  lemma {:induction false} TimelyAlong(def: Definition, ww: WakeWorld, acts: seq<WakeAction>)
    requires ValidDefinition(def) && WakeBase(def, ww) && Guarded(ww) && AllTimely(def, ww, acts)
    ensures AlwaysGuarded(def, ww, acts) && Guarded(WakeRun(def, ww, acts))
    decreases |acts|
  {
    hide WakeNext, WakeBase, Guarded, LosesGuard, ValidDefinition, Timely;
    if |acts| > 0 {
      TimelySpares(def, ww, acts[0]);
      StepExact(def, ww, acts[0]);
      BaseKept(def, ww, acts[0]);
      TimelyAlong(def, WakeNext(def, ww, acts[0]), acts[1..]);
    }
  }

  /**
   * No lost wake-up: while clocks agree, a live workflow always has a wake that is not consumed, not
   * in the hand of an overtaken worker, and available at the lease expiry, the retry time, the time
   * of the last change, or a time the reconciler chose.
   */
  lemma NoLostWakeUp(def: Definition, ww: WakeWorld, acts: seq<WakeAction>)
    requires ValidDefinition(def) && WakeInitial(def, ww) && AllTimely(def, ww, acts)
    ensures AlwaysGuarded(def, ww, acts) && Guarded(WakeRun(def, ww, acts))
  {
    hide WakeNext, WakeBase, Guarded, ValidDefinition, AlwaysGuarded, AllTimely, WakeInitial, WakeRun;
    WakeInitialBase(def, ww);
    TimelyAlong(def, ww, acts);
  }

  // --------------------------------------------------------------- wakes that are given up

  /** A wake that is not early, in the hand of a worker that has not been overtaken, is never consumed in vain. */
  lemma DeliveredWakeClaims(def: Definition, ww: WakeWorld, a: Action, k: nat)
    requires WakeBase(def, ww) && a.Claim?
    requires k < |ww.wakes| && NotEarly(ww.g.row, ww.wakes[k]) && Alive(ww, ww.wakes[k]) && a.now >= ww.wakes[k].availableAt
    requires ww.wakes[k].state == InHand(a.w) && PhaseOf(ww.g, a.w).Observed?
    ensures !MustWait(PhaseOf(ww.g, a.w).view, a.now)
    ensures ValidLeaseArguments(a.now, a.expiresAt) ==>
      ClaimRow(ww.g.row, PhaseOf(ww.g, a.w).view.revision, a.token, a.now, a.expiresAt).Ok?
  {
    hide Sound, HandlingAt, Effect, NextRetryAt;
    var p := PhaseOf(ww.g, a.w);
    assert PhaseOk(def, ww.g.row, ww.g.used, p);
    SameRetry(p.view, ww.g.row);
  }

  /** The workflow waits for a retry, or its lease is live. */
  predicate TooSoon(row: Snapshot, now: Time) {
    MustWait(row, now) || (row.lease.Some? && row.lease.value.expiresAt > now)
  }

  predicate Outlasts(ww: WakeWorld, ww': WakeWorld, k: int, now: Time) {
    Guards(ww, k) && Guards(ww', k) && ww'.wakes[k] == ww.wakes[k] && ww.wakes[k].availableAt > now
  }

  /**
   * A wake given up because the workflow waits or has a live lease leaves another one, not available
   * yet, if and only if it was not itself the only guard; and a worker whose own clock has reached
   * the wake it has in hand never gives up the only one.
   */
  lemma GivenUpWakeExact(def: Definition, ww: WakeWorld, a: Action)
    requires WakeBase(def, ww) && a.Claim? && PhaseOf(ww.g, a.w).Observed? && a.token !in ww.g.used
    requires !Terminal(ww.g.row.state) && Guarded(ww) && TooSoon(ww.g.row, a.now)
    requires Settlement(ww.g, a, Next(def, ww.g, a)) == Some(Consumed)
    ensures (exists k :: Outlasts(ww, WakeNext(def, ww, Do(a)), k, a.now)) <==> !OnlyHandOf(ww, a.w)
    ensures OnlyHandOf(ww, a.w) <==> !Guarded(WakeNext(def, ww, Do(a)))
    ensures (forall k :: 0 <= k < |ww.wakes| && ww.wakes[k].state == InHand(a.w) ==> ww.wakes[k].availableAt <= a.now) ==> !OnlyHandOf(ww, a.w)
    ensures a.now >= ww.passed ==> exists k :: Outlasts(ww, WakeNext(def, ww, Do(a)), k, a.now) && ww.wakes[k].state.Undelivered?
  {
    hide Inv, Next, NextRetryAt, RightTime, Alive, MustWait, WakeNext;
    var ww' := WakeNext(def, ww, Do(a));
    var g' := Next(def, ww.g, a);
    GiveUpFacts(def, ww, a);
    forall k ensures Guards(ww', k) <==> Guards(ww, k) && ww.wakes[k].state != InHand(a.w) { TurnedAway(def, ww, a, k); }
    forall k | Guards(ww, k) ensures ww.wakes[k].availableAt > a.now { GuardAfter(ww, a.now, k); }
    assert Terminal(ww'.g.row.state) == Terminal(ww.g.row.state) && forall k :: Guards(ww', k) ==> ww'.wakes[k] == ww.wakes[k] by { GiveUpSame(def, ww, a); }
    if !OnlyHandOf(ww, a.w) {
      var k :| 0 <= k < |ww.wakes| && Guards(ww, k) && ww.wakes[k].state != InHand(a.w);
      assert Outlasts(ww, ww', k, a.now);
    }
    if a.now >= ww.passed {
      var k :| Guards(ww, k);
      assert Outlasts(ww, ww', k, a.now) && ww.wakes[k].state.Undelivered? by { NotDelivered(ww, a.now, k); }
    }
  }

  lemma NotDelivered(ww: WakeWorld, now: Time, k: int)
    requires DeliveredPassed(ww) && Guards(ww, k) && ww.wakes[k].availableAt > now >= ww.passed
    ensures ww.wakes[k].state.Undelivered?
  {
  }

  lemma GiveUpFacts(def: Definition, ww: WakeWorld, a: Action)
    requires a.Claim? && Settlement(ww.g, a, Next(def, ww.g, a)) == Some(Consumed)
    ensures !Accepted(ww.g, Next(def, ww.g, a))
  {
    hide MustWait;
  }

  lemma GiveUpSame(def: Definition, ww: WakeWorld, a: Action)
    requires a.Claim? && Settlement(ww.g, a, Next(def, ww.g, a)) == Some(Consumed)
    ensures var ww' := WakeNext(def, ww, Do(a));
      ww'.g.row == ww.g.row && |ww'.wakes| == |ww.wakes| && forall k :: 0 <= k < |ww.wakes| && !ww'.wakes[k].state.Consumed? ==> ww'.wakes[k] == ww.wakes[k]
    ensures forall k :: Guards(WakeNext(def, ww, Do(a)), k) ==> WakeNext(def, ww, Do(a)).wakes[k] == ww.wakes[k]
  {
    hide MustWait, RightTime;
  }

  lemma GuardAfter(ww: WakeWorld, now: Time, k: int)
    requires ClaimedAfterRetry(ww.g.row) && TooSoon(ww.g.row, now) && Guards(ww, k)
    ensures ww.wakes[k].availableAt > now
  {
    hide NextRetryAt, Alive;
  }

  // ------------------------------------------------------------------- reconciliation

  lemma {:induction false} BaseAlong(def: Definition, ww: WakeWorld, acts: seq<WakeAction>)
    requires ValidDefinition(def) && WakeBase(def, ww)
    ensures WakeBase(def, WakeRun(def, ww, acts))
    decreases |acts|
  {
    hide WakeNext, WakeBase, ValidDefinition;
    if |acts| > 0 {
      BaseKept(def, ww, acts[0]);
      BaseAlong(def, WakeNext(def, ww, acts[0]), acts[1..]);
    }
  }

  /**
   * Scheduling a scan leaves the workflow guarded if and only if it was guarded, or the scan's wake
   * is new and not early for the row as it is by then.
   */
  lemma ScheduleExact(def: Definition, ww: WakeWorld, r: nat)
    requires r in ww.scans
    ensures var s := ww.scans[r];
      Guarded(WakeNext(def, ww, ScheduleWake(r))) <==>
        (Guarded(ww) || (WakeId(s.revision, s.generation) !in ww.scheduled && NotEarly(ww.g.row, Wake(s.availableAt, Undelivered))))
  {
    hide NextRetryAt;
    var s := ww.scans[r];
    var ww' := WakeNext(def, ww, ScheduleWake(r));
    var isNew := WakeId(s.revision, s.generation) !in ww.scheduled;
    assert ww'.g == ww.g;
    if Guarded(ww) {
      OtherStepsKeep(def, ww, ScheduleWake(r));
    } else if isNew && NotEarly(ww.g.row, Wake(s.availableAt, Undelivered)) {
      assert Guards(ww', |ww.wakes|);
    } else {
      forall k ensures !Guards(ww', k) { NoNewGuard(def, ww, r, k); }
    }
  }

  lemma NoNewGuard(def: Definition, ww: WakeWorld, r: nat, k: int)
    requires r in ww.scans && !Guarded(ww)
    requires var s := ww.scans[r];
      WakeId(s.revision, s.generation) in ww.scheduled || !NotEarly(ww.g.row, Wake(s.availableAt, Undelivered))
    ensures !Guards(WakeNext(def, ww, ScheduleWake(r)), k)
  {
    hide NextRetryAt;
    if 0 <= k < |ww.wakes| {
      assert !Guards(ww, k);
    }
  }

  lemma ScanIsNotEarly(row: Snapshot, now: Time, generationMs: nat)
    requires generationMs > 0
    ensures NotEarly(row, Wake(ScanOf(row, now, generationMs).availableAt, Undelivered))
  {
    hide NextRetryAt;
  }

  /** One reconciliation: read the row, append the wake. */
  function Reconciliation(r: nat, now: Time, generationMs: nat): seq<WakeAction> {
    [ScanRow(r, now, generationMs), ScheduleWake(r)]
  }

  /**
   * Whatever clocks did before, one reconciliation in a generation for which this revision has no
   * recovery wake yet leaves the workflow guarded; and then every continuation in which clocks do
   * not lag behind delivered wakes keeps it guarded.
   */
  lemma ReconciliationRepairs(def: Definition, ww: WakeWorld, past: seq<WakeAction>, r: nat, now: Time, generationMs: nat, future: seq<WakeAction>)
    requires ValidDefinition(def) && WakeInitial(def, ww) && generationMs > 0
    requires var lost := WakeRun(def, ww, past);
      WakeId(lost.g.row.revision, now / generationMs * generationMs) !in lost.scheduled
    requires AllTimely(def, WakeRun(def, WakeRun(def, ww, past), Reconciliation(r, now, generationMs)), future)
    ensures AlwaysGuarded(def, WakeRun(def, WakeRun(def, ww, past), Reconciliation(r, now, generationMs)), future)
  {
    hide WakeNext, WakeBase, Guarded, ValidDefinition, AlwaysGuarded, AllTimely, WakeInitial, ScanOf, WakeRun;
    WakeInitialBase(def, ww);
    BaseAlong(def, ww, past);
    var lost := WakeRun(def, ww, past);
    var repaired := WakeRun(def, lost, Reconciliation(r, now, generationMs));
    BaseAlong(def, lost, Reconciliation(r, now, generationMs));
    assert Guarded(repaired) by { ReconciledNow(def, lost, r, now, generationMs); }
    TimelyAlong(def, repaired, future);
  }

  lemma ReconciledNow(def: Definition, ww: WakeWorld, r: nat, now: Time, generationMs: nat)
    requires generationMs > 0 && WakeId(ww.g.row.revision, now / generationMs * generationMs) !in ww.scheduled
    ensures Guarded(WakeRun(def, ww, Reconciliation(r, now, generationMs)))
  {
    hide NextRetryAt, Guarded;
    var acts := Reconciliation(r, now, generationMs);
    var scanned := WakeNext(def, ww, acts[0]);
    var last := WakeNext(def, scanned, acts[1]);
    assert WakeRun(def, ww, acts) == last by {
      assert acts[1..] == [acts[1]] && [acts[1]][1..] == [];
      assert WakeRun(def, last, []) == last;
      assert WakeRun(def, scanned, [acts[1]]) == last;
    }
    if Terminal(ww.g.row.state) {
      assert Guarded(last) by { TerminalGuarded(last); }
    } else {
      ScanIsNotEarly(ww.g.row, now, generationMs);
      ScheduleExact(def, scanned, r);
    }
  }

  lemma TerminalGuarded(ww: WakeWorld)
    requires Terminal(ww.g.row.state)
    ensures Guarded(ww)
  {
  }

  /** A wake gets into a hand only when it is due, and only into the empty hand of an idle worker. */
  lemma DeliveredWhenDue(def: Definition, ww: WakeWorld, act: WakeAction, k: nat)
    requires k < |ww.wakes| && k < |WakeNext(def, ww, act).wakes|
    requires !ww.wakes[k].state.InHand? && WakeNext(def, ww, act).wakes[k].state.InHand?
    ensures act.Deliver? && act.k == k && ww.wakes[k].availableAt <= act.now && WakeNext(def, ww, act).wakes[k].state == InHand(act.w)
    ensures ww.wakes[k].state.Undelivered? && PhaseOf(ww.g, act.w).Idle? && EmptyHanded(ww.wakes, act.w)
  {
    hide Next, Appended, ScanOf;
  }
}
