/**
 * A lagging clock loses a wake, and the reconciler brings it back
 * (packages/workflows-reliability/src/index.ts:120-128, 173-197).
 */
module WorkflowLostWake {
  import opened Options
  import opened WorkflowTypes
  import opened WorkflowValidation
  import opened WorkflowManager
  import opened WorkflowStore
  import opened WorkflowProtocol
  import opened WorkflowWedge
  import opened WorkflowWakeUps
  import opened WorkflowWakeGuards

  ghost predicate Forgotten(ww: WakeWorld) {
    !Terminal(ww.g.row.state) && forall k :: 0 <= k < |ww.wakes| ==> ww.wakes[k].state.Consumed?
  }

  function SingleWakes(): WakeWorld {
    WakeWorld(SingleWorld(), [Wake(0, Undelivered)], 0, 0, map[], {}, {})
  }

  lemma ObserveStep(def: Definition, ww: WakeWorld, w: nat)
    requires PhaseOf(ww.g, w).Idle? && !Terminal(ww.g.row.state)
    ensures WakeNext(def, ww, Do(Observe(w))) == ww.(g := At(ww.g, w, Observed(ww.g.row)))
  {
    assert WakeNext(def, ww, Do(Observe(w))).wakes == ww.wakes;
  }

  /** A claim that lost the race gives up the wake in hand as contended. */
  lemma ContendedStep(def: Definition, ww: WakeWorld, a: Action)
    requires a.Claim? && PhaseOf(ww.g, a.w).Observed? && a.token !in ww.g.used && ValidLeaseArguments(a.now, a.expiresAt)
    requires !MustWait(PhaseOf(ww.g, a.w).view, a.now) && PhaseOf(ww.g, a.w).view.revision != ww.g.row.revision
    ensures WakeNext(def, ww, Do(a)) == ww.(g := At(ww.g, a.w, Idle), wakes := Settled(ww.wakes, a.w, Some(Consumed)))
  {
    hide MustWait;
  }

  const LOSING_FIRST: seq<WakeAction> := [Deliver(1, 0, 0), Do(Observe(1)), Do(Observe(0)), Do(Claim(0, 7, 10, 100)), Do(Claim(1, 8, 10, 100))]

  const LOSING_SECOND: seq<WakeAction> :=
    [Deliver(1, 1, 100), Do(Observe(1)), Do(AdvanceStep(0, 10, "", None)), Do(Claim(1, 8, 110, 200)), Do(Crash(0))]

  predicate HeldBySilentWorker(ww: WakeWorld) {
    && ww.g.row == ClaimedSingle(false) && ww.g.workers == map[0 := Claimed(ClaimedSingle(false), 7), 1 := Idle] && ww.g.used == {7}
    && ww.wakes == [Wake(0, Consumed), Wake(100, Undelivered)]
  }

  lemma ClaimFromCreation(ww: WakeWorld)
    requires var row := SingleWorld().row; ww.g == SingleWorld().(workers := map[1 := Observed(row), 0 := Observed(row)])
    requires ww.wakes == [Wake(0, InHand(1))]
    ensures var ww' := WakeNext(SINGLE, ww, Do(Claim(0, 7, 10, 100)));
      && ww'.g.row == ClaimedSingle(false) && ww'.g.used == {7}
      && ww'.g.workers == map[1 := Observed(SingleWorld().row), 0 := Claimed(ClaimedSingle(false), 7)]
      && ww'.wakes == [Wake(0, InHand(1)), Wake(100, Undelivered)]
  {
    hide MatchesDefinition, Advance, CommitRow, CommitBy;
  }

  /** Worker 0 claims without a message; worker 1 loses the race with the creation wake. */
  lemma LoseFirstWake()
    ensures HeldBySilentWorker(WakeRun(SINGLE, SingleWakes(), LOSING_FIRST))
  {
    hide WakeNext;
    DeliverStep(SINGLE, SingleWakes(), 1, 0, 0);
    var w1 := WakeNext(SINGLE, SingleWakes(), LOSING_FIRST[0]);
    ObserveStep(SINGLE, w1, 1);
    var w2 := WakeNext(SINGLE, w1, LOSING_FIRST[1]);
    ObserveStep(SINGLE, w2, 0);
    var w3 := WakeNext(SINGLE, w2, LOSING_FIRST[2]);
    ClaimFromCreation(w3);
    var w4 := WakeNext(SINGLE, w3, LOSING_FIRST[3]);
    ContendedStep(SINGLE, w4, LOSING_FIRST[4].a);
    var w5 := WakeNext(SINGLE, w4, LOSING_FIRST[4]);
    WakeStates(SINGLE, SingleWakes(), LOSING_FIRST, [w1, w2, w3, w4, w5]);
  }

  lemma StartAppendsNothing(ww: WakeWorld)
    requires ww.g.row == ClaimedSingle(false) && PhaseOf(ww.g, 0) == Claimed(ClaimedSingle(false), 7)
    ensures var ww' := WakeNext(SINGLE, ww, Do(AdvanceStep(0, 10, "", None)));
      ww'.g.row == StartedSingle(false) && ww'.g.workers == ww.g.workers[0 := HandlingSingle(false, false)] && ww'.g.used == ww.g.used && ww'.wakes == ww.wakes
  {
    hide Next;
    ReachStart(ww.g, false);
    assert WakeNext(SINGLE, ww, Do(AdvanceStep(0, 10, "", None))).wakes == ww.wakes;
  }

  lemma CrashStep(def: Definition, ww: WakeWorld, w: nat)
    requires EmptyHanded(ww.wakes, w)
    ensures var ww' := WakeNext(def, ww, Do(Crash(w))); ww'.g.row == ww.g.row && ww'.wakes == ww.wakes
  {
    assert WakeNext(def, ww, Do(Crash(w))).wakes == ww.wakes;
  }

  /** The wake for the lease expiry is in worker 1's hand when the holder's clock still says 10. */
  lemma LoseSecondWake(ww: WakeWorld)
    requires HeldBySilentWorker(ww)
    ensures Forgotten(WakeRun(SINGLE, ww, LOSING_SECOND))
  {
    hide WakeNext, Forgotten;
    var w1 := WakeNext(SINGLE, ww, Deliver(1, 1, 100));
    assert w1 == ww.(wakes := [Wake(0, Consumed), Wake(100, InHand(1))], passed := w1.passed) by { DeliverStep(SINGLE, ww, 1, 1, 100); }
    ObserveStep(SINGLE, w1, 1);
    var w2 := WakeNext(SINGLE, w1, Do(Observe(1)));
    StartAppendsNothing(w2);
    var w3 := WakeNext(SINGLE, w2, Do(AdvanceStep(0, 10, "", None)));
    var w4 := WakeNext(SINGLE, w3, Do(Claim(1, 8, 110, 200)));
    var w5 := WakeNext(SINGLE, w4, Do(Crash(0)));
    ContendThenCrash(w3);
    WakeStates(SINGLE, ww, LOSING_SECOND, [w1, w2, w3, w4, w5]);
  }

  lemma DeliverStep(def: Definition, ww: WakeWorld, w: nat, k: nat, now: Time)
    requires k < |ww.wakes| && ww.wakes[k].state.Undelivered? && ww.wakes[k].availableAt <= now
    requires PhaseOf(ww.g, w).Idle? && EmptyHanded(ww.wakes, w)
    ensures WakeNext(def, ww, Deliver(w, k, now)) ==
      ww.(wakes := ww.wakes[k := ww.wakes[k].(state := InHand(w))], passed := Max(ww.passed, ww.wakes[k].availableAt))
  {
  }

  lemma ContendThenCrash(ww: WakeWorld)
    requires ww.wakes == [Wake(0, Consumed), Wake(100, InHand(1))] && ww.g.used == {7} && ww.g.row == StartedSingle(false)
    requires PhaseOf(ww.g, 1) == Observed(ClaimedSingle(false))
    ensures Forgotten(WakeNext(SINGLE, WakeNext(SINGLE, ww, Do(Claim(1, 8, 110, 200))), Do(Crash(0))))
  {
    hide WakeNext;
    ContendedStep(SINGLE, ww, Claim(1, 8, 110, 200));
    var ww' := WakeNext(SINGLE, ww, Do(Claim(1, 8, 110, 200)));
    assert EmptyHanded(ww'.wakes, 0);
    CrashStep(SINGLE, ww', 0);
  }

  /**
   * Without the clock condition a wake can be lost: the wake for the lease expiry is delivered, the
   * holder then still commits its start boundary with an earlier clock reading, which keeps the
   * lease and appends nothing, the delivery is given up as contended, and the holder crashes.
   */
  lemma LaggingClockForgets()
    ensures WakeInitial(SINGLE, SingleWakes())
    ensures Forgotten(WakeRun(SINGLE, SingleWakes(), LOSING_FIRST + LOSING_SECOND))
  {
    hide WakeRun, MatchesDefinition, Forgotten, HeldBySilentWorker;
    SingleInitial();
    LoseFirstWake();
    LoseSecondWake(WakeRun(SINGLE, SingleWakes(), LOSING_FIRST));
    WakeRunConcat(SINGLE, SingleWakes(), LOSING_FIRST, LOSING_SECOND);
  }

  lemma {:induction false} WakeStates(def: Definition, ww: WakeWorld, acts: seq<WakeAction>, states: seq<WakeWorld>)
    requires |acts| == |states| > 0
    requires states[0] == WakeNext(def, ww, acts[0]) && forall i :: 0 < i < |states| ==> states[i] == WakeNext(def, states[i - 1], acts[i])
    ensures WakeRun(def, ww, acts) == states[|states| - 1]
    decreases |acts|
  {
    hide WakeNext;
    if |acts| > 1 {
      WakeStates(def, states[0], acts[1..], states[1..]);
    }
  }

  lemma {:induction false} NothingScheduled(def: Definition, ww: WakeWorld, acts: seq<WakeAction>)
    requires forall i :: 0 <= i < |acts| ==> !acts[i].ScheduleWake?
    ensures WakeRun(def, ww, acts).scheduled == ww.scheduled
    decreases |acts|
  {
    hide Next, Settlement, Appended, ScanOf;
    if |acts| > 0 {
      NothingScheduled(def, WakeNext(def, ww, acts[0]), acts[1..]);
    }
  }

  /** After that run one reconciliation, in any generation, brings the wake back for good. */
  lemma ForgottenThenRepaired(now: Time, generationMs: nat, future: seq<WakeAction>)
    requires generationMs > 0
    requires AllTimely(SINGLE, WakeRun(SINGLE, WakeRun(SINGLE, SingleWakes(), LOSING_FIRST + LOSING_SECOND), Reconciliation(0, now, generationMs)), future)
    ensures AlwaysGuarded(SINGLE, WakeRun(SINGLE, WakeRun(SINGLE, SingleWakes(), LOSING_FIRST + LOSING_SECOND), Reconciliation(0, now, generationMs)), future)
  {
    hide WakeRun, AllTimely, AlwaysGuarded, MatchesDefinition;
    SingleInitial();
    var past := LOSING_FIRST + LOSING_SECOND;
    assert forall i :: 0 <= i < |past| ==> !past[i].ScheduleWake?;
    NothingScheduled(SINGLE, SingleWakes(), past);
    ReconciliationRepairs(SINGLE, SingleWakes(), past, 0, now, generationMs, future);
  }
}
