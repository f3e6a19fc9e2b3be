/**
 * The receipt checks with which the manager and the transactional store audit every answer of a
 * workflow store (packages/workflows/src/validation.ts:194-259), and the proof that along every
 * run the store's own answers pass them.
 */
module WorkflowReceipts {
  import opened Options
  import opened WorkflowTypes
  import opened WorkflowValidation
  import opened WorkflowManager
  import opened WorkflowProgress
  import opened WorkflowEffects
  import opened WorkflowStore
  import opened WorkflowProtocol
  import opened WorkflowSafety
  import opened WorkflowHistory

  /** assertWorkflowClaimReceipt */
  predicate ClaimReceipt(observed: Snapshot, receipt: Snapshot, token: Token, now: Time, expiresAt: Time, expectedRevision: nat) {
    && ValidSnapshot(receipt)
    && observed.revision == expectedRevision && now < expiresAt
    && receipt == observed.(revision := observed.revision + 1, updatedAt := Max(observed.updatedAt, now), lease := Some(Lease(token, expiresAt)))
  }

  /** assertWorkflowRenewLeaseReceipt */
  predicate RenewReceipt(observed: Snapshot, receipt: Snapshot, expectedRevision: nat, token: Token, now: Time, expiresAt: Time) {
    var race := !observed.cancellationRequested && receipt.cancellationRequested;
    && ValidSnapshot(receipt)
    && (observed.revision == expectedRevision || (observed.revision == expectedRevision + 1 && observed.cancellationRequested))
    && now < expiresAt
    && receipt.revision == observed.revision + (if race then 1 else 0)
    && (receipt.cancellationRequested == observed.cancellationRequested || race)
    && (if race then receipt.updatedAt >= observed.updatedAt else receipt.updatedAt == observed.updatedAt)
    && receipt == observed.(
         revision := receipt.revision, cancellationRequested := receipt.cancellationRequested, updatedAt := receipt.updatedAt,
         lease := Some(Lease(token, if observed.lease.Some? then Max(observed.lease.value.expiresAt, expiresAt) else expiresAt)))
  }

  /** assertWorkflowCancellationReceipt */
  predicate CancellationReceipt(observed: Snapshot, receipt: Snapshot, now: Time, expectedRevision: nat) {
    && ValidSnapshot(receipt)
    && observed.revision == expectedRevision
    && receipt == observed.(revision := observed.revision + 1, cancellationRequested := true, updatedAt := Max(observed.updatedAt, now))
  }

  predicate LeaseReceipt(original: Snapshot, committed: Snapshot, token: Token, now: Time, releaseLease: bool) {
    if releaseLease then committed.lease.None?
    else
      && original.lease.Some? && committed.lease.Some?
      && committed.lease.value.token == token && committed.lease.value.token == original.lease.value.token
      && committed.lease.value.expiresAt >= original.lease.value.expiresAt && committed.lease.value.expiresAt > now
  }

  /** assertWorkflowCommitReceipt */
  predicate CommitReceipt(original: Snapshot, candidate: Snapshot, committed: Snapshot, token: Token, now: Time, releaseLease: bool, expectedRevision: nat) {
    var concurrent := original.revision == expectedRevision + 1 && original.cancellationRequested;
    var merge := !candidate.cancellationRequested && committed.cancellationRequested;
    var acknowledged := !original.cancellationRequested && candidate.cancellationRequested && committed.cancellationRequested;
    var raced := merge || acknowledged || concurrent;
    var minimum := Max(original.updatedAt, candidate.updatedAt);
    && ValidSnapshot(committed) && ValidSnapshot(candidate)
    && SameIdentity(original, candidate) && SameIdentity(original, committed)
    && !(candidate.state.Failed? && merge)
    && committed.header == candidate.header && committed.state == candidate.state && committed.steps == candidate.steps
    && (original.revision == expectedRevision || concurrent)
    && (committed.cancellationRequested == candidate.cancellationRequested || merge)
    && candidate.revision == expectedRevision && committed.revision == expectedRevision + (if raced then 2 else 1)
    && LeaseReceipt(original, committed, token, now, releaseLease)
    && (if raced then committed.updatedAt >= minimum && (!original.cancellationRequested || committed.updatedAt == minimum)
        else committed.updatedAt == candidate.updatedAt)
  }

  // -------------------------------------------------------------- claim and renew

  lemma ClaimReceiptAccepted(def: Definition, g: World, w: nat, token: Token, now: Time, expiresAt: Time)
    requires Inv(def, g) && PhaseOf(g, w).Observed?
    requires ClaimRow(g.row, PhaseOf(g, w).view.revision, token, now, expiresAt).Ok?
    ensures var receipt := ClaimRow(g.row, PhaseOf(g, w).view.revision, token, now, expiresAt).value;
      && ClaimReceipt(PhaseOf(g, w).view, receipt, token, now, expiresAt, PhaseOf(g, w).view.revision)
      && ClaimReceipt(g.row, receipt, token, now, expiresAt, PhaseOf(g, w).view.revision)
  {
    hide Sound, HandlingAt, Effect, ValidSnapshot;
    var p := PhaseOf(g, w);
    assert PhaseOk(def, g.row, g.used, p);
    var receipt := ClaimRow(g.row, p.view.revision, token, now, expiresAt).value;
    SoundTimes(def, g.row);
    ManagedFieldsSound(def, g.row, receipt);
    SoundTimes(def, receipt);
  }

  /** Also across a concurrent cancellation, and whichever heartbeat of the handler it is. */
  lemma RenewReceiptAccepted(def: Definition, g: World, w: nat, now: Time, expiresAt: Time)
    requires Inv(def, g) && PhaseOf(g, w).Handling?
    requires RenewRow(g.row, PhaseOf(g, w).view.revision, PhaseOf(g, w).token, now, expiresAt).Ok?
    ensures var p := PhaseOf(g, w);
      var receipt := RenewRow(g.row, p.view.revision, p.token, now, expiresAt).value;
      && RenewReceipt(p.seen, receipt, p.view.revision, p.token, now, expiresAt)
      && RenewReceipt(g.row, receipt, p.view.revision, p.token, now, expiresAt)
  {
    hide Sound, HandlingAt, Effect, ValidSnapshot;
    var p := PhaseOf(g, w);
    assert PhaseOk(def, g.row, g.used, p);
    var receipt := RenewRow(g.row, p.view.revision, p.token, now, expiresAt).value;
    SoundTimes(def, g.row);
    ManagedFieldsSound(def, g.row, receipt);
    SoundTimes(def, receipt);
  }

  /**
   * The cancellation receipt compares the lease exactly, so it is accepted precisely when no
   * renewal moved the lease between the canceller's read and its request.
   */
  lemma CancellationReceiptExact(def: Definition, g: World, w: nat, now: Time)
    requires Inv(def, g) && PhaseOf(g, w).Cancelling?
    requires CancelRow(g.row, PhaseOf(g, w).view.revision, now).Ok?
    ensures var p := PhaseOf(g, w);
      CancellationReceipt(p.view, CancelRow(g.row, p.view.revision, now).value, now, p.view.revision) <==> p.view.lease == g.row.lease
  {
    hide Sound, HandlingAt, Effect, ValidSnapshot;
    var p := PhaseOf(g, w);
    assert PhaseOk(def, g.row, g.used, p);
    var receipt := CancelRow(g.row, p.view.revision, now).value;
    SoundTimes(def, g.row);
    ManagedFieldsSound(def, g.row, receipt);
    SoundTimes(def, receipt);
  }

  // -------------------------------------------------------------------- commit

  /** A candidate as some worker of the run sends it to the store. */
  ghost predicate Sent(def: Definition, g: World, w: nat, candidate: Snapshot) {
    && (PhaseOf(g, w).Claimed? || PhaseOf(g, w).Handling? || PhaseOf(g, w).Reconciling?)
    && Sound(candidate, def) && Effect(def, PhaseOf(g, w).view, candidate)
    && (Holds(g.row, PhaseOf(g, w).token) && candidate.cancellationRequested ==> g.row.cancellationRequested)
  }

  /**
   * Every accepted commit passes the check of the worker that sent it, and the check of the
   * transactional store, which compares with the row it has just read; also when the store merged
   * a cancellation into it.
   */
  lemma CommitReceiptAccepted(def: Definition, g: World, w: nat, candidate: Snapshot, now: Time, release: bool)
    requires Inv(def, g) && Sent(def, g, w, candidate)
    requires CommitRow(g.row, candidate, PhaseOf(g, w).view.revision, PhaseOf(g, w).token, now, release).Ok?
    ensures var p := PhaseOf(g, w);
      var receipt := CommitRow(g.row, candidate, p.view.revision, p.token, now, release).value;
      && CommitReceipt(p.view, candidate, receipt, p.token, now, release, candidate.revision)
      && CommitReceipt(g.row, candidate, receipt, p.token, now, release, p.view.revision)
  {
    hide Sound, HandlingAt, ValidSnapshot, Measure, StepEffect;
    var p := PhaseOf(g, w);
    assert PhaseOk(def, g.row, g.used, p);
    var receipt := CommitRow(g.row, candidate, p.view.revision, p.token, now, release).value;
    CommitRowSound(def, g.row, p.view, candidate, p.token, now, release);
    SoundTimes(def, receipt);
    SoundTimes(def, candidate);
    assert SameIdentity(p.view, candidate) && SameIdentity(g.row, candidate);
  }

  lemma AdvanceSends(def: Definition, g: World, a: Action)
    requires ValidDefinition(def) && Inv(def, g) && a.AdvanceStep? && PhaseOf(g, a.w).Claimed? && |PhaseOf(g, a.w).view.steps| == |def.steps|
    requires MatchesDefinition(Touch(Advance(PhaseOf(g, a.w).view, def, a.error, a.retryAt).next, a.now), def)
    ensures Sent(def, g, a.w, Touch(Advance(PhaseOf(g, a.w).view, def, a.error, a.retryAt).next, a.now))
  {
    hide Sound, HandlingAt, Effect, MatchesDefinition, ValidDefinition, Advance, StartSource, NoNewOutput;
    var p := PhaseOf(g, a.w);
    assert PhaseOk(def, g.row, g.used, p);
    var next := Advance(p.view, def, a.error, a.retryAt).next;
    AdvanceExact(p.view, def, a.error, a.retryAt);
    AdvanceEffect(p.view, def, a.error, a.retryAt);
    AdvanceSources(p.view, def, a.error, a.retryAt);
    SoundTimes(def, p.view);
    EffectOfPlan(def, p.view, a.error, a.retryAt);
    TouchedCandidate(def, p.view, next, a.now);
  }

  lemma FinishSends(def: Definition, g: World, a: Action)
    requires Inv(def, g) && a.FinishStep? && PhaseOf(g, a.w).Handling? && PhaseOf(g, a.w).index < |PhaseOf(g, a.w).view.steps| && PhaseOf(g, a.w).index < |def.steps|
    requires MatchesDefinition(Touch(FinishCandidate(def, PhaseOf(g, a.w), a.handler), a.now), def)
    ensures Sent(def, g, a.w, Touch(FinishCandidate(def, PhaseOf(g, a.w), a.handler), a.now))
  {
    hide Sound, RunningAt, CompensatingAt, Effect, MatchesDefinition, OutputSource, FinishGuard, FinishForward, FinishCompensation;
    var p := PhaseOf(g, a.w);
    assert PhaseOk(def, g.row, g.used, p);
    var next := FinishCandidate(def, p, a.handler);
    var outcome := OutcomeOf(p.direction, a.handler, p.cancellationSeen);
    if p.direction.Forward? {
      FinishForwardExact(p.view, def, p.index, outcome, p.cancellationSeen);
    } else {
      FinishCompensationExact(p.view, def, p.index, outcome);
    }
    FinishEffect(def, p, a.handler);
    FinishSources(def, p, a.handler);
    SoundTimes(def, p.view);
    assert ValidTimes(next) by { FinishTimes(def, p, a.handler); }
    TouchedCandidate(def, p.view, next, a.now);
  }

  lemma FinishTimes(def: Definition, p: Phase, handler: HandlerResult)
    requires p.Handling? && p.index < |p.view.steps| && p.index < |def.steps| && ValidTimes(p.view)
    ensures ValidTimes(FinishCandidate(def, p, handler))
  {
  }

  lemma RecommitSends(def: Definition, g: World, a: Action)
    requires Inv(def, g) && a.Recommit? && PhaseOf(g, a.w).Reconciling?
    requires MatchesDefinition(Touch(PhaseOf(g, a.w).candidate, a.now), def)
    ensures Sent(def, g, a.w, Touch(PhaseOf(g, a.w).candidate, a.now))
  {
    hide Sound, HandlingAt, Effect, MatchesDefinition;
    var p := PhaseOf(g, a.w);
    assert PhaseOk(def, g.row, g.used, p);
    SoundTimes(def, p.candidate);
    TouchedCandidate(def, p.view, p.candidate, a.now);
  }

  // ------------------------------------------------------------------ every run

  /** Every answer the store gives to this action, accepted by the checks on it. */
  predicate AnswerAccepted(def: Definition, g: World, a: Action) {
    var p := PhaseOf(g, a.w);
    match a
    case Claim(_, token, now, expiresAt) =>
      p.Observed? && ClaimRow(g.row, p.view.revision, token, now, expiresAt).Ok? ==>
        ClaimReceipt(p.view, ClaimRow(g.row, p.view.revision, token, now, expiresAt).value, token, now, expiresAt, p.view.revision)
    case Renew(_, now, expiresAt) =>
      p.Handling? && RenewRow(g.row, p.view.revision, p.token, now, expiresAt).Ok? ==>
        RenewReceipt(p.seen, RenewRow(g.row, p.view.revision, p.token, now, expiresAt).value, p.view.revision, p.token, now, expiresAt)
    case AdvanceStep(_, now, error, retryAt) =>
      p.Claimed? && |p.view.steps| == |def.steps| ==>
        var plan := Advance(p.view, def, error, retryAt);
        CommitAnswerAccepted(def, g, p, Touch(plan.next, now), now, plan.Finish?)
    case FinishStep(_, now, handler) =>
      p.Handling? && p.index < |p.view.steps| && p.index < |def.steps| ==>
        CommitAnswerAccepted(def, g, p, Touch(FinishCandidate(def, p, handler), now), now, true)
    case Recommit(_, now) =>
      p.Reconciling? ==> CommitAnswerAccepted(def, g, p, Touch(p.candidate, now), now, true)
    case _ => true
  }

  predicate CommitAnswerAccepted(def: Definition, g: World, p: Phase, candidate: Snapshot, now: Time, release: bool)
    requires TokenOf(p).Some?
  {
    MatchesDefinition(candidate, def) && CommitRow(g.row, candidate, p.view.revision, p.token, now, release).Ok? ==>
      CommitReceipt(p.view, candidate, CommitRow(g.row, candidate, p.view.revision, p.token, now, release).value, p.token, now, release, candidate.revision)
  }

  /** Receipts along every run: no store answer to a claim, renewal or commit is ever rejected by the manager. */
  lemma ReceiptsAccepted(def: Definition, g: World, actions: seq<Action>, a: Action)
    requires ValidDefinition(def) && Initial(def, g)
    ensures AnswerAccepted(def, Run(def, g, actions), a)
  {
    hide Run, Inv, Initial, ValidDefinition, MatchesDefinition, CommitRow, ClaimRow, RenewRow, CommitReceipt, ClaimReceipt, RenewReceipt, Advance, FinishCandidate, Sent;
    InitialInv(def, g);
    RunKeeps(def, g, actions);
    var end := Run(def, g, actions);
    var p := PhaseOf(end, a.w);
    match a
    case Claim(w, token, now, expiresAt) =>
      if p.Observed? && ClaimRow(end.row, p.view.revision, token, now, expiresAt).Ok? {
        ClaimReceiptAccepted(def, end, w, token, now, expiresAt);
      }
    case Renew(w, now, expiresAt) =>
      if p.Handling? && RenewRow(end.row, p.view.revision, p.token, now, expiresAt).Ok? {
        RenewReceiptAccepted(def, end, w, now, expiresAt);
      }
    case AdvanceStep(w, now, error, retryAt) =>
      if p.Claimed? && |p.view.steps| == |def.steps| {
        var plan := Advance(p.view, def, error, retryAt);
        if MatchesDefinition(Touch(plan.next, now), def) && CommitRow(end.row, Touch(plan.next, now), p.view.revision, p.token, now, plan.Finish?).Ok? {
          AdvanceSends(def, end, a);
          CommitReceiptAccepted(def, end, w, Touch(plan.next, now), now, plan.Finish?);
        }
      }
    case FinishStep(w, now, handler) =>
      if p.Handling? && p.index < |p.view.steps| && p.index < |def.steps| {
        var candidate := Touch(FinishCandidate(def, p, handler), now);
        if MatchesDefinition(candidate, def) && CommitRow(end.row, candidate, p.view.revision, p.token, now, true).Ok? {
          FinishSends(def, end, a);
          CommitReceiptAccepted(def, end, w, candidate, now, true);
        }
      }
    case Recommit(w, now) =>
      if p.Reconciling? {
        var candidate := Touch(p.candidate, now);
        if MatchesDefinition(candidate, def) && CommitRow(end.row, candidate, p.view.revision, p.token, now, true).Ok? {
          RecommitSends(def, end, a);
          CommitReceiptAccepted(def, end, w, candidate, now, true);
        }
      }
    case _ =>
  }

  /** An accepted commit receipt differs from the candidate only in what the store manages. */
  lemma ReceiptDifference(original: Snapshot, candidate: Snapshot, committed: Snapshot, token: Token, now: Time, release: bool, expected: nat)
    requires CommitReceipt(original, candidate, committed, token, now, release, expected)
    ensures committed == candidate.(revision := committed.revision, lease := committed.lease,
                                    cancellationRequested := committed.cancellationRequested, updatedAt := committed.updatedAt)
    ensures candidate.cancellationRequested ==> committed.cancellationRequested
    ensures committed.revision in {expected + 1, expected + 2} && committed.updatedAt >= candidate.updatedAt
  {
    hide ValidSnapshot, SameIdentity;
  }

  // ------------------------------------------------------ what an accepted receipt shows

  /** The claim check passes exactly the answer of a store that held this row without a live lease. */
  lemma ClaimReceiptMeans(observed: Snapshot, receipt: Snapshot, token: Token, now: Time, expiresAt: Time, expected: nat)
    requires IsTimestamp(now) && IsTimestamp(expiresAt)
    ensures ClaimReceipt(observed, receipt, token, now, expiresAt, expected) <==>
      ValidSnapshot(receipt) && ClaimRow(observed.(lease := None), expected, token, now, expiresAt) == Ok(receipt)
  {
    hide ValidSnapshot;
  }

  /** The row after a cancellation that came in at some time. */
  function CancelledAt(s: Snapshot, updatedAt: Time): Snapshot {
    s.(cancellationRequested := true, revision := s.revision + 1, updatedAt := updatedAt)
  }

  /** The renewal check passes exactly the answers of a store that held this row, or this row cancelled meanwhile. */
  lemma RenewReceiptMeans(observed: Snapshot, receipt: Snapshot, expected: nat, token: Token, now: Time, expiresAt: Time)
    requires IsTimestamp(now) && IsTimestamp(expiresAt) && Holds(observed, token) && now < observed.lease.value.expiresAt
    ensures RenewReceipt(observed, receipt, expected, token, now, expiresAt) <==>
      && ValidSnapshot(receipt)
      && (RenewRow(observed, expected, token, now, expiresAt) == Ok(receipt)
          || (!observed.cancellationRequested && observed.revision == expected && observed.updatedAt <= receipt.updatedAt
              && RenewRow(CancelledAt(observed, receipt.updatedAt), expected, token, now, expiresAt) == Ok(receipt)))
  {
    hide ValidSnapshot;
  }

  /** The cancellation check passes exactly the answer of a store that held this row. */
  lemma CancellationReceiptMeans(observed: Snapshot, receipt: Snapshot, now: Time, expected: nat)
    requires IsTimestamp(now) && !Terminal(observed.state)
    ensures CancellationReceipt(observed, receipt, now, expected) <==> ValidSnapshot(receipt) && CancelRow(observed, expected, now) == Ok(receipt)
  {
    hide ValidSnapshot;
  }

  /** Renewals by the same holder and at most one cancellation lead from `s` to `row`. */
  predicate MovedTo(s: Snapshot, row: Snapshot) {
    && s.lease.Some? && row.lease.Some? && row.lease.value.token == s.lease.value.token && row.lease.value.expiresAt >= s.lease.value.expiresAt
    && (row.(lease := s.lease) == s || (!s.cancellationRequested && s.updatedAt <= row.updatedAt && row.(lease := s.lease) == CancelledAt(s, row.updatedAt)))
  }

  /** A holder's own snapshot and what it makes of it. */
  predicate Drawn(original: Snapshot, candidate: Snapshot, token: Token, now: Time, expected: nat) {
    && ValidSnapshot(original) && !Terminal(original.state) && IsTimestamp(now)
    && Holds(original, token) && now < original.lease.value.expiresAt
    && original.updatedAt <= candidate.updatedAt && candidate.revision == expected
    && (original.cancellationRequested && original.revision == expected ==> candidate.cancellationRequested)
  }

  /** The row of the store from which an accepted commit receipt came. */
  function RowBehind(original: Snapshot, committed: Snapshot, release: bool): Snapshot
    requires committed.revision > 0
  {
    var row := original.(revision := committed.revision - 1, lease := if release then original.lease else committed.lease);
    if row.revision == original.revision then row else row.(cancellationRequested := true, updatedAt := committed.updatedAt)
  }

  lemma RowBehindValid(original: Snapshot, row: Snapshot)
    requires ValidSnapshot(original) && !Terminal(original.state)
    requires row.header == original.header && row.state == original.state && row.steps == original.steps && ValidTimes(row)
    ensures ValidSnapshot(row)
  {
    hide ForwardBoundary, CompensationBoundary, ValidSteps, DistinctNames, ValidTimes;
  }

  /**
   * An accepted commit receipt is the answer of a store that held the row or what renewals and a
   * cancellation made of it, provided the receipt does not lose a cancellation already known.
   */
  lemma CommitReceiptMeans(original: Snapshot, candidate: Snapshot, committed: Snapshot, token: Token, now: Time, release: bool, expected: nat) returns (row: Snapshot)
    requires Drawn(original, candidate, token, now, expected) && CommitReceipt(original, candidate, committed, token, now, release, expected)
    requires original.cancellationRequested ==> committed.cancellationRequested
    ensures MovedTo(original, row) && CommitRow(row, candidate, expected, token, now, release) == Ok(committed)
  {
    hide ValidSteps, DistinctNames, ForwardBoundary, CompensationBoundary, SameStepIdentity;
    row := RowBehind(original, committed, release);
    RowBehindValid(original, row);
  }

  ghost predicate Explained(original: Snapshot, candidate: Snapshot, committed: Snapshot, token: Token, now: Time, release: bool, expected: nat) {
    exists row :: MovedTo(original, row) && CommitRow(row, candidate, expected, token, now, release) == Ok(committed)
  }

  /** What the commit check does not look at is exactly whether a known cancellation survived. */
  lemma CommitReceiptExplained(original: Snapshot, candidate: Snapshot, committed: Snapshot, token: Token, now: Time, release: bool, expected: nat)
    requires Drawn(original, candidate, token, now, expected) && CommitReceipt(original, candidate, committed, token, now, release, expected)
    ensures Explained(original, candidate, committed, token, now, release, expected) <==>
      (original.cancellationRequested ==> committed.cancellationRequested)
  {
    hide Drawn, CommitReceipt, ValidSnapshot, SameIdentity;
    if original.cancellationRequested ==> committed.cancellationRequested {
      var _ := CommitReceiptMeans(original, candidate, committed, token, now, release, expected);
    }
  }

  /** A store that drops the cancellation it raced with passes the commit check. */
  lemma LostCancellationPasses() returns (original: Snapshot, candidate: Snapshot, committed: Snapshot)
    ensures Drawn(original, candidate, 7, 10, 2) && CommitReceipt(original, candidate, committed, 7, 10, false, 2)
    ensures original.cancellationRequested && !committed.cancellationRequested
    ensures !Explained(original, candidate, committed, 7, 10, false, 2)
  {
    var running := StepSnapshot("a", StepKey("w", 0), None, StepState.Running, 1, 0, None, None, None);
    var done := running.(state := StepState.Committed, output := Some("1"));
    original := Snapshot(Header("w", "n", "1", "k", "{}", 0), WorkflowState.Running, 3, [running], Some(Lease(7, 20)), true, 5);
    candidate := original.(steps := [done], revision := 2, cancellationRequested := false);
    committed := candidate.(revision := 4);
    OneStepRunning(original);
    OneStepRunning(candidate);
    OneStepRunning(committed);
    CommitReceiptExplained(original, candidate, committed, 7, 10, false, 2);
  }

  lemma OneStepRunning(s: Snapshot)
    requires s.state.Running? && |s.steps| == 1 && ValidStep(s.steps[0]) && ValidTimes(s)
    requires s.steps[0].state.Running? || s.steps[0].state.Committed?
    ensures ValidSnapshot(s)
  {
    var k := FirstUncommitted(s.steps);
  }
}
