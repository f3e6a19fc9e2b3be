/**
 * Transactional wake-ups (packages/workflows-reliability/src/index.ts:89-143): every accepted store
 * operation appends an outbox message in the same transaction, so that a live workflow always has
 * a message that will bring somebody back to it.
 *
 * The reconciler (packages/workflows-reliability/src/index.ts:173-197) reads a row in one step and
 * appends its wake in another.
 *
 * A delivered message makes a worker call `processResult`. The message is consumed when that call
 * returns and becomes deliverable again when it throws or the worker crashes. Workers may also
 * process a workflow without a message in hand.
 */
module WorkflowWakeUps {
  import opened Options
  import opened WorkflowTypes
  import opened WorkflowValidation
  import opened WorkflowManager
  import opened WorkflowEffects
  import opened WorkflowStore
  import opened WorkflowProtocol
  import opened WorkflowSafety
  import opened WorkflowRetries

  datatype WakeState = Undelivered | InHand(w: nat) | Consumed

  datatype Wake = Wake(availableAt: Time, state: WakeState)

  /** What the reconciler computed from the row it read. */
  datatype Scan = Scan(revision: nat, generation: Time, availableAt: Time)

  /** The deterministic id of a recovery wake: a digest of the revision and the generation. */
  datatype WakeId = WakeId(revision: nat, generation: Time)

  /**
   * `passed` is the latest availability among the wakes delivered so far; `changed` is the time of
   * the last creation, release or cancellation; `scheduled` are the recovery wakes ever appended,
   * at the times `reconciled`.
   */
  datatype WakeWorld = WakeWorld(
    g: World, wakes: seq<Wake>, passed: Time, changed: Time,
    scans: map<nat, Scan>, scheduled: set<WakeId>, reconciled: set<Time>)

  datatype WakeAction =
    | Deliver(w: nat, k: nat, now: Time)
    | Do(a: Action)
    | ScanRow(r: nat, now: Time, generationMs: nat)
    | ScheduleWake(r: nat)

  // ------------------------------------------------------------------ appended wakes

  predicate Commits(a: Action) {
    a.AdvanceStep? || a.FinishStep? || a.Recommit?
  }

  predicate HasNow(a: Action) {
    a.Claim? || a.Renew? || a.RequestCancel? || Commits(a)
  }

  predicate Accepted(g: World, g': World) {
    |g'.log| > |g.log|
  }

  /** What the transactional store appends when action `a` took `g` to `g'`. */
  function Appended(g: World, a: Action, g': World): Option<Time> {
    if !Accepted(g, g') then None
    else match a
      case Claim(_, _, _, expiresAt) => Some(expiresAt)
      case Renew(_, _, _) => if g'.row.lease.Some? then Some(g'.row.lease.value.expiresAt) else None
      case RequestCancel(_, now) => if Terminal(g'.row.state) then None else Some(now)
      case _ =>
        if !Commits(a) || g'.row.lease.Some? || Terminal(g'.row.state) then None
        else if Waiting(g'.row.state) && NextRetryAt(g'.row).Some? then NextRetryAt(g'.row)
        else Some(a.now)
  }

  // ---------------------------------------------------------------- delivered wakes

  /** The outcomes of `processResult` for the message a worker has in hand, if this action ends it. */
  function Settlement(g: World, a: Action, g': World): Option<WakeState> {
    var p := PhaseOf(g, a.w);
    match a
    case Crash(_) => Some(Undelivered)
    case Observe(_) => if p.Idle? && Terminal(g.row.state) then Some(Consumed) else None
    case Claim(_, token, now, expiresAt) =>
      if !p.Observed? || token in g.used then None
      else if MustWait(p.view, now) then Some(Consumed)
      else
        var r := ClaimRow(g.row, p.view.revision, token, now, expiresAt);
        if r.Ok? then None else if r.error.BadArgument? then Some(Undelivered) else Some(Consumed)
    case _ =>
      if TokenOf(p).Some? && PhaseOf(g', a.w).Idle? then Some(if Commits(a) && Accepted(g, g') then Consumed else Undelivered) else None
  }

  function Settled(wakes: seq<Wake>, w: nat, outcome: Option<WakeState>): (r: seq<Wake>)
    ensures |r| == |wakes|
    ensures forall k :: 0 <= k < |wakes| ==>
      r[k] == if wakes[k].state == InHand(w) && outcome.Some? then wakes[k].(state := outcome.value) else wakes[k]
  {
    seq(|wakes|, k requires 0 <= k < |wakes| =>
      if wakes[k].state == InHand(w) && outcome.Some? then wakes[k].(state := outcome.value) else wakes[k])
  }

  function WithAppended(wakes: seq<Wake>, time: Option<Time>): seq<Wake> {
    if time.Some? then wakes + [Wake(time.value, Undelivered)] else wakes
  }

  /** When the reconciler schedules its wake for a row it found at `now`. */
  function ScanOf(row: Snapshot, now: Time, generationMs: nat): Scan
    requires generationMs > 0
  {
    var generation := now / generationMs * generationMs;
    var retryAt := if Waiting(row.state) then NextRetryAt(row) else None;
    var dueAt := if row.lease.Some? then row.lease.value.expiresAt else if retryAt.Some? then retryAt.value else generation;
    Scan(row.revision, generation, Max(generation, dueAt))
  }

  /** Appending a wake under an id that exists changes nothing, or is refused because the times differ. */
  function Schedule(ww: WakeWorld, s: Scan): WakeWorld {
    if WakeId(s.revision, s.generation) in ww.scheduled then ww
    else ww.(wakes := ww.wakes + [Wake(s.availableAt, Undelivered)],
             scheduled := ww.scheduled + {WakeId(s.revision, s.generation)}, reconciled := ww.reconciled + {s.availableAt})
  }

  predicate EmptyHanded(wakes: seq<Wake>, w: nat) {
    forall k :: 0 <= k < |wakes| ==> wakes[k].state != InHand(w)
  }

  function WakeNext(def: Definition, ww: WakeWorld, act: WakeAction): WakeWorld {
    match act
    case Deliver(w, k, now) =>
      if k < |ww.wakes| && ww.wakes[k].state.Undelivered? && ww.wakes[k].availableAt <= now && PhaseOf(ww.g, w).Idle? && EmptyHanded(ww.wakes, w)
      then ww.(wakes := ww.wakes[k := ww.wakes[k].(state := InHand(w))], passed := Max(ww.passed, ww.wakes[k].availableAt))
      else ww
    case Do(a) =>
      var g' := Next(def, ww.g, a);
      ww.(g := g',
          wakes := WithAppended(Settled(ww.wakes, a.w, Settlement(ww.g, a, g')), Appended(ww.g, a, g')),
          changed := if Accepted(ww.g, g') && (a.RequestCancel? || (Commits(a) && g'.row.lease.None?)) then a.now else ww.changed)
    case ScanRow(r, now, generationMs) =>
      if Terminal(ww.g.row.state) || generationMs == 0 then ww else ww.(scans := ww.scans[r := ScanOf(ww.g.row, now, generationMs)])
    case ScheduleWake(r) =>
      if r !in ww.scans then ww else Schedule(ww.(scans := ww.scans - {r}), ww.scans[r])
  }

  function WakeRun(def: Definition, ww: WakeWorld, acts: seq<WakeAction>): WakeWorld
    decreases |acts|
  {
    if |acts| == 0 then ww else WakeRun(def, WakeNext(def, ww, acts[0]), acts[1..])
  }

  /** `create` appends the first wake. */
  predicate WakeInitial(def: Definition, ww: WakeWorld) {
    && Initial(def, ww.g) && ww.changed == ww.g.row.updatedAt
    && ww.wakes == [Wake(ww.g.row.updatedAt, Undelivered)]
    && ww.scans == map[] && ww.scheduled == {} && ww.reconciled == {}
  }

  /** When somebody has to come back: at lease expiry, else at the retry time, else at once. */
  function Due(row: Snapshot): Option<Time> {
    if row.lease.Some? then Some(row.lease.value.expiresAt)
    else if Waiting(row.state) then NextRetryAt(row)
    else None
  }

  // ------------------------------------------------------------------ one action at a time

  /** What a commit attempt does to the row. */
  predicate CommitMove(g: World, g': World, w: nat, now: Time, release: bool) {
    if !Accepted(g, g') then g'.row == g.row
    else
      && g.row.lease.Some? && g.row.lease.value.expiresAt > now
      && g'.row.lease == (if release then None else g.row.lease)
      && (!release ==> !Waiting(g'.row.state) && !Terminal(g'.row.state))
      && (g.row.cancellationRequested ==> g'.row.cancellationRequested)
  }

  predicate IdleOrHolder(p: Phase) {
    p.Idle? || TokenOf(p).Some?
  }

  lemma CommitMoves(def: Definition, g: World, w: nat, next: Snapshot, now: Time, plan: Plan)
    requires PhaseOf(g, w).Claimed? || PhaseOf(g, w).Handling? || PhaseOf(g, w).Reconciling?
    requires plan.Start? ==> !Waiting(next.state) && !Terminal(next.state)
    ensures var g' := CommitBy(def, g, w, Touch(next, now), now, plan);
      && CommitMove(g, g', w, now, plan.Finish?) && (Accepted(g, g') ==> Holds(g.row, PhaseOf(g, w).token))
      && g'.workers == g.workers[w := PhaseOf(g', w)] && IdleOrHolder(PhaseOf(g', w))
  {
    hide MatchesDefinition, ValidSnapshot, SameIdentity;
  }

  lemma StartIsActive(def: Definition, s: Snapshot, error: ErrorText, retryAt: Option<Time>)
    requires |s.steps| == |def.steps|
    ensures var plan := Advance(s, def, error, retryAt); plan.Start? ==> !Waiting(plan.next.state) && !Terminal(plan.next.state)
  {
    hide HasCompensation;
  }

  predicate OnlyMoves(g: World, g': World, w: nat) {
    g'.workers == g.workers || g'.workers == g.workers[w := PhaseOf(g', w)]
  }

  lemma CommittingAction(def: Definition, g: World, a: Action)
    requires Inv(def, g) && Commits(a)
    ensures Accepted(g, Next(def, g, a)) && Next(def, g, a).row.lease.Some? ==> !Terminal(g.row.state)
    ensures var g' := Next(def, g, a);
      && OnlyMoves(g, g', a.w)
      && (g' == g || (TokenOf(PhaseOf(g, a.w)).Some? && IdleOrHolder(PhaseOf(g', a.w)) && exists release :: CommitMove(g, g', a.w, a.now, release)))
  {
    hide Advance, FinishCandidate, CommitBy, Sound, HandlingAt, Effect;
    var p := PhaseOf(g, a.w);
    assert p.Idle? || PhaseOk(def, g.row, g.used, p);
    match a
    case AdvanceStep(w, now, error, retryAt) =>
      if p.Claimed? && |p.view.steps| == |def.steps| {
        var plan := Advance(p.view, def, error, retryAt);
        StartIsActive(def, p.view, error, retryAt);
        CommitMoves(def, g, w, plan.next, now, plan);
      }
    case FinishStep(w, now, handler) =>
      if p.Handling? && p.invoked && p.index < |p.view.steps| && p.index < |def.steps| {
        var next := FinishCandidate(def, p, handler);
        CommitMoves(def, g, w, next, now, Finish(next));
      }
    case Recommit(w, now) =>
      if p.Reconciling? {
        CommitMoves(def, g, w, p.candidate, now, Finish(p.candidate));
      }
  }

  // ---------------------------------------------------------- whatever the clocks say

  /** A wake was appended for exactly the time at which somebody has to come back. */
  predicate AppendedAtDue(ww: WakeWorld, k: int) {
    0 <= k < |ww.wakes| && ww.wakes[k].availableAt == (if Due(ww.g.row).Some? then Due(ww.g.row).value else ww.changed)
  }

  ghost predicate EveryChangeAnnounced(ww: WakeWorld) {
    !Terminal(ww.g.row.state) ==> exists k :: AppendedAtDue(ww, k)
  }

  lemma AnnouncedStays(def: Definition, ww: WakeWorld, a: Action)
    requires EveryChangeAnnounced(ww) && !Terminal(ww.g.row.state)
    requires var ww' := WakeNext(def, ww, Do(a)); Due(ww'.g.row) == Due(ww.g.row) && (Due(ww.g.row).Some? || ww'.changed == ww.changed)
    ensures EveryChangeAnnounced(WakeNext(def, ww, Do(a)))
  {
    hide Next, Settlement, Appended, Due;
    var k :| AppendedAtDue(ww, k);
    assert AppendedAtDue(WakeNext(def, ww, Do(a)), k);
  }

  lemma AnnouncedNow(def: Definition, ww: WakeWorld, a: Action)
    requires var g' := Next(def, ww.g, a);
      Appended(ww.g, a, g').Some? && (Due(g'.row).Some? ==> Appended(ww.g, a, g') == Due(g'.row))
    requires Due(Next(def, ww.g, a).row).None? ==> Appended(ww.g, a, Next(def, ww.g, a)).value == WakeNext(def, ww, Do(a)).changed
    ensures EveryChangeAnnounced(WakeNext(def, ww, Do(a)))
  {
    hide Next, Settlement, Appended, Due;
    assert AppendedAtDue(WakeNext(def, ww, Do(a)), |ww.wakes|);
  }

  lemma DoAnnounces(def: Definition, ww: WakeWorld, a: Action)
    requires Inv(def, ww.g) && EveryChangeAnnounced(ww)
    ensures EveryChangeAnnounced(WakeNext(def, ww, Do(a)))
  {
    hide Inv, FirstRetry, CommitBy, Advance, FinishCandidate, ReconcileCandidate, EveryChangeAnnounced;
    var g' := Next(def, ww.g, a);
    if Commits(a) {
      CommitAnnounces(def, ww, a);
    } else if Terminal(g'.row.state) {
      assert EveryChangeAnnounced(WakeNext(def, ww, Do(a))) by { TerminalAnnounced(WakeNext(def, ww, Do(a))); }
    } else if Accepted(ww.g, g') && (a.Claim? || a.Renew? || (a.RequestCancel? && Due(g'.row).None?)) {
      AnnouncedNow(def, ww, a);
    } else {
      AnnouncedStays(def, ww, a);
    }
  }

  lemma TerminalAnnounced(ww: WakeWorld)
    requires Terminal(ww.g.row.state)
    ensures EveryChangeAnnounced(ww)
  {
  }

  lemma CommitAnnounces(def: Definition, ww: WakeWorld, a: Action)
    requires Inv(def, ww.g) && EveryChangeAnnounced(ww) && Commits(a)
    ensures EveryChangeAnnounced(WakeNext(def, ww, Do(a)))
  {
    hide Inv, NextRetryAt, Next, EveryChangeAnnounced;
    var g' := Next(def, ww.g, a);
    CommittingAction(def, ww.g, a);
    if Terminal(g'.row.state) {
      TerminalAnnounced(WakeNext(def, ww, Do(a)));
    } else if Accepted(ww.g, g') && g'.row.lease.None? {
      AnnouncedNow(def, ww, a);
    } else {
      AnnouncedStays(def, ww, a);
    }
  }

  lemma {:induction false} AnnouncedAlong(def: Definition, ww: WakeWorld, acts: seq<WakeAction>)
    requires ValidDefinition(def) && Inv(def, ww.g) && EveryChangeAnnounced(ww)
    ensures EveryChangeAnnounced(WakeRun(def, ww, acts)) && Inv(def, WakeRun(def, ww, acts).g)
    decreases |acts|
  {
    hide WakeNext, ValidDefinition, Inv, EveryChangeAnnounced;
    if |acts| > 0 {
      match acts[0] {
        case Do(a) => DoAnnounces(def, ww, a); NextKeeps(def, ww.g, a);
        case _ => OtherAnnounces(def, ww, acts[0]);
      }
      assert Inv(def, WakeNext(def, ww, acts[0]).g) by { RowOf(def, ww, acts[0]); }
      AnnouncedAlong(def, WakeNext(def, ww, acts[0]), acts[1..]);
    }
  }

  lemma RowOf(def: Definition, ww: WakeWorld, act: WakeAction)
    ensures WakeNext(def, ww, act).g == if act.Do? then Next(def, ww.g, act.a) else ww.g
  {
    hide Next, Settlement, Appended;
  }

  lemma OtherAnnounces(def: Definition, ww: WakeWorld, act: WakeAction)
    requires EveryChangeAnnounced(ww) && !act.Do?
    ensures EveryChangeAnnounced(WakeNext(def, ww, act))
  {
    hide Due;
    if !Terminal(ww.g.row.state) {
      var k :| AppendedAtDue(ww, k);
      assert AppendedAtDue(WakeNext(def, ww, act), k);
    }
  }

  /**
   * When somebody has to come back, read off the row's own fields: at the lease expiry; without a
   * lease at the retry time of the one waiting step, unless a cancellation overrides it; otherwise
   * at the time of the last change.
   */
  ghost predicate ComeBackAt(row: Snapshot, changed: Time, t: Time) {
    if row.lease.Some? then t == row.lease.value.expiresAt
    else if Waiting(row.state) && !Overridden(row) then exists i :: OnlyWaiting(row.steps, i) && row.steps[i].retryAt == Some(t)
    else t == changed
  }

  lemma DueOnFields(row: Snapshot, changed: Time)
    requires ValidSnapshot(row)
    ensures ComeBackAt(row, changed, if Due(row).Some? then Due(row).value else changed)
  {
    hide ValidSnapshot, NextRetryAt;
    RetryTimeExact(row);
  }

  /**
   * A reconciliation aims at the time at which somebody has to come back, but not before the beginning
   * of its own generation, the last multiple of `generationMs`.
   */
  lemma ScanExact(row: Snapshot, now: Time, generationMs: nat)
    requires ValidSnapshot(row) && generationMs > 0
    ensures var s := ScanOf(row, now, generationMs);
      && s.revision == row.revision && s.generation % generationMs == 0 && s.generation <= now < s.generation + generationMs
      && exists due :: ComeBackAt(row, s.generation, due) && s.availableAt == if due < s.generation then s.generation else due
  {
    hide ValidSnapshot, NextRetryAt, ComeBackAt;
    var s := ScanOf(row, now, generationMs);
    Multiple(now, generationMs);
    DueOnFields(row, s.generation);
  }

  lemma Multiple(now: Time, n: nat)
    requires n > 0
    ensures (now / n * n) % n == 0 && now / n * n <= now < now / n * n + n
  {
    var q := now / n;
    assert now == q * n + now % n;
    assert (q * n) % n == 0 by { MultipleMod(q, n); }
  }

  lemma MultipleMod(q: int, n: int)
    requires n > 0
    ensures (q * n) % n == 0
  {
    var d, r := (q * n) / n, (q * n) % n;
    assert (q - d) * n == r;
    Spread(q - d, n);
  }

  lemma Spread(k: int, n: int)
    requires n > 0
    ensures (k >= 1 ==> k * n >= n) && (k <= -1 ==> k * n <= 0 - n)
  {
  }

  /**
   * After every transaction of every run, with no assumption on clocks, a wake has been appended for
   * exactly the time at which somebody has to come back to a live workflow.
   */
  lemma EveryTransactionAppends(def: Definition, ww: WakeWorld, acts: seq<WakeAction>)
    requires ValidDefinition(def) && WakeInitial(def, ww)
    ensures EveryChangeAnnounced(WakeRun(def, ww, acts))
    ensures var end := WakeRun(def, ww, acts);
      !Terminal(end.g.row.state) ==> exists k :: 0 <= k < |end.wakes| && ComeBackAt(end.g.row, end.changed, end.wakes[k].availableAt)
  {
    hide WakeRun, ValidDefinition, MatchesDefinition, ComeBackAt, Due;
    InitialInv(def, ww.g);
    assert AppendedAtDue(ww, 0) by { StartsAnnounced(def, ww); }
    AnnouncedAlong(def, ww, acts);
    var end := WakeRun(def, ww, acts);
    RowIsValid(def, end.g);
    DueOnFields(end.g.row, end.changed);
  }

  lemma StartsAnnounced(def: Definition, ww: WakeWorld)
    requires WakeInitial(def, ww)
    ensures AppendedAtDue(ww, 0)
  {
    hide MatchesDefinition;
  }

  lemma RowIsValid(def: Definition, g: World)
    requires Inv(def, g)
    ensures ValidSnapshot(g.row)
  {
    hide Sound, PhaseOk, DistinctTokens;
    SoundTimes(def, g.row);
  }

  lemma {:induction false} WakeRunConcat(def: Definition, ww: WakeWorld, a: seq<WakeAction>, b: seq<WakeAction>)
    ensures WakeRun(def, ww, a + b) == WakeRun(def, WakeRun(def, ww, a), b)
    decreases |a|
  {
    hide WakeNext;
    if |a| == 0 {
      assert a + b == b;
    } else {
      assert (a + b)[1..] == a[1..] + b;
      WakeRunConcat(def, WakeNext(def, ww, a[0]), a[1..], b);
    }
  }
}
