/**
 * A workflow can always be finished unless it is stuck: from every reachable state in which no
 * step is left running under a requested cancellation, one worker working alone reaches a terminal
 * state, whatever the other workers left behind (packages/workflows/src/manager.ts:86-255).
 */
module WorkflowLiveness {
  import opened Options
  import opened WorkflowTypes
  import opened WorkflowValidation
  import opened WorkflowManager
  import opened WorkflowProgress
  import opened WorkflowEffects
  import opened WorkflowStore
  import opened WorkflowProtocol
  import opened WorkflowSafety
  import opened WorkflowHistory
  import opened WorkflowTheorems
  import opened WorkflowRuns
  import opened WorkflowWedge

  /** Nobody holds a live lease at `t` and no retry time is still ahead. */
  predicate FreeAt(row: Snapshot, t: Time) {
    && IsTimestamp(t) && t < MAX_TIMESTAMP
    && (row.lease.Some? ==> row.lease.value.expiresAt <= t)
    && !MustWait(row, t)
  }

  lemma TouchSound(def: Definition, s: Snapshot, t: Time)
    requires Sound(s, def) && IsTimestamp(t)
    ensures Sound(Touch(s, t), def) && MatchesDefinition(Touch(s, t), def)
  {
    hide Sound, MatchesDefinition;
    SoundTimes(def, s);
    ManagedFieldsSound(def, s, Touch(s, t));
    SoundTimes(def, Touch(s, t));
  }

  lemma EffectIdentity(def: Definition, s: Snapshot, c: Snapshot)
    requires Effect(def, s, c)
    ensures SameIdentity(s, c)
  {
    hide Measure;
  }

  /** A holder whose view is the row itself commits any sound candidate while its lease is live. */
  lemma HolderCommits(def: Definition, row: Snapshot, c: Snapshot, token: Token, t: Time, release: bool)
    requires Sound(row, def) && Sound(c, def) && Effect(def, row, c) && IsTimestamp(t)
    requires Holds(row, token) && row.lease.value.expiresAt > t
    ensures MatchesDefinition(Touch(c, t), def)
    ensures CommitRow(row, Touch(c, t), row.revision, token, t, release).Ok?
    ensures var row' := CommitRow(row, Touch(c, t), row.revision, token, t, release).value;
      row'.state == c.state && row'.steps == c.steps && row'.lease == (if release then None else row.lease)
  {
    hide Sound, MatchesDefinition, ValidSnapshot, SameIdentity, Measure, StepsEffect;
    TouchSound(def, c, t);
    SoundTimes(def, row);
    SoundTimes(def, Touch(c, t));
    EffectIdentity(def, row, c);
    assert SameIdentity(row, Touch(c, t)) by { TouchedIdentity(row, c, t); }
  }

  lemma TouchedIdentity(row: Snapshot, c: Snapshot, t: Time)
    requires SameIdentity(row, c)
    ensures SameIdentity(row, Touch(c, t))
  {
  }

  // ------------------------------------------------------------------- claim and advance

  /** The worker has the claim, and its view is the row. */
  predicate HoldsClaim(g: World, w: nat, token: Token, t: Time) {
    PhaseOf(g, w) == Claimed(g.row, token) && g.row.lease == Some(Lease(token, t + 1))
  }

  lemma ClaimSucceeds(def: Definition, g: World, w: nat, token: Token, t: Time)
    requires Inv(def, g) && !Terminal(g.row.state) && PhaseOf(g, w).Idle? && token !in g.used && FreeAt(g.row, t)
    ensures var g' := Next(def, Next(def, g, Observe(w)), Claim(w, token, t, t + 1));
      && HoldsClaim(g', w, token, t)
      && g'.row == g.row.(revision := g.row.revision + 1, lease := Some(Lease(token, t + 1)), updatedAt := g'.row.updatedAt)
  {
    hide Inv, MustWait;
  }

  /** Released, or inside a handler that was just started. */
  predicate AfterAdvance(g: World, w: nat, token: Token, t: Time) {
    || (PhaseOf(g, w).Idle? && g.row.lease.None?)
    || (g.row.lease == Some(Lease(token, t + 1)) && PhaseOf(g, w).Handling? && PhaseOf(g, w).view == g.row && PhaseOf(g, w).token == token
        && !PhaseOf(g, w).invoked && !PhaseOf(g, w).cancellationSeen)
  }

  /** A claim holder makes an accepted commit exactly when the row is not stuck. */
  lemma AdvanceSucceeds(def: Definition, g: World, w: nat, token: Token, t: Time)
    requires ValidDefinition(def) && Inv(def, g) && !Terminal(g.row.state) && IsTimestamp(t) && HoldsClaim(g, w, token, t)
    ensures |g.row.steps| == |def.steps|
    ensures var g' := Next(def, g, AdvanceStep(w, t, "", None));
      if StuckRow(g.row) then g'.row == g.row
      else AfterAdvance(g', w, token, t) && g'.row.revision == g.row.revision + 1 && g'.row.state == Advance(g.row, def, "", None).next.state
  {
    hide Sound, HandlingAt, Effect, MatchesDefinition, ValidDefinition, HasRunning, ValidSnapshot, SameIdentity;
    assert PhaseOk(def, g.row, g.used, PhaseOf(g, w));
    RowSteps(def, g);
    var plan := Advance(g.row, def, "", None);
    if StuckRow(g.row) {
      CancelRefused(def, g.row, t);
      AdvanceCancels(def, g.row, "", None);
    } else {
      AdvanceExact(g.row, def, "", None);
      assert AdvanceGuard(g.row, def, None) by { NoRetryAsked(def, g.row); }
      AdvanceEffect(g.row, def, "", None);
      HolderCommits(def, g.row, plan.next, token, t, plan.Finish?);
      if plan.Start? {
        StartIndex(def, g.row);
      }
    }
  }

  lemma NoRetryAsked(def: Definition, s: Snapshot)
    requires |s.steps| == |def.steps| && !StuckRow(s) && !Terminal(s.state)
    ensures AdvanceGuard(s, def, None)
  {
    hide HasRunning;
  }

  lemma StartIndex(def: Definition, s: Snapshot)
    requires |s.steps| == |def.steps|
    ensures var plan := Advance(s, def, "", None); plan.Start? ==> plan.index < |plan.next.steps|
  {
    hide HasCompensation;
  }

  // ----------------------------------------------------------------- the handler returns

  lemma FinishSucceeds(def: Definition, g: World, w: nat, token: Token, t: Time)
    requires Inv(def, g) && IsTimestamp(t) && AfterAdvance(g, w, token, t)
    ensures var g' := Next(def, Next(def, g, Invoke(w)), FinishStep(w, t, Returned("null")));
      PhaseOf(g', w).Idle? && g'.row.lease.None?
    ensures var g' := Next(def, Next(def, g, Invoke(w)), FinishStep(w, t, Returned("null"))); !Waiting(g'.row.state) || g'.row == g.row
  {
    hide Sound, RunningAt, CompensatingAt, Effect, MatchesDefinition, ValidSnapshot, SameIdentity;
    var p := PhaseOf(g, w);
    if p.Handling? {
      assert PhaseOk(def, g.row, g.used, p);
      HandlingIndex(def, p.view, p.direction, p.index);
      var g1 := Next(def, g, Invoke(w));
      var p1 := p.(invoked := true);
      assert PhaseOf(g1, w) == p1 && g1.row == g.row;
      var c := FinishCandidate(def, p1, Returned("null"));
      FinishEffect(def, p1, Returned("null"));
      if p.direction.Forward? {
        FinishForwardExact(p.view, def, p.index, Success("null"), false);
      } else {
        FinishCompensationExact(p.view, def, p.index, Success("null"));
      }
      HolderCommits(def, g.row, c, token, t, true);
    }
  }

  // ------------------------------------------------------------------------ one round

  /** One undisturbed call of `process` at time `t`, with a handler that returns. */
  function Round(w: nat, token: Token, t: Time): seq<Action> {
    [Observe(w), Claim(w, token, t, t + 1), AdvanceStep(w, t, "", None), Invoke(w), FinishStep(w, t, Returned("null"))]
  }

  /** What a solo worker finds before each round. */
  ghost predicate Solo(def: Definition, g: World, w: nat, t: Time) {
    Inv(def, g) && PhaseOf(g, w).Idle? && FreeAt(g.row, t) && !StuckRow(g.row) && |g.row.steps| == |def.steps|
  }

  lemma AdvanceState(def: Definition, s: Snapshot)
    requires |s.steps| == |def.steps| && !Terminal(s.state)
    ensures var next := Advance(s, def, "", None).next;
      !Waiting(next.state) && (s.cancellationRequested ==> !IsForward(next.state))
  {
    hide HasCompensation;
  }

  lemma RunRound(def: Definition, g: World, w: nat, token: Token, t: Time)
    ensures Run(def, g, Round(w, token, t)) ==
      Next(def, Next(def, Next(def, Next(def, Next(def, g, Observe(w)), Claim(w, token, t, t + 1)), AdvanceStep(w, t, "", None)), Invoke(w)), FinishStep(w, t, Returned("null")))
  {
    hide Next;
    var r := Round(w, token, t);
    var g1 := Next(def, g, r[0]);
    var g2 := Next(def, g1, r[1]);
    var g3 := Next(def, g2, r[2]);
    var g4 := Next(def, g3, r[3]);
    var g5 := Next(def, g4, r[4]);
    RunStates(def, g, r, [g1, g2, g3, g4, g5]);
  }

  /** What commits can do to a row that matters between rounds. */
  predicate Lowered(def: Definition, row: Snapshot, row': Snapshot) {
    && |row.steps| == |row'.steps| == |def.steps| && row'.cancellationRequested == row.cancellationRequested
    && (IsForward(row'.state) ==> IsForward(row.state))
    && Measure(def, row') < Measure(def, row)
  }

  lemma AdvanceLowers(def: Definition, g: World, a: Action)
    requires ValidDefinition(def) && Inv(def, g) && (a.AdvanceStep? || a.FinishStep?)
    ensures Unchanged(g, Next(def, g, a)) || Lowered(def, g.row, Next(def, g, a).row)
  {
    hide Inv, Next, ValidDefinition, Measure, StepEffect, OutputsOk, StartsOk;
    if a.AdvanceStep? {
      AdvanceCommits(def, g, a);
    } else {
      FinishCommits(def, g, a);
    }
  }

  lemma RoundProgress(def: Definition, g: World, w: nat, token: Token, t: Time)
    requires ValidDefinition(def) && Solo(def, g, w, t) && !Terminal(g.row.state) && token !in g.used
    ensures var g' := Run(def, g, Round(w, token, t));
      Solo(def, g', w, t) && Measure(def, g'.row) < Measure(def, g.row)
  {
    hide Inv, Next, ValidDefinition, Measure, HasRunning, Advance, FirstRetry, Run;
    RunRound(def, g, w, token, t);
    var g1 := Next(def, g, Observe(w));
    NextKeeps(def, g, Observe(w));
    var g2 := Next(def, g1, Claim(w, token, t, t + 1));
    NextKeeps(def, g1, Claim(w, token, t, t + 1));
    ClaimSucceeds(def, g, w, token, t);
    MeasureOfBody(def, g.row, g2.row);
    var g3 := Next(def, g2, AdvanceStep(w, t, "", None));
    NextKeeps(def, g2, AdvanceStep(w, t, "", None));
    AdvanceSucceeds(def, g2, w, token, t);
    AdvanceState(def, g2.row);
    AdvanceLowers(def, g2, AdvanceStep(w, t, "", None));
    var g4 := Next(def, g3, Invoke(w));
    NextKeeps(def, g3, Invoke(w));
    assert g4.row == g3.row by { InvokeKeepsRow(def, g3, w); }
    var g5 := Next(def, g4, FinishStep(w, t, Returned("null")));
    NextKeeps(def, g4, FinishStep(w, t, Returned("null")));
    FinishSucceeds(def, g3, w, token, t);
    AdvanceLowers(def, g4, FinishStep(w, t, Returned("null")));
  }

  lemma InvokeKeepsRow(def: Definition, g: World, w: nat)
    ensures Next(def, g, Invoke(w)).row == g.row
  {
  }

  // ------------------------------------------------------------------ a terminal state

  lemma {:induction false} Above(used: set<nat>) returns (b: nat)
    ensures forall x :: x in used ==> x < b
    decreases used
  {
    if used == {} {
      b := 0;
    } else {
      var x :| x in used;
      var rest := Above(used - {x});
      b := if x < rest then rest else x + 1;
      assert forall y :: y in used ==> y == x || y in used - {x};
    }
  }

  lemma {:induction false} RunConcat(def: Definition, g: World, a: seq<Action>, b: seq<Action>)
    ensures Run(def, g, a + b) == Run(def, Run(def, g, a), b)
    decreases |a|
  {
    hide Next;
    if |a| == 0 {
      assert a + b == b;
    } else {
      assert (a + b)[1..] == a[1..] + b;
      RunConcat(def, Next(def, g, a[0]), a[1..], b);
    }
  }

  lemma MeasureNonnegative(def: Definition, g: World)
    requires Inv(def, g) && |g.row.steps| == |def.steps|
    ensures Measure(def, g.row) >= 0
  {
    hide Inv, StepsMatch, StepsWeight;
    RowSteps(def, g);
    MatchOf(def, g.row);
    WeightNonnegative(g.row.header.id, def, g.row.steps, |g.row.steps|);
  }

  lemma {:induction false} FinishAlone(def: Definition, g: World, w: nat, t: Time, bound: nat) returns (actions: seq<Action>)
    requires ValidDefinition(def) && Solo(def, g, w, t) && Measure(def, g.row) <= bound
    ensures Terminal(Run(def, g, actions).row.state)
    decreases bound
  {
    hide Next, ValidDefinition, Inv, Measure, FreeAt, StuckRow;
    if Terminal(g.row.state) {
      actions := [];
    } else {
      var token := Above(g.used);
      var round := Round(w, token, t);
      RoundProgress(def, g, w, token, t);
      var g' := Run(def, g, round);
      MeasureNonnegative(def, g');
      var rest := FinishAlone(def, g', w, t, bound - 1);
      RunConcat(def, g, round, rest);
      actions := round + rest;
    }
  }

  /**
   * Whatever any number of workers did, a workflow whose row is not stuck can still be driven to a
   * terminal state: once the lease has run out and the retry time has come, by one worker alone.
   * `WorkflowTermination.TerminationExact` covers stuck rows too.
   */
  lemma UnstuckCanFinish(def: Definition, g: World, actions: seq<Action>, w: nat, t: Time) returns (more: seq<Action>)
    requires ValidDefinition(def) && Initial(def, g)
    requires PhaseOf(Run(def, g, actions), w).Idle? && FreeAt(Run(def, g, actions).row, t) && !StuckRow(Run(def, g, actions).row)
    ensures Terminal(Run(def, Run(def, g, actions), more).row.state)
  {
    hide Run, Initial, ValidDefinition, Inv, Measure, FreeAt, StuckRow;
    InitialInv(def, g);
    RunKeeps(def, g, actions);
    var end := Run(def, g, actions);
    RowSteps(def, end);
    MeasureNonnegative(def, end);
    more := FinishAlone(def, end, w, t, Measure(def, end.row));
  }
}
