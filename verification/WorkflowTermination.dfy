/**
 * When a workflow can still end, exactly: a terminal state is reachable if and only if the workflow
 * is not wedged (packages/workflows/src/manager.ts:86-305). A stuck row that a live holder has not
 * given up is got going again by that holder.
 */
module WorkflowTermination {
  import opened Options
  import opened WorkflowTypes
  import opened WorkflowValidation
  import opened WorkflowManager
  import opened WorkflowProgress
  import opened WorkflowEffects
  import opened WorkflowStore
  import opened WorkflowProtocol
  import opened WorkflowSafety
  import opened WorkflowHistory
  import opened WorkflowTheorems
  import opened WorkflowRuns
  import opened WorkflowWedge
  import opened WorkflowLiveness

  // ---------------------------------------------------------------- leases expire after 0

  predicate PositiveLease(row: Snapshot) {
    row.lease.Some? ==> row.lease.value.expiresAt > 0
  }

  lemma PositiveKept(def: Definition, g: World, a: Action)
    requires ValidDefinition(def) && Inv(def, g) && PositiveLease(g.row)
    ensures PositiveLease(Next(def, g, a).row)
  {
    if a.AdvanceStep? || a.FinishStep? || a.Recommit? {
      hide Inv, Next, ValidDefinition, Measure, StepsEffect, OutputsOk, StartsOk;
      match a {
        case AdvanceStep(_, _, _, _) => AdvanceCommits(def, g, a);
        case FinishStep(_, _, _) => FinishCommits(def, g, a);
        case Recommit(_, _) => RecommitCommits(def, g, a);
      }
    } else {
      hide Inv, MustWait, ReconcileCandidate;
    }
  }

  lemma {:induction false} PositiveAlong(def: Definition, g: World, actions: seq<Action>)
    requires ValidDefinition(def) && Inv(def, g) && PositiveLease(g.row)
    ensures PositiveLease(Run(def, g, actions).row)
    decreases |actions|
  {
    hide Inv, Next, ValidDefinition, PositiveLease;
    if |actions| > 0 {
      PositiveKept(def, g, actions[0]);
      NextKeeps(def, g, actions[0]);
      PositiveAlong(def, Next(def, g, actions[0]), actions[1..]);
    }
  }

  // ---------------------------------------------------------------- the holder goes on

  /** Nothing stands in the way of a worker that works alone from here. */
  ghost predicate Freed(def: Definition, g: World) {
    Inv(def, g) && g.row.lease.None? && !Waiting(g.row.state) && !StuckRow(g.row)
  }

  /** A holder commits what it built from its view, also across a cancellation, unless that would end the workflow going forward. */
  lemma HolderMerges(def: Definition, row: Snapshot, view: Snapshot, c: Snapshot, token: Token, t: Time)
    requires Sound(row, def) && Sound(c, def) && Effect(def, view, c) && HolderView(row, view) && IsTimestamp(t)
    requires Holds(row, token) && row.lease.value.expiresAt > t
    ensures MatchesDefinition(Touch(c, t), def)
    ensures var r := CommitRow(row, Touch(c, t), view.revision, token, t, true);
      if (c.state.Completed? || c.state.Failed?) && row.revision != view.revision then r == Err(RevisionConflict)
      else r.Ok? && r.value.state == c.state && r.value.steps == c.steps && r.value.lease.None?
  {
    hide Sound, MatchesDefinition, ValidSnapshot, SameIdentity, Measure, StepsEffect;
    TouchSound(def, c, t);
    SoundTimes(def, row);
    SoundTimes(def, Touch(c, t));
    EffectIdentity(def, view, c);
    assert SameIdentity(row, Touch(c, t)) by { MergedIdentity(row, view, c, t); }
  }

  lemma MergedIdentity(row: Snapshot, view: Snapshot, c: Snapshot, t: Time)
    requires SameIdentity(view, c) && SameBody(view, row)
    ensures SameIdentity(row, Touch(c, t))
  {
  }

  lemma ReconcilingGoesOn(def: Definition, g: World, w: nat) returns (actions: seq<Action>)
    requires ValidDefinition(def) && Inv(def, g) && PositiveLease(g.row) && PhaseOf(g, w).Reconciling? && Holds(g.row, PhaseOf(g, w).token)
    ensures Freed(def, Run(def, g, actions))
  {
    hide Sound, HandlingAt, Effect, MatchesDefinition, ValidDefinition, HasRunning, ValidSnapshot, SameIdentity;
    var p := PhaseOf(g, w);
    assert PhaseOk(def, g.row, g.used, p);
    HolderMerges(def, g.row, p.view, p.candidate, p.token, 0);
    actions := [Recommit(w, 0)];
    var g' := Next(def, g, actions[0]);
    NextKeeps(def, g, actions[0]);
    assert Run(def, g, actions) == g' by { RunOne(def, g, actions[0]); }
  }

  lemma RunOne(def: Definition, g: World, a: Action)
    ensures Run(def, g, [a]) == Next(def, g, a)
  {
    hide Next;
    assert [a][1..] == [];
    assert Run(def, Next(def, g, a), []) == Next(def, g, a);
  }

  lemma ConflictedGoesOn(def: Definition, g: World, w: nat) returns (actions: seq<Action>)
    requires ValidDefinition(def) && Inv(def, g) && PositiveLease(g.row) && g.row.cancellationRequested
    requires PhaseOf(g, w).Conflicted? && Holds(g.row, PhaseOf(g, w).token)
    ensures Freed(def, Run(def, g, actions))
  {
    hide Inv, ReconcileCandidate, Freed;
    var g' := Next(def, g, Reread(w));
    NextKeeps(def, g, Reread(w));
    var rest := ReconcilingGoesOn(def, g', w);
    actions := [Reread(w)] + rest;
    RunOne(def, g, Reread(w));
    RunConcat(def, g, [Reread(w)], rest);
  }

  /** The interrupted step fails for good, which the cancellation then turns into an unwinding. */
  lemma InterruptedCandidate(def: Definition, s: Snapshot)
    requires ValidDefinition(def) && Sound(s, def) && IsForward(s.state) && HasRunning(s.steps) && !s.cancellationRequested
    ensures |s.steps| == |def.steps|
    ensures var plan := Advance(s, def, "", None);
      plan.Finish? && (plan.next.state.Failed? || plan.next.state.Compensating?) && Sound(plan.next, def) && Effect(def, s, plan.next)
  {
    hide HasCompensation, Sound, Effect;
    ForwardIsSound(s, def);
    AdvanceExact(s, def, "", None);
    AdvanceEffect(s, def, "", None);
    assert |s.steps| == |def.steps| by { StepCount(s, def); }
  }

  lemma ClaimedGoesOn(def: Definition, g: World, w: nat) returns (actions: seq<Action>)
    requires ValidDefinition(def) && Inv(def, g) && PositiveLease(g.row) && StuckRow(g.row)
    requires PhaseOf(g, w).Claimed? && Holds(g.row, PhaseOf(g, w).token) && !PhaseOf(g, w).view.cancellationRequested
    ensures Freed(def, Run(def, g, actions))
  {
    hide Sound, HandlingAt, Effect, MatchesDefinition, ValidDefinition, HasRunning, ValidSnapshot, SameIdentity, Advance;
    var p := PhaseOf(g, w);
    assert PhaseOk(def, g.row, g.used, p);
    InterruptedCandidate(def, p.view);
    var plan := Advance(p.view, def, "", None);
    HolderMerges(def, g.row, p.view, plan.next, p.token, 0);
    var a := AdvanceStep(w, 0, "", None);
    var g' := Next(def, g, a);
    NextKeeps(def, g, a);
    RunOne(def, g, a);
    if plan.next.state.Compensating? {
      actions := [a];
    } else {
      assert g'.row == g.row && PhaseOf(g', w) == Conflicted(p.view, p.token, Touch(plan.next, 0));
      var rest := ConflictedGoesOn(def, g', w);
      actions := [a] + rest;
      RunConcat(def, g, [a], rest);
    }
  }

  lemma NoRunningLeft(def: Definition, s: Snapshot, i: nat, observed: bool)
    requires RunningAt(s, def, i)
    ensures !HasRunning(CommitForward(s, i, "null", observed).steps)
  {
    hide StepwiseSound;
  }

  lemma HandlingGoesOn(def: Definition, g: World, w: nat) returns (actions: seq<Action>)
    requires ValidDefinition(def) && Inv(def, g) && PositiveLease(g.row) && StuckRow(g.row)
    requires PhaseOf(g, w).Handling? && Holds(g.row, PhaseOf(g, w).token)
    ensures Freed(def, Run(def, g, actions))
  {
    hide Sound, RunningAt, CompensatingAt, Effect, MatchesDefinition, ValidDefinition, HasRunning, ValidSnapshot, SameIdentity;
    var p := PhaseOf(g, w);
    assert PhaseOk(def, g.row, g.used, p);
    HandlingIsForward(def, p.view, p.direction, p.index);
    HandlingIndex(def, p.view, p.direction, p.index);
    var g1 := Next(def, g, Invoke(w));
    NextKeeps(def, g, Invoke(w));
    var p1 := p.(invoked := true);
    assert PhaseOf(g1, w) == p1 && g1.row == g.row;
    FinishForwardExact(p.view, def, p.index, Success("null"), p.cancellationSeen);
    FinishEffect(def, p1, Returned("null"));
    NoRunningLeft(def, p.view, p.index, p.cancellationSeen);
    var c := FinishCandidate(def, p1, Returned("null"));
    HolderMerges(def, g.row, p.view, c, p.token, 0);
    var a := FinishStep(w, 0, Returned("null"));
    var g2 := Next(def, g1, a);
    NextKeeps(def, g1, a);
    actions := [Invoke(w), a];
    RunStates(def, g, actions, [g1, g2]);
  }

  lemma HandlingIsForward(def: Definition, s: Snapshot, direction: Direction, i: nat)
    requires HandlingAt(def, s, direction, i) && IsForward(s.state)
    ensures direction.Forward?
  {
    hide RunningAt;
    if !direction.Forward? {
      CompensatingBase(s, def, i);
    }
  }

  // ------------------------------------------------------------------- the exact condition

  lemma FreedCanFinish(def: Definition, g: World) returns (actions: seq<Action>)
    requires ValidDefinition(def) && Freed(def, g)
    ensures Terminal(Run(def, g, actions).row.state)
  {
    hide Run, ValidDefinition, Inv, Measure, StuckRow, Next;
    var w := Above(g.workers.Keys);
    RowSteps(def, g);
    MeasureNonnegative(def, g);
    actions := FinishAlone(def, g, w, 0, Measure(def, g.row));
  }

  /** Somebody still holds the lease without having given up. */
  lemma LiveHolder(def: Definition, g: World) returns (w: nat)
    requires StuckRow(g.row) && !Wedged(g)
    ensures w in g.workers && !HarmlessHolder(g.row, g.workers[w])
  {
    hide StuckRow, HarmlessHolder;
    w :| w in g.workers && !HarmlessHolder(g.row, g.workers[w]);
  }

  lemma StuckGoesOn(def: Definition, g: World) returns (actions: seq<Action>)
    requires ValidDefinition(def) && Inv(def, g) && PositiveLease(g.row) && StuckRow(g.row) && !Wedged(g)
    ensures Freed(def, Run(def, g, actions))
  {
    hide Inv, Next, ValidDefinition, HasRunning, Run, PositiveLease, Freed;
    var w := LiveHolder(def, g);
    match g.workers[w]
    case Claimed(_, _) => actions := ClaimedGoesOn(def, g, w);
    case Handling(_, _, _, _, _, _, _) => actions := HandlingGoesOn(def, g, w);
    case Conflicted(_, _, _) => actions := ConflictedGoesOn(def, g, w);
    case Reconciling(_, _, _) => actions := ReconcilingGoesOn(def, g, w);
  }

  ghost predicate CanTerminate(def: Definition, g: World) {
    exists more :: Terminal(Run(def, g, more).row.state)
  }

  /**
   * In every reachable state, once the lease has run out and the retry time has come at some
   * representable time, some continuation ends the workflow if and only if it is not wedged.
   */
  lemma TerminationExact(def: Definition, g: World, actions: seq<Action>, t: Time)
    requires ValidDefinition(def) && Initial(def, g) && FreeAt(Run(def, g, actions).row, t)
    ensures CanTerminate(def, Run(def, g, actions)) <==> !Wedged(Run(def, g, actions))
  {
    hide Run, ValidDefinition, Inv, Measure, FreeAt, MatchesDefinition, HarmlessHolder, HasRunning;
    InitialInv(def, g);
    RunKeeps(def, g, actions);
    PositiveAlong(def, g, actions);
    var end := Run(def, g, actions);
    if Wedged(end) {
      forall more ensures !Terminal(Run(def, end, more).row.state) { WedgedForever(def, end, more); }
    } else if StuckRow(end.row) {
      var first := StuckGoesOn(def, end);
      var rest := FreedCanFinish(def, Run(def, end, first));
      RunConcat(def, end, first, rest);
      assert Terminal(Run(def, end, first + rest).row.state);
    } else {
      var w := Above(end.workers.Keys);
      var more := UnstuckCanFinish(def, g, actions, w, t);
      assert Terminal(Run(def, end, more).row.state);
    }
  }
}
