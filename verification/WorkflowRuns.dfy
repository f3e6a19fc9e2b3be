/**
 * The theorems about every run of any number of workers on one workflow.
 */
module WorkflowRuns {
  import opened Options
  import opened WorkflowTypes
  import opened WorkflowValidation
  import opened WorkflowManager
  import opened WorkflowEffects
  import opened WorkflowStore
  import opened WorkflowProtocol
  import opened WorkflowSafety
  import opened WorkflowFields
  import opened WorkflowHistory
  import opened WorkflowTheorems
  import opened WorkflowSaga

  /** Everything the history keeps, together. */
  ghost predicate History(def: Definition, bound: int, g: World) {
    Inv(def, g) && Counters(def, bound, g) && Fencing(g) && Handlers(g) && Saga(g.log, g.row)
  }

  lemma RowSteps(def: Definition, g: World)
    requires Inv(def, g)
    ensures Sound(g.row, def) && ValidSteps(g.row.steps) && |g.row.steps| == |def.steps|
  {
    hide StateBoundary, StepMatches, StepSound, CompensationOrder, StateMatches, PhaseOk, DistinctTokens, ValidStep;
  }

  lemma HistoryKept(def: Definition, bound: int, g: World, a: Action)
    requires ValidDefinition(def) && History(def, bound, g)
    ensures History(def, bound, Next(def, g, a))
  {
    hide Inv, Counters, Fencing, Handlers, Saga, Next, ValidDefinition, ValidSteps, Step, HandlerMove, ClaimStep;
    var g' := Next(def, g, a);
    NextKeeps(def, g, a);
    EveryAction(def, g, a);
    WorkerMoves(def, g, a);
    RowSteps(def, g);
    RowSteps(def, g');
    CountersKept(def, bound, g, g', a.w);
    assert (forall t :: !ClaimStep(g, g', t)) ==> g'.used == g.used by { UsedOnlyByClaim(def, g, a); }
    FencingKept(def, g, g', a.w);
    HandlersKept(def, g, g', a.w);
    SagaKept(def, g, g', a.w);
  }

  lemma UsedOnlyByClaim(def: Definition, g: World, a: Action)
    requires Inv(def, g)
    ensures Next(def, g, a).used == g.used || exists t :: ClaimStep(g, Next(def, g, a), t)
  {
    hide Inv, MatchesDefinition, CommitRow, Advance, FinishCandidate, ReconcileCandidate, MustWait, RenewRow, CancelRow;
    if a.Claim? && Next(def, g, a).used != g.used {
      assert ClaimStep(g, Next(def, g, a), a.token);
    }
  }

  lemma InitialHistory(def: Definition, g: World)
    requires Initial(def, g)
    ensures History(def, Measure(def, g.row), g)
  {
    hide StepsWeight, PhaseRank;
    InitialInv(def, g);
    RowSteps(def, g);
    assert forall i :: 0 <= i < |g.row.steps| ==> Untouched(g.row.steps[i]);
  }

  lemma {:induction false} RunHistory(def: Definition, bound: int, g: World, actions: seq<Action>)
    requires ValidDefinition(def) && History(def, bound, g)
    ensures History(def, bound, Run(def, g, actions))
    decreases |actions|
  {
    hide History, Next, ValidDefinition;
    if |actions| > 0 {
      HistoryKept(def, bound, g, actions[0]);
      RunHistory(def, bound, Next(def, g, actions[0]), actions[1..]);
    }
  }

  lemma Reached(def: Definition, g: World, actions: seq<Action>)
    requires ValidDefinition(def) && Initial(def, g)
    ensures History(def, Measure(def, g.row), Run(def, g, actions))
  {
    hide History, Initial, ValidDefinition, Measure;
    assert |g.row.steps| == |def.steps| by { InitialHistory(def, g); InitialSteps(def, g); }
    InitialHistory(def, g);
    RunHistory(def, Measure(def, g.row), g, actions);
  }

  lemma InitialSteps(def: Definition, g: World)
    requires Initial(def, g)
    ensures |g.row.steps| == |def.steps|
  {
    hide StateBoundary, ValidSteps, StepMatches;
  }

  // ----------------------------------------------------------------- fencing

  /**
   * Fencing, whatever the workers' clocks say: if the token claimed at `k` still commits or renews
   * at `m`, then in between nobody else claimed, committed or renewed; and over the whole run at
   * most one cancellation is accepted, so the only revision changes in between that the holder did
   * not make are at most that one.
   */
  lemma FencingTheorem(def: Definition, g: World, actions: seq<Action>, k: nat, m: nat)
    requires ValidDefinition(def) && Initial(def, g)
    requires var log := Run(def, g, actions).log;
      k < m < |log| && log[k].ClaimAccepted? && ByHolder(log[m]) && log[m].token == log[k].token
    ensures var log := Run(def, g, actions).log;
      && (forall j :: k < j < m ==> !log[j].ClaimAccepted? && (ByHolder(log[j]) ==> log[j].token == log[k].token))
      && Count(log, IsCancel) <= 1
      && Run(def, g, actions).row.revision == Count(log, ChangesRevision)
  {
    hide Run, Initial, ValidDefinition, Inv, Handlers, Saga, Measure, Fenced, FreshClaims;
    Reached(def, g, actions);
    var end := Run(def, g, actions);
    forall j | k < j < m
      ensures !end.log[j].ClaimAccepted? && (ByHolder(end.log[j]) ==> end.log[j].token == end.log[k].token)
    {
      FencedBetween(end.log, end.used, k, j, m);
    }
  }

  /**
   * A superseded token is dead: once a later claim was accepted, the row is never again leased to the
   * earlier one, so whatever it sends, and whatever its clock says, is refused.
   */
  lemma SupersededTokenRefused(def: Definition, g: World, actions: seq<Action>, k: nat, m: nat, candidate: Snapshot, expected: nat, now: Time, expiresAt: Time, release: bool)
    requires ValidDefinition(def) && Initial(def, g)
    requires var log := Run(def, g, actions).log; k < m < |log| && log[k].ClaimAccepted? && log[m].ClaimAccepted?
    ensures var end := Run(def, g, actions);
      && !Holds(end.row, end.log[k].token)
      && CommitRow(end.row, candidate, expected, end.log[k].token, now, release).Err?
      && RenewRow(end.row, expected, end.log[k].token, now, expiresAt).Err?
  {
    hide Run, Initial, ValidDefinition, Inv, Handlers, Saga, Measure, Fenced, LastClaim, Counters, ValidSnapshot, SameIdentity;
    Reached(def, g, actions);
    var end := Run(def, g, actions);
    if end.row.lease.Some? {
      assert end.log[..|end.log|] == end.log;
      var c := LastClaimAt(end.log, |end.log|);
      assert c >= m;
    }
  }

  // ------------------------------------------------------------ cancellation

  lemma CancellationKept(def: Definition, g: World, a: Action)
    requires ValidDefinition(def) && Inv(def, g) && g.row.cancellationRequested
    ensures Next(def, g, a).row.cancellationRequested
  {
    hide Inv, Next, ValidDefinition, StepsEffect, Measure, OutputsOk, StartsOk;
    EveryAction(def, g, a);
  }

  /** Once accepted, a cancellation is never cleared and the workflow never completes or fails. */
  lemma {:induction false} CancellationIsFinal(def: Definition, g: World, actions: seq<Action>)
    requires ValidDefinition(def) && Inv(def, g) && g.row.cancellationRequested
    ensures var row := Run(def, g, actions).row;
      row.cancellationRequested && !row.state.Completed? && !row.state.Failed?
    decreases |actions|
  {
    hide Inv, Next, ValidDefinition;
    if |actions| == 0 {
      RowSteps(def, g);
      CancelledNeverCompletes(def, g.row);
    } else {
      NextKeeps(def, g, actions[0]);
      CancellationKept(def, g, actions[0]);
      CancellationIsFinal(def, Next(def, g, actions[0]), actions[1..]);
    }
  }

  // ------------------------------------------------------------ handler bound

  predicate IsInvocationOf(direction: Direction, i: nat, e: Event) {
    e.Invoked? && e.direction == direction && e.index == i
  }

  function Invocations(log: seq<Event>, direction: Direction, i: nat): nat {
    if |log| == 0 then 0
    else Invocations(log[..|log| - 1], direction, i) + (if IsInvocationOf(direction, i, log[|log| - 1]) then 1 else 0)
  }

  function UpTo(n: nat): (s: set<nat>)
    ensures |s| == n && forall x: nat :: x in s <==> 1 <= x <= n
  {
    if n == 0 then {} else UpTo(n - 1) + {n}
  }

  /** Distinct attempt numbers between 1 and `n` are at most `n` many. */
  lemma {:induction false} InvocationsBounded(log: seq<Event>, direction: Direction, i: nat, taken: set<nat>, n: nat)
    requires DistinctWhere(log, IsInvocation)
    requires forall k :: 0 <= k < |log| && IsInvocationOf(direction, i, log[k]) ==> 1 <= log[k].attempt <= n && log[k].attempt !in taken
    requires taken <= UpTo(n)
    ensures Invocations(log, direction, i) + |taken| <= n
    decreases |log|
  {
    if |log| == 0 {
      SubsetSize(taken, UpTo(n));
    } else {
      var rest, last := log[..|log| - 1], log[|log| - 1];
      assert forall k :: 0 <= k < |rest| ==> rest[k] == log[k];
      if IsInvocationOf(direction, i, last) {
        InvocationsBounded(rest, direction, i, taken + {last.attempt}, n);
      } else {
        InvocationsBounded(rest, direction, i, taken, n);
      }
    }
  }

  lemma {:induction false} SubsetSize(a: set<nat>, b: set<nat>)
    requires a <= b
    ensures |a| <= |b|
  {
    assert b == a + (b - a);
  }

  /**
   * Over a whole run by all workers, the handler invocations of a step never exceed its persisted
   * attempts, which never exceed the definition's maximum; no attempt number is handed out twice.
   */
  lemma HandlerBound(def: Definition, g: World, actions: seq<Action>, direction: Direction, i: nat)
    requires ValidDefinition(def) && Initial(def, g) && i < |def.steps|
    ensures var end := Run(def, g, actions);
      && i < |end.row.steps|
      && Invocations(end.log, direction, i) <= AttemptOf(direction, end.row.steps[i]) <= def.steps[i].maxAttempts
      && DistinctWhere(end.log, IsInvocation)
  {
    hide Run, Initial, ValidDefinition, Counters, Fencing, Saga, Measure, HandlerOk, DistinctHandlers;
    Reached(def, g, actions);
    var end := Run(def, g, actions);
    RowSteps(def, end);
    AttemptLimit(def, end.row, i);
    InvokedWithin(end.log, end.row.steps, direction, i);
    InvocationsBounded(end.log, direction, i, {}, AttemptOf(direction, end.row.steps[i]));
  }

  lemma InvokedWithin(log: seq<Event>, steps: seq<StepSnapshot>, direction: Direction, i: nat)
    requires Attempts(log, steps) && i < |steps|
    ensures forall k :: 0 <= k < |log| && IsInvocationOf(direction, i, log[k]) ==> 1 <= log[k].attempt <= AttemptOf(direction, steps[i])
  {
    hide DistinctWhere;
    forall k | 0 <= k < |log| && IsInvocationOf(direction, i, log[k])
      ensures 1 <= log[k].attempt <= AttemptOf(direction, steps[i])
    {
      var s :| 0 <= s < |log| && log[s] == Started(direction, i, log[k].attempt);
    }
  }

  lemma AttemptLimit(def: Definition, row: Snapshot, i: nat)
    requires Sound(row, def) && i < |row.steps|
    ensures |row.steps| == |def.steps|
    ensures row.steps[i].attempts <= def.steps[i].maxAttempts && row.steps[i].compensationAttempts <= def.steps[i].maxAttempts
  {
    hide StateBoundary, ValidSteps, DistinctNames, StepsSound, CompensationOrder, StateMatches;
    assert StepMatches(row.header.id, i, def.steps[i], row.steps[i]);
  }

  lemma AttemptsStep(def: Definition, g: World, a: Action, i: nat)
    requires ValidDefinition(def) && Inv(def, g) && i < |def.steps|
    ensures var row' := Next(def, g, a).row;
      && i < |g.row.steps| && i < |row'.steps|
      && g.row.steps[i].attempts <= row'.steps[i].attempts
      && g.row.steps[i].compensationAttempts <= row'.steps[i].compensationAttempts
      && (HasOutput(g.row.steps[i].state) ==> row'.steps[i].output == g.row.steps[i].output)
  {
    hide Inv, Next, ValidDefinition, Measure, OutputsOk, StartsOk;
    RowSteps(def, g);
    EveryAction(def, g, a);
    if t, outs, starts :| CommitStep(def, g, Next(def, g, a), t, outs, starts) {
      assert StepEffect(IsForward(g.row.state), g.row.steps[i], Next(def, g, a).row.steps[i]);
    }
  }

  /** Persisted attempts never decrease, and a committed output never changes. */
  lemma {:induction false} AttemptsMonotone(def: Definition, g: World, actions: seq<Action>, i: nat)
    requires ValidDefinition(def) && Inv(def, g) && i < |def.steps|
    ensures var row' := Run(def, g, actions).row;
      && i < |g.row.steps| && i < |row'.steps|
      && g.row.steps[i].attempts <= row'.steps[i].attempts
      && g.row.steps[i].compensationAttempts <= row'.steps[i].compensationAttempts
      && (HasOutput(g.row.steps[i].state) ==> HasOutput(row'.steps[i].state) && row'.steps[i].output == g.row.steps[i].output)
    decreases |actions|
  {
    hide Inv, Next, ValidDefinition;
    RowSteps(def, g);
    if |actions| > 0 {
      AttemptsStep(def, g, actions[0], i);
      NextKeeps(def, g, actions[0]);
      OutputKept(def, g, actions[0], i);
      AttemptsMonotone(def, Next(def, g, actions[0]), actions[1..], i);
    }
  }

  lemma OutputKept(def: Definition, g: World, a: Action, i: nat)
    requires ValidDefinition(def) && Inv(def, g) && i < |def.steps|
    ensures i < |g.row.steps| && i < |Next(def, g, a).row.steps|
    ensures HasOutput(g.row.steps[i].state) ==> HasOutput(Next(def, g, a).row.steps[i].state)
  {
    hide Inv, Next, ValidDefinition, Measure, OutputsOk, StartsOk;
    RowSteps(def, g);
    EveryAction(def, g, a);
    if t, outs, starts :| CommitStep(def, g, Next(def, g, a), t, outs, starts) {
      assert StepEffect(IsForward(g.row.state), g.row.steps[i], Next(def, g, a).row.steps[i]);
    }
  }

  // ------------------------------------------------------------------------- outputs

  predicate LogGrows(g: World, g': World) {
    |g.log| <= |g'.log| && g'.log[..|g.log|] == g.log
  }

  lemma NextLogGrows(def: Definition, g: World, a: Action)
    requires ValidDefinition(def) && Inv(def, g)
    ensures LogGrows(g, Next(def, g, a))
  {
    hide Inv, Next, ValidDefinition, Measure, StepsEffect, OutputsOk, StartsOk;
    EveryAction(def, g, a);
  }

  lemma {:induction false} RunLogGrows(def: Definition, g: World, actions: seq<Action>)
    requires ValidDefinition(def) && Inv(def, g)
    ensures LogGrows(g, Run(def, g, actions))
    decreases |actions|
  {
    hide Inv, Next, ValidDefinition;
    if |actions| > 0 {
      var g' := Next(def, g, actions[0]);
      NextLogGrows(def, g, actions[0]);
      NextKeeps(def, g, actions[0]);
      RunLogGrows(def, g', actions[1..]);
      var end := Run(def, g', actions[1..]);
      assert end.log[..|g.log|] == end.log[..|g'.log|][..|g.log|];
    }
  }

  /** An output is made durable only by the finish of a forward handler that returned exactly this value. */
  lemma OutputFromHandler(def: Definition, g: World, a: Action, k: nat)
    requires ValidDefinition(def) && Inv(def, g) && |g.log| <= k < |Next(def, g, a).log| && Next(def, g, a).log[k].OutputCommitted?
    ensures a.FinishStep? && a.handler == Returned(Next(def, g, a).log[k].output)
    ensures var p := PhaseOf(g, a.w);
      p.Handling? && p.direction.Forward? && p.invoked && p.index == Next(def, g, a).log[k].index
  {
    hide Inv, MatchesDefinition, CommitRow, Advance, FinishCandidate, ReconcileCandidate, MustWait, RenewRow, CancelRow, ClaimRow, ValidDefinition;
    var p := PhaseOf(g, a.w);
    if a.FinishStep? && p.Handling? && p.invoked && p.index < |p.view.steps| && p.index < |def.steps| {
      HandlerDecides(def, p, a.handler);
    }
  }

  /**
   * Outputs over runs: the value an event names is what a forward handler of that step returned, and
   * in every continuation the step holds exactly that value.
   */
  lemma OutputsAreReturned(def: Definition, g: World, actions: seq<Action>, a: Action, more: seq<Action>, k: nat)
    requires ValidDefinition(def) && Initial(def, g)
    requires var end := Run(def, g, actions);
      |end.log| <= k < |Next(def, end, a).log| && Next(def, end, a).log[k].OutputCommitted?
    ensures var end := Run(def, g, actions);
      var e := Next(def, end, a).log[k];
      && a.FinishStep? && a.handler == Returned(e.output)
      && PhaseOf(end, a.w).Handling? && PhaseOf(end, a.w).direction.Forward? && PhaseOf(end, a.w).index == e.index
      && var later := Run(def, Next(def, end, a), more);
         e.index < |later.row.steps| && later.row.steps[e.index].output == Some(e.output)
  {
    hide Run, Next, Inv, Initial, ValidDefinition, Counters, Fencing, Handlers, Unwinding, ReverseOrder, AfterOutput, Measure;
    assert |g.row.steps| == |def.steps| by { InitialSteps(def, g); }
    Reached(def, g, actions);
    var end := Run(def, g, actions);
    OutputFromHandler(def, end, a, k);
    var bound := Measure(def, g.row);
    HistoryKept(def, bound, end, a);
    RunHistory(def, bound, Next(def, end, a), more);
    RunLogGrows(def, Next(def, end, a), more);
    var later := Run(def, Next(def, end, a), more);
    assert later.log[k] == Next(def, end, a).log[k];
    assert OutputCommitted(later.log[k].index, later.log[k].output) in later.log;
  }

  /** The durable outputs are exactly those the history names. */
  lemma OutputsAreNamed(def: Definition, g: World, actions: seq<Action>, i: nat, x: Json)
    requires ValidDefinition(def) && Initial(def, g)
    ensures var end := Run(def, g, actions);
      OutputCommitted(i, x) in end.log <==> i < |end.row.steps| && end.row.steps[i].output == Some(x)
  {
    hide Run, Inv, Initial, ValidDefinition, Counters, Fencing, Handlers, Unwinding, ReverseOrder, AfterOutput, Measure;
    Reached(def, g, actions);
    var end := Run(def, g, actions);
    RowSteps(def, end);
    if i < |end.row.steps| {
      assert ValidStep(end.row.steps[i]);
    }
  }

  // ------------------------------------------------------------------- saga

  /** Every compensation start is for a step whose output was committed before. */
  lemma CompensationFollowsOutput(def: Definition, g: World, actions: seq<Action>, p: nat)
    requires ValidDefinition(def) && Initial(def, g)
    requires p < |Run(def, g, actions).log| && IsCompensationStart(Run(def, g, actions).log[p])
    ensures OutputIn(Run(def, g, actions).log[..p], Run(def, g, actions).log[p].index)
  {
    hide Run, Initial, ValidDefinition, Inv, Handlers, Counters, Fencing, Accounted, Unwinding, ReverseOrder, IsCompensationStart, Measure;
    Reached(def, g, actions);
  }

  /**
   * Compensations start only for steps whose output was committed before, in non-increasing step
   * order, and no forward handler starts after a compensation has started.
   */
  lemma SagaOrder(def: Definition, g: World, actions: seq<Action>, p: nat, q: nat)
    requires ValidDefinition(def) && Initial(def, g)
    requires var log := Run(def, g, actions).log; p < q < |log| && IsCompensationStart(log[p]) && log[q].Started?
    ensures var log := Run(def, g, actions).log;
      && log[q].direction.Compensation? && log[q].index <= log[p].index
      && OutputIn(log[..p], log[p].index)
  {
    hide Run, Initial, ValidDefinition, Inv, Handlers, Counters, Fencing, Accounted, Unwinding, IsCompensationStart, Measure;
    Reached(def, g, actions);
  }

  /**
   * Accounting at the end: a compensated or cancelled workflow has every compensatable step whose
   * output was ever committed compensated, a failed one never committed such an output, and a
   * completed one committed every output.
   */
  lemma SagaAccounting(def: Definition, g: World, actions: seq<Action>, i: nat)
    requires ValidDefinition(def) && Initial(def, g) && i < |def.steps|
    ensures var end := Run(def, g, actions);
      && i < |end.row.steps|
      && (OutputIn(end.log, i) && def.steps[i].compensatable ==>
            && (end.row.state.Compensated? || end.row.state.Cancelled? ==> end.row.steps[i].state.Compensated?)
            && !end.row.state.Failed?)
      && (end.row.state.Completed? ==> OutputIn(end.log, i))
  {
    hide Run, Initial, ValidDefinition, Handlers, Counters, Fencing, Unwinding, ReverseOrder, AfterOutput, Measure;
    Reached(def, g, actions);
    var end := Run(def, g, actions);
    RowSteps(def, end);
    FinalStep(def, end.row, i);
  }

  lemma FinalStep(def: Definition, row: Snapshot, i: nat)
    requires Sound(row, def) && i < |row.steps|
    ensures |row.steps| == |def.steps|
    ensures HasOutput(row.steps[i].state) && def.steps[i].compensatable && (row.state.Compensated? || row.state.Cancelled?) ==>
      row.steps[i].state.Compensated?
    ensures HasOutput(row.steps[i].state) && def.steps[i].compensatable ==> !row.state.Failed?
    ensures row.state.Completed? ==> HasOutput(row.steps[i].state)
  {
    hide CompensationOrder, DistinctNames, StepsSound;
    assert StepMatches(row.header.id, i, def.steps[i], row.steps[i]) && ValidStep(row.steps[i]);
  }

  // -------------------------------------------------------------- termination

  function TotalAttempts(def: Definition, n: nat): nat
    requires n <= |def.steps|
  {
    if n == 0 then 0 else TotalAttempts(def, n - 1) + def.steps[n - 1].maxAttempts
  }

  lemma {:induction false} InitialMeasure(def: Definition, steps: seq<StepSnapshot>, n: nat)
    requires n <= |steps| == |def.steps| && forall i :: 0 <= i < |steps| ==> Untouched(steps[i])
    ensures StepsWeight(def, steps, n) == 4 * TotalAttempts(def, n)
  {
    if n > 0 {
      InitialMeasure(def, steps, n - 1);
    }
  }

  /**
   * Termination: every accepted commit lowers the measure, so any run makes at most
   * 4 * (sum of maxAttempts) + 2 commits, and while the workflow is live it has made fewer.
   */
  lemma CommitsBounded(def: Definition, g: World, actions: seq<Action>)
    requires ValidDefinition(def) && Initial(def, g)
    ensures var end := Run(def, g, actions);
      && Count(end.log, IsCommit) <= 4 * TotalAttempts(def, |def.steps|) + 2
      && (!Terminal(end.row.state) ==> Count(end.log, IsCommit) < 4 * TotalAttempts(def, |def.steps|) + 2)
  {
    hide Run, ValidDefinition, Handlers, Fencing, Saga, Count, StepsMatch, ValidSteps;
    Reached(def, g, actions);
    InitialSteps(def, g);
    InitialMeasure(def, g.row.steps, |def.steps|);
    var end := Run(def, g, actions);
    RowSteps(def, end);
    assert StepsMatch(end.row.header.id, def, end.row.steps) by { MatchOf(def, end.row); }
    WeightNonnegative(end.row.header.id, def, end.row.steps, |end.row.steps|);
  }

  lemma MatchOf(def: Definition, row: Snapshot)
    requires Sound(row, def)
    ensures StepsMatch(row.header.id, def, row.steps)
  {
    hide StateBoundary, ValidSteps, DistinctNames, StepsSound, CompensationOrder, StateMatches;
  }

  // --------------------------------------------------------------------- update times

  /** A commit stamps the row with its clock reading, never earlier than before. */
  lemma CommitStamps(def: Definition, g: World, w: nat, candidate: Snapshot, now: Time, plan: Plan)
    requires Inv(def, g) && (PhaseOf(g, w).Claimed? || PhaseOf(g, w).Handling? || PhaseOf(g, w).Reconciling?)
    requires candidate.updatedAt >= Max(PhaseOf(g, w).view.updatedAt, now)
    ensures var row := CommitBy(def, g, w, candidate, now, plan).row;
      row == g.row || (row.revision > g.row.revision && row.updatedAt == Max(g.row.updatedAt, candidate.updatedAt) && PhaseOf(g, w).view.updatedAt <= g.row.updatedAt)
  {
    hide Sound, HandlingAt, Effect, SameIdentity, ValidSnapshot, MatchesDefinition;
    assert PhaseOk(def, g.row, g.used, PhaseOf(g, w));
  }

  lemma AdvanceKeepsStamp(s: Snapshot, def: Definition, error: ErrorText, retryAt: Option<Time>)
    requires |s.steps| == |def.steps|
    ensures Advance(s, def, error, retryAt).next.updatedAt == s.updatedAt
  {
    hide HasCompensation, IsOpen;
  }

  /**
   * Every accepted claim, commit and cancellation stamps the row with the later of its former update
   * time and the clock reading of the call; a renewal leaves the update time alone. The commit after a
   * lost race may carry the later reading of the commit that lost.
   */
  lemma UpdateTimesExact(def: Definition, g: World, actions: seq<Action>, a: Action)
    requires ValidDefinition(def) && Initial(def, g)
    ensures var row, row' := Run(def, g, actions).row, Next(def, Run(def, g, actions), a).row;
      && (row'.revision == row.revision ==> row'.updatedAt == row.updatedAt)
      && (row'.revision != row.revision ==>
            && (a.Claim? || a.AdvanceStep? || a.FinishStep? || a.RequestCancel? || a.Recommit?)
            && row'.updatedAt >= Max(row.updatedAt, a.now) && (!a.Recommit? ==> row'.updatedAt == Max(row.updatedAt, a.now)))
  {
    hide Run, Inv, Initial, ValidDefinition, CommitBy, Advance, FinishCandidate;
    InitialInv(def, g);
    RunKeeps(def, g, actions);
    var w := Run(def, g, actions);
    var p := PhaseOf(w, a.w);
    if a.AdvanceStep? && p.Claimed? && |p.view.steps| == |def.steps| {
      AdvanceKeepsStamp(p.view, def, a.error, a.retryAt);
      var plan := Advance(p.view, def, a.error, a.retryAt);
      CommitStamps(def, w, a.w, Touch(plan.next, a.now), a.now, plan);
    }
    if a.FinishStep? && p.Handling? && p.index < |p.view.steps| && p.index < |def.steps| {
      FinishKeepsStamp(def, p, a.handler);
      var next := FinishCandidate(def, p, a.handler);
      CommitStamps(def, w, a.w, Touch(next, a.now), a.now, Finish(next));
    }
    if a.Recommit? && p.Reconciling? {
      ReconcilingStamp(def, w, a.w);
      CommitStamps(def, w, a.w, Touch(p.candidate, a.now), a.now, Finish(p.candidate));
    }
  }

  lemma FinishKeepsStamp(def: Definition, p: Phase, handler: HandlerResult)
    requires p.Handling? && p.index < |p.view.steps| && p.index < |def.steps|
    ensures FinishCandidate(def, p, handler).updatedAt == p.view.updatedAt
  {
    hide HasCompensation;
  }

  lemma ReconcilingStamp(def: Definition, g: World, w: nat)
    requires Inv(def, g) && PhaseOf(g, w).Reconciling?
    ensures PhaseOf(g, w).candidate.updatedAt >= PhaseOf(g, w).view.updatedAt
  {
    hide Sound, SameIdentity, Measure;
    assert PhaseOk(def, g.row, g.used, PhaseOf(g, w));
  }

  // ------------------------------------------------------------------------ heartbeats

  /**
   * After an accepted heartbeat a forward handler knows of a cancellation exactly if the row has one,
   * and a compensation handler is never told; between heartbeats nobody learns of one.
   */
  lemma HeartbeatExact(def: Definition, g: World, actions: seq<Action>, a: Action, w: nat)
    requires ValidDefinition(def) && Initial(def, g)
    requires var end := Run(def, g, actions); PhaseOf(end, w).Handling? && PhaseOf(Next(def, end, a), w).Handling?
    ensures var end := Run(def, g, actions);
      var p, p' := PhaseOf(end, w), PhaseOf(Next(def, end, a), w);
      if a.Renew? && a.w == w
      then p'.seen == Next(def, end, a).row && (p'.cancellationSeen <==> p'.direction.Forward? && p'.seen.cancellationRequested)
      else p'.cancellationSeen == p.cancellationSeen && p'.seen == p.seen
  {
    hide Run, Initial, ValidDefinition, Inv, Next;
    InitialInv(def, g);
    RunKeeps(def, g, actions);
    HeartbeatStep(def, Run(def, g, actions), a, w);
  }

  lemma HeartbeatStep(def: Definition, g: World, a: Action, w: nat)
    requires Inv(def, g) && PhaseOf(g, w).Handling? && PhaseOf(Next(def, g, a), w).Handling?
    ensures var p, p' := PhaseOf(g, w), PhaseOf(Next(def, g, a), w);
      if a.Renew? && a.w == w
      then p'.seen == Next(def, g, a).row && (p'.cancellationSeen <==> p'.direction.Forward? && p'.seen.cancellationRequested)
      else p'.cancellationSeen == p.cancellationSeen && p'.seen == p.seen
  {
    hide Sound, Effect, HandlingAt, Advance, FinishCandidate, ReconcileCandidate, ClaimRow, CancelRow, CommitBy, MustWait;
    assert PhaseOk(def, g.row, g.used, PhaseOf(g, w));
    var p := PhaseOf(g, w);
    if a.w != w {
      OthersUntouched(def, g, a, w);
    } else if a.FinishStep? && p.invoked && p.index < |p.view.steps| && p.index < |def.steps| {
      var next := FinishCandidate(def, p, a.handler);
      FinishLeaves(def, g, w, Touch(next, a.now), a.now, next);
    }
  }

  lemma FinishLeaves(def: Definition, g: World, w: nat, candidate: Snapshot, now: Time, next: Snapshot)
    requires PhaseOf(g, w).Handling?
    ensures !PhaseOf(CommitBy(def, g, w, candidate, now, Finish(next)), w).Handling?
  {
    hide MatchesDefinition, CommitRow;
  }

  lemma OthersUntouched(def: Definition, g: World, a: Action, w: nat)
    requires a.w != w
    ensures PhaseOf(Next(def, g, a), w) == PhaseOf(g, w)
  {
    hide Advance, FinishCandidate, ReconcileCandidate, ClaimRow, CancelRow, RenewRow, CommitRow, MatchesDefinition, MustWait, OutputEvents;
  }
}
