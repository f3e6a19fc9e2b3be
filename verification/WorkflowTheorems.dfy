/**
 * Theorems over whole runs, read off the history.
 */
module WorkflowTheorems {
  import opened Options
  import opened WorkflowTypes
  import opened WorkflowValidation
  import opened WorkflowManager
  import opened WorkflowProgress
  import opened WorkflowEffects
  import opened WorkflowStore
  import opened WorkflowProtocol
  import opened WorkflowSafety
  import opened WorkflowHistory

  // --------------------------------------------------------------- counting

  function Count(log: seq<Event>, f: Event -> bool): nat {
    if |log| == 0 then 0 else Count(log[..|log| - 1], f) + (if f(log[|log| - 1]) then 1 else 0)
  }

  predicate IsCancel(e: Event) { e.CancelAccepted? }

  predicate IsCommit(e: Event) { e.CommitAccepted? }

  predicate ChangesRevision(e: Event) { e.ClaimAccepted? || e.CommitAccepted? || e.CancelAccepted? }

  lemma CountAppend(log: seq<Event>, e: Event, f: Event -> bool)
    ensures Count(log + [e], f) == Count(log, f) + (if f(e) then 1 else 0)
  {
    assert (log + [e])[..|log|] == log;
  }

  lemma CountExtras(log: seq<Event>, extra: seq<Event>, f: Event -> bool)
    requires |extra| <= 1 && forall e :: e in extra ==> !f(e)
    ensures Count(log + extra, f) == Count(log, f)
  {
    hide Count;
    if |extra| == 1 {
      assert extra == [extra[0]] && extra[0] in extra;
      CountAppend(log, extra[0], f);
    } else {
      assert log + extra == log;
    }
  }

  /** A commit adds its own event and at most an output and a start. */
  lemma CountCommit(log: seq<Event>, t: Token, outs: seq<Event>, starts: seq<Event>, f: Event -> bool)
    requires |outs| <= 1 && |starts| <= 1
    requires (forall e :: e in outs ==> !f(e)) && (forall e :: e in starts ==> !f(e))
    ensures Count(log + [CommitAccepted(t)] + outs + starts, f) == Count(log, f) + (if f(CommitAccepted(t)) then 1 else 0)
  {
    hide Count;
    CountAppend(log, CommitAccepted(t), f);
    CountExtras(log + [CommitAccepted(t)], outs, f);
    CountExtras(log + [CommitAccepted(t)] + outs, starts, f);
  }

  // ------------------------------------ one cancellation, revisions, termination

  /** The counters of a run: revisions, the cancellation, and what is left of the measure. */
  ghost predicate Counters(def: Definition, bound: int, g: World) {
    && |g.row.steps| == |def.steps|
    && g.row.revision == Count(g.log, ChangesRevision)
    && Count(g.log, IsCancel) == (if g.row.cancellationRequested then 1 else 0)
    && Count(g.log, IsCommit) + Measure(def, g.row) <= bound
  }

  lemma CountersKept(def: Definition, bound: int, g: World, g': World, w: nat)
    requires Counters(def, bound, g) && Step(def, g, g', w)
    ensures Counters(def, bound, g')
  {
    hide Count, Measure, StepsEffect, StartsOk, OutputsOk, CommitStep;
    if t :| ClaimStep(g, g', t) {
      CountersAppend(g.log, ClaimAccepted(t));
      MeasureOfBody(def, g.row, g'.row);
    } else if t :| RenewStep(g, g', t) {
      CountersAppend(g.log, RenewAccepted(t));
      MeasureOfBody(def, g.row, g'.row);
    } else if CancelStep(g, g') {
      CountersAppend(g.log, CancelAccepted);
      MeasureOfBody(def, g.row, g'.row);
    } else if InvokeStep(g, g', w) {
      CountersAppend(g.log, InvocationOf(PhaseOf(g, w)));
    } else if t, outs, starts :| CommitStep(def, g, g', t, outs, starts) {
      CountersCommit(def, bound, g, g', t, outs, starts);
    }
  }

  lemma CountersCommit(def: Definition, bound: int, g: World, g': World, t: Token, outs: seq<Event>, starts: seq<Event>)
    requires Counters(def, bound, g) && CommitStep(def, g, g', t, outs, starts)
    ensures Counters(def, bound, g')
  {
    hide Count, Measure, StepEffect, StartsOk, OutputsOk;
    ExtrasShape(def, g, g', t, outs, starts);
    CountCommit(g.log, t, outs, starts, ChangesRevision);
    CountCommit(g.log, t, outs, starts, IsCancel);
    CountCommit(g.log, t, outs, starts, IsCommit);
  }

  lemma CountersAppend(log: seq<Event>, e: Event)
    ensures Count(log + [e], ChangesRevision) == Count(log, ChangesRevision) + (if ChangesRevision(e) then 1 else 0)
    ensures Count(log + [e], IsCancel) == Count(log, IsCancel) + (if IsCancel(e) then 1 else 0)
    ensures Count(log + [e], IsCommit) == Count(log, IsCommit) + (if IsCommit(e) then 1 else 0)
  {
    CountAppend(log, e, ChangesRevision);
    CountAppend(log, e, IsCancel);
    CountAppend(log, e, IsCommit);
  }

  lemma ExtrasShape(def: Definition, g: World, g': World, t: Token, outs: seq<Event>, starts: seq<Event>)
    requires CommitStep(def, g, g', t, outs, starts)
    ensures |outs| <= 1 && |starts| <= 1
    ensures forall e :: e in outs ==> e.OutputCommitted?
    ensures forall e :: e in starts ==> e.Started?
  {
    hide StepEffect, StepsWeight, LastOpenAt, IsOpenStep, Measure;
  }

  // ----------------------------------------------------------------- fencing

  function LastClaim(log: seq<Event>): Option<Token> {
    if |log| == 0 then None
    else if log[|log| - 1].ClaimAccepted? then Some(log[|log| - 1].token)
    else LastClaim(log[..|log| - 1])
  }

  predicate ByHolder(e: Event) {
    e.CommitAccepted? || e.RenewAccepted?
  }

  /** Every accepted commit and renewal was made under the most recent claim. */
  predicate Fenced(log: seq<Event>) {
    forall k :: 0 <= k < |log| && ByHolder(log[k]) ==> LastClaim(log[..k]) == Some(log[k].token)
  }

  predicate FreshClaims(log: seq<Event>, used: set<Token>) {
    && (forall k :: 0 <= k < |log| && log[k].ClaimAccepted? ==> log[k].token in used)
    && (forall j, k :: 0 <= j < k < |log| && log[j].ClaimAccepted? && log[k].ClaimAccepted? ==> log[j].token != log[k].token)
  }

  ghost predicate Fencing(g: World) {
    && Fenced(g.log) && FreshClaims(g.log, g.used)
    && (g.row.lease.Some? ==> LastClaim(g.log) == Some(g.row.lease.value.token))
  }

  lemma FencedAppend(log: seq<Event>, used: set<Token>, e: Event)
    requires Fenced(log) && FreshClaims(log, used)
    requires ByHolder(e) ==> LastClaim(log) == Some(e.token)
    requires !e.ClaimAccepted?
    ensures Fenced(log + [e]) && FreshClaims(log + [e], used) && LastClaim(log + [e]) == LastClaim(log)
  {
    var log' := log + [e];
    assert log'[..|log|] == log;
    forall k | 0 <= k < |log'| && ByHolder(log'[k]) ensures LastClaim(log'[..k]) == Some(log'[k].token) {
      assert log'[..k] == log[..k];
      assert k == |log| ==> log[..k] == log;
    }
  }

  lemma FencedClaim(log: seq<Event>, used: set<Token>, t: Token)
    requires Fenced(log) && FreshClaims(log, used) && t !in used
    ensures Fenced(log + [ClaimAccepted(t)]) && FreshClaims(log + [ClaimAccepted(t)], used + {t})
    ensures LastClaim(log + [ClaimAccepted(t)]) == Some(t)
  {
    var log' := log + [ClaimAccepted(t)];
    forall k | 0 <= k < |log'| && ByHolder(log'[k]) ensures LastClaim(log'[..k]) == Some(log'[k].token) {
      assert log'[..k] == log[..k];
    }
  }

  lemma FencedExtras(log: seq<Event>, used: set<Token>, extra: seq<Event>)
    requires Fenced(log) && FreshClaims(log, used) && |extra| <= 1
    requires forall e :: e in extra ==> !ByHolder(e) && !e.ClaimAccepted?
    ensures Fenced(log + extra) && FreshClaims(log + extra, used) && LastClaim(log + extra) == LastClaim(log)
  {
    if |extra| == 1 {
      assert extra == [extra[0]] && extra[0] in extra;
      FencedAppend(log, used, extra[0]);
    } else {
      assert log + extra == log;
    }
  }

  lemma FencingKept(def: Definition, g: World, g': World, w: nat)
    requires Fencing(g) && Step(def, g, g', w)
    requires g.used <= g'.used && ((forall t :: !ClaimStep(g, g', t)) ==> g'.used == g.used)
    ensures Fencing(g')
  {
    hide StepsEffect, Measure, StartsOk, OutputsOk, Fenced, FreshClaims, LastClaim;
    if t :| ClaimStep(g, g', t) {
      FencedClaim(g.log, g.used, t);
    } else if t :| RenewStep(g, g', t) {
      FencedAppend(g.log, g.used, RenewAccepted(t));
    } else if CancelStep(g, g') {
      FencedAppend(g.log, g.used, CancelAccepted);
    } else if InvokeStep(g, g', w) {
      FencedAppend(g.log, g.used, InvocationOf(PhaseOf(g, w)));
    } else if t, outs, starts :| CommitStep(def, g, g', t, outs, starts) {
      ExtrasShape(def, g, g', t, outs, starts);
      FencedAppend(g.log, g.used, CommitAccepted(t));
      FencedExtras(g.log + [CommitAccepted(t)], g.used, outs);
      FencedExtras(g.log + [CommitAccepted(t)] + outs, g.used, starts);
    }
  }

  /** Where the last claim sits. */
  lemma {:induction false} LastClaimAt(log: seq<Event>, m: nat) returns (c: nat)
    requires m <= |log| && LastClaim(log[..m]).Some?
    ensures c < m && log[c].ClaimAccepted? && Some(log[c].token) == LastClaim(log[..m])
    ensures forall j :: c < j < m ==> !log[j].ClaimAccepted?
  {
    if log[m - 1].ClaimAccepted? {
      c := m - 1;
    } else {
      assert log[..m][..m - 1] == log[..m - 1];
      c := LastClaimAt(log, m - 1);
    }
  }

  /** Between a claim and anything its token still manages to do, nobody else claimed, renewed or committed. */
  lemma FencedBetween(log: seq<Event>, used: set<Token>, k: nat, j: nat, m: nat)
    requires Fenced(log) && FreshClaims(log, used)
    requires k < j < m < |log| && log[k].ClaimAccepted? && ByHolder(log[m]) && log[m].token == log[k].token
    ensures !log[j].ClaimAccepted?
    ensures ByHolder(log[j]) ==> log[j].token == log[k].token
  {
    var c := LastClaimAt(log, m);
    assert c == k;
    if ByHolder(log[j]) {
      var d := LastClaimAt(log, j);
      assert d == k;
    }
  }

  // --------------------------------------------------- handlers: at most once per attempt

  predicate StartedWithin(log: seq<Event>, steps: seq<StepSnapshot>) {
    forall k :: 0 <= k < |log| && log[k].Started? ==>
      log[k].index < |steps| && 1 <= log[k].attempt <= AttemptOf(log[k].direction, steps[log[k].index])
  }

  predicate DistinctWhere(log: seq<Event>, f: Event -> bool) {
    forall j, k :: 0 <= j < k < |log| && f(log[j]) && f(log[k]) ==> log[j] != log[k]
  }

  predicate IsStart(e: Event) { e.Started? }

  predicate IsInvocation(e: Event) { e.Invoked? }

  predicate InvokedAfterStart(log: seq<Event>) {
    forall k :: 0 <= k < |log| && log[k].Invoked? ==> Started(log[k].direction, log[k].index, log[k].attempt) in log
  }

  function StartOf(p: Phase): Event
    requires p.Handling? && p.index < |p.view.steps|
  {
    Started(p.direction, p.index, AttemptOf(p.direction, p.view.steps[p.index]))
  }

  predicate HandlerOk(log: seq<Event>, p: Phase) {
    p.Handling? ==>
      && p.index < |p.view.steps|
      && StartOf(p) in log
      && (!p.invoked ==> InvocationOf(p) !in log)
  }

  predicate DistinctHandlers(g: World) {
    forall a, b :: a in g.workers && b in g.workers && a != b && g.workers[a].Handling? && g.workers[b].Handling?
      && g.workers[a].index < |g.workers[a].view.steps| && g.workers[b].index < |g.workers[b].view.steps|
      ==> StartOf(g.workers[a]) != StartOf(g.workers[b])
  }

  ghost predicate Attempts(log: seq<Event>, steps: seq<StepSnapshot>) {
    && StartedWithin(log, steps)
    && DistinctWhere(log, IsStart) && DistinctWhere(log, IsInvocation)
    && InvokedAfterStart(log)
  }

  ghost predicate Handlers(g: World) {
    && Attempts(g.log, g.row.steps)
    && (forall w :: w in g.workers ==> HandlerOk(g.log, g.workers[w]))
    && DistinctHandlers(g)
  }

  /** How an action changes who is handling what. */
  predicate HandlerMove(g: World, g': World, w: nat) {
    var p, p' := PhaseOf(g, w), PhaseOf(g', w);
    && (g'.workers == g.workers || g'.workers == g.workers[w := p'])
    && (p'.Handling? ==>
          && p'.index < |p'.view.steps|
          && (|| (p.Handling? && p.index < |p.view.steps| && StartOf(p') == StartOf(p) && Unchanged(g, g') && p'.invoked == p.invoked)
              || (p.Handling? && p.index < |p.view.steps| && StartOf(p') == StartOf(p) && |g'.log| == |g.log| + 1
                  && (p'.invoked <==> p.invoked || InvokeStep(g, g', w)))
              || (!p'.invoked && |g'.log| > |g.log| && g'.log[|g'.log| - 1] == StartOf(p'))))
  }

  lemma CommitMoves(def: Definition, g: World, w: nat, candidate: Snapshot, now: Time, plan: Plan)
    requires PhaseOf(g, w).Claimed? || PhaseOf(g, w).Handling? || PhaseOf(g, w).Reconciling?
    ensures HandlerMove(g, CommitBy(def, g, w, candidate, now, plan), w)
  {
    hide MatchesDefinition, CommitRow, InvokeStep;
  }

  lemma WorkerMoves(def: Definition, g: World, a: Action)
    requires Inv(def, g)
    ensures HandlerMove(g, Next(def, g, a), a.w)
  {
    hide Sound, RunningAt, CompensatingAt, Effect, MatchesDefinition, Advance, FinishCandidate, ReconcileCandidate, MustWait, CommitBy, HandlerMove, CommitRow;
    var p := PhaseOf(g, a.w);
    if p.Handling? {
      assert PhaseOk(def, g.row, g.used, p);
      HandlingIndex(def, p.view, p.direction, p.index);
    }
    match a
    case AdvanceStep(w, now, error, retryAt) =>
      if p.Claimed? && |p.view.steps| == |def.steps| {
        var plan := Advance(p.view, def, error, retryAt);
        CommitMoves(def, g, w, Touch(plan.next, now), now, plan);
      } else {
        IdleMove(g, g, w);
      }
    case FinishStep(w, now, handler) =>
      if p.Handling? && p.invoked && p.index < |p.view.steps| && p.index < |def.steps| {
        var next := FinishCandidate(def, p, handler);
        CommitMoves(def, g, w, Touch(next, now), now, Finish(next));
      } else {
        IdleMove(g, g, w);
      }
    case Recommit(w, now) =>
      if p.Reconciling? {
        CommitMoves(def, g, w, Touch(p.candidate, now), now, Finish(p.candidate));
      } else {
        IdleMove(g, g, w);
      }
    case _ => IdleMove(g, Next(def, g, a), a.w);
  }

  lemma IdleMove(g: World, g': World, w: nat)
    requires PhaseOf(g, w).Handling? ==> PhaseOf(g, w).index < |PhaseOf(g, w).view.steps|
    requires g' == g
      || (g'.workers == g.workers[w := PhaseOf(g', w)] && !PhaseOf(g', w).Handling?)
      || (InvokeStep(g, g', w) && g'.workers == g.workers[w := PhaseOf(g, w).(invoked := true)])
      || (&& PhaseOf(g, w).Handling? && PhaseOf(g', w).Handling? && |g'.log| == |g.log| + 1 && g'.log[|g.log|].RenewAccepted?
          && g'.workers == g.workers[w := PhaseOf(g, w).(seen := PhaseOf(g', w).seen, cancellationSeen := PhaseOf(g', w).cancellationSeen)])
    ensures HandlerMove(g, g', w)
  {
  }

  lemma HandlingIndex(def: Definition, v: Snapshot, direction: Direction, i: nat)
    requires HandlingAt(def, v, direction, i)
    ensures i < |v.steps| && i < |def.steps|
  {
    hide CompensationBoundary, CompensationOrder, ForwardAt, ValidSteps, DistinctNames, StepsSound;
  }

  // ---- the log part

  /** Appending an event that is neither a start nor an invocation. */
  lemma AttemptsOther(log: seq<Event>, steps: seq<StepSnapshot>, e: Event)
    requires Attempts(log, steps) && !e.Started? && !e.Invoked?
    ensures Attempts(log + [e], steps)
  {
  }

  lemma AttemptsInvoke(log: seq<Event>, steps: seq<StepSnapshot>, e: Event)
    requires Attempts(log, steps)
    requires e.Invoked? && e !in log && Started(e.direction, e.index, e.attempt) in log
    ensures Attempts(log + [e], steps)
  {
  }

  lemma AttemptsStart(log: seq<Event>, steps: seq<StepSnapshot>, e: Event)
    requires Attempts(log, steps)
    requires e.Started? && e !in log && e.index < |steps| && 1 <= e.attempt <= AttemptOf(e.direction, steps[e.index])
    ensures Attempts(log + [e], steps)
  {
  }

  lemma AttemptsCommit(def: Definition, g: World, g': World, t: Token, outs: seq<Event>, starts: seq<Event>)
    requires Attempts(g.log, g.row.steps) && CommitStep(def, g, g', t, outs, starts)
    ensures Attempts(g'.log, g'.row.steps)
    ensures starts != [] ==> starts[0] !in g.log
  {
    hide Attempts, StepEffect, Measure, OutputsOk, LastOpenAt, IsOpenStep;
    ExtrasShape(def, g, g', t, outs, starts);
    assert starts != [] ==> starts[0] !in g.log by {
      FreshStart(g.log, g.row, g'.row, starts);
    }
    AttemptsGrow(g.log, IsForward(g.row.state), g.row.steps, g'.row.steps);
    AttemptsOther(g.log, g'.row.steps, CommitAccepted(t));
    var log1 := g.log + [CommitAccepted(t)];
    if outs != [] {
      assert outs == [outs[0]] && outs[0] in outs;
      AttemptsOther(log1, g'.row.steps, outs[0]);
    } else {
      assert log1 + outs == log1;
    }
    var log2 := log1 + outs;
    if starts != [] {
      assert starts == [starts[0]] && starts[0] in starts;
      AttemptsStart(log2, g'.row.steps, starts[0]);
    } else {
      assert log2 + starts == log2;
    }
  }

  /** A start takes an attempt number nobody had before. */
  lemma FreshStart(log: seq<Event>, row: Snapshot, row': Snapshot, starts: seq<Event>)
    requires Attempts(log, row.steps) && StartsOk(row, row', starts)
    ensures starts != [] ==> starts[0] !in log
  {
    hide LastOpenAt, IsOpenStep, DistinctWhere, InvokedAfterStart;
  }

  lemma AttemptsGrow(log: seq<Event>, forward: bool, before: seq<StepSnapshot>, after: seq<StepSnapshot>)
    requires Attempts(log, before) && StepsEffect(forward, before, after)
    ensures Attempts(log, after)
  {
    hide DistinctWhere, InvokedAfterStart;
    StartedGrows(log, forward, before, after);
  }

  lemma StartedGrows(log: seq<Event>, forward: bool, before: seq<StepSnapshot>, after: seq<StepSnapshot>)
    requires StartedWithin(log, before) && StepsEffect(forward, before, after)
    ensures StartedWithin(log, after)
  {
    forall k | 0 <= k < |log| && log[k].Started?
      ensures AttemptOf(log[k].direction, before[log[k].index]) <= AttemptOf(log[k].direction, after[log[k].index])
    {
      assert StepEffect(forward, before[log[k].index], after[log[k].index]);
    }
  }

  // ---- the worker part

  /** A worker that keeps its handler stays consistent with a longer history. */
  lemma HandlerStays(log: seq<Event>, log': seq<Event>, p: Phase, p': Phase)
    requires HandlerOk(log, p) && log <= log' && p.Handling? && p'.Handling? && p'.index < |p'.view.steps|
    requires StartOf(p) == StartOf(p') && (p.invoked ==> p'.invoked)
    requires !p'.invoked ==> forall k :: |log| <= k < |log'| ==> log'[k] != InvocationOf(p)
    ensures HandlerOk(log', p')
  {
    assert log'[..|log|] == log;
  }

  lemma AttemptsKept(def: Definition, g: World, g': World, w: nat)
    requires Handlers(g) && Step(def, g, g', w)
    requires PhaseOf(g, w).Handling? ==> w in g.workers
    ensures Attempts(g'.log, g'.row.steps)
  {
    hide Attempts, CommitStep;
    if t :| ClaimStep(g, g', t) {
      AttemptsOther(g.log, g.row.steps, ClaimAccepted(t));
    } else if t :| RenewStep(g, g', t) {
      AttemptsOther(g.log, g.row.steps, RenewAccepted(t));
    } else if CancelStep(g, g') {
      AttemptsOther(g.log, g.row.steps, CancelAccepted);
    } else if InvokeStep(g, g', w) {
      assert HandlerOk(g.log, g.workers[w]);
      AttemptsInvoke(g.log, g.row.steps, InvocationOf(PhaseOf(g, w)));
    } else if t, outs, starts :| CommitStep(def, g, g', t, outs, starts) {
      AttemptsCommit(def, g, g', t, outs, starts);
    }
  }

  /** New events at the end of the history: an invocation only by an invoke action, a start only if it is new. */
  predicate NewEvents(g: World, g': World, w: nat) {
    && |g.log| <= |g'.log| && g'.log[..|g.log|] == g.log
    && (forall k :: |g.log| <= k < |g'.log| && g'.log[k].Invoked? ==>
          PhaseOf(g, w).Handling? && PhaseOf(g, w).index < |PhaseOf(g, w).view.steps| && !PhaseOf(g, w).invoked
          && InvokeStep(g, g', w) && g'.log[k] == InvocationOf(PhaseOf(g, w)))
    && (forall k :: |g.log| <= k < |g'.log| && g'.log[k].Started? ==> g'.log[k] !in g.log)
  }

  lemma NewEventsOf(def: Definition, g: World, g': World, w: nat)
    requires Attempts(g.log, g.row.steps) && Step(def, g, g', w)
    ensures NewEvents(g, g', w)
  {
    hide Attempts, CommitStep;
    if t, outs, starts :| CommitStep(def, g, g', t, outs, starts) {
      AttemptsCommit(def, g, g', t, outs, starts);
      CommitLog(def, g, g', t, outs, starts);
    } else {
      assert forall e :: |g.log + [e]| == |g.log| + 1 && (g.log + [e])[..|g.log|] == g.log;
    }
  }

  lemma CommitLog(def: Definition, g: World, g': World, t: Token, outs: seq<Event>, starts: seq<Event>)
    requires CommitStep(def, g, g', t, outs, starts) && (starts != [] ==> starts[0] !in g.log)
    ensures |g.log| <= |g'.log| && g'.log[..|g.log|] == g.log
    ensures forall k :: |g.log| <= k < |g'.log| ==> !g'.log[k].Invoked? && (g'.log[k].Started? ==> g'.log[k] !in g.log)
  {
    ExtrasShape(def, g, g', t, outs, starts);
    hide CommitStep;
    assert g'.log == g.log + ([CommitAccepted(t)] + outs + starts) by { LogOf(def, g, g', t, outs, starts); }
    var extra := [CommitAccepted(t)] + outs + starts;
    forall k | |g.log| <= k < |g'.log|
      ensures !g'.log[k].Invoked? && (g'.log[k].Started? ==> g'.log[k] !in g.log)
    {
      var e := extra[k - |g.log|];
      assert e == CommitAccepted(t) || e in outs || (e in starts && e == starts[0]);
    }
  }

  lemma LogOf(def: Definition, g: World, g': World, t: Token, outs: seq<Event>, starts: seq<Event>)
    requires CommitStep(def, g, g', t, outs, starts)
    ensures g'.log == g.log + ([CommitAccepted(t)] + outs + starts)
  {
    hide StepsEffect, Measure, OutputsOk, StartsOk;
  }

  lemma OtherHandler(g: World, g': World, w: nat, v: nat)
    requires Handlers(g) && NewEvents(g, g', w) && v in g.workers && v != w
    requires PhaseOf(g, w).Handling? ==> w in g.workers
    ensures HandlerOk(g'.log, g.workers[v])
  {
    hide Attempts, InvokeStep;
    var p := g.workers[v];
    assert HandlerOk(g.log, p);
    if p.Handling? {
      assert g'.log[..|g.log|] == g.log;
      forall k | |g.log| <= k < |g'.log| ensures g'.log[k] != InvocationOf(p) {
        if g'.log[k].Invoked? {
          assert StartOf(g.workers[w]) != StartOf(p);
        }
      }
      HandlerStays(g.log, g'.log, p, p);
    }
  }

  lemma OwnHandler(g: World, g': World, w: nat)
    requires Handlers(g) && NewEvents(g, g', w) && HandlerMove(g, g', w)
    requires PhaseOf(g, w).Handling? ==> w in g.workers
    ensures HandlerOk(g'.log, PhaseOf(g', w))
    ensures PhaseOf(g', w).Handling? ==> StartOf(PhaseOf(g', w)) !in g.log || (PhaseOf(g, w).Handling? && StartOf(PhaseOf(g', w)) == StartOf(PhaseOf(g, w)))
  {
    hide StartedWithin, DistinctWhere;
    var p, p' := PhaseOf(g, w), PhaseOf(g', w);
    if p'.Handling? {
      if p.Handling? && StartOf(p') == StartOf(p) {
        assert HandlerOk(g.log, p);
        HandlerStays(g.log, g'.log, p, p');
      } else {
        var last := |g'.log| - 1;
        assert g'.log[last] == StartOf(p') && g'.log[last] !in g.log;
        assert InvocationOf(p') !in g.log;
        assert InvokeStep(g, g', w) ==> g'.log[last] == InvocationOf(p);
        assert g'.log == g.log + g'.log[|g.log|..];
      }
    }
  }

  lemma HandlersKept(def: Definition, g: World, g': World, w: nat)
    requires Handlers(g) && Step(def, g, g', w) && HandlerMove(g, g', w)
    ensures Handlers(g')
  {
    hide Attempts, Step, InvokeStep, NewEvents;
    AttemptsKept(def, g, g', w);
    NewEventsOf(def, g, g', w);
    OwnHandler(g, g', w);
    forall v | v in g'.workers ensures HandlerOk(g'.log, g'.workers[v]) {
      if v != w {
        OtherHandler(g, g', w, v);
      }
    }
    assert DistinctHandlers(g') by {
      forall v | v in g.workers && v != w && g.workers[v].Handling? ensures StartOf(g.workers[v]) in g.log {
        assert HandlerOk(g.log, g.workers[v]);
      }
    }
  }
}
