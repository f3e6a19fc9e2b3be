/**
 * Any number of workers and cancellers on one workflow, interleaved store call by store call
 * (packages/workflows/src/manager.ts:86-255 over packages/workflows/src/store.ts:84-128).
 *
 * Between two store calls a worker only computes, so one action is one store call together with
 * the computation that precedes it. Clock readings, lease deadlines, handler results, retry
 * times, crashes and the order of all of it are arbitrary: they are the contents of the action
 * sequence. Lease tokens are fresh per claim.
 */
module WorkflowProtocol {
  import opened Options
  import opened WorkflowTypes
  import opened WorkflowValidation
  import opened WorkflowManager
  import opened WorkflowStore

  /** Where a worker or canceller stands between two store calls. */
  datatype Phase =
    | Idle
    | Observed(view: Snapshot)
    | Claimed(view: Snapshot, token: Token)
    | Handling(view: Snapshot, token: Token, seen: Snapshot, direction: Direction, index: nat, cancellationSeen: bool, invoked: bool)
    | Conflicted(view: Snapshot, token: Token, candidate: Snapshot)
    | Reconciling(view: Snapshot, token: Token, candidate: Snapshot)
    | Cancelling(view: Snapshot)

  /** Unserializable: the handler returned a value that is not JSON, which only a forward step looks at. */
  datatype HandlerResult =
    | Returned(output: Json)
    | Unserializable(error: ErrorText, retryAt: Option<Time>)
    | Threw(error: ErrorText, retryAt: Option<Time>)

  datatype Action =
    | Observe(w: nat)
    | Claim(w: nat, token: Token, now: Time, expiresAt: Time)
    | AdvanceStep(w: nat, now: Time, error: ErrorText, retryAt: Option<Time>)
    | Invoke(w: nat)
    | Renew(w: nat, now: Time, expiresAt: Time)
    | FinishStep(w: nat, now: Time, handler: HandlerResult)
    | Reread(w: nat)
    | Recommit(w: nat, now: Time)
    | ObserveToCancel(w: nat)
    | RequestCancel(w: nat, now: Time)
    | Crash(w: nat)

  /** What an accepted store call or a handler invocation leaves in the history. */
  datatype Event =
    | ClaimAccepted(token: Token)
    | RenewAccepted(token: Token)
    | CommitAccepted(token: Token)
    | CancelAccepted
    | Started(direction: Direction, index: nat, attempt: nat)
    | Invoked(direction: Direction, index: nat, attempt: nat)
    | OutputCommitted(index: nat, output: Json)

  /** `claimedAt` records the clock reading of each accepted claim. */
  datatype World = World(row: Snapshot, workers: map<nat, Phase>, used: set<Token>, log: seq<Event>, claimedAt: map<Token, Time>)

  function PhaseOf(g: World, w: nat): Phase {
    if w in g.workers then g.workers[w] else Idle
  }

  function At(g: World, w: nat, phase: Phase): World {
    g.(workers := g.workers[w := phase])
  }

  function AttemptOf(direction: Direction, step: StepSnapshot): nat {
    if direction.Forward? then step.attempts else step.compensationAttempts
  }

  /** The candidate as `commit` sends it. */
  function Touch(next: Snapshot, now: Time): Snapshot {
    next.(updatedAt := Max(next.updatedAt, now))
  }

  /** workflowNextRetryAt: the first step with a retry time, unless a cancellation overrides it. */
  function FirstRetry(steps: seq<StepSnapshot>): Option<Time> {
    if |steps| == 0 then None
    else if HasRetry(steps[0].state) then steps[0].retryAt
    else FirstRetry(steps[1..])
  }

  function NextRetryAt(s: Snapshot): Option<Time> {
    if s.state.WaitingRetry? && s.cancellationRequested then None else FirstRetry(s.steps)
  }

  predicate MustWait(s: Snapshot, now: Time) {
    Waiting(s.state) && NextRetryAt(s).Some? && NextRetryAt(s).value > now
  }

  /** The history entry for an output that this commit makes durable. */
  function OutputEvents(phase: Phase, candidate: Snapshot): seq<Event> {
    if phase.Handling? && phase.direction.Forward? && phase.index < |candidate.steps|
       && candidate.steps[phase.index].state.Committed? && candidate.steps[phase.index].output.Some?
    then [OutputCommitted(phase.index, candidate.steps[phase.index].output.value)] else []
  }

  /**
   * `WorkflowManager.commit` for a worker in `phase`: validate, call the store, and on a revision
   * race with a terminal forward candidate go on to reconcile.
   */
  function CommitBy(def: Definition, g: World, w: nat, candidate: Snapshot, now: Time, plan: Plan): World
    requires PhaseOf(g, w).Claimed? || PhaseOf(g, w).Handling? || PhaseOf(g, w).Reconciling?
  {
    var phase := PhaseOf(g, w);
    if !MatchesDefinition(candidate, def) then At(g, w, Idle)
    else
      match CommitRow(g.row, candidate, phase.view.revision, phase.token, now, plan.Finish?)
      case Ok(row) =>
        var log := g.log + [CommitAccepted(phase.token)] + OutputEvents(phase, candidate);
        if plan.Finish? || plan.index >= |row.steps| then At(g, w, Idle).(row := row, log := log)
        else
          At(g, w, Handling(row, phase.token, row, plan.direction, plan.index, false, false))
            .(row := row, log := log + [Started(plan.direction, plan.index, AttemptOf(plan.direction, row.steps[plan.index]))])
      case Err(error) =>
        if error.RevisionConflict? && (candidate.state.Completed? || candidate.state.Failed?)
        then At(g, w, Conflicted(phase.view, phase.token, candidate))
        else At(g, w, Idle)
  }

  /** How `withHeartbeat` turns a settled forward handler into an outcome. */
  function OutcomeOf(direction: Direction, handler: HandlerResult, cancellationSeen: bool): Outcome {
    match handler
    case Returned(output) => Success(output)
    case Unserializable(error, retryAt) => if direction.Forward? then Failure(error, retryAt) else Success("")
    case Threw(error, retryAt) => if direction.Forward? && cancellationSeen then CancelledByHeartbeat else Failure(error, retryAt)
  }

  function FinishCandidate(def: Definition, phase: Phase, handler: HandlerResult): Snapshot
    requires phase.Handling? && phase.index < |phase.view.steps| && phase.index < |def.steps|
  {
    var outcome := OutcomeOf(phase.direction, handler, phase.cancellationSeen);
    if phase.direction.Forward? then FinishForward(phase.view, def, phase.index, outcome, phase.cancellationSeen)
    else FinishCompensation(phase.view, def, phase.index, outcome)
  }

  /** The second candidate, built from the authoritative snapshot after a lost race. */
  function ReconcileCandidate(def: Definition, authoritative: Snapshot, candidate: Snapshot): Snapshot {
    BeginCompensationOrCancel(
      if candidate.state.Failed? then
        candidate.(revision := authoritative.revision, cancellationRequested := true,
                   updatedAt := Max(candidate.updatedAt, authoritative.updatedAt), lease := authoritative.lease)
      else authoritative,
      def, true)
  }

  predicate Holds(row: Snapshot, token: Token) {
    row.lease.Some? && row.lease.value.token == token
  }

  /** One action. An action that does not fit the worker's phase changes nothing. */
  function Next(def: Definition, g: World, a: Action): World {
    var phase := PhaseOf(g, a.w);
    match a
    case Observe(w) =>
      if phase.Idle? && !Terminal(g.row.state) then At(g, w, Observed(g.row)) else g
    case Claim(w, token, now, expiresAt) =>
      if !phase.Observed? || token in g.used then g
      else if MustWait(phase.view, now) then At(g, w, Idle)
      else
        (match ClaimRow(g.row, phase.view.revision, token, now, expiresAt)
         case Ok(row) => At(g, w, Claimed(row, token))
           .(row := row, used := g.used + {token}, log := g.log + [ClaimAccepted(token)], claimedAt := g.claimedAt[token := now])
         case Err(_) => At(g, w, Idle))
    case AdvanceStep(w, now, error, retryAt) =>
      if !phase.Claimed? || |phase.view.steps| != |def.steps| then g
      else
        var plan := Advance(phase.view, def, error, retryAt);
        CommitBy(def, g, w, Touch(plan.next, now), now, plan)
    case Invoke(w) =>
      if !phase.Handling? || phase.invoked || phase.index >= |phase.view.steps| then g
      else At(g, w, phase.(invoked := true)).(log := g.log + [Invoked(phase.direction, phase.index, AttemptOf(phase.direction, phase.view.steps[phase.index]))])
    case Renew(w, now, expiresAt) =>
      if !phase.Handling? then g
      else
        (match RenewRow(g.row, phase.view.revision, phase.token, now, expiresAt)
         case Ok(row) =>
           At(g, w, phase.(seen := row, cancellationSeen := phase.cancellationSeen || (phase.direction.Forward? && row.cancellationRequested)))
             .(row := row, log := g.log + [RenewAccepted(phase.token)])
         case Err(_) => At(g, w, Idle))
    case FinishStep(w, now, handler) =>
      if !phase.Handling? || !phase.invoked || phase.index >= |phase.view.steps| || phase.index >= |def.steps| then g
      else
        var next := FinishCandidate(def, phase, handler);
        CommitBy(def, g, w, Touch(next, now), now, Finish(next))
    case Reread(w) =>
      if !phase.Conflicted? then g
      else if !g.row.cancellationRequested || !Holds(g.row, phase.token) then At(g, w, Idle)
      else At(g, w, Reconciling(g.row, phase.token, ReconcileCandidate(def, g.row, phase.candidate)))
    case Recommit(w, now) =>
      if !phase.Reconciling? then g
      else CommitBy(def, g, w, Touch(phase.candidate, now), now, Finish(phase.candidate))
    case ObserveToCancel(w) =>
      if phase.Idle? && !Terminal(g.row.state) && !g.row.cancellationRequested then At(g, w, Cancelling(g.row)) else g
    case RequestCancel(w, now) =>
      if !phase.Cancelling? then g
      else
        (match CancelRow(g.row, phase.view.revision, now)
         case Ok(row) => At(g, w, Idle).(row := row, log := g.log + [CancelAccepted])
         case Err(_) => At(g, w, Idle))
    case Crash(w) => At(g, w, Idle)
  }

  /** A whole run. */
  function Run(def: Definition, g: World, actions: seq<Action>): World
    decreases |actions|
  {
    if |actions| == 0 then g else Run(def, Next(def, g, actions[0]), actions[1..])
  }

  /** The row `start` creates, with nobody working on it. */
  predicate Initial(def: Definition, g: World) {
    && g.row.state.Pending? && g.row.revision == 0 && g.row.lease.None? && !g.row.cancellationRequested
    && MatchesDefinition(g.row, def)
    && g.workers == map[] && g.used == {} && g.log == [] && g.claimedAt == map[]
  }
}
