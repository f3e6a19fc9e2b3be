/**
 * The SQL workflow store (packages/workflows-drizzle/src/base.ts) refines the in-memory one.
 *
 * A call is up to three statements: a select, one guarded update, and, when the update matched
 * no row, a second select that decides which conflict to report. A row holds the snapshot as a
 * payload next to columns that override it when the row is read.
 */
module WorkflowSql {
  import opened Options
  import opened WorkflowTypes
  import opened WorkflowValidation
  import opened WorkflowStore
  import opened WorkflowManager
  import opened WorkflowEffects
  import opened WorkflowProtocol
  import opened WorkflowSafety
  import opened WorkflowReceipts

  datatype SqlRow = SqlRow(
    header: Header, state: WorkflowState, revision: nat, cancellationRequested: bool,
    leaseToken: Option<Token>, leaseExpiresAt: Option<Time>, updatedAt: Time, payload: Snapshot)

  datatype Request =
    | ClaimRequest(expected: nat, token: Token, now: Time, expiresAt: Time)
    | RenewRequest(expected: nat, token: Token, now: Time, expiresAt: Time)
    | CommitRequest(expected: nat, token: Token, now: Time, candidate: Snapshot, release: bool)
    | CancelRequest(expected: nat, now: Time)

  // ------------------------------------------------------------------ statements

  /** `hydrate`: the columns win over the payload, which only contributes the steps. */
  function Assembled(row: SqlRow): Snapshot
    requires row.leaseToken.Some? <==> row.leaseExpiresAt.Some?
  {
    row.payload.(
      header := row.header, state := row.state, revision := row.revision, cancellationRequested := row.cancellationRequested,
      updatedAt := row.updatedAt,
      lease := if row.leaseToken.Some? then Some(Lease(row.leaseToken.value, row.leaseExpiresAt.value)) else None)
  }

  function Hydrate(row: SqlRow): StoreResult {
    if row.leaseToken.Some? != row.leaseExpiresAt.Some? then Err(InvalidSnapshot)
    else if ValidSnapshot(Assembled(row)) then Ok(Assembled(row)) else Err(InvalidSnapshot)
  }

  predicate EndsForward(state: WorkflowState) {
    state.Completed? || state.Failed?
  }

  predicate ArgumentsOk(q: Request) {
    IsTimestamp(q.now) && (q.ClaimRequest? || q.RenewRequest? ==> ValidLeaseArguments(q.now, q.expiresAt))
  }

  /** Everything before the update: argument checks, the first select, the identity check. */
  function Select(row: SqlRow, q: Request): StoreResult {
    if !ArgumentsOk(q) then Err(BadArgument)
    else if q.CommitRequest? && !ValidSnapshot(q.candidate) then Err(InvalidSnapshot)
    else
      match Hydrate(row)
      case Err(error) => Err(error)
      case Ok(observed) => if q.CommitRequest? && !SameIdentity(observed, q.candidate) then Err(IdentityConflict) else Ok(observed)
  }

  predicate LiveLease(row: SqlRow, token: Token, now: Time) {
    row.leaseToken == Some(token) && row.leaseExpiresAt.Some? && row.leaseExpiresAt.value > now
  }

  predicate Free(row: SqlRow, now: Time) {
    row.leaseToken.None? || (row.leaseExpiresAt.Some? && row.leaseExpiresAt.value <= now)
  }

  predicate Unmoved(row: SqlRow, observed: Snapshot) {
    row.revision == observed.revision && row.cancellationRequested == observed.cancellationRequested
  }

  predicate Expected(row: SqlRow, expected: nat) {
    row.revision == expected || (row.revision == expected + 1 && row.cancellationRequested)
  }

  predicate CommitGuard(row: SqlRow, q: Request)
    requires q.CommitRequest?
  {
    && row.header == q.candidate.header
    && LiveLease(row, q.token, q.now)
    && (!EndsForward(q.candidate.state) || !row.cancellationRequested)
    && (row.revision == q.expected || (row.revision == q.expected + 1 && row.cancellationRequested && !EndsForward(q.candidate.state)))
  }

  /** The guarded update: the row it leaves, or None when its `where` matches nothing. */
  function Update(row: SqlRow, observed: Snapshot, q: Request): Option<SqlRow> {
    match q
    case ClaimRequest(expected, token, now, expiresAt) =>
      if row.revision == expected && Unmoved(row, observed) && Free(row, now) then
        Some(row.(payload := observed, revision := row.revision + 1, leaseToken := Some(token), leaseExpiresAt := Some(expiresAt),
                  updatedAt := if row.updatedAt > now then row.updatedAt else now))
      else None
    case RenewRequest(expected, token, now, expiresAt) =>
      if LiveLease(row, token, now) && Unmoved(row, observed) && Expected(row, expected) then
        Some(row.(payload := observed,
                  leaseExpiresAt := Some(if row.leaseExpiresAt.value > expiresAt then row.leaseExpiresAt.value else expiresAt)))
      else None
    case CommitRequest(_, _, _, candidate, release) =>
      if CommitGuard(row, q) then
        Some(row.(payload := candidate, state := candidate.state, revision := row.revision + 1,
                  cancellationRequested := row.cancellationRequested || candidate.cancellationRequested,
                  leaseToken := if release then None else row.leaseToken, leaseExpiresAt := if release then None else row.leaseExpiresAt,
                  updatedAt := if row.updatedAt > candidate.updatedAt then row.updatedAt else candidate.updatedAt))
      else None
    case CancelRequest(expected, now) =>
      if row.revision == expected && Unmoved(row, observed) && !Terminal(row.state) then
        Some(row.(payload := observed, cancellationRequested := true, revision := row.revision + 1,
                  updatedAt := if row.updatedAt > now then row.updatedAt else now))
      else None
  }

  /** The second select, after an update that matched nothing. */
  function Classify(row: SqlRow, q: Request): StoreError {
    match q
    case ClaimRequest(expected, _, _, _) => if row.revision != expected then RevisionConflict else LeaseConflict
    case RenewRequest(_, token, now, _) => if LiveLease(row, token, now) then RevisionConflict else LeaseConflict
    case CommitRequest(_, token, now, candidate, _) =>
      if Hydrate(row).Err? then InvalidSnapshot
      else if !SameIdentity(Hydrate(row).value, candidate) then IdentityConflict
      else if LiveLease(row, token, now) then RevisionConflict else LeaseConflict
    case CancelRequest(_, _) => RevisionConflict
  }

  // --------------------------------------------------------- without interleaving

  /** The answer and the row when the statements of one call run back to back. */
  function Call(row: SqlRow, q: Request): (StoreResult, SqlRow) {
    match Select(row, q)
    case Err(error) => (Err(error), row)
    case Ok(observed) =>
      match Update(row, observed, q)
      case Some(row') => (Hydrate(row'), row')
      case None => (Err(Classify(row, q)), row)
  }

  function InMemory(s: Snapshot, q: Request): StoreResult {
    match q
    case ClaimRequest(expected, token, now, expiresAt) => ClaimRow(s, expected, token, now, expiresAt)
    case RenewRequest(expected, token, now, expiresAt) => RenewRow(s, expected, token, now, expiresAt)
    case CommitRequest(expected, token, now, candidate, release) => CommitRow(s, candidate, expected, token, now, release)
    case CancelRequest(expected, now) => CancelRow(s, expected, now)
  }

  /** A holder that knows of the cancellation and still wants to end the workflow going forward. */
  predicate ForwardEndUnderKnownCancellation(s: Snapshot, q: Request) {
    && q.CommitRequest? && EndsForward(q.candidate.state) && s.cancellationRequested && s.revision == q.expected
    && IsTimestamp(q.now) && ValidSnapshot(q.candidate) && SameIdentity(s, q.candidate)
    && s.lease.Some? && s.lease.value.token == q.token && s.lease.value.expiresAt > q.now
  }

  /** Two faults at once, which the two stores report in a different order. */
  predicate InvalidForeignCandidate(s: Snapshot, q: Request) {
    q.CommitRequest? && IsTimestamp(q.now) && !ValidSnapshot(q.candidate) && !SameIdentity(s, q.candidate)
  }

  lemma ManagedFieldsValid(s: Snapshot, s': Snapshot)
    requires ValidSnapshot(s) && SameBody(s, s') && ValidTimes(s')
    requires s'.cancellationRequested == s.cancellationRequested || (s'.cancellationRequested && !EndsForward(s.state))
    ensures ValidSnapshot(s')
  {
    hide ForwardBoundary, CompensationBoundary, ValidSteps, DistinctNames;
  }

  lemma TimesOf(s: Snapshot)
    requires ValidSnapshot(s)
    ensures ValidTimes(s)
  {
    hide StateBoundary, ValidSteps, DistinctNames;
  }

  /** What a client knows about the row between its first select and its update. */
  predicate Knows(observed: Snapshot, s: Snapshot) {
    && SameIdentity(observed, s)
    && observed.revision <= s.revision
    && (observed.revision == s.revision ==> SameBody(observed, s) && observed.cancellationRequested == s.cancellationRequested)
  }

  predicate Admitted(observed: Snapshot, q: Request) {
    ArgumentsOk(q) && (q.CommitRequest? ==> ValidSnapshot(q.candidate) && SameIdentity(observed, q.candidate))
  }

  lemma IdentityTransitive(a: Snapshot, b: Snapshot, c: Snapshot)
    requires SameIdentity(a, b) && (SameIdentity(a, c) || SameIdentity(c, a))
    ensures SameIdentity(b, c) && SameIdentity(c, b)
  {
    assert forall i :: 0 <= i < |a.steps| ==> SameStepIdentity(a.steps[i], b.steps[i]);
  }

  /**
   * One guarded update, possibly working from an outdated select. It matches exactly when the
   * in-memory operation accepts at that moment, apart from the two listed cases; and then it
   * leaves exactly the row the in-memory operation would.
   */
  lemma UpdateIsAtomicOperation(row: SqlRow, observed: Snapshot, q: Request)
    requires Hydrate(row).Ok? && Knows(observed, Hydrate(row).value) && Admitted(observed, q)
    ensures var s := Hydrate(row).value;
      Update(row, observed, q).Some? <==>
        InMemory(s, q).Ok? && !ForwardEndUnderKnownCancellation(s, q) && (q.CommitRequest? || observed.revision == s.revision)
    ensures Update(row, observed, q).Some? ==>
      Hydrate(Update(row, observed, q).value) == InMemory(Hydrate(row).value, q)
  {
    hide ValidSnapshot, SameIdentity;
    var s := Hydrate(row).value;
    assert s.header == observed.header by { Headers(observed, s); }
    TimesOf(s);
    if q.CommitRequest? {
      IdentityTransitive(observed, s, q.candidate);
      Headers(s, q.candidate);
      TimesOf(q.candidate);
    }
    if Update(row, observed, q).Some? {
      var row' := Update(row, observed, q).value;
      var s' := Assembled(row');
      assert InMemory(s, q) == Ok(s');
      ManagedFieldsValid(if q.CommitRequest? then q.candidate else s, s');
    }
  }

  lemma Headers(a: Snapshot, b: Snapshot)
    requires SameIdentity(a, b)
    ensures a.header == b.header
  {
  }

  lemma OwnIdentity(s: Snapshot)
    ensures SameIdentity(s, s)
  {
  }

  /** Without interleaving, a call answers and stores what the in-memory store does, except in exactly two cases. */
  lemma CallRefinesInMemory(row: SqlRow, q: Request)
    requires Hydrate(row).Ok?
    ensures var s := Hydrate(row).value;
      Call(row, q).0 == InMemory(s, q) <==> !ForwardEndUnderKnownCancellation(s, q) && !InvalidForeignCandidate(s, q)
    ensures Call(row, q).0.Ok? ==> Hydrate(Call(row, q).1) == Call(row, q).0
    ensures Call(row, q).0.Err? ==> Call(row, q).1 == row
  {
    hide ValidSnapshot, SameIdentity;
    var s := Hydrate(row).value;
    OwnIdentity(s);
    if Select(row, q).Ok? {
      UpdateIsAtomicOperation(row, s, q);
    }
  }

  /** In those cases the in-memory store would end a cancelled workflow as completed or failed; SQL reports a revision conflict. */
  lemma KnownCancellationDiffers(row: SqlRow, q: Request)
    requires Hydrate(row).Ok? && ForwardEndUnderKnownCancellation(Hydrate(row).value, q)
    ensures Call(row, q) == (Err(RevisionConflict), row)
    ensures InMemory(Hydrate(row).value, q).Ok? && !ValidSnapshot(InMemory(Hydrate(row).value, q).value)
  {
    hide ForwardBoundary, CompensationBoundary, ValidSteps, DistinctNames, SameIdentity;
  }

  // ------------------------------------------------- requests the manager makes

  /** The store call with which an action of a worker begins, if it makes one. */
  function RequestOf(def: Definition, g: World, a: Action): Option<Request> {
    var p := PhaseOf(g, a.w);
    match a
    case Claim(_, token, now, expiresAt) => if p.Observed? then Some(ClaimRequest(p.view.revision, token, now, expiresAt)) else None
    case Renew(_, now, expiresAt) => if p.Handling? then Some(RenewRequest(p.view.revision, p.token, now, expiresAt)) else None
    case RequestCancel(_, now) => if p.Cancelling? then Some(CancelRequest(p.view.revision, now)) else None
    case AdvanceStep(_, now, error, retryAt) =>
      if p.Claimed? && |p.view.steps| == |def.steps| then
        var plan := Advance(p.view, def, error, retryAt);
        CommitOf(def, p, Touch(plan.next, now), now, plan.Finish?)
      else None
    case FinishStep(_, now, handler) =>
      if p.Handling? && p.index < |p.view.steps| && p.index < |def.steps| then
        CommitOf(def, p, Touch(FinishCandidate(def, p, handler), now), now, true)
      else None
    case Recommit(_, now) => if p.Reconciling? then CommitOf(def, p, Touch(p.candidate, now), now, true) else None
    case _ => None
  }

  function CommitOf(def: Definition, p: Phase, candidate: Snapshot, now: Time, release: bool): Option<Request>
    requires TokenOf(p).Some?
  {
    if MatchesDefinition(candidate, def) then Some(CommitRequest(p.view.revision, p.token, now, candidate, release)) else None
  }

  lemma SentNeverEndsCancelled(def: Definition, g: World, w: nat, candidate: Snapshot, now: Time, release: bool)
    requires Inv(def, g) && Sent(def, g, w, candidate)
    ensures var q := CommitRequest(PhaseOf(g, w).view.revision, PhaseOf(g, w).token, now, candidate, release);
      !ForwardEndUnderKnownCancellation(g.row, q) && !InvalidForeignCandidate(g.row, q)
  {
    hide Sound, HandlingAt, ValidSnapshot, Measure, StepEffect, SameIdentity;
    var p := PhaseOf(g, w);
    assert PhaseOk(def, g.row, g.used, p);
    SoundTimes(def, candidate);
    CancelledNeverCompletes(def, candidate);
  }

  /** Along every run of the manager's workers, each request gets from SQL the answer the in-memory store gives. */
  lemma ManagerRequestsAgree(def: Definition, g: World, actions: seq<Action>, a: Action, row: SqlRow)
    requires ValidDefinition(def) && Initial(def, g)
    requires Hydrate(row) == Ok(Run(def, g, actions).row)
    requires RequestOf(def, Run(def, g, actions), a).Some?
    ensures var q := RequestOf(def, Run(def, g, actions), a).value;
      Call(row, q).0 == InMemory(Run(def, g, actions).row, q)
  {
    hide Run, Inv, Initial, ValidDefinition, MatchesDefinition, Advance, FinishCandidate, Sent, Hydrate, Call, InMemory;
    hide ForwardEndUnderKnownCancellation, InvalidForeignCandidate;
    InitialInv(def, g);
    RunKeeps(def, g, actions);
    var end := Run(def, g, actions);
    var q := RequestOf(def, end, a).value;
    if q.CommitRequest? {
      match a {
        case AdvanceStep(_, _, _, _) => AdvanceSends(def, end, a);
        case FinishStep(_, _, _) => FinishSends(def, end, a);
        case Recommit(_, _) => RecommitSends(def, end, a);
      }
      SentNeverEndsCancelled(def, end, a.w, q.candidate, q.now, q.release);
    } else {
      OnlyCommitsDiffer(end.row, q);
    }
    CallRefinesInMemory(row, q);
  }

  lemma OnlyCommitsDiffer(s: Snapshot, q: Request)
    requires !q.CommitRequest?
    ensures !ForwardEndUnderKnownCancellation(s, q) && !InvalidForeignCandidate(s, q)
  {
  }

  // ----------------------------------------------------------- with interleaving

  datatype Client = Outside | Selected(q: Request, observed: Snapshot) | Refused(q: Request)

  /** `accepted` records the requests whose update matched, in the order of the updates. */
  datatype Table = Table(row: SqlRow, clients: map<nat, Client>, accepted: seq<Request>)

  datatype Statement = FirstSelect(c: nat, q: Request) | GuardedUpdate(c: nat) | SecondSelect(c: nat) | Disconnect(c: nat)

  function ClientOf(t: Table, c: nat): Client {
    if c in t.clients then t.clients[c] else Outside
  }

  function Execute(t: Table, s: Statement): Table {
    match s
    case FirstSelect(c, q) =>
      if !ClientOf(t, c).Outside? || Select(t.row, q).Err? then t
      else t.(clients := t.clients[c := Selected(q, Select(t.row, q).value)])
    case GuardedUpdate(c) =>
      if !ClientOf(t, c).Selected? then t
      else
        (match Update(t.row, ClientOf(t, c).observed, ClientOf(t, c).q)
         case Some(row) => Table(row, t.clients[c := Outside], t.accepted + [ClientOf(t, c).q])
         case None => t.(clients := t.clients[c := Refused(ClientOf(t, c).q)]))
    case SecondSelect(c) => if ClientOf(t, c).Refused? then t.(clients := t.clients[c := Outside]) else t
    case Disconnect(c) => t.(clients := t.clients[c := Outside])
  }

  function ExecuteAll(t: Table, statements: seq<Statement>): Table
    decreases |statements|
  {
    if |statements| == 0 then t else ExecuteAll(Execute(t, statements[0]), statements[1..])
  }

  /** The same requests, one whole operation after the other, on the in-memory store; all must be accepted. */
  function Replay(s: Snapshot, requests: seq<Request>): StoreResult
    decreases |requests|
  {
    if |requests| == 0 then Ok(s)
    else
      var before := Replay(s, requests[..|requests| - 1]);
      if before.Err? then before else InMemory(before.value, requests[|requests| - 1])
  }

  ghost predicate Linearized(start: Snapshot, t: Table) {
    && Hydrate(t.row).Ok? && Replay(start, t.accepted) == Hydrate(t.row)
    && (forall c :: c in t.clients && t.clients[c].Selected? ==>
          Knows(t.clients[c].observed, Hydrate(t.row).value) && Admitted(t.clients[c].observed, t.clients[c].q))
  }

  /** An operation leaves every other client's knowledge of the row true. */
  lemma KnowledgeSurvives(observed: Snapshot, s: Snapshot, q: Request)
    requires Knows(observed, s) && InMemory(s, q).Ok?
    ensures Knows(observed, InMemory(s, q).value)
  {
    hide ValidSnapshot, SameIdentity;
    var s' := InMemory(s, q).value;
    assert SameIdentity(s, s') by { IdentityKept(s, q); }
    OwnIdentity(observed);
    IdentityTransitive(s, s', observed);
  }

  lemma IdentityKept(s: Snapshot, q: Request)
    requires InMemory(s, q).Ok?
    ensures SameIdentity(s, InMemory(s, q).value)
  {
    hide ValidSnapshot;
  }

  lemma ExecuteLinearized(start: Snapshot, t: Table, s: Statement)
    requires Linearized(start, t)
    ensures Linearized(start, Execute(t, s))
  {
    hide Hydrate, Update, InMemory, Knows, ValidSnapshot, SameIdentity;
    var t' := Execute(t, s);
    match s
    case GuardedUpdate(c) =>
      if ClientOf(t, c).Selected? {
        var q, observed := ClientOf(t, c).q, ClientOf(t, c).observed;
        UpdateIsAtomicOperation(t.row, observed, q);
        if Update(t.row, observed, q).Some? {
          assert t'.accepted[..|t.accepted|] == t.accepted;
          forall d | d in t'.clients && t'.clients[d].Selected? ensures Knows(t'.clients[d].observed, Hydrate(t'.row).value) {
            KnowledgeSurvives(t.clients[d].observed, Hydrate(t.row).value, q);
          }
        }
      }
    case FirstSelect(c, q) =>
      if ClientOf(t, c).Outside? && Select(t.row, q).Ok? {
        KnowsItself(Hydrate(t.row).value);
      }
    case _ =>
  }

  lemma KnowsItself(s: Snapshot)
    ensures Knows(s, s)
  {
  }

  /**
   * However the statements of any number of clients interleave, with clients vanishing between
   * any two of them, the row is what the in-memory store holds after the accepted requests alone,
   * each executed in one piece at the moment of its update.
   */
  lemma {:induction false} StatementsLinearize(start: Snapshot, t: Table, statements: seq<Statement>)
    requires Linearized(start, t)
    ensures Linearized(start, ExecuteAll(t, statements))
    decreases |statements|
  {
    hide Linearized, Execute;
    if |statements| > 0 {
      ExecuteLinearized(start, t, statements[0]);
      StatementsLinearize(start, Execute(t, statements[0]), statements[1..]);
    }
  }

  lemma SqlStoreLinearizable(row: SqlRow, statements: seq<Statement>)
    requires Hydrate(row).Ok?
    ensures var t := ExecuteAll(Table(row, map[], []), statements);
      Hydrate(t.row).Ok? && Replay(Hydrate(row).value, t.accepted) == Hydrate(t.row)
  {
    hide Hydrate, Execute;
    StatementsLinearize(Hydrate(row).value, Table(row, map[], []), statements);
  }
}
