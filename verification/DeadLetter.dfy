/**
 * Dead-letter administration (packages/reliability-drizzle/src/dead-letter.ts:54-87).
 *
 * An operation touches two tables, statement by statement, without a transaction: it reserves its
 * id, changes the message and leaves a marker on it, then finalizes the reservation. Any number of
 * callers interleave between statements, any of them may vanish between two statements, an insert
 * may report an error although it was applied, and the delivery workers keep changing the messages.
 * The SHA-256 fingerprint is represented by the tuple it digests.
 */
module DeadLetter {
  import opened Options

  type Time = int
  type OperationId = string

  datatype Key = Key(namespace: string, id: string)
  datatype Disposition = Active | Discarded
  datatype Mutation = Retry(availableAt: Time) | Discard
  datatype Request = Request(op: OperationId, key: Key, revision: nat, mutation: Mutation, reason: Option<string>)
  datatype Fingerprint = Fingerprint(mutation: Mutation, key: Key, revision: nat, reason: Option<string>)
  datatype FailureCode = NotFound | StaleRevision | InvalidState
  datatype Outcome = Outcome(key: Key, disposition: Disposition, revision: nat, committedAt: Time)

  datatype Status = Reserved | Failed(code: FailureCode) | Committed(disposition: Disposition, revision: nat, resolvedAt: Time)
  datatype Operation = Operation(fingerprint: Fingerprint, key: Key, status: Status)

  datatype MessageState = Pending | Processing | Delivered | Dead
  datatype Marker = Marker(op: OperationId, fingerprint: Fingerprint, disposition: Disposition, revision: nat, at: Time)

  /** `birth` numbers the appends, so that a pruned and re-appended message is a new one. */
  datatype Message = Message(state: MessageState, disposition: Disposition, revision: nat, marker: Option<Marker>, birth: nat)

  function FingerprintOf(q: Request): Fingerprint {
    Fingerprint(q.mutation, q.key, q.revision, q.reason)
  }

  function DispositionOf(m: Mutation): Disposition {
    if m.Discard? then Discarded else Active
  }

  // ---------------------------------------------------------------------- callers

  /** Which statement a caller executes next. */
  datatype Caller =
    | Gone
    | Reading(q: Request, now: Time)
    | Reserving(q: Request, now: Time)
    | Rereading(q: Request)
    | Mutating(q: Request, now: Time)
    | Checking(q: Request, now: Time)
    | Diagnosing(q: Request, now: Time)
    | Failing(q: Request, code: FailureCode)
    | Reconciling(q: Request)
    | Finalizing(q: Request, outcome: Outcome)
    | Confirming(q: Request, outcome: Outcome)

  datatype Event =
    | Changed(op: OperationId, fingerprint: Fingerprint, birth: nat, outcome: Outcome)
    | Answered(op: OperationId, fingerprint: Fingerprint, outcome: Outcome)
    | Refused(op: OperationId, fingerprint: Fingerprint, code: FailureCode)

  datatype Database = Database(
    operations: map<OperationId, Operation>,
    messages: map<Key, Message>,
    callers: map<nat, Caller>,
    births: nat,
    log: seq<Event>)

  datatype Action =
    | Call(c: nat, q: Request, now: Time)
    | Step(c: nat)
    | ReserveError(c: nat, applied: bool)
    | Vanish(c: nat)
    | Work(key: Key, state: MessageState)
    | Prune(key: Key)
    | Append(key: Key)

  function CallerOf(d: Database, c: nat): Caller {
    if c in d.callers then d.callers[c] else Gone
  }

  function Goto(d: Database, c: nat, caller: Caller): Database {
    d.(callers := d.callers[c := caller])
  }

  function Answer(d: Database, c: nat, q: Request, outcome: Outcome): Database {
    Goto(d, c, Gone).(log := d.log + [Answered(q.op, FingerprintOf(q), outcome)])
  }

  function Refuse(d: Database, c: nat, q: Request, code: FailureCode): Database {
    Goto(d, c, Gone).(log := d.log + [Refused(q.op, FingerprintOf(q), code)])
  }

  /** `replay`: what an existing reservation means for this request. */
  function Replay(d: Database, c: nat, q: Request): Database
    requires q.op in d.operations
  {
    var row := d.operations[q.op];
    if row.fingerprint != FingerprintOf(q) || row.key != q.key then Goto(d, c, Gone)
    else
      match row.status
      case Reserved => Goto(d, c, Reconciling(q))
      case Failed(code) => Refuse(d, c, q, code)
      case Committed(disposition, revision, resolvedAt) => Answer(d, c, q, Outcome(q.key, disposition, revision, resolvedAt))
  }

  function Reserve(d: Database, q: Request): Database
    requires q.op !in d.operations
  {
    d.(operations := d.operations[q.op := Operation(FingerprintOf(q), q.key, Reserved)])
  }

  predicate Mutable(d: Database, q: Request) {
    && q.key in d.messages
    && d.messages[q.key].state.Dead? && d.messages[q.key].disposition.Active? && d.messages[q.key].revision == q.revision
  }

  function Mutated(m: Message, q: Request, now: Time): Message {
    var marker := Some(Marker(q.op, FingerprintOf(q), DispositionOf(q.mutation), m.revision + 1, now));
    if q.mutation.Retry? then m.(state := Pending, revision := m.revision + 1, marker := marker)
    else m.(disposition := Discarded, revision := m.revision + 1, marker := marker)
  }

  /** The guarded update of the message. */
  function Mutate(d: Database, c: nat, q: Request, now: Time): Database {
    if !Mutable(d, q) then Goto(d, c, Checking(q, now))
    else
      var m := Mutated(d.messages[q.key], q, now);
      var outcome := Outcome(q.key, DispositionOf(q.mutation), m.revision, now);
      Goto(d, c, Finalizing(q, outcome)).(
        messages := d.messages[q.key := m],
        log := d.log + [Changed(q.op, FingerprintOf(q), m.birth, outcome)])
  }

  /** The message whose marker names the operation. */
  predicate Marked(d: Database, key: Key, op: OperationId) {
    key in d.messages && d.messages[key].marker.Some? && d.messages[key].marker.value.op == op
  }

  /** `markerResult`, or Gone for an operation conflict. */
  function FromMarker(d: Database, key: Key, q: Request): Caller
    requires Marked(d, key, q.op)
  {
    var marker := d.messages[key].marker.value;
    if marker.fingerprint != FingerprintOf(q) || key != q.key then Gone
    else Finalizing(q, Outcome(q.key, marker.disposition, marker.revision, marker.at))
  }

  /** The select by marker: `found` if some message carries it, else `missing`. */
  function SelectMarker(d: Database, c: nat, q: Request, missing: Caller): Database {
    if exists key :: key in d.messages && Marked(d, key, q.op) then
      (if Marked(d, q.key, q.op) then Goto(d, c, FromMarker(d, q.key, q)) else Goto(d, c, Gone))
    else Goto(d, c, missing)
  }

  function Diagnosis(d: Database, q: Request): FailureCode {
    if q.key !in d.messages then NotFound
    else if d.messages[q.key].revision != q.revision then StaleRevision
    else InvalidState
  }

  predicate Awaits(d: Database, q: Request) {
    q.op in d.operations && d.operations[q.op].fingerprint == FingerprintOf(q) && d.operations[q.op].status.Reserved?
  }

  function SetStatus(d: Database, op: OperationId, status: Status): Database
    requires op in d.operations
  {
    d.(operations := d.operations[op := d.operations[op].(status := status)])
  }

  /** One statement of a caller, with the computation up to its next one. */
  function StepOf(d: Database, c: nat): Database {
    match CallerOf(d, c)
    case Gone => d
    case Reading(q, now) => if q.op in d.operations then Replay(d, c, q) else Goto(d, c, Reserving(q, now))
    case Reserving(q, now) =>
      if q.op in d.operations then Goto(d, c, Rereading(q)) else Goto(Reserve(d, q), c, Mutating(q, now))
    case Rereading(q) => if q.op in d.operations then Replay(d, c, q) else Goto(d, c, Gone)
    case Mutating(q, now) => Mutate(d, c, q, now)
    case Checking(q, now) => SelectMarker(d, c, q, Diagnosing(q, now))
    case Diagnosing(q, _) => Goto(d, c, Failing(q, Diagnosis(d, q)))
    case Failing(q, code) => Refuse(if Awaits(d, q) then SetStatus(d, q.op, Failed(code)) else d, c, q, code)
    case Reconciling(q) => SelectMarker(d, c, q, Gone)
    case Finalizing(q, outcome) =>
      Goto(if Awaits(d, q) then SetStatus(d, q.op, Committed(outcome.disposition, outcome.revision, outcome.committedAt)) else d,
           c, Confirming(q, outcome))
    case Confirming(q, outcome) =>
      if q.op in d.operations && d.operations[q.op].status.Committed? && d.operations[q.op].fingerprint == FingerprintOf(q)
      then Answer(d, c, q, outcome) else Goto(d, c, Gone)
  }

  /** No reservation still needs this message or its marker. */
  predicate Prunable(d: Database, key: Key) {
    && key in d.messages && (d.messages[key].state.Dead? || d.messages[key].state.Delivered?)
    && forall op :: op in d.operations && d.operations[op].status.Reserved? ==> d.operations[op].key != key && !Marked(d, key, op)
  }

  function Next(d: Database, a: Action): Database {
    match a
    case Call(c, q, now) => if CallerOf(d, c).Gone? then Goto(d, c, Reading(q, now)) else d
    case Step(c) => StepOf(d, c)
    case ReserveError(c, applied) =>
      if !CallerOf(d, c).Reserving? then d
      else
        var q := CallerOf(d, c).q;
        Goto(if applied && q.op !in d.operations then Reserve(d, q) else d, c, Rereading(q))
    case Vanish(c) => Goto(d, c, Gone)
    case Work(key, state) =>
      if key in d.messages && (d.messages[key].state.Pending? || d.messages[key].state.Processing?) then
        var m := d.messages[key];
        d.(messages := d.messages[key :=
          if state.Dead? then m.(state := Dead, disposition := Active, revision := m.revision + 1) else m.(state := state)])
      else d
    case Prune(key) => if Prunable(d, key) then d.(messages := d.messages - {key}) else d
    case Append(key) =>
      if key in d.messages then d
      else d.(messages := d.messages[key := Message(Pending, Active, 0, None, d.births)], births := d.births + 1)
  }

  function Run(d: Database, actions: seq<Action>): Database
    decreases |actions|
  {
    if |actions| == 0 then d else Run(Next(d, actions[0]), actions[1..])
  }

  predicate Empty(d: Database) {
    d.operations == map[] && d.messages == map[] && d.callers == map[] && d.log == []
  }

  // ------------------------------------------------------------------- the invariant

  /** The operation changed its message, with this outcome. */
  ghost predicate Recorded(log: seq<Event>, op: OperationId, fp: Fingerprint, outcome: Outcome) {
    exists birth :: Changed(op, fp, birth, outcome) in log
  }

  predicate Untouched(log: seq<Event>, op: OperationId) {
    forall i :: 0 <= i < |log| ==> !(log[i].Changed? && log[i].op == op)
  }

  predicate OncePerOperation(log: seq<Event>) {
    forall i, j :: 0 <= i < j < |log| && log[i].Changed? && log[j].Changed? ==> log[i].op != log[j].op
  }

  predicate SameIncarnation(a: Event, b: Event) {
    a.Changed? && b.Changed? && a.outcome.key == b.outcome.key && a.birth == b.birth
  }

  /** Later changes of the same incarnation of a message see a later revision, and nothing follows a discard. */
  predicate RevisionsIncrease(log: seq<Event>) {
    forall i, j :: 0 <= i < j < |log| && SameIncarnation(log[i], log[j]) ==>
      log[i].outcome.revision < log[j].outcome.revision && log[i].outcome.disposition.Active?
  }

  ghost predicate OperationOk(log: seq<Event>, op: OperationId, row: Operation) {
    && row.key == row.fingerprint.key
    && (row.status.Committed? ==> Recorded(log, op, row.fingerprint, Outcome(row.key, row.status.disposition, row.status.revision, row.status.resolvedAt)))
    && (row.status.Failed? ==> Untouched(log, op))
  }

  ghost predicate MessageOk(d: Database, key: Key, m: Message) {
    && m.birth < d.births
    && (m.marker.Some? ==>
          Recorded(d.log, m.marker.value.op, m.marker.value.fingerprint, Outcome(key, m.marker.value.disposition, m.marker.value.revision, m.marker.value.at)))
    && (forall i :: 0 <= i < |d.log| && ChangeOf(d.log[i], key, m) ==>
          d.log[i].outcome.revision <= m.revision && (d.log[i].outcome.disposition.Discarded? ==> m.state.Dead? && m.disposition.Discarded?))
  }

  /** An operation changed this incarnation of the message. */
  predicate ChangeOf(e: Event, key: Key, m: Message) {
    e.Changed? && e.outcome.key == key && e.birth == m.birth
  }

  /** The one caller that reserved the operation and has not changed a message for it. */
  predicate Owns(caller: Caller) {
    caller.Mutating? || caller.Checking? || caller.Diagnosing? || caller.Failing?
  }

  ghost predicate CallerOk(d: Database, caller: Caller) {
    && (Owns(caller) ==> Awaits(d, caller.q) && Untouched(d.log, caller.q.op))
    && (caller.Finalizing? || caller.Confirming? ==>
          Recorded(d.log, caller.q.op, FingerprintOf(caller.q), caller.outcome))
    && (caller.Confirming? ==> Finished(d, caller.q.op))
  }

  predicate Finished(d: Database, op: OperationId) {
    op in d.operations && d.operations[op].status.Committed?
  }

  predicate OneOwner(d: Database) {
    forall a, b :: a in d.callers && b in d.callers && a != b && Owns(d.callers[a]) && Owns(d.callers[b]) ==> d.callers[a].q.op != d.callers[b].q.op
  }

  ghost predicate EventOk(d: Database, e: Event) {
    match e
    case Changed(op, fp, birth, outcome) =>
      op in d.operations && d.operations[op].fingerprint == fp && birth < d.births && outcome.key == fp.key
      && outcome.revision == fp.revision + 1 && outcome.disposition == DispositionOf(fp.mutation)
    case Answered(op, fp, outcome) => Recorded(d.log, op, fp, outcome)
    case Refused(op, fp, code) => op in d.operations && d.operations[op].fingerprint == fp && d.operations[op].status == Failed(code)
  }

  /** Pruning never removes what an unfinished operation left: its marker is there, or a later change replaced it. */
  predicate EvidenceOk(d: Database, e: Event) {
    e.Changed? && e.op in d.operations && d.operations[e.op].status.Reserved? ==>
      && e.outcome.key in d.messages
      && d.messages[e.outcome.key].birth == e.birth
      && d.messages[e.outcome.key].marker.Some?
      && var marker := d.messages[e.outcome.key].marker.value;
         marker.revision >= e.outcome.revision && (marker.revision == e.outcome.revision ==> marker.op == e.op)
  }

  ghost predicate Inv(d: Database) {
    && OncePerOperation(d.log) && RevisionsIncrease(d.log) && OneOwner(d)
    && (forall op :: op in d.operations ==> OperationOk(d.log, op, d.operations[op]))
    && (forall key :: key in d.messages ==> MessageOk(d, key, d.messages[key]))
    && (forall c :: c in d.callers ==> CallerOk(d, d.callers[c]))
    && (forall i :: 0 <= i < |d.log| ==> EventOk(d, d.log[i]) && EvidenceOk(d, d.log[i]))
  }

  // -------------------------------------------------------------- every action keeps it

  lemma RecordedGrows(log: seq<Event>, e: Event, op: OperationId, fp: Fingerprint, outcome: Outcome)
    requires Recorded(log, op, fp, outcome)
    ensures Recorded(log + [e], op, fp, outcome)
  {
    var birth :| Changed(op, fp, birth, outcome) in log;
    assert Changed(op, fp, birth, outcome) in log + [e];
  }

  predicate Exclusive(d: Database, c: nat, op: OperationId) {
    forall v :: v in d.callers && v != c && Owns(d.callers[v]) ==> d.callers[v].q.op != op
  }

  /** A caller moves and nothing else does. */
  lemma CallerMoves(d: Database, c: nat, caller: Caller)
    requires Inv(d) && CallerOk(d, caller)
    requires Owns(caller) ==> Exclusive(d, c, caller.q.op)
    ensures Inv(Goto(d, c, caller))
  {
    hide Recorded, Untouched, OncePerOperation, RevisionsIncrease, EvidenceOk;
    var d' := Goto(d, c, caller);
    forall v | v in d'.callers ensures CallerOk(d', d'.callers[v]) {
      assert v != c ==> CallerOk(d, d.callers[v]);
    }
    forall i | 0 <= i < |d'.log| ensures EventOk(d', d'.log[i]) && EvidenceOk(d', d'.log[i]) {
      assert EventOk(d, d.log[i]) && EvidenceOk(d, d.log[i]);
      assert EvidenceOk(d', d'.log[i]) by { SameTables(d, d', d.log[i]); }
    }
    forall key | key in d'.messages ensures MessageOk(d', key, d'.messages[key]) {
      assert MessageOk(d, key, d.messages[key]);
    }
  }

  lemma SameTables(d: Database, d': Database, e: Event)
    requires EvidenceOk(d, e) && d'.operations == d.operations && d'.messages == d.messages
    ensures EvidenceOk(d', e)
  {
  }

  /** An answer is added to the log. */
  lemma AnswerAdds(d: Database, e: Event)
    requires Inv(d) && !e.Changed? && EventOk(d, e)
    ensures Inv(d.(log := d.log + [e]))
  {
    hide Recorded, EvidenceOk;
    var d' := d.(log := d.log + [e]);
    forall op, fp, outcome | Recorded(d.log, op, fp, outcome) ensures Recorded(d'.log, op, fp, outcome) {
      RecordedGrows(d.log, e, op, fp, outcome);
    }
    forall c | c in d'.callers ensures CallerOk(d', d'.callers[c]) {
      assert CallerOk(d, d.callers[c]);
    }
    forall i | 0 <= i < |d'.log| ensures EventOk(d', d'.log[i]) && EvidenceOk(d', d'.log[i]) {
      if i < |d.log| {
        assert EventOk(d, d.log[i]) && EvidenceOk(d, d.log[i]);
        SameTables(d, d', d.log[i]);
      } else {
        assert EvidenceOk(d', e) by { NotEvidence(d', e); }
      }
    }
    forall key | key in d'.messages ensures MessageOk(d', key, d'.messages[key]) {
      assert MessageOk(d, key, d.messages[key]);
    }
    forall op | op in d'.operations ensures OperationOk(d'.log, op, d'.operations[op]) {
      assert OperationOk(d.log, op, d.operations[op]);
    }
  }

  lemma NotEvidence(d: Database, e: Event)
    requires !e.Changed?
    ensures EvidenceOk(d, e)
  {
  }

  lemma ReserveKeeps(d: Database, q: Request)
    requires Inv(d) && q.op !in d.operations
    ensures Inv(Reserve(d, q))
    ensures forall v :: v in d.callers && Owns(d.callers[v]) ==> d.callers[v].q.op != q.op
    ensures Untouched(d.log, q.op)
  {
    hide Recorded, OncePerOperation, RevisionsIncrease;
    var d' := Reserve(d, q);
    forall c | c in d'.callers ensures CallerOk(d', d'.callers[c]) {
      assert CallerOk(d, d.callers[c]);
    }
    forall i | 0 <= i < |d'.log| ensures EventOk(d', d'.log[i]) && EvidenceOk(d', d'.log[i]) {
      assert EventOk(d, d.log[i]) && EvidenceOk(d, d.log[i]);
    }
    forall key | key in d'.messages ensures MessageOk(d', key, d'.messages[key]) {
      assert MessageOk(d, key, d.messages[key]);
    }
  }

  lemma ResolveKeeps(d: Database, op: OperationId, status: Status)
    requires Inv(d) && op in d.operations && d.operations[op].status.Reserved? && !status.Reserved?
    requires OperationOk(d.log, op, d.operations[op].(status := status))
    requires forall v :: v in d.callers && Owns(d.callers[v]) ==> d.callers[v].q.op != op
    ensures Inv(SetStatus(d, op, status))
  {
    hide Recorded, OncePerOperation, RevisionsIncrease, Untouched;
    var d' := SetStatus(d, op, status);
    forall c | c in d'.callers ensures CallerOk(d', d'.callers[c]) {
      assert CallerOk(d, d.callers[c]);
    }
    forall i | 0 <= i < |d'.log| ensures EventOk(d', d'.log[i]) && EvidenceOk(d', d'.log[i]) {
      assert EventOk(d, d.log[i]) && EvidenceOk(d, d.log[i]);
    }
    forall key | key in d'.messages ensures MessageOk(d', key, d'.messages[key]) {
      assert MessageOk(d, key, d.messages[key]);
    }
  }

  /** The delivery workers never touch markers, and only raise revisions. */
  lemma MessageMoves(d: Database, key: Key, m: Message)
    requires Inv(d) && key in d.messages
    requires m.birth == d.messages[key].birth && m.marker == d.messages[key].marker && m.revision >= d.messages[key].revision
    requires !d.messages[key].state.Dead?
    ensures Inv(d.(messages := d.messages[key := m]))
  {
    hide Recorded, OncePerOperation, RevisionsIncrease, Untouched;
    var d' := d.(messages := d.messages[key := m]);
    forall k | k in d'.messages ensures MessageOk(d', k, d'.messages[k]) {
      assert MessageOk(d, k, d.messages[k]);
    }
    forall c | c in d'.callers ensures CallerOk(d', d'.callers[c]) {
      assert CallerOk(d, d.callers[c]);
    }
    forall i | 0 <= i < |d'.log| ensures EventOk(d', d'.log[i]) && EvidenceOk(d', d'.log[i]) {
      assert EventOk(d, d.log[i]) && EvidenceOk(d, d.log[i]);
    }
  }

  lemma PruneKeeps(d: Database, key: Key)
    requires Inv(d) && Prunable(d, key)
    ensures Inv(d.(messages := d.messages - {key}))
  {
    hide Recorded, OncePerOperation, RevisionsIncrease, Untouched;
    var d' := d.(messages := d.messages - {key});
    forall k | k in d'.messages ensures MessageOk(d', k, d'.messages[k]) {
      assert MessageOk(d, k, d.messages[k]);
    }
    forall c | c in d'.callers ensures CallerOk(d', d'.callers[c]) {
      assert CallerOk(d, d.callers[c]);
    }
    forall i | 0 <= i < |d'.log| ensures EventOk(d', d'.log[i]) && EvidenceOk(d', d'.log[i]) {
      assert EventOk(d, d.log[i]) && EvidenceOk(d, d.log[i]);
      assert d.log[i].Changed? ==> OperationOk(d.log, d.log[i].op, d.operations[d.log[i].op]);
    }
  }

  lemma AppendKeeps(d: Database, key: Key)
    requires Inv(d) && key !in d.messages
    ensures Inv(Next(d, Append(key)))
  {
    hide Recorded, OncePerOperation, RevisionsIncrease, Untouched;
    var d' := Next(d, Append(key));
    forall i | 0 <= i < |d'.log| ensures EventOk(d', d'.log[i]) && EvidenceOk(d', d'.log[i]) {
      assert EventOk(d, d.log[i]) && EvidenceOk(d, d.log[i]);
    }
    forall k | k in d'.messages ensures MessageOk(d', k, d'.messages[k]) {
      assert k != key ==> MessageOk(d, k, d.messages[k]);
    }
    forall c | c in d'.callers ensures CallerOk(d', d'.callers[c]) {
      assert CallerOk(d, d.callers[c]);
    }
  }

  // ------------------------------------------------------------------ the guarded update

  lemma ChangedRecorded(log: seq<Event>, e: Event)
    requires e.Changed?
    ensures Recorded(log + [e], e.op, e.fingerprint, e.outcome)
  {
    assert Changed(e.op, e.fingerprint, e.birth, e.outcome) in log + [e];
  }

  lemma MutateLog(d: Database, e: Event)
    requires Inv(d) && e.Changed? && Untouched(d.log, e.op) && e.outcome.key in d.messages
    requires e.birth == d.messages[e.outcome.key].birth && e.outcome.revision > d.messages[e.outcome.key].revision
    requires d.messages[e.outcome.key].disposition.Active?
    ensures OncePerOperation(d.log + [e]) && RevisionsIncrease(d.log + [e])
  {
    hide Recorded, EvidenceOk, EventOk, OperationOk, CallerOk;
    assert MessageOk(d, e.outcome.key, d.messages[e.outcome.key]);
  }

  lemma MutateMessages(d: Database, d': Database, key: Key, e: Event)
    requires Inv(d) && e.Changed? && key in d.messages && key in d'.messages && d'.messages == d.messages[key := d'.messages[key]] && d'.births == d.births
    requires d'.log == d.log + [e] && e.outcome.key == key && e.birth == d.messages[key].birth
    requires var m := d'.messages[key];
      && m.birth == e.birth && m.revision == e.outcome.revision > d.messages[key].revision && d.messages[key].disposition.Active?
      && (e.outcome.disposition.Discarded? ==> m.state.Dead? && m.disposition.Discarded?)
      && m.marker == Some(Marker(e.op, e.fingerprint, e.outcome.disposition, e.outcome.revision, e.outcome.committedAt))
    ensures forall k :: k in d'.messages ==> MessageOk(d', k, d'.messages[k])
  {
    hide Recorded, EvidenceOk, EventOk, OperationOk, CallerOk, OncePerOperation, RevisionsIncrease;
    forall k | k in d'.messages ensures MessageOk(d', k, d'.messages[k]) {
      assert MessageOk(d, k, d.messages[k]);
      if k == key {
        ChangedRecorded(d.log, e);
        assert Outcome(key, e.outcome.disposition, e.outcome.revision, e.outcome.committedAt) == e.outcome;
      } else if d.messages[k].marker.Some? {
        var marker := d.messages[k].marker.value;
        RecordedGrows(d.log, e, marker.op, marker.fingerprint, Outcome(k, marker.disposition, marker.revision, marker.at));
      }
    }
  }

  lemma MutateEvents(d: Database, d': Database, key: Key, e: Event)
    requires Inv(d) && e.Changed? && key in d.messages && key in d'.messages && d'.messages == d.messages[key := d'.messages[key]] && d'.births == d.births
    requires d'.log == d.log + [e] && e.outcome.key == key && e.birth == d.messages[key].birth && d'.operations == d.operations
    requires Untouched(d.log, e.op) && EventOk(d, e)
    requires var m := d'.messages[key];
      && m.birth == e.birth && m.revision == e.outcome.revision > d.messages[key].revision && d.messages[key].disposition.Active?
      && (e.outcome.disposition.Discarded? ==> m.state.Dead? && m.disposition.Discarded?)
      && m.marker == Some(Marker(e.op, e.fingerprint, e.outcome.disposition, e.outcome.revision, e.outcome.committedAt))
    ensures forall i :: 0 <= i < |d'.log| ==> EventOk(d', d'.log[i]) && EvidenceOk(d', d'.log[i])
  {
    hide Recorded, OperationOk, CallerOk, OncePerOperation, RevisionsIncrease;
    assert MessageOk(d, key, d.messages[key]);
    forall i | 0 <= i < |d'.log| ensures EventOk(d', d'.log[i]) && EvidenceOk(d', d'.log[i]) {
      if i < |d.log| {
        assert EventOk(d, d.log[i]) && EvidenceOk(d, d.log[i]);
        if d.log[i].Answered? {
          RecordedGrows(d.log, e, d.log[i].op, d.log[i].fingerprint, d.log[i].outcome);
        }
      }
    }
  }

  lemma MutateKeeps(d: Database, c: nat, q: Request, now: Time)
    requires Inv(d) && CallerOf(d, c) == Mutating(q, now) && Mutable(d, q)
    ensures Inv(Mutate(d, c, q, now))
  {
    hide Recorded, EvidenceOk, MessageOk, OncePerOperation, RevisionsIncrease;
    var d' := Mutate(d, c, q, now);
    var e := d'.log[|d.log|];
    assert CallerOk(d, d.callers[c]);
    assert MessageOk(d, q.key, d.messages[q.key]) ==> d.messages[q.key].birth < d.births by { BirthOf(d, q.key, d.messages[q.key]); }
    MutateLog(d, e);
    MutateMessages(d, d', q.key, e);
    MutateEvents(d, d', q.key, e);
    forall v | v in d'.callers ensures CallerOk(d', d'.callers[v]) {
      if v == c {
        ChangedRecorded(d.log, e);
      } else {
        assert CallerOk(d, d.callers[v]);
        if d.callers[v].Finalizing? || d.callers[v].Confirming? {
          RecordedGrows(d.log, e, d.callers[v].q.op, FingerprintOf(d.callers[v].q), d.callers[v].outcome);
        }
      }
    }
    forall op | op in d'.operations ensures OperationOk(d'.log, op, d'.operations[op]) {
      var row := d.operations[op];
      assert OperationOk(d.log, op, row);
      if row.status.Committed? {
        RecordedGrows(d.log, e, op, row.fingerprint, Outcome(row.key, row.status.disposition, row.status.revision, row.status.resolvedAt));
      }
    }
  }

  lemma BirthOf(d: Database, key: Key, m: Message)
    ensures MessageOk(d, key, m) ==> m.birth < d.births
  {
  }

  // -------------------------------------------------------------------- all of it

  lemma ReplayKeeps(d: Database, c: nat, q: Request)
    requires Inv(d) && q.op in d.operations
    ensures Inv(Replay(d, c, q))
  {
    hide Inv, Recorded, Untouched;
    var row := d.operations[q.op];
    assert OperationOk(d.log, q.op, row) by { OperationOf(d, q.op); }
    var gone := Goto(d, c, Gone);
    CallerMoves(d, c, Gone);
    CallerMoves(d, c, Reconciling(q));
    if row.fingerprint == FingerprintOf(q) && row.key == q.key {
      match row.status
      case Failed(code) => AnswerAdds(gone, Refused(q.op, FingerprintOf(q), code));
      case Committed(disposition, revision, at) => AnswerAdds(gone, Answered(q.op, FingerprintOf(q), Outcome(q.key, disposition, revision, at)));
      case Reserved =>
    }
  }

  lemma OperationOf(d: Database, op: OperationId)
    requires Inv(d) && op in d.operations
    ensures OperationOk(d.log, op, d.operations[op])
  {
  }

  lemma CallerIs(d: Database, c: nat)
    requires Inv(d)
    ensures CallerOk(d, CallerOf(d, c))
    ensures Owns(CallerOf(d, c)) ==> Exclusive(d, c, CallerOf(d, c).q.op)
  {
  }

  lemma MarkerKeeps(d: Database, c: nat, q: Request, missing: Caller)
    requires Inv(d) && CallerOk(d, missing) && (Owns(missing) ==> Exclusive(d, c, missing.q.op))
    ensures Inv(SelectMarker(d, c, q, missing))
  {
    hide Inv, Recorded, Untouched;
    CallerMoves(d, c, missing);
    CallerMoves(d, c, Gone);
    if Marked(d, q.key, q.op) {
      assert MessageOk(d, q.key, d.messages[q.key]) by { MessageIs(d, q.key); }
      CallerMoves(d, c, FromMarker(d, q.key, q));
    }
  }

  lemma MessageIs(d: Database, key: Key)
    requires Inv(d) && key in d.messages
    ensures MessageOk(d, key, d.messages[key])
  {
  }

  lemma RecordedTouches(log: seq<Event>, op: OperationId, fp: Fingerprint, outcome: Outcome)
    requires Recorded(log, op, fp, outcome)
    ensures !Untouched(log, op)
  {
    var birth :| Changed(op, fp, birth, outcome) in log;
  }

  lemma FinalizeKeeps(d: Database, c: nat, q: Request, outcome: Outcome)
    requires Inv(d) && CallerOf(d, c) == Finalizing(q, outcome)
    ensures Inv(StepOf(d, c))
  {
    hide Inv, Recorded, Untouched;
    CallerIs(d, c);
    if Awaits(d, q) {
      RecordedTouches(d.log, q.op, FingerprintOf(q), outcome);
      forall v | v in d.callers && Owns(d.callers[v]) ensures d.callers[v].q.op != q.op { CallerIs(d, v); }
      OperationOf(d, q.op);
      assert outcome.key == q.key by { RecordedKey(d, q.op, FingerprintOf(q), outcome); }
      var status := Committed(outcome.disposition, outcome.revision, outcome.committedAt);
      assert Outcome(q.key, outcome.disposition, outcome.revision, outcome.committedAt) == outcome;
      ResolveKeeps(d, q.op, status);
      CallerMoves(SetStatus(d, q.op, status), c, Confirming(q, outcome));
    } else {
      assert Finished(d, q.op) by { NotFailed(d, q, outcome); }
      CallerMoves(d, c, Confirming(q, outcome));
    }
  }

  /** An operation that changed its message and is no longer reserved is committed. */
  lemma NotFailed(d: Database, q: Request, outcome: Outcome)
    requires Inv(d) && Recorded(d.log, q.op, FingerprintOf(q), outcome) && !Awaits(d, q)
    ensures Finished(d, q.op)
  {
    hide Inv, Recorded, Untouched;
    RecordedKey(d, q.op, FingerprintOf(q), outcome);
    OperationOf(d, q.op);
    RecordedTouches(d.log, q.op, FingerprintOf(q), outcome);
  }

  lemma RecordedKey(d: Database, op: OperationId, fp: Fingerprint, outcome: Outcome)
    requires Inv(d) && Recorded(d.log, op, fp, outcome)
    ensures outcome.key == fp.key && outcome.revision == fp.revision + 1 && outcome.disposition == DispositionOf(fp.mutation)
    ensures op in d.operations && d.operations[op].fingerprint == fp
  {
    hide EvidenceOk, MessageOk, CallerOk, OperationOk, OncePerOperation, RevisionsIncrease;
    var birth :| Changed(op, fp, birth, outcome) in d.log;
    var i :| 0 <= i < |d.log| && d.log[i] == Changed(op, fp, birth, outcome);
    assert EventOk(d, d.log[i]);
  }

  lemma FailKeeps(d: Database, c: nat, q: Request, code: FailureCode)
    requires Inv(d) && CallerOf(d, c) == Failing(q, code)
    ensures Inv(StepOf(d, c))
  {
    hide Inv, Recorded, Untouched;
    CallerIs(d, c);
    CallerMoves(d, c, Gone);
    var gone := Goto(d, c, Gone);
    OperationOf(d, q.op);
    ResolveKeeps(gone, q.op, Failed(code));
    var failed := SetStatus(gone, q.op, Failed(code));
    AnswerAdds(failed, Refused(q.op, FingerprintOf(q), code));
    assert StepOf(d, c) == failed.(log := d.log + [Refused(q.op, FingerprintOf(q), code)]);
  }

  lemma ReserveStepKeeps(d: Database, c: nat, q: Request, next: Caller)
    requires Inv(d) && q.op !in d.operations && ((next.Mutating? && next.q == q) || next.Rereading?)
    ensures Inv(Goto(Reserve(d, q), c, next))
  {
    hide Inv, Recorded, Untouched;
    ReserveKeeps(d, q);
    CallerMoves(Reserve(d, q), c, next);
  }

  lemma StepKeeps(d: Database, c: nat)
    requires Inv(d)
    ensures Inv(StepOf(d, c))
  {
    hide Inv, Recorded, Untouched, SelectMarker, Replay, Mutate;
    CallerIs(d, c);
    match CallerOf(d, c)
    case Gone =>
    case Reading(q, now) =>
      if q.op in d.operations { ReplayKeeps(d, c, q); } else { CallerMoves(d, c, Reserving(q, now)); }
    case Reserving(q, now) =>
      if q.op in d.operations { CallerMoves(d, c, Rereading(q)); } else { ReserveStepKeeps(d, c, q, Mutating(q, now)); }
    case Rereading(q) =>
      if q.op in d.operations { ReplayKeeps(d, c, q); } else { CallerMoves(d, c, Gone); }
    case Mutating(q, now) =>
      if Mutable(d, q) { MutateKeeps(d, c, q, now); } else {
        CallerMoves(d, c, Checking(q, now));
        assert Mutate(d, c, q, now) == Goto(d, c, Checking(q, now)) by { Unmutated(d, c, q, now); }
      }
    case Checking(q, now) => MarkerKeeps(d, c, q, Diagnosing(q, now));
    case Diagnosing(q, _) => CallerMoves(d, c, Failing(q, Diagnosis(d, q)));
    case Failing(q, code) => FailKeeps(d, c, q, code);
    case Reconciling(q) => MarkerKeeps(d, c, q, Gone);
    case Finalizing(q, outcome) => FinalizeKeeps(d, c, q, outcome);
    case Confirming(q, outcome) =>
      CallerMoves(d, c, Gone);
      AnswerAdds(Goto(d, c, Gone), Answered(q.op, FingerprintOf(q), outcome));
  }

  lemma Unmutated(d: Database, c: nat, q: Request, now: Time)
    requires !Mutable(d, q)
    ensures Mutate(d, c, q, now) == Goto(d, c, Checking(q, now))
  {
  }

  lemma NextKeeps(d: Database, a: Action)
    requires Inv(d)
    ensures Inv(Next(d, a))
  {
    hide Inv, Recorded, Untouched, StepOf, Prunable;
    match a
    case Call(c, q, now) => CallerMoves(d, c, Reading(q, now));
    case Step(c) => StepKeeps(d, c);
    case ReserveError(c, applied) =>
      if CallerOf(d, c).Reserving? {
        var q := CallerOf(d, c).q;
        CallerMoves(d, c, Rereading(q));
        if q.op !in d.operations { ReserveStepKeeps(d, c, q, Rereading(q)); }
      }
    case Vanish(c) => CallerMoves(d, c, Gone);
    case Work(key, state) =>
      if key in d.messages && (d.messages[key].state.Pending? || d.messages[key].state.Processing?) {
        MessageMoves(d, key, Next(d, a).messages[key]);
      }
    case Prune(key) => if Prunable(d, key) { PruneKeeps(d, key); }
    case Append(key) => if key !in d.messages { AppendKeeps(d, key); }
  }

  lemma {:induction false} RunKeeps(d: Database, actions: seq<Action>)
    requires Inv(d)
    ensures Inv(Run(d, actions))
    decreases |actions|
  {
    hide Inv, Next;
    if |actions| > 0 {
      NextKeeps(d, actions[0]);
      RunKeeps(Next(d, actions[0]), actions[1..]);
    }
  }

  lemma EmptyInv(d: Database)
    requires Empty(d)
    ensures Inv(d)
  {
  }

  // ------------------------------------------------------------------------ theorems

  /** Under any concurrency and any crash, an operation id changes a message at most once. */
  lemma ChangesAtMostOnce(d: Database, actions: seq<Action>, i: nat, j: nat)
    requires Empty(d)
    requires var log := Run(d, actions).log; i < |log| && j < |log| && log[i].Changed? && log[j].Changed? && log[i].op == log[j].op
    ensures i == j
  {
    hide Run, Next, Recorded, EventOk, EvidenceOk;
    EmptyInv(d);
    RunKeeps(d, actions);
  }

  lemma RecordedUnique(log: seq<Event>, op: OperationId, fp: Fingerprint, a: Outcome, fp': Fingerprint, b: Outcome)
    requires OncePerOperation(log) && Recorded(log, op, fp, a) && Recorded(log, op, fp', b)
    ensures fp == fp' && a == b
  {
    var x :| Changed(op, fp, x, a) in log;
    var y :| Changed(op, fp', y, b) in log;
    var i :| 0 <= i < |log| && log[i] == Changed(op, fp, x, a);
    var j :| 0 <= j < |log| && log[j] == Changed(op, fp', y, b);
    assert i == j;
  }

  /**
   * Every successful answer for one operation id, whether to the first caller, to a replay or after
   * a reconciliation, carries the same request, disposition, revision and commit time; and it tells
   * of a change that was really made.
   */
  lemma AnswersAgree(d: Database, actions: seq<Action>, i: nat, j: nat)
    requires Empty(d)
    requires var log := Run(d, actions).log; i < |log| && j < |log| && log[i].Answered? && log[j].Answered? && log[i].op == log[j].op
    ensures var log := Run(d, actions).log;
      log[i] == log[j] && Recorded(log, log[i].op, log[i].fingerprint, log[i].outcome)
    ensures var e := Run(d, actions).log[i];
      e.outcome.key == e.fingerprint.key && e.outcome.revision == e.fingerprint.revision + 1 && e.outcome.disposition == DispositionOf(e.fingerprint.mutation)
  {
    hide Run, Next, Recorded, EvidenceOk, OperationOk, MessageOk, CallerOk, RevisionsIncrease, OncePerOperation;
    EmptyInv(d);
    RunKeeps(d, actions);
    var end := Run(d, actions);
    assert EventOk(end, end.log[i]) && EventOk(end, end.log[j]);
    RecordedUnique(end.log, end.log[i].op, end.log[i].fingerprint, end.log[i].outcome, end.log[j].fingerprint, end.log[j].outcome);
    RecordedKey(end, end.log[i].op, end.log[i].fingerprint, end.log[i].outcome);
  }

  /** An operation that was ever refused never changed anything, is refused with the same code each time, and never succeeds. */
  lemma RefusalIsFinal(d: Database, actions: seq<Action>, i: nat, j: nat)
    requires Empty(d)
    requires var log := Run(d, actions).log; i < |log| && j < |log| && log[i].Refused? && log[i].op == log[j].op
    ensures var log := Run(d, actions).log; log[j].Refused? && log[j].code == log[i].code
  {
    hide Run, Next, Recorded, EvidenceOk, MessageOk, CallerOk, RevisionsIncrease, OncePerOperation;
    EmptyInv(d);
    RunKeeps(d, actions);
    var end := Run(d, actions);
    assert EventOk(end, end.log[i]) && EventOk(end, end.log[j]);
    assert OperationOk(end.log, end.log[i].op, end.operations[end.log[i].op]);
    if end.log[j].Answered? {
      RecordedTouches(end.log, end.log[j].op, end.log[j].fingerprint, end.log[j].outcome);
    }
  }

  /** Of all operations that name one revision of one message, at most one changes it. */
  lemma OneCommitPerRevision(d: Database, actions: seq<Action>, i: nat, j: nat)
    requires Empty(d)
    requires var log := Run(d, actions).log; i < |log| && j < |log| && SameIncarnation(log[i], log[j])
    requires Run(d, actions).log[i].fingerprint.revision == Run(d, actions).log[j].fingerprint.revision
    ensures i == j
  {
    hide Run, Next, Recorded, EvidenceOk, OperationOk, MessageOk, CallerOk, OncePerOperation;
    EmptyInv(d);
    RunKeeps(d, actions);
    var end := Run(d, actions);
    assert EventOk(end, end.log[i]) && EventOk(end, end.log[j]);
  }

  /** A discarded message is never retried or discarded again. */
  lemma DiscardIsFinal(d: Database, actions: seq<Action>, i: nat, j: nat)
    requires Empty(d)
    requires var log := Run(d, actions).log; i < |log| && j < |log| && SameIncarnation(log[i], log[j]) && log[i].outcome.disposition.Discarded?
    ensures j <= i
  {
    hide Run, Next, Recorded, EventOk, EvidenceOk, OperationOk, MessageOk, CallerOk, OncePerOperation;
    EmptyInv(d);
    RunKeeps(d, actions);
  }

  /**
   * Crash recovery: an operation that changed its message but was never finalized is answered by a
   * later identical call exactly when no later operation has replaced its marker.
   */
  lemma UnfinishedOperationRecovers(d: Database, c: nat, q: Request, outcome: Outcome)
    requires Inv(d) && CallerOf(d, c) == Reconciling(q) && Awaits(d, q) && Recorded(d.log, q.op, FingerprintOf(q), outcome)
    ensures StepOf(StepOf(StepOf(d, c), c), c).log == d.log + [Answered(q.op, FingerprintOf(q), outcome)] <==> Marked(d, q.key, q.op)
    ensures q.key in d.messages && d.messages[q.key].marker.Some? && d.messages[q.key].marker.value.revision >= outcome.revision
    ensures !Marked(d, q.key, q.op) ==> d.messages[q.key].marker.value.revision > outcome.revision
  {
    hide Recorded, OperationOk, CallerOk, RevisionsIncrease, OncePerOperation;
    RecordedKey(d, q.op, FingerprintOf(q), outcome);
    RecordedEvidence(d, q.op, FingerprintOf(q), outcome);
    var d1 := StepOf(d, c);
    if Marked(d, q.key, q.op) {
      var marker := d.messages[q.key].marker.value;
      assert MessageOk(d, q.key, d.messages[q.key]);
      RecordedUnique(d.log, q.op, FingerprintOf(q), outcome, marker.fingerprint, Outcome(q.key, marker.disposition, marker.revision, marker.at));
      assert CallerOf(d1, c) == Finalizing(q, outcome);
      var d2 := StepOf(d1, c);
      assert CallerOf(d2, c) == Confirming(q, outcome) && d2.log == d.log;
    } else {
      assert CallerOf(d1, c).Gone? && d1.log == d.log;
    }
  }

  lemma RecordedEvidence(d: Database, op: OperationId, fp: Fingerprint, outcome: Outcome)
    requires Inv(d) && Recorded(d.log, op, fp, outcome) && op in d.operations && d.operations[op].status.Reserved?
    ensures outcome.key in d.messages && d.messages[outcome.key].marker.Some?
    ensures var marker := d.messages[outcome.key].marker.value;
      marker.revision >= outcome.revision && (marker.revision == outcome.revision ==> marker.op == op)
  {
    hide EventOk, MessageOk, CallerOk, OperationOk, OncePerOperation, RevisionsIncrease;
    var birth :| Changed(op, fp, birth, outcome) in d.log;
    var i :| 0 <= i < |d.log| && d.log[i] == Changed(op, fp, birth, outcome);
    assert EvidenceOk(d, d.log[i]);
  }

  // ------------------------------------------------- operations that nobody can answer any more

  /** The operation changed its message, but its reservation was never finalized. */
  predicate Unfinished(d: Database, op: OperationId) {
    op in d.operations && d.operations[op].status.Reserved? && !Untouched(d.log, op)
  }

  /** Something still tells its outcome: the marker on a message, or a caller that has read it. */
  ghost predicate Remembered(d: Database, op: OperationId) {
    || (exists key :: Marked(d, key, op))
    || (exists c :: c in d.callers && d.callers[c].Finalizing? && d.callers[c].q.op == op)
  }

  predicate Concerns(e: Event, op: OperationId) {
    (e.Answered? || e.Refused?) && e.op == op
  }

  ghost predicate Forgotten(d: Database, op: OperationId) {
    Unfinished(d, op) && !Remembered(d, op)
  }

  /** The events a step adds. */
  predicate SilentAbout(d: Database, d': Database, op: OperationId) {
    |d.log| <= |d'.log| && d'.log[..|d.log|] == d.log && forall i :: |d.log| <= i < |d'.log| ==> !Concerns(d'.log[i], op)
  }

  lemma ForgottenOwner(d: Database, c: nat, op: OperationId)
    requires Inv(d) && Forgotten(d, op)
    ensures Owns(CallerOf(d, c)) || CallerOf(d, c).Finalizing? || CallerOf(d, c).Confirming? ==> CallerOf(d, c).q.op != op
  {
    hide Recorded, Marked, OncePerOperation, RevisionsIncrease, EventOk, EvidenceOk, MessageOk, OperationOk;
    if c in d.callers {
      assert CallerOk(d, d.callers[c]);
    }
  }

  lemma {:induction false} ForgottenMoves(d: Database, d': Database, op: OperationId, c: nat)
    requires Forgotten(d, op) && SilentAbout(d, d', op)
    requires op in d'.operations && d'.operations[op] == d.operations[op]
    requires forall key :: Marked(d', key, op) ==> Marked(d, key, op)
    requires forall v :: v in d'.callers && v != c ==> v in d.callers && d'.callers[v] == d.callers[v]
    requires c in d'.callers && d'.callers[c].Finalizing? ==> d'.callers[c].q.op != op
    ensures Forgotten(d', op)
  {
    hide Marked, Concerns;
    var i :| 0 <= i < |d.log| && d.log[i].Changed? && d.log[i].op == op;
    assert d'.log[i] == d.log[i];
  }

  predicate QuietStep(d: Database, d': Database, op: OperationId, c: nat) {
    && op in d.operations && op in d'.operations && d'.operations[op] == d.operations[op]
    && (forall v :: v in d'.callers && v != c ==> v in d.callers && d'.callers[v] == d.callers[v])
    && (c in d'.callers && d'.callers[c].Finalizing? ==> d'.callers[c].q.op != op)
    && SilentAbout(d, d', op)
  }

  lemma ForgottenReplay(d: Database, c: nat, q: Request, op: OperationId)
    requires op in d.operations && d.operations[op].status.Reserved? && q.op in d.operations
    ensures QuietStep(d, Replay(d, c, q), op, c) && Replay(d, c, q).messages == d.messages
  {
  }

  lemma ForgottenSelect(d: Database, c: nat, q: Request, missing: Caller, op: OperationId)
    requires op in d.operations && (forall key :: !Marked(d, key, op)) && !missing.Finalizing?
    ensures QuietStep(d, SelectMarker(d, c, q, missing), op, c) && SelectMarker(d, c, q, missing).messages == d.messages
  {
  }

  lemma ForgottenMutate(d: Database, c: nat, q: Request, now: Time, op: OperationId)
    requires op in d.operations && q.op != op
    ensures QuietStep(d, Mutate(d, c, q, now), op, c) && forall key :: Marked(Mutate(d, c, q, now), key, op) ==> Marked(d, key, op)
  {
  }

  lemma ForgottenOther(d: Database, c: nat, op: OperationId)
    requires op in d.operations
    requires match CallerOf(d, c)
      case Reading(q, _) => q.op !in d.operations
      case Rereading(q) => q.op !in d.operations
      case Mutating(_, _) => false
      case Checking(_, _) => false
      case Reconciling(_) => false
      case Failing(q, _) => q.op != op
      case Finalizing(q, _) => q.op != op
      case Confirming(q, _) => q.op != op
      case _ => true
    ensures QuietStep(d, StepOf(d, c), op, c) && StepOf(d, c).messages == d.messages
  {
    hide Replay, SelectMarker, Mutate, Diagnosis, Marked;
  }

  lemma ForgottenStep(d: Database, c: nat, op: OperationId)
    requires Inv(d) && Forgotten(d, op)
    ensures Forgotten(StepOf(d, c), op) && SilentAbout(d, StepOf(d, c), op)
  {
    hide Inv, Recorded, Untouched, SilentAbout, Replay, SelectMarker, Mutate;
    ForgottenOwner(d, c, op);
    match CallerOf(d, c) {
      case Reading(q, _) => if q.op in d.operations { ForgottenReplay(d, c, q, op); } else { ForgottenOther(d, c, op); }
      case Rereading(q) => if q.op in d.operations { ForgottenReplay(d, c, q, op); } else { ForgottenOther(d, c, op); }
      case Mutating(q, now) => ForgottenMutate(d, c, q, now, op);
      case Checking(q, now) => ForgottenSelect(d, c, q, Diagnosing(q, now), op);
      case Reconciling(q) => ForgottenSelect(d, c, q, Gone, op);
      case _ => ForgottenOther(d, c, op);
    }
    ForgottenMoves(d, StepOf(d, c), op, c);
  }

  lemma ForgottenKept(d: Database, a: Action, op: OperationId)
    requires Inv(d) && Forgotten(d, op)
    ensures Forgotten(Next(d, a), op) && SilentAbout(d, Next(d, a), op)
  {
    hide Inv, Recorded, Untouched, StepOf;
    match a
    case Step(c) => ForgottenStep(d, c, op);
    case Call(c, _, _) => ForgottenMoves(d, Next(d, a), op, c);
    case ReserveError(c, _) => ForgottenMoves(d, Next(d, a), op, c);
    case Vanish(c) => ForgottenMoves(d, Next(d, a), op, c);
    case _ => ForgottenMoves(d, Next(d, a), op, 0);
  }

  /** It stays ambiguous for ever: no run answers or refuses it. */
  lemma {:induction false} ForgottenForever(d: Database, actions: seq<Action>, op: OperationId)
    requires Inv(d) && Forgotten(d, op)
    ensures Forgotten(Run(d, actions), op) && SilentAbout(d, Run(d, actions), op)
    decreases |actions|
  {
    hide Inv, Next, Forgotten, Concerns;
    if |actions| > 0 {
      var d' := Next(d, actions[0]);
      NextKeeps(d, actions[0]);
      ForgottenKept(d, actions[0], op);
      ForgottenForever(d', actions[1..], op);
      SilentChain(d, d', Run(d', actions[1..]), op);
    }
  }

  lemma SilentChain(d: Database, d': Database, d'': Database, op: OperationId)
    requires SilentAbout(d, d', op) && SilentAbout(d', d'', op)
    ensures SilentAbout(d, d'', op)
  {
    assert d''.log[..|d.log|] == d''.log[..|d'.log|][..|d.log|];
    forall i | |d.log| <= i < |d''.log| ensures !Concerns(d''.log[i], op) {
      if i < |d'.log| {
        assert d''.log[i] == d''.log[..|d'.log|][i];
      }
    }
  }

  /** A run given by its intermediate states. */
  lemma {:induction false} RunStates(d: Database, actions: seq<Action>, states: seq<Database>)
    requires |actions| == |states| > 0
    requires states[0] == Next(d, actions[0]) && forall i :: 0 < i < |states| ==> states[i] == Next(states[i - 1], actions[i])
    ensures Run(d, actions) == states[|states| - 1]
    decreases |actions|
  {
    hide Next;
    if |actions| > 1 {
      RunStates(states[0], actions[1..], states[1..]);
    }
  }

  lemma {:induction false} FreeCaller(callers: set<nat>) returns (c: nat)
    ensures forall x :: x in callers ==> x < c
    decreases callers
  {
    if callers == {} {
      c := 0;
    } else {
      var x :| x in callers;
      var rest := FreeCaller(callers - {x});
      c := if x < rest then rest else x + 1;
      assert forall y :: y in callers ==> y == x || y in callers - {x};
    }
  }

  lemma ChangeIsRecorded(d: Database, op: OperationId) returns (outcome: Outcome)
    requires Inv(d) && Unfinished(d, op)
    ensures Recorded(d.log, op, d.operations[op].fingerprint, outcome)
  {
    hide EvidenceOk, MessageOk, CallerOk, OperationOk, OncePerOperation, RevisionsIncrease;
    var i :| 0 <= i < |d.log| && d.log[i].Changed? && d.log[i].op == op;
    assert EventOk(d, d.log[i]);
    outcome := d.log[i].outcome;
    assert Changed(op, d.operations[op].fingerprint, d.log[i].birth, outcome) in d.log;
  }

  /** The request that was reserved under this id. */
  function RequestOf(op: OperationId, fp: Fingerprint): Request {
    Request(op, fp.key, fp.revision, fp.mutation, fp.reason)
  }

  lemma MarkedKey(d: Database, key: Key, op: OperationId, outcome: Outcome)
    requires Inv(d) && Marked(d, key, op) && op in d.operations && Recorded(d.log, op, d.operations[op].fingerprint, outcome)
    ensures key == d.operations[op].fingerprint.key && d.operations[op].key == key
  {
    hide Recorded, EvidenceOk, CallerOk, OncePerOperation, RevisionsIncrease, EventOk;
    assert MessageOk(d, key, d.messages[key]) && OperationOk(d.log, op, d.operations[op]);
    var marker := d.messages[key].marker.value;
    RecordedKey(d, op, marker.fingerprint, Outcome(key, marker.disposition, marker.revision, marker.at));
  }

  lemma MarkedAnswers(d: Database, key: Key, op: OperationId) returns (actions: seq<Action>)
    requires Inv(d) && Unfinished(d, op) && Marked(d, key, op)
    ensures |Run(d, actions).log| > |d.log| && Concerns(Run(d, actions).log[|d.log|], op)
  {
    hide Inv, Recorded, Untouched, StepOf;
    var outcome := ChangeIsRecorded(d, op);
    MarkedKey(d, key, op, outcome);
    var c := FreeCaller(d.callers.Keys);
    var q := RequestOf(op, d.operations[op].fingerprint);
    actions := [Call(c, q, 0), Step(c), Step(c), Step(c), Step(c)];
    var d1 := Next(d, actions[0]);
    var d2 := Next(d1, actions[1]);
    NextKeeps(d, actions[0]);
    NextKeeps(d1, actions[1]);
    assert d2 == Goto(d1, c, Reconciling(q)) by { ReplayReserved(d1, c, q); }
    UnfinishedOperationRecovers(d2, c, q, outcome);
    var d3 := Next(d2, actions[2]);
    var d4 := Next(d3, actions[3]);
    var d5 := Next(d4, actions[4]);
    RunStates(d, actions, [d1, d2, d3, d4, d5]);
  }

  lemma ReplayReserved(d: Database, c: nat, q: Request)
    requires CallerOf(d, c).Reading? && CallerOf(d, c).q == q && q.op in d.operations
    requires d.operations[q.op].fingerprint == FingerprintOf(q) && d.operations[q.op].key == q.key && d.operations[q.op].status.Reserved?
    ensures StepOf(d, c) == Goto(d, c, Reconciling(q))
  {
  }

  lemma FinalizerAnswers(d: Database, c: nat) returns (actions: seq<Action>)
    requires Inv(d) && c in d.callers && d.callers[c].Finalizing?
    ensures |Run(d, actions).log| > |d.log| && Concerns(Run(d, actions).log[|d.log|], d.callers[c].q.op)
  {
    hide Inv, Recorded, Untouched;
    CallerIs(d, c);
    var q, outcome := d.callers[c].q, d.callers[c].outcome;
    if !Awaits(d, q) {
      NotFailed(d, q, outcome);
    }
    assert q.op in d.operations && d.operations[q.op].fingerprint == FingerprintOf(q) by { RecordedKey(d, q.op, FingerprintOf(q), outcome); }
    actions := [Step(c), Step(c)];
    var d1 := Next(d, actions[0]);
    assert CallerOf(d1, c) == Confirming(q, outcome) && d1.log == d.log && Finished(d1, q.op) && d1.operations[q.op].fingerprint == FingerprintOf(q);
    var d2 := Next(d1, actions[1]);
    RunStates(d, actions, [d1, d2]);
  }

  /** Some continuation answers the operation. */
  ghost predicate Answerable(d: Database, op: OperationId) {
    exists actions, i :: Answers(d, actions, i, op)
  }

  predicate Answers(d: Database, actions: seq<Action>, i: int, op: OperationId) {
    |d.log| <= i < |Run(d, actions).log| && Concerns(Run(d, actions).log[i], op)
  }

  /**
   * Crash recovery, exactly: in every reachable state an operation that changed its message but was
   * never finalized can still be answered by some continuation if and only if its marker is still on
   * a message or a caller that read it is about to finalize; otherwise no call is ever answered.
   */
  lemma RecoveryExact(start: Database, past: seq<Action>, op: OperationId)
    requires Empty(start) && Unfinished(Run(start, past), op)
    ensures Answerable(Run(start, past), op) <==> Remembered(Run(start, past), op)
  {
    hide Inv, Next, Untouched, Marked, Run, Concerns;
    EmptyInv(start);
    RunKeeps(start, past);
    var d := Run(start, past);
    if Remembered(d, op) {
      if key :| Marked(d, key, op) {
        var actions := MarkedAnswers(d, key, op);
        assert Answers(d, actions, |d.log|, op);
      } else {
        var c :| c in d.callers && d.callers[c].Finalizing? && d.callers[c].q.op == op;
        var actions := FinalizerAnswers(d, c);
        assert Answers(d, actions, |d.log|, op);
      }
    } else {
      forall actions, i ensures !Answers(d, actions, i, op) {
        ForgottenForever(d, actions, op);
      }
    }
  }
}
