/**
 * The workflow store (packages/workflows/src/store.ts).
 *
 * Each operation is given as a function of the stored snapshot, and the in-memory store as a
 * class whose methods apply those functions to its two maps.
 */
module WorkflowStore {
  import opened Options
  import opened WorkflowTypes
  import opened WorkflowValidation

  datatype StoreError =
    | NotFound | BadArgument | InvalidSnapshot | IdentityConflict
    | StartKeyConflict | LeaseConflict | RevisionConflict

  type StoreResult = Result<Snapshot, StoreError>

  predicate ValidLeaseArguments(now: Time, expiresAt: Time) {
    IsTimestamp(now) && IsTimestamp(expiresAt) && now < expiresAt
  }

  predicate SameStepIdentity(a: StepSnapshot, b: StepSnapshot) {
    a.name == b.name && a.key == b.key && a.compensationKey == b.compensationKey
  }

  /** assertWorkflowIdentityUnchanged */
  predicate SameIdentity(a: Snapshot, b: Snapshot) {
    && a.header == b.header
    && |a.steps| == |b.steps|
    && (forall i :: 0 <= i < |a.steps| ==> SameStepIdentity(a.steps[i], b.steps[i]))
  }

  /** The one revision that may appear between a holder's read and its commit. */
  predicate CancellationRace(current: Snapshot, expectedRevision: nat) {
    current.revision == expectedRevision + 1 && current.cancellationRequested
  }

  function ClaimRow(current: Snapshot, expectedRevision: nat, token: Token, now: Time, expiresAt: Time): StoreResult {
    if !ValidLeaseArguments(now, expiresAt) then Err(BadArgument)
    else if current.revision != expectedRevision then Err(RevisionConflict)
    else if current.lease.Some? && current.lease.value.expiresAt > now then Err(LeaseConflict)
    else Ok(current.(revision := current.revision + 1, lease := Some(Lease(token, expiresAt)), updatedAt := Max(current.updatedAt, now)))
  }

  function RenewRow(current: Snapshot, expectedRevision: nat, token: Token, now: Time, expiresAt: Time): StoreResult {
    if !ValidLeaseArguments(now, expiresAt) then Err(BadArgument)
    else if current.lease.None? || current.lease.value.token != token || current.lease.value.expiresAt <= now then Err(LeaseConflict)
    else if current.revision != expectedRevision && !CancellationRace(current, expectedRevision) then Err(RevisionConflict)
    else Ok(current.(lease := Some(Lease(token, Max(current.lease.value.expiresAt, expiresAt)))))
  }

  function CommitRow(current: Snapshot, snapshot: Snapshot, expectedRevision: nat, token: Token, now: Time, releaseLease: bool): StoreResult {
    if !IsTimestamp(now) then Err(BadArgument)
    else if !ValidSnapshot(current) then Err(InvalidSnapshot)
    else if !SameIdentity(current, snapshot) then Err(IdentityConflict)
    else if !ValidSnapshot(snapshot) then Err(InvalidSnapshot)
    else if current.lease.None? || current.lease.value.token != token then Err(LeaseConflict)
    else if current.lease.value.expiresAt <= now then Err(LeaseConflict)
    else if (snapshot.state.Completed? || snapshot.state.Failed?) && CancellationRace(current, expectedRevision) then Err(RevisionConflict)
    else if current.revision != expectedRevision && !CancellationRace(current, expectedRevision) then Err(RevisionConflict)
    else Ok(snapshot.(
      cancellationRequested := snapshot.cancellationRequested || current.cancellationRequested,
      revision := current.revision + 1,
      updatedAt := Max(current.updatedAt, snapshot.updatedAt),
      lease := if releaseLease then None else current.lease))
  }

  function CancelRow(current: Snapshot, expectedRevision: nat, now: Time): StoreResult {
    if !IsTimestamp(now) then Err(BadArgument)
    else if current.revision != expectedRevision then Err(RevisionConflict)
    else if Terminal(current.state) then Err(RevisionConflict)
    else Ok(current.(cancellationRequested := true, revision := current.revision + 1, updatedAt := Max(current.updatedAt, now)))
  }

  // ------------------------------------------------------ the in-memory store

  datatype StartKey = StartKey(workflowName: string, workflowVersion: string, startKey: string)

  function KeyOf(s: Snapshot): StartKey {
    StartKey(s.header.workflowName, s.header.workflowVersion, s.header.startKey)
  }

  class InMemoryWorkflowStore {
    var snapshots: map<string, Snapshot>
    var startKeys: map<StartKey, string>

    /** Every snapshot sits under its own id, and start keys and snapshots determine each other. */
    ghost predicate Valid()
      reads this
    {
      && (forall id :: id in snapshots ==> snapshots[id].header.id == id && KeyOf(snapshots[id]) in startKeys && startKeys[KeyOf(snapshots[id])] == id)
      && (forall key :: key in startKeys ==> startKeys[key] in snapshots && KeyOf(snapshots[startKeys[key]]) == key)
    }

    constructor ()
      ensures Valid() && snapshots == map[] && startKeys == map[]
    {
      snapshots := map[];
      startKeys := map[];
    }

    /** A start key names at most one workflow, for ever: a second create returns the first one or is refused. */
    method Create(snapshot: Snapshot) returns (result: StoreResult, created: bool)
      requires Valid()
      modifies this
      ensures Valid()
      ensures created <==> ValidSnapshot(snapshot) && KeyOf(snapshot) !in old(startKeys) && snapshot.header.id !in old(snapshots)
      ensures created ==> result == Ok(snapshot) && snapshots == old(snapshots)[snapshot.header.id := snapshot]
      ensures created ==> startKeys == old(startKeys)[KeyOf(snapshot) := snapshot.header.id]
      ensures !created ==> snapshots == old(snapshots) && startKeys == old(startKeys)
      ensures !created && !ValidSnapshot(snapshot) ==> result == Err(InvalidSnapshot)
      ensures !created && ValidSnapshot(snapshot) ==>
        if KeyOf(snapshot) in old(startKeys) && old(snapshots)[old(startKeys)[KeyOf(snapshot)]].header.input == snapshot.header.input
        then result == Ok(old(snapshots)[old(startKeys)[KeyOf(snapshot)]])
        else result == Err(StartKeyConflict)
      ensures !created && result.Ok? ==> KeyOf(result.value) == KeyOf(snapshot) && result.value.header.input == snapshot.header.input
    {
      created := false;
      if !ValidSnapshot(snapshot) {
        return Err(InvalidSnapshot), false;
      }
      var key := KeyOf(snapshot);
      if key in startKeys {
        var existing := snapshots[startKeys[key]];
        if existing.header.input != snapshot.header.input {
          return Err(StartKeyConflict), false;
        }
        return Ok(existing), false;
      }
      if snapshot.header.id in snapshots {
        return Err(StartKeyConflict), false;
      }
      startKeys := startKeys[key := snapshot.header.id];
      snapshots := snapshots[snapshot.header.id := snapshot];
      return Ok(snapshot), true;
    }

    method Get(id: string) returns (found: Option<Snapshot>)
      requires Valid()
      ensures found.Some? <==> id in snapshots
      ensures found.Some? ==> found.value == snapshots[id] && found.value.header.id == id
    {
      if id in snapshots {
        found := Some(snapshots[id]);
      } else {
        found := None;
      }
    }

    method Claim(id: string, expectedRevision: nat, token: Token, now: Time, expiresAt: Time) returns (result: StoreResult)
      requires Valid()
      modifies this`snapshots
      ensures Valid()
      ensures result == if id in old(snapshots) then ClaimRow(old(snapshots)[id], expectedRevision, token, now, expiresAt)
                        else if ValidLeaseArguments(now, expiresAt) then Err(NotFound) else Err(BadArgument)
      ensures snapshots == if result.Ok? then old(snapshots)[id := result.value] else old(snapshots)
    {
      if !ValidLeaseArguments(now, expiresAt) { return Err(BadArgument); }
      if id !in snapshots { return Err(NotFound); }
      var current := snapshots[id];
      if current.revision != expectedRevision { return Err(RevisionConflict); }
      if current.lease.Some? && current.lease.value.expiresAt > now { return Err(LeaseConflict); }
      var next := current.(revision := current.revision + 1, lease := Some(Lease(token, expiresAt)), updatedAt := Max(current.updatedAt, now));
      snapshots := snapshots[id := next];
      return Ok(next);
    }

    method RenewLease(id: string, expectedRevision: nat, token: Token, now: Time, expiresAt: Time) returns (result: StoreResult)
      requires Valid()
      modifies this`snapshots
      ensures Valid()
      ensures result == if id in old(snapshots) then RenewRow(old(snapshots)[id], expectedRevision, token, now, expiresAt)
                        else if ValidLeaseArguments(now, expiresAt) then Err(NotFound) else Err(BadArgument)
      ensures snapshots == if result.Ok? then old(snapshots)[id := result.value] else old(snapshots)
    {
      if !ValidLeaseArguments(now, expiresAt) { return Err(BadArgument); }
      if id !in snapshots { return Err(NotFound); }
      var current := snapshots[id];
      if current.lease.None? || current.lease.value.token != token || current.lease.value.expiresAt <= now { return Err(LeaseConflict); }
      var race := current.revision == expectedRevision + 1 && current.cancellationRequested;
      if current.revision != expectedRevision && !race { return Err(RevisionConflict); }
      var next := current.(lease := Some(Lease(token, Max(current.lease.value.expiresAt, expiresAt))));
      snapshots := snapshots[id := next];
      return Ok(next);
    }

    method Commit(snapshot: Snapshot, expectedRevision: nat, token: Token, now: Time, releaseLease: bool) returns (result: StoreResult)
      requires Valid()
      modifies this`snapshots
      ensures Valid()
      ensures result == if snapshot.header.id in old(snapshots)
                        then CommitRow(old(snapshots)[snapshot.header.id], snapshot, expectedRevision, token, now, releaseLease)
                        else if IsTimestamp(now) then Err(NotFound) else Err(BadArgument)
      ensures snapshots == if result.Ok? then old(snapshots)[snapshot.header.id := result.value] else old(snapshots)
    {
      if !IsTimestamp(now) { return Err(BadArgument); }
      var id := snapshot.header.id;
      if id !in snapshots { return Err(NotFound); }
      var current := snapshots[id];
      if !ValidSnapshot(current) { return Err(InvalidSnapshot); }
      if !SameIdentity(current, snapshot) { return Err(IdentityConflict); }
      if !ValidSnapshot(snapshot) { return Err(InvalidSnapshot); }
      if current.lease.None? || current.lease.value.token != token || current.lease.value.expiresAt <= now { return Err(LeaseConflict); }
      var race := current.revision == expectedRevision + 1 && current.cancellationRequested;
      if (snapshot.state.Completed? || snapshot.state.Failed?) && race { return Err(RevisionConflict); }
      if current.revision != expectedRevision && !race { return Err(RevisionConflict); }
      var next := snapshot.(
        cancellationRequested := snapshot.cancellationRequested || current.cancellationRequested,
        revision := current.revision + 1,
        updatedAt := Max(current.updatedAt, snapshot.updatedAt),
        lease := current.lease);
      if releaseLease {
        next := next.(lease := None);
      }
      snapshots := snapshots[id := next];
      return Ok(next);
    }

    method RequestCancellation(id: string, expectedRevision: nat, now: Time) returns (result: StoreResult)
      requires Valid()
      modifies this`snapshots
      ensures Valid()
      ensures result == if id in old(snapshots) then CancelRow(old(snapshots)[id], expectedRevision, now)
                        else if IsTimestamp(now) then Err(NotFound) else Err(BadArgument)
      ensures snapshots == if result.Ok? then old(snapshots)[id := result.value] else old(snapshots)
    {
      if !IsTimestamp(now) { return Err(BadArgument); }
      if id !in snapshots { return Err(NotFound); }
      var current := snapshots[id];
      if current.revision != expectedRevision { return Err(RevisionConflict); }
      if Terminal(current.state) { return Err(RevisionConflict); }
      var next := current.(cancellationRequested := true, revision := current.revision + 1, updatedAt := Max(current.updatedAt, now));
      snapshots := snapshots[id := next];
      return Ok(next);
    }
  }
}
