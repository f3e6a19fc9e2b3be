/**
 * The persisted workflow snapshot (packages/workflows/src/types.ts).
 *
 * JSON values are represented by their canonical text, so `canonicalInput` and `input`
 * are one field. Times are epoch milliseconds. The immutable part of a snapshot is
 * grouped in a `Header`.
 */
module WorkflowTypes {
  import opened Options

  type Json = string
  type ErrorText = string
  type Token = nat
  type Time = int

  datatype WorkflowState =
    | Pending | Running | WaitingRetry | Completed | Failed
    | Compensating | CompensationWaitingRetry | Compensated
    | CompensationFailed | Cancelled

  datatype StepState =
    | Pending | Running | WaitingRetry | Committed
    | Compensating | CompensationWaitingRetry | Compensated
    | Failed | CompensationFailed

  datatype IdempotencyKey = StepKey(workflow: string, index: nat) | CompensationKey(workflow: string, index: nat)

  datatype StepSnapshot = StepSnapshot(
    name: string,
    key: IdempotencyKey,
    compensationKey: Option<IdempotencyKey>,
    state: StepState,
    attempts: nat,
    compensationAttempts: nat,
    output: Option<Json>,
    retryAt: Option<Time>,
    error: Option<ErrorText>)

  datatype Lease = Lease(token: Token, expiresAt: Time)

  datatype Header = Header(
    id: string, workflowName: string, workflowVersion: string,
    startKey: string, input: Json, createdAt: Time)

  datatype Snapshot = Snapshot(
    header: Header,
    state: WorkflowState,
    revision: nat,
    steps: seq<StepSnapshot>,
    lease: Option<Lease>,
    cancellationRequested: bool,
    updatedAt: Time)

  datatype StepDefinition = StepDefinition(name: string, compensatable: bool, maxAttempts: nat)

  datatype Definition = Definition(name: string, version: string, steps: seq<StepDefinition>)

  /** packages/workflows/src/definition.ts, assertDefinition. */
  ghost predicate ValidDefinition(def: Definition) {
    && |def.steps| > 0
    && (forall i :: 0 <= i < |def.steps| ==> def.steps[i].maxAttempts >= 1)
    && (forall i, j :: 0 <= i < j < |def.steps| ==> def.steps[i].name != def.steps[j].name)
  }

  /** packages/workflows/src/state.ts */
  predicate Terminal(state: WorkflowState) {
    state.Completed? || state.Failed? || state.Compensated? || state.CompensationFailed? || state.Cancelled?
  }

  predicate Waiting(state: WorkflowState) {
    state.WaitingRetry? || state.CompensationWaitingRetry?
  }

  predicate IsCompensating(state: WorkflowState) {
    state.Compensating? || state.CompensationWaitingRetry?
  }

  /** The states in which forward steps may still start. */
  predicate IsForward(state: WorkflowState) {
    state.Pending? || state.Running? || state.WaitingRetry?
  }
}
