/**
 * Two races that end in a reported conflict although nothing is wrong with the workflow: an SQL
 * renewal between whose two statements a cancellation arrives
 * (packages/workflows-drizzle/src/base.ts:135-144), and a cancellation that a renewal overtakes
 * (packages/workflows/src/validation.ts:219-224, packages/workflows/src/store.ts:99).
 */
module WorkflowRaces {
  import opened Options
  import opened WorkflowTypes
  import opened WorkflowValidation
  import opened WorkflowManager
  import opened WorkflowStore
  import opened WorkflowProtocol
  import opened WorkflowReceipts
  import opened WorkflowSql
  import opened WorkflowWedge

  // ------------------------------------------------------- a renewal in two statements

  /** The started single step as a table row. */
  function StartedRow(): SqlRow {
    SqlRow(StartedSingle(false).header, WorkflowState.Running, 2, false, Some(7), Some(100), 10, StartedSingle(false))
  }

  const RENEWAL: Request := RenewRequest(2, 7, 20, 200)

  const RACE: seq<Statement> := [FirstSelect(0, RENEWAL), FirstSelect(1, CancelRequest(2, 30)), GuardedUpdate(1), GuardedUpdate(0)]

  function CancelledRow(): SqlRow {
    StartedRow().(cancellationRequested := true, revision := 3, updatedAt := 30)
  }

  lemma StartedHydrates()
    ensures Hydrate(StartedRow()) == Ok(StartedSingle(false))
    ensures Hydrate(CancelledRow()) == Ok(StartedSingle(true).(updatedAt := 30))
  {
    hide ValidSnapshot;
    assert Assembled(StartedRow()) == StartedSingle(false);
    assert Assembled(CancelledRow()) == StartedSingle(true).(updatedAt := 30);
    SingleMatches(StartedSingle(false));
    SingleMatches(StartedSingle(true).(updatedAt := 30));
  }

  lemma {:induction false} ExecuteStates(t: Table, statements: seq<Statement>, states: seq<Table>)
    requires |statements| == |states| > 0
    requires states[0] == Execute(t, statements[0]) && forall i :: 0 < i < |states| ==> states[i] == Execute(states[i - 1], statements[i])
    ensures ExecuteAll(t, statements) == states[|states| - 1]
    decreases |statements|
  {
    hide Execute;
    if |statements| > 1 {
      ExecuteStates(states[0], statements[1..], states[1..]);
    }
  }

  /** The renewal is refused with a revision conflict, while the in-memory store would have renewed at that moment. */
  lemma RenewalLosesToCancellation()
    ensures var t := ExecuteAll(Table(StartedRow(), map[], []), RACE);
      && t.accepted == [CancelRequest(2, 30)] && ClientOf(t, 0) == Refused(RENEWAL)
      && Classify(t.row, RENEWAL) == RevisionConflict
      && Hydrate(t.row).Ok? && InMemory(Hydrate(t.row).value, RENEWAL).Ok?
  {
    hide Hydrate, ValidSnapshot;
    StartedHydrates();
    var t0 := Table(StartedRow(), map[], []);
    var t1 := Execute(t0, RACE[0]);
    assert t1 == t0.(clients := map[0 := Selected(RENEWAL, StartedSingle(false))]);
    var t2 := Execute(t1, RACE[1]);
    assert t2.clients == map[0 := Selected(RENEWAL, StartedSingle(false)), 1 := Selected(CancelRequest(2, 30), StartedSingle(false))];
    var t3 := Execute(t2, RACE[2]);
    assert t3.row == CancelledRow() && t3.accepted == [CancelRequest(2, 30)];
    var t4 := Execute(t3, RACE[3]);
    ExecuteStates(t0, RACE, [t1, t2, t3, t4]);
  }

  // ------------------------------------------------------ a cancellation in two steps

  const OVERTAKEN: seq<Action> :=
    [Observe(0), Claim(0, 7, 10, 100), AdvanceStep(0, 10, "", None), ObserveToCancel(1), Renew(0, 20, 200)]

  lemma RenewBeforeCancel(g: World)
    requires g.row == StartedSingle(false) && g.workers == map[0 := HandlingSingle(false, false)]
    ensures var g' := Next(SINGLE, Next(SINGLE, g, ObserveToCancel(1)), Renew(0, 20, 200));
      g'.row == StartedSingle(false).(lease := Some(Lease(7, 200))) && PhaseOf(g', 1) == Cancelling(StartedSingle(false))
  {
    hide CommitBy, MatchesDefinition, Advance, CommitRow, ClaimRow, CancelRow, FinishCandidate;
    var g1 := Next(SINGLE, g, ObserveToCancel(1));
    assert g1.row == g.row && PhaseOf(g1, 0) == HandlingSingle(false, false) && PhaseOf(g1, 1) == Cancelling(g.row);
  }

  /** The store accepts the cancellation, and the canceller rejects the receipt. */
  lemma RenewalSpoilsCancellationReceipt()
    ensures Initial(SINGLE, SingleWorld())
    ensures var g := Run(SINGLE, SingleWorld(), OVERTAKEN);
      && PhaseOf(g, 1).Cancelling?
      && var view := PhaseOf(g, 1).view;
         CancelRow(g.row, view.revision, 30).Ok? && !CancellationReceipt(view, CancelRow(g.row, view.revision, 30).value, 30, view.revision)
  {
    hide Next, MatchesDefinition, ValidDefinition, ValidSnapshot;
    SingleInitial();
    ReachClaim();
    ReachStart(AfterClaim(), false);
    var g1 := Next(SINGLE, SingleWorld(), OVERTAKEN[0]);
    var g3 := Next(SINGLE, AfterClaim(), OVERTAKEN[2]);
    assert g3.workers == map[0 := HandlingSingle(false, false)];
    RenewBeforeCancel(g3);
    var g4 := Next(SINGLE, g3, OVERTAKEN[3]);
    var g5 := Next(SINGLE, g4, OVERTAKEN[4]);
    RunStates(SINGLE, SingleWorld(), OVERTAKEN, [g1, AfterClaim(), g3, g4, g5]);
  }
}
