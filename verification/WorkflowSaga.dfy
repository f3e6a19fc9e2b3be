/**
 * The saga read off the history: compensation order, what was committed and what was undone
 * (packages/workflows/src/manager.ts:190-233, packages/workflows/src/validation.ts:279, 369-403).
 */
module WorkflowSaga {
  import opened Options
  import opened WorkflowTypes
  import opened WorkflowValidation
  import opened WorkflowEffects
  import opened WorkflowProtocol
  import opened WorkflowHistory
  import opened WorkflowTheorems

  predicate IsCompensationStart(e: Event) {
    e.Started? && e.direction.Compensation?
  }

  /** Once step `i` is being compensated the workflow is no longer forward and nothing later is open. */
  predicate UnwoundPast(row: Snapshot, i: nat) {
    !IsForward(row.state) && i < |row.steps| && forall j :: i < j < |row.steps| ==> !IsOpenStep(row.steps[j])
  }

  predicate Unwinding(log: seq<Event>, row: Snapshot) {
    forall k :: 0 <= k < |log| && IsCompensationStart(log[k]) ==> UnwoundPast(row, log[k].index)
  }

  /** Compensations start from the last step towards the first, and no forward handler starts after one of them. */
  predicate ReverseOrder(log: seq<Event>) {
    forall p, q :: 0 <= p < q < |log| && IsCompensationStart(log[p]) && log[q].Started? ==>
      log[q].direction.Compensation? && log[q].index <= log[p].index
  }

  ghost predicate AfterOutput(log: seq<Event>) {
    forall k :: 0 <= k < |log| && IsCompensationStart(log[k]) ==> OutputIn(log[..k], log[k].index)
  }

  /** The output of step `i` was committed. */
  ghost predicate OutputIn(log: seq<Event>, i: nat) {
    exists x :: OutputCommitted(i, x) in log
  }

  /** The history names exactly the durable outputs. */
  ghost predicate Accounted(log: seq<Event>, steps: seq<StepSnapshot>) {
    forall i: nat, x :: OutputCommitted(i, x) in log <==> i < |steps| && HasOutput(steps[i].state) && steps[i].output == Some(x)
  }

  ghost predicate Saga(log: seq<Event>, row: Snapshot) {
    Unwinding(log, row) && ReverseOrder(log) && AfterOutput(log) && Accounted(log, row.steps)
  }

  lemma SagaOther(log: seq<Event>, row: Snapshot, row': Snapshot, e: Event)
    requires Saga(log, row) && !e.Started? && !e.OutputCommitted? && row.state == row'.state && row.steps == row'.steps
    ensures Saga(log + [e], row')
  {
    var log' := log + [e];
    forall k | 0 <= k < |log'| && IsCompensationStart(log'[k])
      ensures UnwoundPast(row', log'[k].index) && OutputIn(log'[..k], log'[k].index)
    {
      assert log'[..k] == log[..k];
      assert UnwoundPast(row, log[k].index);
    }
    forall i: nat, x ensures OutputCommitted(i, x) in log' <==> OutputCommitted(i, x) in log {}
  }

  lemma UnwindingCommit(def: Definition, g: World, g': World, t: Token, outs: seq<Event>, starts: seq<Event>)
    requires Unwinding(g.log, g.row) && CommitStep(def, g, g', t, outs, starts) && ValidSteps(g'.row.steps)
    ensures Unwinding(g.log, g'.row)
  {
    hide Measure, OutputsOk, StartsOk;
    forall k | 0 <= k < |g.log| && IsCompensationStart(g.log[k])
      ensures UnwoundPast(g'.row, g.log[k].index)
    {
      var i := g.log[k].index;
      assert UnwoundPast(g.row, i);
      forall j | i < j < |g.row.steps| ensures !IsOpenStep(g'.row.steps[j]) {
        assert StepEffect(false, g.row.steps[j], g'.row.steps[j]);
        assert ValidStep(g'.row.steps[j]);
        assert !IsOpenStep(g.row.steps[j]);
      }
    }
  }

  lemma AccountedAppend(log: seq<Event>, before: seq<StepSnapshot>, after: seq<StepSnapshot>, t: Token, outs: seq<Event>, starts: seq<Event>)
    requires Accounted(log, before) && OutputsOk(before, after, outs)
    requires |before| == |after|
    requires forall i :: 0 <= i < |before| && HasOutput(before[i].state) ==> HasOutput(after[i].state) && after[i].output == before[i].output
    requires forall e :: e in starts ==> e.Started?
    ensures Accounted(log + [CommitAccepted(t)] + outs + starts, after)
  {
    var log' := log + [CommitAccepted(t)] + outs + starts;
    forall i: nat, x ensures OutputCommitted(i, x) in log' <==> OutputCommitted(i, x) in log || OutputCommitted(i, x) in outs {
      assert OutputCommitted(i, x) in log' <==>
        OutputCommitted(i, x) in log || OutputCommitted(i, x) in [CommitAccepted(t)] || OutputCommitted(i, x) in outs || OutputCommitted(i, x) in starts;
    }
  }

  /** The order of starts after a commit that perhaps starts something. */
  lemma OrderCommit(log: seq<Event>, row: Snapshot, row': Snapshot, extra: seq<Event>, starts: seq<Event>)
    requires Unwinding(log, row) && ReverseOrder(log) && AfterOutput(log) && Accounted(log, row.steps)
    requires Unwinding(log, row') && StartsOk(row, row', starts) && ValidSteps(row.steps)
    requires forall e :: e in extra ==> !e.Started?
    ensures ReverseOrder(log + extra + starts) && AfterOutput(log + extra + starts) && Unwinding(log + extra + starts, row')
  {
    hide HasOutput;
    var log' := log + extra + starts;
    var n := |log| + |extra|;
    assert forall k :: |log| <= k < n ==> log'[k] == extra[k - |log|] && log'[k] in extra;
    forall k | 0 <= k < |log'| && log'[k].Started? ensures k < |log| || (k == n && starts == [log'[k]]) {
      assert n <= k ==> log'[k] == starts[k - n];
    }
    forall k | 0 <= k < |log'| && IsCompensationStart(log'[k])
      ensures UnwoundPast(row', log'[k].index) && OutputIn(log'[..k], log'[k].index)
    {
      if k < |log| {
        assert log'[..k] == log[..k];
      } else {
        var x := StartedOpen(log, row, log'[k].index);
        assert log'[..k][..|log|] == log;
        assert OutputCommitted(log'[k].index, x) in log'[..k];
      }
    }
    forall p, q | 0 <= p < q < |log'| && IsCompensationStart(log'[p]) && log'[q].Started?
      ensures log'[q].direction.Compensation? && log'[q].index <= log'[p].index
    {
      assert p < |log|;
      assert UnwoundPast(row, log[p].index);
    }
  }

  lemma StartedOpen(log: seq<Event>, row: Snapshot, i: nat) returns (x: Json)
    requires Accounted(log, row.steps) && i < |row.steps| && IsOpenStep(row.steps[i]) && ValidSteps(row.steps)
    ensures OutputCommitted(i, x) in log
  {
    assert ValidStep(row.steps[i]);
    x := row.steps[i].output.value;
  }

  lemma SagaCommit(def: Definition, g: World, g': World, t: Token, outs: seq<Event>, starts: seq<Event>)
    requires Saga(g.log, g.row) && CommitStep(def, g, g', t, outs, starts) && ValidSteps(g.row.steps) && ValidSteps(g'.row.steps)
    ensures Saga(g'.log, g'.row)
  {
    hide Measure, ReverseOrder, AfterOutput, Unwinding, Accounted, OutputsOk, StartsOk, ValidSteps;
    ExtrasShape(def, g, g', t, outs, starts);
    UnwindingCommit(def, g, g', t, outs, starts);
    forall i | 0 <= i < |g.row.steps| && HasOutput(g.row.steps[i].state)
      ensures HasOutput(g'.row.steps[i].state) && g'.row.steps[i].output == g.row.steps[i].output
    {
      assert StepEffect(IsForward(g.row.state), g.row.steps[i], g'.row.steps[i]);
    }
    assert |g.row.steps| == |g'.row.steps|;
    AccountedAppend(g.log, g.row.steps, g'.row.steps, t, outs, starts);
    var extra := [CommitAccepted(t)] + outs;
    OrderCommit(g.log, g.row, g'.row, extra, starts);
    assert g.log + extra + starts == g.log + [CommitAccepted(t)] + outs + starts;
  }

  lemma SagaKept(def: Definition, g: World, g': World, w: nat)
    requires Saga(g.log, g.row) && Step(def, g, g', w) && ValidSteps(g.row.steps) && ValidSteps(g'.row.steps)
    ensures Saga(g'.log, g'.row)
  {
    hide Saga, CommitStep, ValidSteps;
    if t :| ClaimStep(g, g', t) {
      SagaOther(g.log, g.row, g'.row, ClaimAccepted(t));
    } else if t :| RenewStep(g, g', t) {
      SagaOther(g.log, g.row, g'.row, RenewAccepted(t));
    } else if CancelStep(g, g') {
      SagaOther(g.log, g.row, g'.row, CancelAccepted);
    } else if InvokeStep(g, g', w) {
      SagaOther(g.log, g.row, g'.row, InvocationOf(PhaseOf(g, w)));
    } else if t, outs, starts :| CommitStep(def, g, g', t, outs, starts) {
      SagaCommit(def, g, g', t, outs, starts);
    }
  }
}
