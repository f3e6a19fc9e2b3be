/**
 * `OutboxProcessor.runOnce` (packages/reliability/src/index.ts:250-358).
 *
 * What the store answers to a claim, what the delivery does, and whether a lease was lost, an abort
 * was signalled or a transition was accepted meanwhile, are oracles: other processors may interfere
 * at any point. Of the claim only its contract is used: within the capacity, distinct, nothing
 * excluded. Rows of one batch are processed concurrently in the source; here their outcomes are
 * listed in claim order.
 */
module OutboxProcessor {
  import opened Options
  import opened MessageStore

  datatype Delivery = Returned(ok: bool, retryable: bool) | Threw

  /** `transitioned`: whether the store accepted the one transition that was asked for. */
  datatype Conduct = Conduct(delivery: Delivery, leaseLost: bool, aborted: bool, delayValid: bool, transitioned: bool)

  datatype Status = Delivered | DeliveredAckUnknown | Dead | Retried | DeliveryFailed | AckFailed | LeaseLost | Cancelled

  datatype Outcome = Outcome(id: string, status: Status)

  datatype Summary = Summary(claimed: nat, delivered: nat, retried: nat, dead: nat, outcomes: seq<Outcome>)

  datatype Job = Job(id: string, attempts: nat, conduct: Conduct)

  // -------------------------------------------------------------------- accounting

  function Tally(outcomes: seq<Outcome>, statuses: set<Status>): nat {
    if |outcomes| == 0 then 0
    else Tally(outcomes[..|outcomes| - 1], statuses) + if outcomes[|outcomes| - 1].status in statuses then 1 else 0
  }

  predicate WellCounted(s: Summary) {
    && s.delivered == Tally(s.outcomes, {Status.Delivered})
    && s.dead == Tally(s.outcomes, {Status.Dead})
    && s.retried == Tally(s.outcomes, {Retried, DeliveryFailed})
  }

  lemma TallyMore(outcomes: seq<Outcome>, o: Outcome, statuses: set<Status>)
    ensures Tally(outcomes + [o], statuses) == Tally(outcomes, statuses) + if o.status in statuses then 1 else 0
  {
    assert (outcomes + [o])[..|outcomes|] == outcomes;
  }

  /** Whether the attempt limit or the delivery itself makes this the last attempt. */
  predicate LastAttempt(job: Job, maxAttempts: nat) {
    job.attempts >= maxAttempts || (job.conduct.delivery.Returned? && !job.conduct.delivery.retryable)
  }

  /** The delivery returned, and the lease was kept until then. */
  predicate ReturnedInTime(job: Job) {
    job.conduct.delivery.Returned? && !job.conduct.leaseLost
  }

  /** The delivery threw while nothing was aborted. */
  predicate ThrewUndisturbed(job: Job) {
    job.conduct.delivery.Threw? && !job.conduct.leaseLost && !job.conduct.aborted
  }

  /** After an unsuccessful delivery: the store took the transition that was asked for. */
  predicate RecordedFailure(job: Job, maxAttempts: nat) {
    job.conduct.transitioned && (LastAttempt(job, maxAttempts) || job.conduct.delayValid)
  }

  /** Exactly when each status is given. */
  predicate Truthful(job: Job, maxAttempts: nat, status: Status) {
    var delivered := ReturnedInTime(job) && job.conduct.delivery.ok;
    var refused := ReturnedInTime(job) && !job.conduct.delivery.ok;
    && (status.Delivered? <==> delivered && job.conduct.transitioned)
    && (status.DeliveredAckUnknown? <==> delivered && !job.conduct.transitioned)
    && (status.Dead? <==> ((refused || ThrewUndisturbed(job)) && LastAttempt(job, maxAttempts) && job.conduct.transitioned))
    && (status.Retried? <==> refused && !LastAttempt(job, maxAttempts) && RecordedFailure(job, maxAttempts))
    && (status.DeliveryFailed? <==> ThrewUndisturbed(job) && !LastAttempt(job, maxAttempts) && job.conduct.transitioned)
    && (status.AckFailed? <==> refused && !RecordedFailure(job, maxAttempts) && !job.conduct.aborted)
    && (status.Cancelled? <==>
          ((refused && !RecordedFailure(job, maxAttempts) && job.conduct.aborted)
           || (job.conduct.delivery.Threw? && !job.conduct.leaseLost && job.conduct.aborted)))
    && (status.LeaseLost? <==> job.conduct.leaseLost)
  }

  /** The delivery threw, nothing was aborted, and the store refused the transition that should record it. */
  predicate Rejects(job: Job) {
    job.conduct.delivery.Threw? && !job.conduct.aborted && !job.conduct.leaseLost && !job.conduct.transitioned
  }

  /**
   * The processing of one claimed row, with the counters it updates on the way. None: the
   * transition after a thrown delivery was refused, so `runOnce` rejects.
   */
  method SettleRow(summary: Summary, job: Job, maxAttempts: nat) returns (result: Summary, settled: Option<Status>)
    ensures settled.None? <==> Rejects(job)
    ensures settled.Some? ==> Truthful(job, maxAttempts, settled.value)
    ensures result.outcomes == summary.outcomes && result.claimed == summary.claimed
    ensures result.delivered == summary.delivered + if settled == Some(Status.Delivered) then 1 else 0
    ensures result.dead == summary.dead + if settled == Some(Status.Dead) then 1 else 0
    ensures result.retried == summary.retried + if settled == Some(Retried) || settled == Some(DeliveryFailed) then 1 else 0
  {
    result := summary;
    var conduct := job.conduct;
    var status: Status;
    if conduct.delivery.Returned? {
      if conduct.leaseLost {
        status := LeaseLost;
      } else if conduct.delivery.ok {
        if conduct.transitioned {
          result := result.(delivered := result.delivered + 1);
          status := Status.Delivered;
        } else {
          status := DeliveredAckUnknown;
        }
      } else {
        var terminal := !conduct.delivery.retryable || job.attempts >= maxAttempts;
        if terminal && conduct.transitioned {
          result := result.(dead := result.dead + 1);
          status := Status.Dead;
        } else if !terminal && conduct.delayValid && conduct.transitioned {
          result := result.(retried := result.retried + 1);
          status := Retried;
        } else if conduct.aborted {
          status := Cancelled;
        } else {
          status := AckFailed;
        }
      }
    } else if conduct.aborted || conduct.leaseLost {
      status := if conduct.leaseLost then LeaseLost else Cancelled;
    } else if !conduct.transitioned {
      return result, None;
    } else if job.attempts >= maxAttempts {
      result := result.(dead := result.dead + 1);
      status := Status.Dead;
    } else {
      result := result.(retried := result.retried + 1);
      status := DeliveryFailed;
    }
    settled := Some(status);
  }

  /** Exactly one more outcome, for this row, and the counters stay right; or the whole run rejects. */
  method ProcessRow(summary: Summary, job: Job, maxAttempts: nat) returns (next: Option<Summary>)
    requires WellCounted(summary)
    ensures next.None? <==> Rejects(job)
    ensures next.Some? ==>
      && WellCounted(next.value) && next.value.claimed == summary.claimed
      && exists status :: next.value.outcomes == summary.outcomes + [Outcome(job.id, status)] && Truthful(job, maxAttempts, status)
  {
    hide Truthful;
    var result, settled := SettleRow(summary, job, maxAttempts);
    if settled.None? {
      return None;
    }
    var outcome := Outcome(job.id, settled.value);
    TallyMore(summary.outcomes, outcome, {Status.Delivered});
    TallyMore(summary.outcomes, outcome, {Status.Dead});
    TallyMore(summary.outcomes, outcome, {Retried, DeliveryFailed});
    next := Some(result.(outcomes := result.outcomes + [outcome]));
  }

  // --------------------------------------------------------------------------- runOnce

  /** The ids claimed by the first `n` answers of the store, in order. */
  function ClaimedIds(answers: seq<seq<Job>>, n: nat): seq<string>
    requires n <= |answers|
  {
    if n == 0 then [] else ClaimedIds(answers, n - 1) + Ids(answers[n - 1])
  }

  function Ids(jobs: seq<Job>): seq<string> {
    seq(|jobs|, i requires 0 <= i < |jobs| => jobs[i].id)
  }

  function Min(a: int, b: int): int {
    if a < b then a else b
  }

  /** What `InMemoryReliabilityStore.Claim` guarantees about its answer. */
  predicate ClaimContract(answer: seq<string>, capacity: int, excludeIds: seq<string>) {
    |answer| <= capacity && Distinct(answer) && forall i :: 0 <= i < |answer| ==> answer[i] !in excludeIds
  }

  predicate Conforming(answers: seq<seq<Job>>, limit: nat, concurrency: nat) {
    forall n :: 0 <= n < |answers| ==>
      ClaimContract(Ids(answers[n]), Min(concurrency, limit - |ClaimedIds(answers, n)|), ClaimedIds(answers, n))
  }

  function OutcomeIds(outcomes: seq<Outcome>): seq<string> {
    seq(|outcomes|, i requires 0 <= i < |outcomes| => outcomes[i].id)
  }

  lemma DistinctConcat(a: seq<string>, b: seq<string>)
    requires Distinct(a) && Distinct(b) && forall i :: 0 <= i < |b| ==> b[i] !in a
    ensures Distinct(a + b)
  {
  }

  lemma ContractDistinct(answers: seq<seq<Job>>, limit: nat, concurrency: nat, n: nat)
    requires Conforming(answers, limit, concurrency) && n < |answers| && Distinct(ClaimedIds(answers, n))
    ensures Distinct(ClaimedIds(answers, n + 1)) && |ClaimedIds(answers, n + 1)| <= Max(limit, |ClaimedIds(answers, n)|)
  {
    assert ClaimContract(Ids(answers[n]), Min(concurrency, limit - |ClaimedIds(answers, n)|), ClaimedIds(answers, n));
    DistinctConcat(ClaimedIds(answers, n), Ids(answers[n]));
  }

  predicate BatchRejects(jobs: seq<Job>) {
    exists i :: 0 <= i < |jobs| && Rejects(jobs[i])
  }

  /** One truthful outcome per job, in order. */
  predicate Reported(jobs: seq<Job>, maxAttempts: nat, outcomes: seq<Outcome>) {
    |jobs| == |outcomes| && forall k :: 0 <= k < |jobs| ==> outcomes[k].id == jobs[k].id && Truthful(jobs[k], maxAttempts, outcomes[k].status)
  }

  lemma ReportMore(jobs: seq<Job>, maxAttempts: nat, outcomes: seq<Outcome>, job: Job, status: Status)
    requires Reported(jobs, maxAttempts, outcomes) && Truthful(job, maxAttempts, status)
    ensures Reported(jobs + [job], maxAttempts, outcomes + [Outcome(job.id, status)])
  {
    hide Truthful;
  }

  /** All rows of one claimed batch. */
  method ProcessBatch(summary: Summary, jobs: seq<Job>, maxAttempts: nat, ghost done: seq<Job>) returns (next: Option<Summary>)
    requires WellCounted(summary) && Reported(done, maxAttempts, summary.outcomes)
    ensures next.None? <==> BatchRejects(jobs)
    ensures next.Some? ==>
      WellCounted(next.value) && next.value.claimed == summary.claimed && Reported(done + jobs, maxAttempts, next.value.outcomes)
  {
    hide WellCounted, Reported, Truthful, Rejects;
    var result := summary;
    var i := 0;
    assert done + jobs[..0] == done;
    while i < |jobs|
      invariant 0 <= i <= |jobs|
      invariant WellCounted(result) && result.claimed == summary.claimed
      invariant forall j :: 0 <= j < i ==> !Rejects(jobs[j])
      invariant Reported(done + jobs[..i], maxAttempts, result.outcomes)
    {
      var settled := ProcessRow(result, jobs[i], maxAttempts);
      if settled.None? {
        return None;
      }
      ghost var status :| settled.value.outcomes == result.outcomes + [Outcome(jobs[i].id, status)] && Truthful(jobs[i], maxAttempts, status);
      ReportMore(done + jobs[..i], maxAttempts, result.outcomes, jobs[i], status);
      assert done + jobs[..i] + [jobs[i]] == done + jobs[..i + 1];
      result := settled.value;
      i := i + 1;
    }
    assert jobs[..|jobs|] == jobs;
    return Some(result);
  }

  /** The jobs claimed by the first `n` answers, in order. */
  function ClaimedJobs(answers: seq<seq<Job>>, n: nat): seq<Job>
    requires n <= |answers|
  {
    if n == 0 then [] else ClaimedJobs(answers, n - 1) + answers[n - 1]
  }

  lemma {:induction false} IdsOfJobs(answers: seq<seq<Job>>, n: nat)
    requires n <= |answers|
    ensures Ids(ClaimedJobs(answers, n)) == ClaimedIds(answers, n)
  {
    if n > 0 {
      IdsOfJobs(answers, n - 1);
    }
  }

  lemma ReportedIds(jobs: seq<Job>, maxAttempts: nat, outcomes: seq<Outcome>)
    requires Reported(jobs, maxAttempts, outcomes)
    ensures OutcomeIds(outcomes) == Ids(jobs) && |outcomes| == |jobs|
  {
    hide Truthful;
  }

  /** The room the claim of turn `n` asks for. */
  function Capacity(answers: seq<seq<Job>>, n: nat, limit: nat, concurrency: nat): int
    requires n <= |answers|
  {
    Min(concurrency, limit - |ClaimedIds(answers, n)|)
  }

  /** Every turn but the last was answered in full, and none with nothing. */
  predicate TookTurns(answers: seq<seq<Job>>, n: nat, limit: nat, concurrency: nat) {
    && n <= |answers|
    && (forall k :: 0 <= k < n ==> |answers[k]| > 0)
    && (forall k :: 0 <= k < n - 1 ==> |answers[k]| >= Capacity(answers, k, limit, concurrency))
  }

  /** Why a run stops after `n` turns: the limit, the abort, an empty answer or a short one. */
  predicate StopsAfter(answers: seq<seq<Job>>, n: nat, limit: nat, concurrency: nat, turns: nat)
    requires n <= |answers|
  {
    || |ClaimedIds(answers, n)| >= limit
    || n == turns
    || n == |answers| || |answers[n]| == 0
    || (n > 0 && |answers[n - 1]| < Capacity(answers, n - 1, limit, concurrency))
  }

  /** A row of the first `n` answers makes the run reject, and no earlier one does. */
  predicate RejectedAt(answers: seq<seq<Job>>, n: nat) {
    0 < n <= |answers| && BatchRejects(answers[n - 1]) && NoneRejects(answers, n - 1)
  }

  /**
   * One run of the processor. It takes the answers of the store one after the other until the limit,
   * the abort, an empty or a short answer, or a rejection. On normal return it has claimed at most
   * `limit` messages, all distinct, and reports exactly one outcome for each; the counters equal the
   * numbers of matching outcomes. `turns` bounds the number of loop turns before the abort signal.
   */
  method RunOnce(limit: nat, concurrency: nat, maxAttempts: nat, answers: seq<seq<Job>>, turns: nat)
    returns (result: Option<Summary>, processedIds: seq<string>)
    requires limit >= 1 && concurrency >= 1 && maxAttempts >= 1
    requires Conforming(answers, limit, concurrency)
    ensures |processedIds| <= limit && Distinct(processedIds)
    ensures exists n: nat ::
      && TookTurns(answers, n, limit, concurrency) && n <= turns && processedIds == ClaimedIds(answers, n)
      && (if result.None? then RejectedAt(answers, n)
          else StopsAfter(answers, n, limit, concurrency, turns) && NoneRejects(answers, n) && Reported(ClaimedJobs(answers, n), maxAttempts, result.value.outcomes))
    ensures result.Some? ==>
      && WellCounted(result.value)
      && result.value.claimed == |processedIds| == |result.value.outcomes|
      && OutcomeIds(result.value.outcomes) == processedIds
      && result.value.delivered + result.value.dead + result.value.retried <= result.value.claimed
  {
    hide WellCounted, TookTurns, Distinct, Conforming, BatchRejects, OutcomeIds, NoneRejects, StopsAfter, RejectedAt, Reported;
    var summary := Summary(0, 0, 0, 0, []);
    processedIds := [];
    var turn: nat := 0;
    NothingDone(answers, limit, concurrency);
    while summary.claimed < limit && turn < turns
      invariant 0 <= turn <= |answers| && turn <= turns
      invariant processedIds == ClaimedIds(answers, turn) && |processedIds| <= limit && Distinct(processedIds)
      invariant WellCounted(summary) && summary.claimed == |processedIds| && Reported(ClaimedJobs(answers, turn), maxAttempts, summary.outcomes)
      invariant TookTurns(answers, turn, limit, concurrency) && NoneRejects(answers, turn) && LastWasFull(answers, turn, limit, concurrency)
      decreases turns - turn
    {
      var capacity := Min(concurrency, limit - summary.claimed);
      if turn == |answers| || |answers[turn]| == 0 {
        assert StopsAfter(answers, turn, limit, concurrency, turns) by { StopReason(answers, turn, limit, concurrency, turns); }
        break;
      }
      var rows := answers[turn];
      ContractDistinct(answers, limit, concurrency, turn);
      OneMoreTurn(answers, turn, limit, concurrency);
      processedIds := processedIds + Ids(rows);
      summary := summary.(claimed := summary.claimed + |rows|);
      assert WellCounted(summary) by { ClaimedUncounted(summary); }
      var settled := ProcessBatch(summary, rows, maxAttempts, ClaimedJobs(answers, turn));
      turn := turn + 1;
      if settled.None? {
        return None, processedIds;
      }
      summary := settled.value;
      if |rows| < capacity {
        StopReason(answers, turn, limit, concurrency, turns);
        break;
      }
    }
    StopReason(answers, turn, limit, concurrency, turns);
    ReportedIds(ClaimedJobs(answers, turn), maxAttempts, summary.outcomes);
    IdsOfJobs(answers, turn);
    CountedBound(summary);
    return Some(summary), processedIds;
  }

  predicate LastWasFull(answers: seq<seq<Job>>, n: nat, limit: nat, concurrency: nat)
    requires n <= |answers|
  {
    n > 0 ==> |answers[n - 1]| >= Capacity(answers, n - 1, limit, concurrency)
  }

  lemma NothingDone(answers: seq<seq<Job>>, limit: nat, concurrency: nat)
    ensures TookTurns(answers, 0, limit, concurrency) && NoneRejects(answers, 0)
    ensures WellCounted(Summary(0, 0, 0, 0, [])) && Distinct<string>([]) && forall m :: Reported([], m, [])
  {
  }

  lemma StopReason(answers: seq<seq<Job>>, n: nat, limit: nat, concurrency: nat, turns: nat)
    requires n <= |answers|
    ensures |ClaimedIds(answers, n)| >= limit || n == turns || n == |answers| || |answers[n]| == 0 ==> StopsAfter(answers, n, limit, concurrency, turns)
    ensures n > 0 && |answers[n - 1]| < Capacity(answers, n - 1, limit, concurrency) ==> StopsAfter(answers, n, limit, concurrency, turns)
  {
  }

  lemma OneMoreTurn(answers: seq<seq<Job>>, n: nat, limit: nat, concurrency: nat)
    requires n < |answers| && |answers[n]| > 0
    requires TookTurns(answers, n, limit, concurrency) && NoneRejects(answers, n) && LastWasFull(answers, n, limit, concurrency)
    ensures TookTurns(answers, n + 1, limit, concurrency)
    ensures if BatchRejects(answers[n]) then RejectedAt(answers, n + 1) else NoneRejects(answers, n + 1)
  {
    hide BatchRejects, Capacity;
    forall k | 0 <= k < n ensures |answers[k]| >= Capacity(answers, k, limit, concurrency) {
      assert k == n - 1 || k < n - 1;
    }
  }

  lemma ClaimedUncounted(s: Summary)
    ensures forall c :: WellCounted(s.(claimed := c)) <==> WellCounted(s)
  {
  }

  lemma CountedBound(s: Summary)
    requires WellCounted(s)
    ensures s.delivered + s.dead + s.retried <= |s.outcomes|
  {
    TallyBound(s.outcomes);
  }

  predicate NoneRejects(answers: seq<seq<Job>>, n: nat)
    requires n <= |answers|
  {
    forall k :: 0 <= k < n ==> !BatchRejects(answers[k])
  }

  lemma {:induction false} TallyBound(outcomes: seq<Outcome>)
    ensures Tally(outcomes, {Status.Delivered}) + Tally(outcomes, {Status.Dead}) + Tally(outcomes, {Retried, DeliveryFailed}) <= |outcomes|
  {
    if |outcomes| > 0 {
      TallyBound(outcomes[..|outcomes| - 1]);
    }
  }

  /** The in-memory store keeps the contract that `RunOnce` relies on. */
  method ClaimKeepsContract(store: InMemoryReliabilityStore, o: ClaimOptions) returns (ids: seq<string>)
    requires store.Valid()
    modifies store
    ensures store.Valid()
    ensures ClaimContract(ids, o.limit, o.excludeIds)
    ensures forall i :: 0 <= i < |ids| ==>
      var key := Key(Outbox, ids[i]);
      key in store.records && store.records[key].lease == Some(Lease(LeaseToken(o.token, ids[i]), o.until))
  {
    var taken := store.Claim(o);
    ids := seq(|taken|, i requires 0 <= i < |taken| => taken[i].envelope.id);
    ghost var rows := Selected(store.order, old(store.records), o);
    forall i | 0 <= i < |ids|
      ensures var key := Key(Outbox, ids[i]);
        key in store.records && store.records[key].lease == Some(Lease(LeaseToken(o.token, ids[i]), o.until))
    {
      SelectedFacts(store.order, old(store.records), o);
      assert rows[i] in rows;
      assert rows[i] == Key(Outbox, ids[i]);
    }
  }
}
