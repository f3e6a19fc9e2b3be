/**
 * The HTTP idempotency store (packages/idempotency-drizzle/src/base.ts:72-100). Each operation is
 * one conditional statement on one row, so a run is a sequence of whole operations, issued by any
 * number of callers with arbitrary clock readings. Lease tokens and acquisition markers are fresh
 * per acquisition. A stored response is represented by its serialized envelope.
 */
module Idempotency {
  import opened Options

  type Time = int
  type Token = nat

  datatype State = Processing | Completed(response: string) | Failed

  datatype Record = Record(fingerprint: string, state: State, leaseToken: Token, leaseExpiresAt: Time, expiresAt: Time)

  datatype Acquisition = Acquired | Replay(response: string) | Conflict | InProgress | FailedBefore

  const MAX_SAFE: int := 9_007_199_254_740_991

  /** durationEnd, or None when it throws. */
  function DurationEnd(now: Time, duration: int): Option<Time> {
    if 0 <= now && 0 <= duration && now + duration <= MAX_SAFE then Some(now + duration) else None
  }

  /** The checks of durationEnd one by one: nonnegative arguments, and a sum below 2^53. */
  method CheckedEnd(now: Time, duration: int) returns (end: Option<Time>)
    ensures end == DurationEnd(now, duration)
  {
    if now < 0 || duration < 0 {
      return None;
    }
    var sum := now + duration;
    return if sum < 0x20_0000_0000_0000 then Some(sum) else None;
  }

  // -------------------------------------------------------------------- statements

  /** The condition under which the upsert overwrites an existing row. */
  predicate Eligible(row: Record, fingerprint: string, now: Time, retryFailed: bool) {
    || row.expiresAt <= now
    || (row.fingerprint == fingerprint
        && ((row.state.Processing? && row.leaseExpiresAt <= now) || (row.state.Failed? && retryFailed)))
  }

  function AcquireRow(row: Option<Record>, fingerprint: string, token: Token, now: Time, leaseExpiresAt: Time, retryFailed: bool): (Acquisition, Record) {
    if row.None? || Eligible(row.value, fingerprint, now, retryFailed) then
      (Acquired, Record(fingerprint, Processing, token, leaseExpiresAt, leaseExpiresAt))
    else
      (if row.value.fingerprint != fingerprint then Conflict
       else match row.value.state
         case Completed(response) => Replay(response)
         case Failed => FailedBefore
         case Processing => InProgress,
       row.value)
  }

  /** The guard shared by renew, complete and fail. */
  predicate HeldBy(row: Option<Record>, token: Token, now: Time) {
    row.Some? && row.value.state.Processing? && row.value.leaseToken == token && row.value.leaseExpiresAt > now
  }

  class DrizzleIdempotencyStore {
    var records: map<string, Record>

    constructor ()
      ensures records == map[]
    {
      records := map[];
    }

    ghost function Row(key: string): Option<Record>
      reads this
    {
      if key in records then Some(records[key]) else None
    }

    /** None stands for a rejected argument. */
    method Acquire(key: string, fingerprint: string, token: Token, now: Time, leaseMs: int, retentionMs: int, retryFailed: bool)
      returns (result: Option<Acquisition>)
      modifies this
      ensures result.None? <==> DurationEnd(now, leaseMs).None? || DurationEnd(now, retentionMs).None?
      ensures result.None? ==> records == old(records)
      ensures result.Some? ==>
        var (outcome, row) := AcquireRow(old(Row(key)), fingerprint, token, now, now + leaseMs, retryFailed);
        result == Some(outcome) && records == old(records)[key := row]
    {
      var end := CheckedEnd(now, leaseMs);
      var retained := CheckedEnd(now, retentionMs);
      if end.None? || retained.None? {
        return None;
      }
      if key !in records {
        records := records[key := Record(fingerprint, Processing, token, end.value, end.value)];
        return Some(Acquired);
      }
      var stored := records[key];
      if Eligible(stored, fingerprint, now, retryFailed) {
        records := records[key := Record(fingerprint, Processing, token, end.value, end.value)];
        return Some(Acquired);
      }
      assert records[key := stored] == records;
      if stored.fingerprint != fingerprint {
        return Some(Conflict);
      }
      match stored.state
      case Completed(response) => return Some(Replay(response));
      case Failed => return Some(FailedBefore);
      case Processing => return Some(InProgress);
    }

    method Renew(key: string, token: Token, now: Time, leaseMs: int) returns (ok: bool)
      modifies this
      ensures ok <==> DurationEnd(now, leaseMs).Some? && HeldBy(old(Row(key)), token, now)
      ensures records == if ok then old(records)[key := old(records)[key].(leaseExpiresAt := now + leaseMs, expiresAt := now + leaseMs)] else old(records)
    {
      var end := CheckedEnd(now, leaseMs);
      ok := end.Some? && key in records && records[key].state.Processing? && records[key].leaseToken == token && records[key].leaseExpiresAt > now;
      if ok {
        records := records[key := records[key].(leaseExpiresAt := end.value, expiresAt := end.value)];
      }
    }

    /** `complete` with a response, `fail` without. */
    method Finish(key: string, token: Token, now: Time, retentionMs: int, response: Option<string>) returns (ok: bool)
      modifies this
      ensures ok <==> DurationEnd(now, retentionMs).Some? && HeldBy(old(Row(key)), token, now)
      ensures records == if ok then old(records)[key := Finished(old(records)[key], now, now + retentionMs, response)] else old(records)
    {
      var end := CheckedEnd(now, retentionMs);
      ok := end.Some? && key in records && records[key].state.Processing? && records[key].leaseToken == token && records[key].leaseExpiresAt > now;
      if ok {
        var state := Failed;
        if response.Some? {
          state := Completed(response.value);
        }
        records := records[key := records[key].(state := state, leaseExpiresAt := now, expiresAt := end.value)];
      }
    }
  }

  function Finished(row: Record, now: Time, expires: Time, response: Option<string>): Record {
    row.(state := if response.Some? then Completed(response.value) else Failed, leaseExpiresAt := now, expiresAt := expires)
  }

  // --------------------------------------------------------------------------- runs

  datatype Request =
    | Acquire(fingerprint: string, token: Token, now: Time, leaseMs: int, retentionMs: int, retryFailed: bool)
    | Renew(token: Token, now: Time, leaseMs: int)
    | Finish(token: Token, now: Time, retentionMs: int, response: Option<string>)

  datatype Event =
    | AcquireEvent(token: Token, fingerprint: string, outcome: Acquisition)
    | RenewEvent(token: Token)
    | FinishEvent(token: Token, fingerprint: string, response: Option<string>)

  /** The row of one key, the tokens handed out for it, and what happened to it. */
  datatype World = World(row: Option<Record>, used: set<Token>, log: seq<Event>)

  function Next(g: World, q: Request): World {
    match q
    case Acquire(fingerprint, token, now, leaseMs, retentionMs, retryFailed) =>
      if token in g.used || DurationEnd(now, leaseMs).None? || DurationEnd(now, retentionMs).None? then g
      else
        var (outcome, row) := AcquireRow(g.row, fingerprint, token, now, now + leaseMs, retryFailed);
        World(Some(row), g.used + {token}, g.log + [AcquireEvent(token, fingerprint, outcome)])
    case Renew(token, now, leaseMs) =>
      if DurationEnd(now, leaseMs).None? || !HeldBy(g.row, token, now) then g
      else g.(row := Some(g.row.value.(leaseExpiresAt := now + leaseMs, expiresAt := now + leaseMs)), log := g.log + [RenewEvent(token)])
    case Finish(token, now, retentionMs, response) =>
      if DurationEnd(now, retentionMs).None? || !HeldBy(g.row, token, now) then g
      else g.(row := Some(Finished(g.row.value, now, now + retentionMs, response)),
              log := g.log + [FinishEvent(token, g.row.value.fingerprint, response)])
  }

  function Run(g: World, requests: seq<Request>): World
    decreases |requests|
  {
    if |requests| == 0 then g else Run(Next(g, requests[0]), requests[1..])
  }

  predicate Initial(g: World) {
    g.row.None? && g.used == {} && g.log == []
  }

  // ------------------------------------------------------------- between completion and expiry

  predicate Before(q: Request, expiry: Time) {
    q.Acquire? ==> q.now < expiry
  }

  /** What an acquisition before the expiry of a stored response must be told. */
  predicate ToldStoredResponse(e: Event, fingerprint: string, response: string) {
    e.AcquireEvent? && e.outcome == (if e.fingerprint == fingerprint then Replay(response) else Conflict)
  }

  /**
   * From a completion until the first acquisition at or after its expiry nothing changes the row,
   * and every acquisition is told the stored response, or a conflict if its fingerprint differs;
   * renewals and second completions are refused.
   */
  lemma {:induction false} ReplayWindow(g: World, requests: seq<Request>)
    requires g.row.Some? && g.row.value.state.Completed?
    requires forall i :: 0 <= i < |requests| ==> Before(requests[i], g.row.value.expiresAt)
    ensures var end := Run(g, requests);
      && end.row == g.row && |g.log| <= |end.log| && end.log[..|g.log|] == g.log
      && forall i :: |g.log| <= i < |end.log| ==> ToldStoredResponse(end.log[i], g.row.value.fingerprint, g.row.value.state.response)
    decreases |requests|
  {
    if |requests| > 0 {
      var g' := Next(g, requests[0]);
      assert Before(requests[0], g.row.value.expiresAt);
      assert g'.row == g.row;
      assert g'.log == g.log || (|g'.log| == |g.log| + 1 && g'.log[..|g.log|] == g.log && ToldStoredResponse(g'.log[|g.log|], g.row.value.fingerprint, g.row.value.state.response));
      ReplayWindow(g', requests[1..]);
      var end := Run(g', requests[1..]);
      assert end.log[..|g.log|] == end.log[..|g'.log|][..|g.log|];
      forall i | |g.log| <= i < |end.log| ensures ToldStoredResponse(end.log[i], g.row.value.fingerprint, g.row.value.state.response) {
        if i < |g'.log| {
          assert end.log[i] == end.log[..|g'.log|][i];
        }
      }
    }
  }

  /**
   * An accepted completion is replayed for its whole retention: until `now + retentionMs` every
   * acquisition of the same request gets exactly its response, every other one a conflict.
   */
  lemma CompletionReplays(g: World, token: Token, now: Time, retentionMs: int, response: string, later: seq<Request>)
    requires |Next(g, Finish(token, now, retentionMs, Some(response))).log| > |g.log|
    requires forall i :: 0 <= i < |later| ==> Before(later[i], now + retentionMs)
    ensures g.row.Some?
    ensures var done := Next(g, Finish(token, now, retentionMs, Some(response)));
      var end := Run(done, later);
      && end.row == done.row
      && forall i :: |done.log| <= i < |end.log| ==> ToldStoredResponse(end.log[i], g.row.value.fingerprint, response)
  {
    ReplayWindow(Next(g, Finish(token, now, retentionMs, Some(response))), later);
  }

  /** After that time the next acquisition of anybody succeeds. */
  lemma CompletionExpires(g: World, token: Token, now: Time, retentionMs: int, response: string, q: Request)
    requires |Next(g, Finish(token, now, retentionMs, Some(response))).log| > |g.log|
    requires q.Acquire? && q.now >= now + retentionMs && q.token !in g.used
    requires DurationEnd(q.now, q.leaseMs).Some? && DurationEnd(q.now, q.retentionMs).Some?
    ensures var end := Next(Next(g, Finish(token, now, retentionMs, Some(response))), q);
      && end.log[|end.log| - 1] == AcquireEvent(q.token, q.fingerprint, Acquired)
      && end.row == Some(Record(q.fingerprint, Processing, q.token, q.now + q.leaseMs, q.now + q.leaseMs))
  {
  }

  // --------------------------------------------------------------------------- history

  /** What the history says about the key. */
  datatype Standing =
    | Vacant
    | Held(token: Token, fingerprint: string)
    | Settled(token: Token, fingerprint: string, response: Option<string>)

  function StandingAfter(log: seq<Event>): Standing
    decreases |log|
  {
    if |log| == 0 then Vacant
    else
      match log[|log| - 1]
      case AcquireEvent(token, fingerprint, outcome) =>
        if outcome.Acquired? then Held(token, fingerprint) else StandingAfter(log[..|log| - 1])
      case RenewEvent(_) => StandingAfter(log[..|log| - 1])
      case FinishEvent(token, fingerprint, response) => Settled(token, fingerprint, response)
  }

  /** Which standing each kind of event needs just before it. */
  predicate Fits(before: Standing, e: Event) {
    match e
    case AcquireEvent(_, fingerprint, outcome) =>
      (match outcome
       case Acquired => true
       case Replay(response) => before.Settled? && before.fingerprint == fingerprint && before.response == Some(response)
       case FailedBefore => before.Settled? && before.fingerprint == fingerprint && before.response.None?
       case InProgress => before.Held? && before.fingerprint == fingerprint
       case Conflict => !before.Vacant? && before.fingerprint != fingerprint)
    case RenewEvent(token) => before.Held? && before.token == token
    case FinishEvent(token, fingerprint, _) => before == Held(token, fingerprint)
  }

  predicate AllFit(log: seq<Event>) {
    forall i :: 0 <= i < |log| ==> Fits(StandingAfter(log[..i]), log[i])
  }

  predicate RowStands(row: Option<Record>, standing: Standing) {
    match standing
    case Vacant => row.None?
    case Held(token, fingerprint) =>
      && row.Some? && row.value.state.Processing? && row.value.leaseToken == token && row.value.fingerprint == fingerprint
      && row.value.expiresAt == row.value.leaseExpiresAt
    case Settled(token, fingerprint, response) =>
      && row.Some? && row.value.leaseToken == token && row.value.fingerprint == fingerprint
      && row.value.state == (if response.Some? then Completed(response.value) else Failed)
  }

  predicate TokensFresh(log: seq<Event>) {
    forall i, j :: 0 <= i < j < |log| && log[i].AcquireEvent? && log[j].AcquireEvent? ==> log[i].token != log[j].token
  }

  predicate Inv(g: World) {
    && RowStands(g.row, StandingAfter(g.log)) && AllFit(g.log) && TokensFresh(g.log)
    && (forall i :: 0 <= i < |g.log| && g.log[i].AcquireEvent? ==> g.log[i].token in g.used)
  }

  lemma Extend(log: seq<Event>, e: Event)
    requires AllFit(log) && Fits(StandingAfter(log), e)
    ensures AllFit(log + [e])
    ensures StandingAfter(log + [e]) ==
      if e.FinishEvent? then Settled(e.token, e.fingerprint, e.response)
      else if e.AcquireEvent? && e.outcome.Acquired? then Held(e.token, e.fingerprint) else StandingAfter(log)
  {
    var log' := log + [e];
    assert log'[..|log|] == log;
    forall i | 0 <= i < |log'| ensures Fits(StandingAfter(log'[..i]), log'[i]) {
      if i < |log| {
        assert log'[..i] == log[..i];
      }
    }
  }

  lemma NextKeeps(g: World, q: Request)
    requires Inv(g)
    ensures Inv(Next(g, q))
  {
    hide AllFit, StandingAfter;
    var g' := Next(g, q);
    if g'.log != g.log {
      Extend(g.log, g'.log[|g.log|]);
    }
  }

  lemma {:induction false} RunKeeps(g: World, requests: seq<Request>)
    requires Inv(g)
    ensures Inv(Run(g, requests))
    decreases |requests|
  {
    hide Inv, Next;
    if |requests| > 0 {
      NextKeeps(g, requests[0]);
      RunKeeps(Next(g, requests[0]), requests[1..]);
    }
  }

  // ------------------------------------------------------------------------ theorems

  predicate Acquires(e: Event) {
    e.AcquireEvent? && e.outcome.Acquired?
  }

  /** The event behind a standing, with nothing after it that would have changed it. */
  predicate StandsSince(log: seq<Event>, k: int) {
    0 <= k < |log| && (Acquires(log[k]) || log[k].FinishEvent?)
    && forall j :: k < j < |log| ==> !Acquires(log[j]) && !log[j].FinishEvent?
  }

  lemma {:induction false} StandingHasSource(log: seq<Event>) returns (k: int)
    requires !StandingAfter(log).Vacant?
    ensures StandsSince(log, k)
    ensures match StandingAfter(log)
      case Held(token, fingerprint) => log[k] == AcquireEvent(token, fingerprint, Acquired)
      case Settled(token, fingerprint, response) => log[k] == FinishEvent(token, fingerprint, response)
    decreases |log|
  {
    var last := log[|log| - 1];
    if Acquires(last) || last.FinishEvent? {
      k := |log| - 1;
    } else {
      k := StandingHasSource(log[..|log| - 1]);
    }
  }

  /** A replayed response is the one stored by the latest completion, for the same request, with no acquisition since. */
  lemma ReplayIsFaithful(g: World, requests: seq<Request>, m: nat)
    requires Initial(g)
    requires var log := Run(g, requests).log; m < |log| && log[m].AcquireEvent? && log[m].outcome.Replay?
    ensures var log := Run(g, requests).log;
      exists k :: StandsSince(log[..m], k) && log[k].FinishEvent? && log[k].fingerprint == log[m].fingerprint
        && log[k].response == Some(log[m].outcome.response)
  {
    RunKeeps(g, requests);
    var log := Run(g, requests).log;
    assert Fits(StandingAfter(log[..m]), log[m]);
    var k := StandingHasSource(log[..m]);
    assert log[..m][k] == log[k];
  }

  /**
   * Stale holders: a renewal or completion by a token is accepted only if that token made the
   * latest acquisition and nobody completed since, so every acquisition is finished at most once.
   */
  lemma OnlyLatestHolderActs(g: World, requests: seq<Request>, m: nat)
    requires Initial(g)
    requires var log := Run(g, requests).log; m < |log| && !log[m].AcquireEvent?
    ensures var log := Run(g, requests).log;
      exists k :: StandsSince(log[..m], k) && Acquires(log[k]) && log[k].token == log[m].token
        && (log[m].FinishEvent? ==> log[k].fingerprint == log[m].fingerprint)
  {
    RunKeeps(g, requests);
    var log := Run(g, requests).log;
    assert Fits(StandingAfter(log[..m]), log[m]);
    var k := StandingHasSource(log[..m]);
    assert log[..m][k] == log[k];
  }

  /**
   * When a key that was ever acquired can be acquired again: after its expiry, or to retry a
   * recorded failure of the same request. A lapsed lease needs no case of its own, because while a
   * request is being processed the row expires together with its lease.
   */
  lemma SecondAcquisitionNeeds(g: World, requests: seq<Request>, q: Request)
    requires Initial(g) && q.Acquire?
    requires Run(g, requests).row.Some?
    ensures var row := Run(g, requests).row.value;
      AcquireRow(Some(row), q.fingerprint, q.token, q.now, q.now + q.leaseMs, q.retryFailed).0.Acquired? <==>
        (row.expiresAt <= q.now || (row.fingerprint == q.fingerprint && row.state.Failed? && q.retryFailed))
  {
    RunKeeps(g, requests);
  }

  predicate Accepts(g: World, q: Request) {
    var after := Next(g, q);
    |after.log| > |g.log| && (q.Acquire? ==> after.log[|g.log|].outcome.Acquired?)
  }

  /** A request with a token nobody used and representable times. */
  predicate Fresh(g: World, q: Request) {
    q.Acquire? && q.token !in g.used && DurationEnd(q.now, q.leaseMs).Some? && DurationEnd(q.now, q.retentionMs).Some?
  }

  /**
   * While a request is being processed there is at every clock reading exactly one of two: its holder
   * may still renew or finish, or whoever comes may take the key over.
   */
  lemma HolderOrSuccessor(g: World, requests: seq<Request>, next: Request, finish: Request, renew: Request)
    requires Initial(g)
    requires var end := Run(g, requests);
      && end.row.Some? && end.row.value.state.Processing? && Fresh(end, next)
      && finish.Finish? && finish.token == end.row.value.leaseToken && finish.now == next.now && DurationEnd(finish.now, finish.retentionMs).Some?
      && renew.Renew? && renew.token == end.row.value.leaseToken && renew.now == next.now && DurationEnd(renew.now, renew.leaseMs).Some?
    ensures var end := Run(g, requests);
      && (Accepts(end, finish) <==> !Accepts(end, next)) && (Accepts(end, renew) <==> !Accepts(end, next))
      && (Accepts(end, next) ==> Next(end, next).row == Some(Record(next.fingerprint, Processing, next.token, next.now + next.leaseMs, next.now + next.leaseMs)))
  {
    hide Run;
    RunKeeps(g, requests);
  }

  function Count(log: seq<Event>, p: Event -> bool): nat
    decreases |log|
  {
    if |log| == 0 then 0 else Count(log[..|log| - 1], p) + if p(log[|log| - 1]) then 1 else 0
  }

  predicate Finishes(e: Event) {
    e.FinishEvent?
  }

  lemma {:induction false} FittingLogFinishes(log: seq<Event>)
    requires AllFit(log)
    ensures Count(log, Finishes) + (if StandingAfter(log).Held? then 1 else 0) <= Count(log, Acquires)
    decreases |log|
  {
    if |log| > 0 {
      var init := log[..|log| - 1];
      assert forall i :: 0 <= i < |init| ==> init[..i] == log[..i];
      FittingLogFinishes(init);
      assert Fits(StandingAfter(log[..|log| - 1]), log[|log| - 1]);
    }
  }

  /** Over every run completions and failures together never outnumber acquisitions. */
  lemma FinishedAtMostAcquired(g: World, requests: seq<Request>)
    requires Initial(g)
    ensures Count(Run(g, requests).log, Finishes) <= Count(Run(g, requests).log, Acquires)
  {
    hide Run, Next;
    RunKeeps(g, requests);
    FittingLogFinishes(Run(g, requests).log);
  }
}
