/**
 * Every run of processors and consumers on one message (packages/reliability/src/testing.ts:62-178,
 * packages/reliability/src/index.ts:257-271, 377-407). The batch claim of an outbox run and every
 * transition are one atomic statement; the durable inbox claims in three
 * (packages/reliability-drizzle/src/base.ts:69-82), between which anything may happen; an
 * administrator may revive a dead message (packages/reliability-drizzle/src/dead-letter.ts:61-66).
 * Clock readings are arbitrary.
 *
 * A consumer takes a fresh token per message. An outbox run takes one fresh token and keeps it for
 * all its claims: what stops it from claiming a message twice is only the list of ids it already
 * claimed, which it hands to the store as `excludeIds`.
 */
module MessageLeases {
  import opened Options
  import opened MessageStore

  datatype Consumer = Idle | Selecting(token: nat, now: Time, until: Time) | Updating(token: nat, now: Time, until: Time)

  datatype OutboxRun = OutboxRun(token: nat, processedIds: seq<string>)

  /**
   * Claimed: from here the handler of that claim may run. Acted: the store accepted a transition.
   * `now` is the clock reading that the claim or the transition came with.
   */
  datatype Event =
    | AppendEvent(availableAt: Time)
    | ClaimEvent(token: nat, now: Time, until: Time)
    | ActEvent(token: nat, now: Time, change: Change)
    | ReviveEvent(availableAt: Time)

  /** `spent` are the tokens handed out so far. */
  datatype World = World(key: Key, row: Option<Row>, runs: map<nat, OutboxRun>, consumers: map<nat, Consumer>, spent: set<nat>, log: seq<Event>)

  /** `claimed` are the ids of the other messages in a batch; `cut` says that the limit cut this one off. */
  datatype Action =
    | Append(envelope: Envelope, availableAt: Time)
    | BeginRun(r: nat, token: nat)
    | BatchClaim(r: nat, now: Time, until: Time, kinds: seq<string>, claimed: seq<string>, cut: bool)
    | InboxInsert(c: nat, envelope: Envelope, token: nat, now: Time, until: Time)
    | InboxSelect(c: nat)
    | InboxUpdate(c: nat)
    | Vanish(c: nat)
    | Act(token: nat, now: Time, change: Change)
    | Revive(availableAt: Time)

  function ConsumerOf(g: World, c: nat): Consumer {
    if c in g.consumers then g.consumers[c] else Idle
  }

  function Goto(g: World, c: nat, consumer: Consumer): World {
    g.(consumers := g.consumers[c := consumer])
  }

  function Taken(g: World, row: Row, token: nat, now: Time, until: Time): World {
    g.(row := Some(Take(row, LeaseToken(token, row.envelope.id), until)), log := g.log + [ClaimEvent(token, now, until)])
  }

  /** The store's batch claim, as far as it concerns this message. */
  function StoreClaim(g: World, o: ClaimOptions): World {
    if g.row.Some? && Wanted(g.key, g.row.value, o) then Taken(g, g.row.value, o.token, o.now, o.until) else g
  }

  /** One turn of a run: it excludes what it has claimed, and remembers what it gets. */
  function RunClaim(g: World, r: nat, now: Time, until: Time, kinds: seq<string>, claimed: seq<string>, cut: bool): World
    requires r in g.runs
  {
    var run := g.runs[r];
    var o := ClaimOptions(run.token, 1, now, until, kinds, run.processedIds);
    var taken := if cut then g else StoreClaim(g, o);
    taken.(runs := g.runs[r := run.(processedIds := run.processedIds + claimed + if taken.log != g.log then [g.key.id] else [])])
  }

  function Next(g: World, a: Action): World {
    match a
    case Append(envelope, availableAt) =>
      if g.row.Some? || g.key != Key(Outbox, envelope.id) then g
      else g.(row := Some(Row(envelope, Pending, 0, availableAt, Some(availableAt), None)), log := g.log + [AppendEvent(availableAt)])
    case BeginRun(r, token) =>
      if token in g.spent then g else g.(runs := g.runs[r := OutboxRun(token, [])], spent := g.spent + {token})
    case BatchClaim(r, now, until, kinds, claimed, cut) =>
      if r in g.runs then RunClaim(g, r, now, until, kinds, claimed, cut) else g
    case InboxInsert(c, envelope, token, now, until) =>
      if !ConsumerOf(g, c).Idle? || token in g.spent || g.key != Key(Inbox, envelope.id) then g
      else if g.row.None? then Taken(g, Row(envelope, Pending, 0, now, None, None), token, now, until).(spent := g.spent + {token})
      else Goto(g, c, Selecting(token, now, until)).(spent := g.spent + {token})
    case InboxSelect(c) =>
      var p := ConsumerOf(g, c);
      if !p.Selecting? then g
      else if g.row.None? || Terminal(g.row.value) || !Claimable(g.row.value, p.now) then Goto(g, c, Idle)
      else Goto(g, c, Updating(p.token, p.now, p.until))
    case InboxUpdate(c) =>
      var p := ConsumerOf(g, c);
      if !p.Updating? then g
      else if g.row.None? || !Claimable(g.row.value, p.now) then Goto(g, c, Idle)
      else Taken(Goto(g, c, Idle), g.row.value, p.token, p.now, p.until)
    case Vanish(c) => Goto(g, c, Idle)
    case Act(token, now, change) =>
      if g.row.None? || !LeasedBy(g.row.value, LeaseToken(token, g.row.value.envelope.id), now) then g
      else g.(row := Some(Changed(g.row.value, change)), log := g.log + [ActEvent(token, now, change)])
    case Revive(availableAt) =>
      if g.row.None? || !g.row.value.state.Dead? then g
      else g.(row := Some(g.row.value.(state := Pending, availableAt := availableAt, lease := None)), log := g.log + [ReviveEvent(availableAt)])
  }

  function Run(g: World, actions: seq<Action>): World
    decreases |actions|
  {
    if |actions| == 0 then g else Run(Next(g, actions[0]), actions[1..])
  }

  predicate Initial(g: World) {
    g.row.None? && g.runs == map[] && g.consumers == map[] && g.spent == {} && g.log == []
  }

  // ---------------------------------------------------------------------- the history

  /** What the history so far says: free from a time on, or held until a time that renewals moved. */
  datatype Standing = Absent | Free(from: Time) | Held(token: nat, until: Time) | Closed(change: Change)

  function StandingThen(before: Standing, e: Event): Standing {
    match e
    case AppendEvent(availableAt) => Free(availableAt)
    case ClaimEvent(token, _, until) => Held(token, until)
    case ActEvent(_, _, change) =>
      (match change
       case Renew(until) => if before.Held? && before.until < until then Held(before.token, until) else before
       case Retry(availableAt) => Free(availableAt)
       case _ => Closed(change))
    case ReviveEvent(availableAt) => Free(availableAt)
  }

  function StandingAfter(log: seq<Event>): Standing
    decreases |log|
  {
    if |log| == 0 then Absent else StandingThen(StandingAfter(log[..|log| - 1]), log[|log| - 1])
  }

  function Claims(log: seq<Event>): nat {
    if |log| == 0 then 0 else Claims(log[..|log| - 1]) + if log[|log| - 1].ClaimEvent? then 1 else 0
  }

  /** A claim waits for the time the message is free from, or for the end of the lease it takes over. */
  predicate Fits(before: Standing, e: Event) {
    match e
    case AppendEvent(_) => before.Absent?
    case ClaimEvent(_, now, _) =>
      (match before
       case Absent => true
       case Free(from) => from <= now
       case Held(_, until) => until <= now
       case Closed(_) => false)
    case ActEvent(token, now, _) => before.Held? && before.token == token && now < before.until
    case ReviveEvent(_) => before == Closed(GiveUp)
  }

  predicate AllFit(log: seq<Event>) {
    forall i :: 0 <= i < |log| ==> Fits(StandingAfter(log[..i]), log[i])
  }

  predicate RowStands(row: Option<Row>, standing: Standing) {
    match standing
    case Absent => row.None?
    case Free(from) => row.Some? && row.value.state.Pending? && row.value.availableAt == from
    case Held(token, until) =>
      && row.Some? && row.value.state.Processing?
      && row.value.lease == Some(Lease(LeaseToken(token, row.value.envelope.id), until))
    case Closed(change) => row.Some? && (change.Deliver? || change.GiveUp?) && row.value.state == if change.Deliver? then Delivered else Dead
  }

  predicate TokensServeOnce(log: seq<Event>) {
    forall i, j :: 0 <= i < j < |log| && log[i].ClaimEvent? && log[j].ClaimEvent? ==> log[i].token != log[j].token
  }

  predicate PendingToken(p: Consumer, token: nat) {
    !p.Idle? && p.token == token
  }

  predicate ConsumersFresh(g: World) {
    && (forall c, i :: c in g.consumers && !g.consumers[c].Idle? && 0 <= i < |g.log| && g.log[i].ClaimEvent? ==> g.log[i].token != g.consumers[c].token)
    && (forall c, d :: c in g.consumers && d in g.consumers && c != d && !g.consumers[c].Idle? ==> !PendingToken(g.consumers[d], g.consumers[c].token))
    && (forall c :: c in g.consumers && !g.consumers[c].Idle? ==> g.consumers[c].token in g.spent)
  }

  /** A run whose token has served this message excludes the message from now on. */
  predicate RunsExclude(g: World) {
    && (forall r, i :: r in g.runs && 0 <= i < |g.log| && g.log[i].ClaimEvent? && g.log[i].token == g.runs[r].token ==> g.key.id in g.runs[r].processedIds)
    && (forall r, s :: r in g.runs && s in g.runs && r != s ==> g.runs[r].token != g.runs[s].token)
    && (forall r :: r in g.runs ==> g.runs[r].token in g.spent)
    && (forall r, c :: r in g.runs && c in g.consumers ==> !PendingToken(g.consumers[c], g.runs[r].token))
  }

  predicate Inv(g: World) {
    && RowStands(g.row, StandingAfter(g.log)) && AllFit(g.log) && TokensServeOnce(g.log) && ConsumersFresh(g) && RunsExclude(g)
    && (g.row.Some? ==> g.row.value.envelope.id == g.key.id)
    && (if g.row.Some? then g.row.value.attempts == Claims(g.log) else g.log == [])
    && (forall i :: 0 <= i < |g.log| && g.log[i].ClaimEvent? ==> g.log[i].token in g.spent)
  }

  lemma Extend(log: seq<Event>, e: Event)
    requires AllFit(log) && Fits(StandingAfter(log), e)
    ensures AllFit(log + [e]) && Claims(log + [e]) == Claims(log) + if e.ClaimEvent? then 1 else 0
    ensures StandingAfter(log + [e]) == StandingThen(StandingAfter(log), e)
  {
    var log' := log + [e];
    assert log'[..|log|] == log;
    forall i | 0 <= i < |log'| ensures Fits(StandingAfter(log'[..i]), log'[i]) {
      if i < |log| {
        assert log'[..i] == log[..i];
      }
    }
  }

  lemma NoClaims()
    ensures Claims([]) == 0 && StandingAfter([]) == Absent
  {
  }

  predicate Unserved(g: World, token: nat) {
    && (forall i :: 0 <= i < |g.log| && g.log[i].ClaimEvent? ==> g.log[i].token != token)
    && (forall c :: c in g.consumers ==> !PendingToken(g.consumers[c], token))
  }

  /** Whoever else holds the token has excluded the message. */
  predicate ExcludedBy(g: World, token: nat) {
    token in g.spent && forall r :: r in g.runs && g.runs[r].token == token ==> g.key.id in g.runs[r].processedIds
  }

  lemma TakenKeeps(g: World, row: Row, token: nat, now: Time, until: Time)
    requires Inv(g) && Claimable(row, now) && Unserved(g, token) && ExcludedBy(g, token)
    requires (g.row == Some(row) || (g.row.None? && row.attempts == 0)) && row.envelope.id == g.key.id
    ensures Inv(Taken(g, row, token, now, until))
  {
    hide AllFit, StandingAfter, Claims;
    assert Claims([]) == 0 by { NoClaims(); }
    Extend(g.log, ClaimEvent(token, now, until));
  }

  lemma ConsumerKeeps(g: World, c: nat, p: Consumer)
    requires Inv(g)
    requires !p.Idle? ==> p.token in g.spent && Unserved(Goto(g, c, Idle), p.token) && forall r :: r in g.runs ==> g.runs[r].token != p.token
    ensures Inv(Goto(g, c, p))
  {
    hide AllFit, StandingAfter, Claims, TokensServeOnce, ConsumersFresh, RunsExclude, RowStands, Unserved;
    ConsumerFresh(g, c, p);
    ConsumerExcluded(g, c, p);
  }

  lemma ConsumerFresh(g: World, c: nat, p: Consumer)
    requires ConsumersFresh(g) && (!p.Idle? ==> p.token in g.spent && Unserved(Goto(g, c, Idle), p.token))
    ensures ConsumersFresh(Goto(g, c, p))
  {
    var idle, g' := Goto(g, c, Idle), Goto(g, c, p);
    forall d, e | d in g'.consumers && e in g'.consumers && d != e && !g'.consumers[d].Idle? ensures !PendingToken(g'.consumers[e], g'.consumers[d].token) {
      if d == c {
        assert idle.consumers[e] == g.consumers[e];
      } else if e == c {
        assert idle.consumers[d] == g.consumers[d];
      }
    }
  }

  lemma ConsumerExcluded(g: World, c: nat, p: Consumer)
    requires RunsExclude(g) && (!p.Idle? ==> forall r :: r in g.runs ==> g.runs[r].token != p.token)
    ensures RunsExclude(Goto(g, c, p))
  {
  }

  lemma RunsKeep(g: World, r: nat, run: OutboxRun)
    requires Inv(g) && run.token in g.spent
    requires forall i :: 0 <= i < |g.log| && g.log[i].ClaimEvent? && g.log[i].token == run.token ==> g.key.id in run.processedIds
    requires forall s :: s in g.runs && s != r ==> g.runs[s].token != run.token
    requires forall c :: c in g.consumers ==> !PendingToken(g.consumers[c], run.token)
    ensures Inv(g.(runs := g.runs[r := run]))
  {
    hide AllFit, StandingAfter, Claims, TokensServeOnce;
  }

  lemma SpendKeeps(g: World, token: nat)
    requires Inv(g)
    ensures Inv(g.(spent := g.spent + {token}))
    ensures token !in g.spent ==> Unserved(g, token) && forall r :: r in g.runs ==> g.runs[r].token != token
  {
    hide AllFit, StandingAfter, Claims, TokensServeOnce;
  }

  lemma LogKeeps(g: World, a: Action)
    requires Inv(g) && (a.Act? || a.Revive? || a.Append?)
    ensures Inv(Next(g, a))
  {
    hide AllFit, StandingAfter, Claims;
    assert StandingAfter([]) == Absent && Claims([]) == 0 by { NoClaims(); }
    var g' := Next(g, a);
    if g'.log != g.log {
      Extend(g.log, g'.log[|g.log|]);
    }
  }

  /** The token of a run is new for this message exactly because the store honours `excludeIds`. */
  lemma RunClaimKeeps(g: World, r: nat, now: Time, until: Time, kinds: seq<string>, claimed: seq<string>, cut: bool)
    requires Inv(g) && r in g.runs
    ensures Inv(RunClaim(g, r, now, until, kinds, claimed, cut))
  {
    hide AllFit, StandingAfter, Claims, TokensServeOnce, RowStands;
    var run := g.runs[r];
    var o := ClaimOptions(run.token, 1, now, until, kinds, run.processedIds);
    var takes := !cut && g.row.Some? && Wanted(g.key, g.row.value, o);
    var more := run.(processedIds := run.processedIds + claimed + if takes then [g.key.id] else []);
    assert g.key.id in run.processedIds ==> g.key.id in more.processedIds;
    RunsKeep(g, r, more);
    if takes {
      var ready := g.(runs := g.runs[r := more]);
      assert g.key.id in more.processedIds;
      TakenKeeps(ready, g.row.value, run.token, now, until);
    }
  }

  lemma InsertKeeps(g: World, a: Action)
    requires Inv(g) && a.InboxInsert?
    ensures Inv(Next(g, a))
  {
    hide AllFit, StandingAfter, Claims, TokensServeOnce, Taken, RowStands;
    if ConsumerOf(g, a.c).Idle? && a.token !in g.spent && g.key == Key(Inbox, a.envelope.id) {
      SpendKeeps(g, a.token);
      var spending := g.(spent := g.spent + {a.token});
      if g.row.None? {
        TakenKeeps(spending, Row(a.envelope, Pending, 0, a.now, None, None), a.token, a.now, a.until);
        assert Next(g, a) == Taken(spending, Row(a.envelope, Pending, 0, a.now, None, None), a.token, a.now, a.until) by { TakenSpent(g, Row(a.envelope, Pending, 0, a.now, None, None), a.token, a.now, a.until); }
      } else {
        ConsumerKeeps(spending, a.c, Selecting(a.token, a.now, a.until));
      }
    }
  }

  lemma TakenSpent(g: World, row: Row, token: nat, now: Time, until: Time)
    ensures Taken(g, row, token, now, until).(spent := g.spent + {token}) == Taken(g.(spent := g.spent + {token}), row, token, now, until)
  {
  }

  lemma NextKeeps(g: World, a: Action)
    requires Inv(g)
    ensures Inv(Next(g, a))
  {
    hide AllFit, StandingAfter, Claims, TokensServeOnce, Taken, RunClaim;
    match a
    case Append(_, _) => LogKeeps(g, a);
    case BeginRun(r, token) =>
      if token !in g.spent {
        SpendKeeps(g, token);
        RunsKeep(g.(spent := g.spent + {token}), r, OutboxRun(token, []));
      }
    case BatchClaim(r, now, until, kinds, claimed, cut) =>
      if r in g.runs { RunClaimKeeps(g, r, now, until, kinds, claimed, cut); }
    case InboxInsert(_, _, _, _, _) => InsertKeeps(g, a);
    case InboxSelect(c) =>
      var p := ConsumerOf(g, c);
      if p.Selecting? {
        ConsumerKeeps(g, c, Idle);
        ConsumerKeeps(g, c, Updating(p.token, p.now, p.until));
      }
    case InboxUpdate(c) =>
      var p := ConsumerOf(g, c);
      if p.Updating? {
        ConsumerKeeps(g, c, Idle);
        var idle := Goto(g, c, Idle);
        assert Unserved(idle, p.token);
        if g.row.Some? && Claimable(g.row.value, p.now) { TakenKeeps(idle, g.row.value, p.token, p.now, p.until); }
      }
    case Vanish(c) => ConsumerKeeps(g, c, Idle);
    case Act(_, _, _) => LogKeeps(g, a);
    case Revive(_) => LogKeeps(g, a);
  }

  lemma {:induction false} RunKeeps(g: World, actions: seq<Action>)
    requires Inv(g)
    ensures Inv(Run(g, actions))
    decreases |actions|
  {
    hide Inv, Next;
    if |actions| > 0 {
      NextKeeps(g, actions[0]);
      RunKeeps(Next(g, actions[0]), actions[1..]);
    }
  }

  // ------------------------------------------------------------------------- theorems

  /** A message's attempts are its successful claims. */
  lemma AttemptsAreClaims(g: World, actions: seq<Action>)
    requires Initial(g)
    ensures Run(g, actions).row.Some? ==> Run(g, actions).row.value.attempts == Claims(Run(g, actions).log)
    ensures Run(g, actions).row.None? ==> Run(g, actions).log == []
  {
    hide Run;
    RunKeeps(g, actions);
  }

  /** No token serves two claims of one message. */
  lemma TokenServesOnce(g: World, actions: seq<Action>, i: nat, j: nat)
    requires Initial(g)
    requires var log := Run(g, actions).log; i < |log| && j < |log| && log[i].ClaimEvent? && log[j].ClaimEvent? && log[i].token == log[j].token
    ensures i == j
  {
    hide Run, AllFit, StandingAfter, Claims;
    assert Inv(g) by { InitialInv(g); }
    RunKeeps(g, actions);
  }

  lemma InitialInv(g: World)
    requires Initial(g)
    ensures Inv(g)
  {
  }

  predicate OnlyRenewals(log: seq<Event>, k: int, m: int, token: nat) {
    forall j :: k < j < m && 0 <= j < |log| ==> log[j].ActEvent? && log[j].token == token && log[j].change.Renew?
  }

  /** When the lease that the claim `k` took ends, after the renewals before `m`. */
  function LeaseEnd(log: seq<Event>, k: int, m: int): Time
    requires 0 <= k < m <= |log| && log[k].ClaimEvent?
    decreases m
  {
    if m == k + 1 then log[k].until
    else
      var before := LeaseEnd(log, k, m - 1);
      if log[m - 1].ActEvent? && log[m - 1].change.Renew? then Max(before, log[m - 1].change.until) else before
  }

  lemma {:induction false} HeldSince(log: seq<Event>, m: int) returns (k: int)
    requires AllFit(log) && 0 <= m <= |log| && StandingAfter(log[..m]).Held?
    ensures 0 <= k < m && log[k].ClaimEvent? && log[k].token == StandingAfter(log[..m]).token
    ensures OnlyRenewals(log, k, m, log[k].token) && LeaseEnd(log, k, m) == StandingAfter(log[..m]).until
    decreases m
  {
    assert m > 0;
    assert log[..m][..m - 1] == log[..m - 1];
    assert Fits(StandingAfter(log[..m - 1]), log[m - 1]);
    if log[m - 1].ClaimEvent? {
      k := m - 1;
    } else {
      k := HeldSince(log, m - 1);
    }
  }

  lemma {:induction false} HeldFrom(log: seq<Event>, k: int, m: int)
    requires 0 <= k < m <= |log| && log[k].ClaimEvent? && OnlyRenewals(log, k, m, log[k].token)
    ensures StandingAfter(log[..m]) == Held(log[k].token, LeaseEnd(log, k, m))
    decreases m
  {
    assert log[..m][..m - 1] == log[..m - 1];
    if k < m - 1 {
      HeldFrom(log, k, m - 1);
    }
  }

  lemma RunFits(g: World, actions: seq<Action>)
    requires Initial(g)
    ensures AllFit(Run(g, actions).log)
  {
    hide Run;
    InitialInv(g);
    RunKeeps(g, actions);
  }

  /**
   * Only the token of the latest claim can act, since that claim there were only its own renewals,
   * and the lease that they extended had not run out.
   */
  lemma OnlyLatestClaimActs(g: World, actions: seq<Action>, m: nat) returns (k: int)
    requires Initial(g)
    requires var log := Run(g, actions).log; m < |log| && log[m].ActEvent?
    ensures var log := Run(g, actions).log;
      && 0 <= k < m && log[k].ClaimEvent? && log[k].token == log[m].token
      && OnlyRenewals(log, k, m, log[m].token) && log[m].now < LeaseEnd(log, k, m)
  {
    hide Run, StandingAfter;
    RunFits(g, actions);
    var log := Run(g, actions).log;
    assert Fits(StandingAfter(log[..m]), log[m]);
    k := HeldSince(log, m);
  }

  /** The time from which an event leaves the message free. */
  function FreeFrom(e: Event): Option<Time> {
    match e
    case AppendEvent(availableAt) => Some(availableAt)
    case ReviveEvent(availableAt) => Some(availableAt)
    case ActEvent(_, _, Retry(availableAt)) => Some(availableAt)
    case _ => None
  }

  /**
   * After an append, a retry or a revival the next thing that happens to the message is a claim, and
   * it comes with a clock reading at or after the time that event set.
   */
  lemma RetryWaits(g: World, actions: seq<Action>, k: nat)
    requires Initial(g)
    requires var log := Run(g, actions).log; k + 1 < |log| && FreeFrom(log[k]).Some?
    ensures var log := Run(g, actions).log; log[k + 1].ClaimEvent? && FreeFrom(log[k]).value <= log[k + 1].now
  {
    hide Run;
    RunFits(g, actions);
    var log := Run(g, actions).log;
    assert Fits(StandingAfter(log[..k + 1]), log[k + 1]);
    assert log[..k + 1][..k] == log[..k];
  }

  /** Another claim takes a held message over only at or after the end of the lease, renewals included. */
  lemma TakeoverWaits(g: World, actions: seq<Action>, k: nat, m: nat)
    requires Initial(g)
    requires var log := Run(g, actions).log;
      k < m < |log| && log[k].ClaimEvent? && log[m].ClaimEvent? && OnlyRenewals(log, k, m, log[k].token)
    ensures var log := Run(g, actions).log; LeaseEnd(log, k, m) <= log[m].now
  {
    hide Run, StandingAfter;
    RunFits(g, actions);
    var log := Run(g, actions).log;
    assert Fits(StandingAfter(log[..m]), log[m]);
    HeldFrom(log, k, m);
  }

  /** The history leaves the message to whoever comes at `now`. */
  predicate Ready(standing: Standing, now: Time) {
    (standing.Free? && standing.from <= now) || (standing.Held? && standing.until <= now)
  }

  /**
   * A turn of a run gets the message exactly when it asks for its kind, has not claimed it, the limit
   * reaches it, and the message is free or its lease has run out; a transition is accepted exactly
   * from the token of the latest claim before the end of its lease.
   */
  lemma ClaimsAndActsExact(g: World, actions: seq<Action>, r: nat, now: Time, until: Time, kinds: seq<string>, claimed: seq<string>, token: nat, change: Change)
    requires Initial(g) && r in Run(g, actions).runs
    ensures var w := Run(g, actions);
      var standing := StandingAfter(w.log);
      && (Next(w, BatchClaim(r, now, until, kinds, claimed, true)).log == w.log)
      && (Next(w, BatchClaim(r, now, until, kinds, claimed, false)).log == w.log + [ClaimEvent(w.runs[r].token, now, until)] <==>
          && Ready(standing, now) && w.key.namespace.Outbox? && w.key.id !in w.runs[r].processedIds
          && (kinds == [] || (w.row.Some? && w.row.value.envelope.kind in kinds)))
      && (Next(w, Act(token, now, change)).log == w.log + [ActEvent(token, now, change)] <==>
          standing.Held? && standing.token == token && now < standing.until)
  {
    hide Run, StandingAfter, Claims, AllFit, TokensServeOnce, ConsumersFresh, RunsExclude;
    InitialInv(g);
    RunKeeps(g, actions);
  }

  /** A consumer that nobody disturbs gets the message exactly when it is new to the inbox, free, or its lease has run out. */
  lemma InboxClaimExact(g: World, actions: seq<Action>, c: nat, envelope: Envelope, token: nat, now: Time, until: Time)
    requires Initial(g)
    requires var w := Run(g, actions); ConsumerOf(w, c).Idle? && token !in w.spent && w.key == Key(Inbox, envelope.id)
    ensures var w := Run(g, actions);
      var end := Next(Next(Next(w, InboxInsert(c, envelope, token, now, until)), InboxSelect(c)), InboxUpdate(c));
      && ConsumerOf(end, c).Idle?
      && end.log == w.log + if w.log == [] || Ready(StandingAfter(w.log), now) then [ClaimEvent(token, now, until)] else []
  {
    hide Run, StandingAfter, Claims, AllFit, TokensServeOnce, ConsumersFresh, RunsExclude;
    InitialInv(g);
    RunKeeps(g, actions);
    NoClaims();
    assert Run(g, actions).log == [] ==> Run(g, actions).row.None?;
  }

  lemma AfterClosing(log: seq<Event>, i: nat)
    requires AllFit(log) && 0 < i < |log|
    ensures log[i - 1].ActEvent? ==> log[i - 1].change.Renew? || log[i - 1].change.Retry? || (log[i - 1].change.GiveUp? && log[i].ReviveEvent?)
  {
    assert Fits(StandingAfter(log[..i]), log[i]);
  }

  /**
   * Delivered is absorbing: nothing is ever accepted after it, in particular no claim, so no handler
   * starts again. Dead is absorbing but for an administrator who revives the message.
   */
  lemma TerminalIsLast(g: World, actions: seq<Action>, k: nat)
    requires Initial(g)
    requires var log := Run(g, actions).log; k < |log| && log[k].ActEvent? && (log[k].change.Deliver? || log[k].change.GiveUp?)
    ensures var log := Run(g, actions).log;
      k == |log| - 1 || (log[k].change.GiveUp? && log[k + 1].ReviveEvent?)
    ensures k == |Run(g, actions).log| - 1 ==> Run(g, actions).row.Some? && Terminal(Run(g, actions).row.value)
  {
    hide Run, Claims;
    InitialInv(g);
    RunKeeps(g, actions);
    var log := Run(g, actions).log;
    if k + 1 < |log| {
      AfterClosing(log, k + 1);
    }
    assert log[..|log|] == log;
  }

  // ------------------------------------------------------------------ without excludeIds

  /** A run that excludes nothing and comes back after its lease ran out gets the same message with the same token again. */
  lemma WithoutExcludeIds(g: World)
    requires g == World(Key(Outbox, "m"), Some(Row(Envelope("m", "k", ""), Pending, 0, 0, Some(0), None)), map[0 := OutboxRun(7, [])], map[], {7}, [AppendEvent(0)])
    ensures var first := StoreClaim(g, ClaimOptions(7, 1, 10, 20, [], []));
      StoreClaim(first, ClaimOptions(7, 1, 30, 40, [], [])).log == [AppendEvent(0), ClaimEvent(7, 10, 20), ClaimEvent(7, 30, 40)]
    ensures var first := RunClaim(g, 0, 10, 20, [], [], false);
      first.log == [AppendEvent(0), ClaimEvent(7, 10, 20)] && RunClaim(first, 0, 30, 40, [], [], false).log == first.log
    ensures exists start, actions :: Initial(start) && Run(start, actions) == g
  {
    var start := World(Key(Outbox, "m"), None, map[], map[], {}, []);
    var actions := [Append(Envelope("m", "k", ""), 0), BeginRun(0, 7)];
    var g1 := Next(start, actions[0]);
    var g2 := Next(g1, actions[1]);
    assert actions[1..] == [actions[1]] && [actions[1]][1..] == [];
    assert Run(g2, []) == g2 && Run(g1, [actions[1]]) == g2 && Run(start, actions) == g2;
    assert g2 == g;
  }

  predicate SameClaim(g: World, g': World) {
    g.row.Some? && g'.row.Some? && g.row.value.lease.Some? && g'.row.value.lease.Some? && g.row.value.attempts == g'.row.value.attempts
  }

  lemma {:induction false} AttemptsGrow(g: World, actions: seq<Action>)
    requires g.row.Some?
    ensures Run(g, actions).row.Some? && Run(g, actions).row.value.attempts >= g.row.value.attempts
    decreases |actions|
  {
    if |actions| > 0 {
      AttemptsGrow(Next(g, actions[0]), actions[1..]);
    }
  }

  predicate NoLease(g: World) {
    g.row.Some? && g.row.value.lease.None? && !g.row.value.state.Processing?
  }

  lemma {:induction false} NoLeaseStays(g: World, actions: seq<Action>)
    requires NoLease(g) && Run(g, actions).row.Some? && Run(g, actions).row.value.attempts == g.row.value.attempts
    ensures NoLease(Run(g, actions))
    decreases |actions|
  {
    if |actions| > 0 {
      var g' := Next(g, actions[0]);
      AttemptsGrow(g', actions[1..]);
      NoLeaseStays(g', actions[1..]);
    }
  }

  /** As long as no new claim was made, a lease is never shortened and never changes hands. */
  lemma {:induction false} LeaseNeverShortens(g: World, actions: seq<Action>)
    requires SameClaim(g, Run(g, actions)) && g.row.value.state.Processing?
    ensures Run(g, actions).row.value.lease.value.until >= g.row.value.lease.value.until
    ensures Run(g, actions).row.value.lease.value.token == g.row.value.lease.value.token
    decreases |actions|
  {
    if |actions| > 0 {
      var g' := Next(g, actions[0]);
      AttemptsGrow(g', actions[1..]);
      if g'.row.value.lease.None? {
        NoLeaseStays(g', actions[1..]);
      } else {
        LeaseNeverShortens(g', actions[1..]);
      }
    }
  }
}
