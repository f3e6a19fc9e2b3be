/**
 * What a dead-letter operation does to its message and when
 * (packages/reliability-drizzle/src/dead-letter.ts:54-74, packages/reliability-drizzle/src/base.ts:102-104).
 */
module DeadLetterEffects {
  import opened Options
  import opened DeadLetter

  // ------------------------------------------------------------------ what a change is

  /** The message was dead, not discarded, and at the revision the request named. */
  predicate ReadyFor(d: Database, fp: Fingerprint) {
    && fp.key in d.messages
    && d.messages[fp.key].state == Dead && d.messages[fp.key].disposition == Active
    && d.messages[fp.key].revision == fp.revision
  }

  /** A retry makes it pending and active, a discard leaves it dead and discarded; either takes the next revision. */
  predicate ChangedAs(d: Database, d': Database, fp: Fingerprint) {
    && fp.key in d.messages && fp.key in d'.messages
    && d'.messages == d.messages[fp.key := d'.messages[fp.key]]
    && d'.messages[fp.key].revision == d.messages[fp.key].revision + 1
    && d'.messages[fp.key].birth == d.messages[fp.key].birth
    && (match fp.mutation
        case Retry(_) => d'.messages[fp.key].state == Pending && d'.messages[fp.key].disposition == Active
        case Discard => d'.messages[fp.key].state == Dead && d'.messages[fp.key].disposition == Discarded)
  }

  /** In every run an operation changes only a message that was ready for it, and changes it as named and nothing else. */
  lemma ChangeExact(start: Database, past: seq<Action>, a: Action, k: nat)
    requires Empty(start)
    requires var d := Run(start, past); |d.log| <= k < |Next(d, a).log| && Next(d, a).log[k].Changed?
    ensures var d := Run(start, past);
      var e := Next(d, a).log[k];
      && ReadyFor(d, e.fingerprint) && ChangedAs(d, Next(d, a), e.fingerprint)
      && e.outcome.key == e.fingerprint.key && e.outcome.revision == e.fingerprint.revision + 1
  {
    hide Run;
    ChangeEffect(Run(start, past), a, k);
  }

  lemma ChangeEffect(d: Database, a: Action, k: nat)
    requires |d.log| <= k < |Next(d, a).log| && Next(d, a).log[k].Changed?
    ensures var e := Next(d, a).log[k];
      && ReadyFor(d, e.fingerprint) && ChangedAs(d, Next(d, a), e.fingerprint)
      && e.outcome.key == e.fingerprint.key && e.outcome.revision == e.fingerprint.revision + 1
      && e.birth == d.messages[e.fingerprint.key].birth
  {
    hide Replay, SelectMarker, Prunable;
    if a.Step? {
      var caller := CallerOf(d, a.c);
      match caller
      case Reading(q, _) => if q.op in d.operations { ReplayOnlyAnswers(d, a.c, q); }
      case Rereading(q) => if q.op in d.operations { ReplayOnlyAnswers(d, a.c, q); }
      case Checking(q, now) => SelectAddsNothing(d, a.c, q, Diagnosing(q, now));
      case Reconciling(q) => SelectAddsNothing(d, a.c, q, Gone);
      case _ =>
    }
  }

  lemma ReplayOnlyAnswers(d: Database, c: nat, q: Request)
    requires q.op in d.operations
    ensures forall k :: |d.log| <= k < |Replay(d, c, q).log| ==> !Replay(d, c, q).log[k].Changed?
  {
  }

  lemma SelectAddsNothing(d: Database, c: nat, q: Request, missing: Caller)
    ensures SelectMarker(d, c, q, missing).log == d.log
  {
  }

  // ------------------------------------------------------------- an undisturbed first call

  function FirstCall(c: nat, q: Request, now: Time, steps: nat): seq<Action> {
    [Call(c, q, now)] + seq(steps, _ => Step(c))
  }

  lemma FreshUnmarked(d: Database, key: Key, op: OperationId)
    requires Inv(d) && op !in d.operations
    ensures !Marked(d, key, op)
  {
    hide Recorded, EvidenceOk, CallerOk, OperationOk, OncePerOperation, RevisionsIncrease, EventOk;
    if Marked(d, key, op) {
      assert MessageOk(d, key, d.messages[key]);
      var marker := d.messages[key].marker.value;
      RecordedKey(d, op, marker.fingerprint, Outcome(key, marker.disposition, marker.revision, marker.at));
    }
  }

  lemma StandsBeforeUpdate(d: Database, c: nat, q: Request, now: Time)
    requires CallerOf(d, c).Gone? && q.op !in d.operations
    ensures Next(Next(Next(d, Call(c, q, now)), Step(c)), Step(c)) == Goto(Reserve(d, q), c, Mutating(q, now))
  {
    var d1 := Next(d, Call(c, q, now));
    var d2 := Next(d1, Step(c));
    assert d2 == Goto(d, c, Reserving(q, now)) by { assert d2.callers == d.callers[c := Reserving(q, now)]; }
    assert Next(d2, Step(c)).callers == d.callers[c := Mutating(q, now)];
  }

  /** On a message that is ready the first call changes it and is answered with what it did. */
  lemma ReadyIsAnswered(d: Database, c: nat, q: Request, now: Time)
    requires CallerOf(d, c).Gone? && q.op !in d.operations && ReadyFor(d, FingerprintOf(q))
    ensures var outcome := Outcome(q.key, if q.mutation.Discard? then Discarded else Active, q.revision + 1, now);
      Run(d, FirstCall(c, q, now, 5)).log ==
        d.log + [Changed(q.op, FingerprintOf(q), d.messages[q.key].birth, outcome), Answered(q.op, FingerprintOf(q), outcome)]
  {
    var acts := FirstCall(c, q, now, 5);
    var d1 := Next(d, acts[0]);
    var d2 := Next(d1, acts[1]);
    var d3 := Next(d2, acts[2]);
    StandsBeforeUpdate(d, c, q, now);
    hide StepOf, Mutate, Reserve;
    var d4 := Next(d3, acts[3]);
    var outcome := Outcome(q.key, DispositionOf(q.mutation), q.revision + 1, now);
    ReadyUpdate(d, d3, c, q, now, outcome);
    var d5 := Next(d4, acts[4]);
    var d6 := Next(d5, acts[5]);
    FinalizeAndConfirm(d4, c, q, outcome);
    RunStates(d, acts, [d1, d2, d3, d4, d5, d6]);
  }

  lemma ReadyUpdate(d: Database, d3: Database, c: nat, q: Request, now: Time, outcome: Outcome)
    requires q.op !in d.operations && ReadyFor(d, FingerprintOf(q)) && d3 == Goto(Reserve(d, q), c, Mutating(q, now))
    requires outcome == Outcome(q.key, DispositionOf(q.mutation), q.revision + 1, now)
    ensures var d4 := Next(d3, Step(c));
      && CallerOf(d4, c) == Finalizing(q, outcome) && Awaits(d4, q)
      && d4.log == d.log + [Changed(q.op, FingerprintOf(q), d.messages[q.key].birth, outcome)]
  {
  }

  lemma FinalizeAndConfirm(d: Database, c: nat, q: Request, outcome: Outcome)
    requires CallerOf(d, c) == Finalizing(q, outcome) && Awaits(d, q)
    ensures Next(Next(d, Step(c)), Step(c)).log == d.log + [Answered(q.op, FingerprintOf(q), outcome)]
  {
    var d1 := Next(d, Step(c));
    assert CallerOf(d1, c) == Confirming(q, outcome);
  }

  /** What a first call on a message that is not ready is told. */
  predicate RightCode(d: Database, q: Request, code: FailureCode) {
    && (code == NotFound <==> q.key !in d.messages)
    && (code == StaleRevision <==> q.key in d.messages && d.messages[q.key].revision != q.revision)
    && (code == InvalidState <==> q.key in d.messages && d.messages[q.key].revision == q.revision)
  }

  /** On any other message it changes nothing and is refused, with the code that fits. */
  lemma UnreadyIsRefused(d: Database, c: nat, q: Request, now: Time)
    requires Inv(d) && CallerOf(d, c).Gone? && q.op !in d.operations && !ReadyFor(d, FingerprintOf(q))
    ensures var end := Run(d, FirstCall(c, q, now, 6));
      end.messages == d.messages && exists code :: end.log == d.log + [Refused(q.op, FingerprintOf(q), code)] && RightCode(d, q, code)
  {
    hide Inv;
    var acts := FirstCall(c, q, now, 6);
    var d1 := Next(d, acts[0]);
    var d2 := Next(d1, acts[1]);
    var d3 := Next(d2, acts[2]);
    StandsBeforeUpdate(d, c, q, now);
    forall key ensures !Marked(d, key, q.op) { FreshUnmarked(d, key, q.op); }
    hide StepOf;
    var d4 := Next(d3, acts[3]);
    var d5 := Next(d4, acts[4]);
    var d6 := Next(d5, acts[5]);
    var d7 := Next(d6, acts[6]);
    Diagnosed(d, d3, c, q, now);
    RunStates(d, acts, [d1, d2, d3, d4, d5, d6, d7]);
  }

  lemma Diagnosed(d: Database, d3: Database, c: nat, q: Request, now: Time)
    requires q.op !in d.operations && d3 == Goto(Reserve(d, q), c, Mutating(q, now)) && !ReadyFor(d, FingerprintOf(q))
    requires forall key :: !Marked(d, key, q.op)
    ensures var end := StepOf(StepOf(StepOf(StepOf(d3, c), c), c), c);
      && end.messages == d.messages && end.log == d.log + [Refused(q.op, FingerprintOf(q), Diagnosis(d, q))] && RightCode(d, q, Diagnosis(d, q))
  {
    var d4 := StepOf(d3, c);
    assert CallerOf(d4, c) == Checking(q, now) && d4.messages == d.messages && d4.log == d.log;
    assert forall key :: !Marked(d4, key, q.op) by { forall key ensures !Marked(d4, key, q.op) { assert !Marked(d, key, q.op); } }
    var d5 := StepOf(d4, c);
    assert CallerOf(d5, c) == Diagnosing(q, now) && d5.messages == d.messages && d5.log == d.log;
    var d6 := StepOf(d5, c);
    assert CallerOf(d6, c) == Failing(q, Diagnosis(d, q)) && d6.messages == d.messages && d6.log == d.log;
  }

  // ------------------------------------------------------------------- a death fences

  /** This incarnation of the message has reached revision `r`. */
  predicate Reached(d: Database, key: Key, birth: nat, r: nat) {
    birth < d.births && (key in d.messages && d.messages[key].birth == birth ==> d.messages[key].revision >= r)
  }

  /** The event changes this incarnation of the message. */
  predicate Changes(e: Event, key: Key, birth: nat) {
    e.Changed? && e.fingerprint.key == key && e.birth == birth
  }

  /** What is logged after `n` changes this incarnation only at revisions from `r` on. */
  predicate ChangesFrom(log: seq<Event>, n: nat, key: Key, birth: nat, r: nat) {
    forall k :: n <= k < |log| && Changes(log[k], key, birth) ==> log[k].fingerprint.revision >= r
  }

  /** Messages keep their incarnation and never fall back in revision; the log only grows. */
  predicate Rises(d: Database, d': Database) {
    && d'.births == d.births && d'.messages.Keys == d.messages.Keys
    && (forall key :: key in d.messages ==> d'.messages[key].birth == d.messages[key].birth && d'.messages[key].revision >= d.messages[key].revision)
    && |d'.log| >= |d.log| && d'.log[..|d.log|] == d.log
  }

  lemma ReplayRises(d: Database, c: nat, q: Request)
    requires q.op in d.operations
    ensures Rises(d, Replay(d, c, q))
  {
  }

  lemma SelectRises(d: Database, c: nat, q: Request, missing: Caller)
    ensures Rises(d, SelectMarker(d, c, q, missing))
  {
  }

  lemma MutateRises(d: Database, c: nat, q: Request, now: Time)
    ensures Rises(d, Mutate(d, c, q, now))
  {
  }

  lemma StepRises(d: Database, c: nat)
    ensures Rises(d, StepOf(d, c))
  {
    hide Replay, SelectMarker, Mutate, Diagnosis;
    match CallerOf(d, c)
    case Reading(q, _) => if q.op in d.operations { ReplayRises(d, c, q); }
    case Rereading(q) => if q.op in d.operations { ReplayRises(d, c, q); }
    case Mutating(q, now) => MutateRises(d, c, q, now);
    case Checking(q, now) => SelectRises(d, c, q, Diagnosing(q, now));
    case Reconciling(q) => SelectRises(d, c, q, Gone);
    case _ =>
  }

  lemma NextReached(d: Database, a: Action, key: Key, birth: nat, r: nat)
    requires Reached(d, key, birth, r)
    ensures Reached(Next(d, a), key, birth, r)
    ensures |Next(d, a).log| >= |d.log| && Next(d, a).log[..|d.log|] == d.log
  {
    hide StepOf, Prunable;
    if a.Step? {
      StepRises(d, a.c);
    }
  }

  lemma ReachedKept(d: Database, a: Action, key: Key, birth: nat, r: nat)
    requires Reached(d, key, birth, r)
    ensures Reached(Next(d, a), key, birth, r) && ChangesFrom(Next(d, a).log, |d.log|, key, birth, r)
    ensures |Next(d, a).log| >= |d.log| && Next(d, a).log[..|d.log|] == d.log
  {
    hide Next, ReadyFor, ChangedAs;
    NextReached(d, a, key, birth, r);
    forall k | |d.log| <= k < |Next(d, a).log| && Changes(Next(d, a).log[k], key, birth) ensures Next(d, a).log[k].fingerprint.revision >= r {
      ChangeEffect(d, a, k);
      ReadyRevision(d, Next(d, a).log[k].fingerprint);
    }
  }

  lemma ReadyRevision(d: Database, fp: Fingerprint)
    requires ReadyFor(d, fp)
    ensures fp.key in d.messages && d.messages[fp.key].revision == fp.revision
  {
  }

  lemma {:induction false} ReachedAlong(d: Database, actions: seq<Action>, key: Key, birth: nat, r: nat)
    requires Reached(d, key, birth, r)
    ensures ChangesFrom(Run(d, actions).log, |d.log|, key, birth, r)
    ensures |Run(d, actions).log| >= |d.log| && Run(d, actions).log[..|d.log|] == d.log
    decreases |actions|
  {
    hide Next, Reached, Changes;
    if |actions| > 0 {
      var d' := Next(d, actions[0]);
      ReachedKept(d, actions[0], key, birth, r);
      ReachedAlong(d', actions[1..], key, birth, r);
      var log := Run(d', actions[1..]).log;
      assert log[..|d.log|] == log[..|d'.log|][..|d.log|];
      forall k | |d.log| <= k < |log| && Changes(log[k], key, birth) ensures log[k].fingerprint.revision >= r {
        if k < |d'.log| {
          assert log[k] == log[..|d'.log|][k];
        }
      }
    }
  }

  /**
   * A death fences: once a message has died again, no operation that names the revision it had before,
   * or an earlier one, changes it any more.
   */
  lemma DeathFences(start: Database, past: seq<Action>, key: Key, more: seq<Action>, k: nat)
    requires Empty(start)
    requires var d := Run(start, past);
      key in d.messages && (d.messages[key].state.Pending? || d.messages[key].state.Processing?)
    requires var d := Run(start, past);
      var log := Run(Next(d, Work(key, Dead)), more).log;
      |d.log| <= k < |log| && Changes(log[k], key, d.messages[key].birth)
    ensures var d := Run(start, past);
      Run(Next(d, Work(key, Dead)), more).log[k].fingerprint.revision > d.messages[key].revision
  {
    hide Run, Inv;
    EmptyInv(start);
    RunKeeps(start, past);
    var d := Run(start, past);
    var died := Next(d, Work(key, Dead));
    assert d.messages[key].birth < d.births by { MessageIs(d, key); }
    ReachedAlong(died, more, key, d.messages[key].birth, d.messages[key].revision + 1);
  }
}
