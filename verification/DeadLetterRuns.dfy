/**
 * Two runs of the dead-letter administration in which a marker is replaced
 * (packages/reliability-drizzle/src/dead-letter.ts:61-69, 81-87): in one the earlier operation can
 * never be answered any more, in the other a caller that read the marker in time still answers it.
 */
module DeadLetterRuns {
  import opened Options
  import opened DeadLetter
  import opened DeadLetterEffects

  const KEY: Key := Key("outbox", "m")
  const RETRY: Request := Request("op1", KEY, 1, Retry(5), None)
  const DISCARD: Request := Request("op2", KEY, 3, Discard, None)
  const RETRIED: Outcome := Outcome(KEY, Active, 2, 10)
  const EMPTY: Database := Database(map[], map[], map[], 0, [])

  function ReservedAs(q: Request): Operation {
    Operation(FingerprintOf(q), q.key, Reserved)
  }

  function Retried(state: MessageState, revision: nat): Message {
    Message(state, Active, revision, Some(Marker("op1", FingerprintOf(RETRY), Active, 2, 10)), 0)
  }

  // ---------------------------------------------------------- the first operation crashes

  const CRASHING: seq<Action> := [Append(KEY), Work(KEY, Dead), Call(1, RETRY, 10), Step(1), Step(1), Step(1), Vanish(1)]

  /** The message was retried under op1, whose caller is gone. */
  function Crashed(): Database {
    Database(map["op1" := ReservedAs(RETRY)], map[KEY := Retried(Pending, 2)], map[1 := Gone], 1,
             [Changed("op1", FingerprintOf(RETRY), 0, RETRIED)])
  }

  lemma OperationCrashes()
    ensures Run(EMPTY, CRASHING) == Crashed()
  {
    hide StepOf;
    var d1 := Next(EMPTY, CRASHING[0]);
    var d2 := Next(d1, CRASHING[1]);
    assert d2 == Database(map[], map[KEY := Message(Dead, Active, 1, None, 0)], map[], 1, []);
    var d3 := Next(d2, CRASHING[2]);
    var d4 := Next(d3, CRASHING[3]);
    var d5 := Next(d4, CRASHING[4]);
    StandsBeforeUpdate(d2, 1, RETRY, 10);
    var d6 := Next(d5, CRASHING[5]);
    assert d6 == Mutate(d5, 1, RETRY, 10) by { MutateStep(d5, 1); }
    assert d6.messages == map[KEY := Retried(Pending, 2)] && d6.log == Crashed().log;
    var d7 := Next(d6, CRASHING[6]);
    assert d7.callers == map[1 := Gone];
    RunStates(EMPTY, CRASHING, [d1, d2, d3, d4, d5, d6, d7]);
  }

  lemma MutateStep(d: Database, c: nat)
    requires CallerOf(d, c).Mutating?
    ensures StepOf(d, c) == Mutate(d, c, CallerOf(d, c).q, CallerOf(d, c).now)
  {
  }

  // ------------------------------------------------------- the second operation replaces it

  const REPLACING: seq<Action> := [Work(KEY, Dead), Call(3, DISCARD, 20), Step(3), Step(3), Step(3)]

  predicate Waits(d: Database) {
    && d.operations == map["op1" := ReservedAs(RETRY)] && d.messages == map[KEY := Retried(Pending, 2)]
    && CallerOf(d, 3).Gone? && d.log == Crashed().log
  }

  /** The message died again and was discarded, so its marker names op2. */
  lemma MarkerReplaced(d: Database)
    requires Waits(d)
    ensures var end := Run(d, REPLACING);
      && end.operations == map["op1" := ReservedAs(RETRY), "op2" := ReservedAs(DISCARD)]
      && end.messages.Keys == {KEY} && end.messages[KEY].marker.Some? && end.messages[KEY].marker.value.op == "op2"
      && end.callers == d.callers[3 := Finalizing(DISCARD, Outcome(KEY, Discarded, 4, 20))]
      && end.log == d.log + [Changed("op2", FingerprintOf(DISCARD), 0, Outcome(KEY, Discarded, 4, 20))]
  {
    hide StepOf, Mutate;
    var d1 := Next(d, REPLACING[0]);
    assert d1 == d.(messages := map[KEY := Retried(Dead, 3)]);
    var d2 := Next(d1, REPLACING[1]);
    var d3 := Next(d2, REPLACING[2]);
    var d4 := Next(d3, REPLACING[3]);
    StandsBeforeUpdate(d1, 3, DISCARD, 20);
    var d5 := Next(d4, REPLACING[4]);
    assert d5 == Mutate(d4, 3, DISCARD, 20) by { MutateStep(d4, 3); }
    Discards(d4);
    assert d5.callers == d.callers[3 := Finalizing(DISCARD, Outcome(KEY, Discarded, 4, 20))];
    RunStates(d, REPLACING, [d1, d2, d3, d4, d5]);
  }

  lemma Discards(d: Database)
    requires d.messages == map[KEY := Retried(Dead, 3)]
    ensures var outcome := Outcome(KEY, Discarded, 4, 20);
      var end := Mutate(d, 3, DISCARD, 20);
      && end.operations == d.operations && end.callers == d.callers[3 := Finalizing(DISCARD, outcome)]
      && end.messages.Keys == {KEY} && end.messages[KEY].marker.Some? && end.messages[KEY].marker.value.op == "op2"
      && end.log == d.log + [Changed("op2", FingerprintOf(DISCARD), 0, outcome)]
  {
  }

  /** Nobody read the marker of op1 before: from then on op1 stays ambiguous, whatever anybody does. */
  lemma ReplacedMarkerForgets(more: seq<Action>)
    ensures Forgotten(Run(Run(EMPTY, CRASHING), REPLACING), "op1")
    ensures SilentAbout(Run(Run(EMPTY, CRASHING), REPLACING), Run(Run(Run(EMPTY, CRASHING), REPLACING), more), "op1")
  {
    hide Run, Inv;
    OperationCrashes();
    MarkerReplaced(Crashed());
    var end := Run(Crashed(), REPLACING);
    assert end.log[0].Changed? && end.log[0].op == "op1";
    assert Forgotten(end, "op1");
    EmptyInv(EMPTY);
    RunKeeps(EMPTY, CRASHING);
    RunKeeps(Crashed(), REPLACING);
    ForgottenForever(end, more, "op1");
  }

  // ------------------------------------------------- a caller that read the marker in time

  const READING: seq<Action> := [Call(2, RETRY, 11), Step(2), Step(2)]

  lemma MarkerRead()
    ensures var d := Run(Crashed(), READING);
      Waits(d) && d.callers == map[1 := Gone, 2 := Finalizing(RETRY, RETRIED)]
  {
    var d1 := Next(Crashed(), READING[0]);
    var d2 := Next(d1, READING[1]);
    assert CallerOf(d2, 2) == Reconciling(RETRY);
    assert Marked(d2, KEY, "op1");
    var d3 := Next(d2, READING[2]);
    RunStates(Crashed(), READING, [d1, d2, d3]);
  }

  /** The marker is replaced here too, and still op1 is answered. */
  lemma FinalizerOutlivesMarker()
    ensures var d := Run(Run(Run(EMPTY, CRASHING), READING), REPLACING);
      && !Marked(d, KEY, "op1") && Unfinished(d, "op1")
      && Run(d, [Step(2), Step(2)]).log == d.log + [Answered("op1", FingerprintOf(RETRY), RETRIED)]
  {
    hide Run;
    OperationCrashes();
    MarkerRead();
    var before := Run(Crashed(), READING);
    MarkerReplaced(before);
    var d := Run(before, REPLACING);
    assert d.log[0].Changed? && d.log[0].op == "op1";
    assert CallerOf(d, 2) == Finalizing(RETRY, RETRIED);
    var d1 := Next(d, Step(2));
    assert CallerOf(d1, 2) == Confirming(RETRY, RETRIED) && d1.log == d.log;
    var d2 := Next(d1, Step(2));
    RunStates(d, [Step(2), Step(2)], [d1, d2]);
  }
}
