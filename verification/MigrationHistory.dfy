/**
 * The migration runner and its history (packages/migrations/src/index.ts:235-339,
 * packages/migrations/src/testing.ts:12-48). A migration is given by the statements its handlers
 * execute. Where a handler, a statement or a history write throws is an oracle: `failsAt` is the
 * position in the selected list at which the run fails, if it does.
 */
module MigrationHistory {
  import opened Options

  type Time = int
  type Id = string

  datatype Migration = Migration(id: Id, dependsOn: seq<Id>, checksum: string, up: seq<string>, down: Option<seq<string>>)

  datatype Record = Record(checksum: string, batch: int, appliedAt: Time)

  type History = map<Id, Record>

  // ----------------------------------------------------------------- the loaded list

  predicate Known(loaded: seq<Migration>, id: Id) {
    exists k :: 0 <= k < |loaded| && loaded[k].id == id
  }

  /** What `load` returns: no id twice, dependencies first. */
  predicate Ordered(loaded: seq<Migration>) {
    && (forall i, j :: 0 <= i < j < |loaded| ==> loaded[i].id != loaded[j].id)
    && (forall i :: 0 <= i < |loaded| ==> DependsBefore(loaded, i))
  }

  predicate DependsBefore(loaded: seq<Migration>, i: int)
    requires 0 <= i < |loaded|
  {
    forall d :: d in loaded[i].dependsOn ==> exists j :: 0 <= j < i && loaded[j].id == d
  }

  // -------------------------------------------------------------------- checkedRecords

  /** The two loops of `checkedRecords`, for the record of one loaded migration. */
  predicate RecordOk(m: Migration, h: History) {
    m.id in h ==>
      && h[m.id].checksum == m.checksum && h[m.id].batch >= 1
      && forall d :: d in m.dependsOn ==> d in h && h[d].batch <= h[m.id].batch
  }

  predicate Checked(loaded: seq<Migration>, h: History) {
    && (forall id :: id in h ==> Known(loaded, id))
    && (forall k :: 0 <= k < |loaded| ==> RecordOk(loaded[k], h))
  }

  /** A row of the history table as the backend lists it. */
  datatype Listed = Listed(id: Id, record: Record)

  predicate NoIdTwice(listed: seq<Listed>) {
    forall i, j :: 0 <= i < j < |listed| ==> listed[i].id != listed[j].id
  }

  function HistoryOf(listed: seq<Listed>): History {
    if |listed| == 0 then map[]
    else HistoryOf(listed[..|listed| - 1])[listed[|listed| - 1].id := listed[|listed| - 1].record]
  }

  lemma {:induction false} HistoryMembers(listed: seq<Listed>)
    ensures forall id :: id in HistoryOf(listed) <==> exists j :: 0 <= j < |listed| && listed[j].id == id
    ensures NoIdTwice(listed) ==> forall j :: 0 <= j < |listed| ==> listed[j].id in HistoryOf(listed) && HistoryOf(listed)[listed[j].id] == listed[j].record
  {
    if |listed| > 0 {
      var init := listed[..|listed| - 1];
      HistoryMembers(init);
      assert forall j :: 0 <= j < |init| ==> init[j] == listed[j];
      assert listed == init + [listed[|listed| - 1]];
    }
  }

  /** One record against the migration of its id. */
  predicate Consistent(m: Migration, record: Record) {
    record.checksum == m.checksum && record.batch >= 1
  }

  predicate DependenciesApplied(m: Migration, h: History, batch: int, n: int) {
    forall i :: 0 <= i < n && i < |m.dependsOn| ==> m.dependsOn[i] in h && h[m.dependsOn[i]].batch <= batch
  }

  lemma RecordChecks(m: Migration, h: History)
    ensures RecordOk(m, h) <==> (m.id in h ==> Consistent(m, h[m.id]) && DependenciesApplied(m, h, h[m.id].batch, |m.dependsOn|))
  {
  }

  method Applies(m: Migration, h: History, batch: int) returns (ok: bool)
    ensures ok <==> DependenciesApplied(m, h, batch, |m.dependsOn|)
  {
    for i := 0 to |m.dependsOn|
      invariant DependenciesApplied(m, h, batch, i)
    {
      if m.dependsOn[i] !in h || h[m.dependsOn[i]].batch > batch { return false; }
    }
    return true;
  }

  /** A listed record names a loaded migration and agrees with it. */
  predicate ConsistentIn(loaded: seq<Migration>, r: Listed) {
    exists k :: 0 <= k < |loaded| && loaded[k].id == r.id && Consistent(loaded[k], r.record)
  }

  predicate AppliedIn(loaded: seq<Migration>, h: History, r: Listed) {
    forall k :: 0 <= k < |loaded| && loaded[k].id == r.id ==> DependenciesApplied(loaded[k], h, r.record.batch, |loaded[k].dependsOn|)
  }

  predicate DistinctLoaded(loaded: seq<Migration>) {
    forall i, j :: 0 <= i < j < |loaded| ==> loaded[i].id != loaded[j].id
  }

  method FindKnown(loaded: seq<Migration>, id: Id) returns (found: Option<nat>)
    requires DistinctLoaded(loaded)
    ensures found.None? ==> forall k :: 0 <= k < |loaded| ==> loaded[k].id != id
    ensures found.Some? ==> found.value < |loaded| && loaded[found.value].id == id && forall k :: 0 <= k < |loaded| && loaded[k].id == id ==> k == found.value
  {
    for k := 0 to |loaded|
      invariant forall j :: 0 <= j < k ==> loaded[j].id != id
    {
      if loaded[k].id == id { return Some(k); }
    }
    return None;
  }

  /** The first loop of `checkedRecords`. */
  method CheckListed(loaded: seq<Migration>, listed: seq<Listed>) returns (ok: bool)
    requires DistinctLoaded(loaded)
    ensures ok <==> NoIdTwice(listed) && forall j :: 0 <= j < |listed| ==> ConsistentIn(loaded, listed[j])
  {
    var seen: set<Id> := {};
    for i := 0 to |listed|
      invariant forall j :: 0 <= j < i ==> listed[j].id in seen && ConsistentIn(loaded, listed[j])
      invariant forall id :: id in seen ==> exists j :: 0 <= j < i && listed[j].id == id
      invariant forall j, k :: 0 <= j < k < i ==> listed[j].id != listed[k].id
    {
      if listed[i].id in seen { return false; }
      seen := seen + {listed[i].id};
      var item := FindKnown(loaded, listed[i].id);
      if item.None? || listed[i].record.checksum != loaded[item.value].checksum || listed[i].record.batch < 1 { return false; }
    }
    return true;
  }

  /** The second loop of `checkedRecords`. */
  method CheckApplied(loaded: seq<Migration>, h: History, listed: seq<Listed>) returns (ok: bool)
    requires DistinctLoaded(loaded)
    ensures ok <==> forall j :: 0 <= j < |listed| ==> AppliedIn(loaded, h, listed[j])
  {
    hide DependenciesApplied;
    for i := 0 to |listed|
      invariant forall j :: 0 <= j < i ==> AppliedIn(loaded, h, listed[j])
    {
      var item := FindKnown(loaded, listed[i].id);
      if item.Some? {
        var applied := Applies(loaded[item.value], h, listed[i].record.batch);
        if !applied { return false; }
      }
    }
    return true;
  }

  /** What the two loops look at is what `Checked` says. */
  lemma CheckedExact(loaded: seq<Migration>, listed: seq<Listed>)
    requires DistinctLoaded(loaded) && NoIdTwice(listed)
    ensures Checked(loaded, HistoryOf(listed)) <==>
      forall j :: 0 <= j < |listed| ==> ConsistentIn(loaded, listed[j]) && AppliedIn(loaded, HistoryOf(listed), listed[j])
  {
    hide HistoryOf, Consistent, DependenciesApplied, RecordOk;
    var h := HistoryOf(listed);
    HistoryMembers(listed);
    forall k | 0 <= k < |loaded| ensures RecordOk(loaded[k], h) <==>
      (loaded[k].id in h ==> Consistent(loaded[k], h[loaded[k].id]) && DependenciesApplied(loaded[k], h, h[loaded[k].id].batch, |loaded[k].dependsOn|)) {
      RecordChecks(loaded[k], h);
    }
  }

  /** `checkedRecords` fails exactly when an id is listed twice or `Checked` refuses the history. */
  method CheckedRecords(loaded: seq<Migration>, listed: seq<Listed>) returns (checked: Option<History>)
    requires DistinctLoaded(loaded)
    ensures checked.Some? <==> NoIdTwice(listed) && Checked(loaded, HistoryOf(listed))
    ensures checked.Some? ==> checked.value == HistoryOf(listed)
  {
    hide HistoryOf, Checked, ConsistentIn, AppliedIn;
    var ok := CheckListed(loaded, listed);
    if !ok {
      if NoIdTwice(listed) { CheckedExact(loaded, listed); }
      return None;
    }
    CheckedExact(loaded, listed);
    ok := CheckApplied(loaded, HistoryOf(listed), listed);
    return if ok then Some(HistoryOf(listed)) else None;
  }

  // ------------------------------------------------------------------------ selection

  function Filter(loaded: seq<Migration>, ids: set<Id>): seq<Migration> {
    if |loaded| == 0 then []
    else
      var rest := Filter(loaded[..|loaded| - 1], ids);
      if loaded[|loaded| - 1].id in ids then rest + [loaded[|loaded| - 1]] else rest
  }

  function IdsIn(loaded: seq<Migration>): set<Id> {
    set k | 0 <= k < |loaded| :: loaded[k].id
  }

  function Reverse(s: seq<Migration>): seq<Migration> {
    if |s| == 0 then [] else [s[|s| - 1]] + Reverse(s[..|s| - 1])
  }

  function Cut(s: seq<Migration>, limit: Option<nat>): seq<Migration> {
    if limit.Some? && limit.value < |s| then s[..limit.value] else s
  }

  /** `up`: what is not applied yet, in order, at most `limit` of it. */
  function PendingOf(loaded: seq<Migration>, h: History, limit: Option<nat>): seq<Migration> {
    Cut(Filter(loaded, IdsIn(loaded) - h.Keys), limit)
  }

  function Batches(h: History): set<int> {
    set id | id in h :: h[id].batch
  }

  /** How many batches come after `b`. */
  function Later(h: History, b: int): nat {
    |set x | x in Batches(h) && x > b|
  }

  /** The ids recorded in the last `count` batches. */
  function LastBatches(h: History, count: nat): set<Id> {
    set id | id in h && Later(h, h[id].batch) < count
  }

  /** The batch number of the next `up`. */
  function NextBatch(loaded: seq<Migration>, h: History): int {
    if |loaded| == 0 then 1
    else
      var rest := NextBatch(loaded[..|loaded| - 1], h);
      var id := loaded[|loaded| - 1].id;
      if id in h then Max(rest, h[id].batch + 1) else rest
  }

  // ------------------------------------------------------------------- new histories

  function Applied(h: History, selected: seq<Migration>, batch: int, clock: nat -> Time): History {
    if |selected| == 0 then h
    else
      var m := selected[|selected| - 1];
      Applied(h, selected[..|selected| - 1], batch, clock)[m.id := Record(m.checksum, batch, clock(|selected| - 1))]
  }

  function Statements(selected: seq<Migration>, up: bool): seq<string> {
    if |selected| == 0 then []
    else
      var m := selected[|selected| - 1];
      Statements(selected[..|selected| - 1], up) + if up then m.up else if m.down.Some? then m.down.value else []
  }

  predicate Reversible(selected: seq<Migration>) {
    forall k :: 0 <= k < |selected| ==> selected[k].down.Some?
  }

  function IdSeq(selected: seq<Migration>): seq<Id> {
    seq(|selected|, k requires 0 <= k < |selected| => selected[k].id)
  }

  // ------------------------------------------------------------------- about selections

  lemma {:induction false} FilterMembers(loaded: seq<Migration>, ids: set<Id>)
    ensures forall m :: m in Filter(loaded, ids) <==> m in loaded && m.id in ids
  {
    if |loaded| > 0 {
      FilterMembers(loaded[..|loaded| - 1], ids);
      assert loaded == loaded[..|loaded| - 1] + [loaded[|loaded| - 1]];
    }
  }

  /** An order-preserving selection: positions in `s` map increasingly to positions in `loaded`. */
  ghost predicate Within(s: seq<Migration>, loaded: seq<Migration>, at: seq<int>) {
    && |at| == |s|
    && (forall k :: 0 <= k < |s| ==> 0 <= at[k] < |loaded| && s[k] == loaded[at[k]])
    && (forall i, j :: 0 <= i < j < |s| ==> at[i] < at[j])
  }

  lemma {:induction false} FilterWithin(loaded: seq<Migration>, ids: set<Id>) returns (at: seq<int>)
    ensures Within(Filter(loaded, ids), loaded, at)
  {
    if |loaded| == 0 {
      at := [];
    } else {
      hide Within;
      var init := loaded[..|loaded| - 1];
      var before := FilterWithin(init, ids);
      WithinMore(Filter(init, ids), loaded, before);
      at := if loaded[|loaded| - 1].id in ids then before + [|loaded| - 1] else before;
    }
  }

  lemma WithinMore(s: seq<Migration>, loaded: seq<Migration>, at: seq<int>)
    requires |loaded| > 0 && Within(s, loaded[..|loaded| - 1], at)
    ensures Within(s, loaded, at) && Within(s + [loaded[|loaded| - 1]], loaded, at + [|loaded| - 1])
  {
  }

  lemma {:induction false} ReverseAt(s: seq<Migration>)
    ensures |Reverse(s)| == |s| && forall k :: 0 <= k < |s| ==> Reverse(s)[k] == s[|s| - 1 - k]
  {
    if |s| > 0 {
      ReverseAt(s[..|s| - 1]);
    }
  }

  lemma {:induction false} NextBatchAbove(loaded: seq<Migration>, h: History)
    ensures NextBatch(loaded, h) >= 1
    ensures forall k :: 0 <= k < |loaded| && loaded[k].id in h ==> h[loaded[k].id].batch < NextBatch(loaded, h)
  {
    if |loaded| > 0 {
      NextBatchAbove(loaded[..|loaded| - 1], h);
    }
  }

  lemma {:induction false} AppliedFacts(h: History, selected: seq<Migration>, batch: int, clock: nat -> Time)
    ensures var h' := Applied(h, selected, batch, clock);
      && (forall id :: id in h' <==> id in h || Known(selected, id))
      && (forall id :: id in h && !Known(selected, id) ==> h'[id] == h[id])
      && (forall k :: 0 <= k < |selected| ==> selected[k].id in h' && h'[selected[k].id].batch == batch)
  {
    hide Known;
    if |selected| > 0 {
      var init := selected[..|selected| - 1];
      AppliedFacts(h, init, batch, clock);
      KnownSplit(selected);
    } else {
      NothingKnown();
    }
  }

  lemma NothingKnown()
    ensures forall id :: !Known([], id)
  {
  }

  lemma KnownSplit(s: seq<Migration>)
    requires |s| > 0
    ensures forall id :: Known(s, id) <==> Known(s[..|s| - 1], id) || id == s[|s| - 1].id
  {
    forall id | Known(s[..|s| - 1], id) ensures Known(s, id) {
      var k :| 0 <= k < |s| - 1 && s[..|s| - 1][k].id == id;
      assert s[k].id == id;
    }
    forall id | Known(s, id) && id != s[|s| - 1].id ensures Known(s[..|s| - 1], id) {
      var k :| 0 <= k < |s| && s[k].id == id;
      assert s[..|s| - 1][k].id == id;
    }
  }

  lemma {:induction false} AppliedChecksum(h: History, selected: seq<Migration>, batch: int, clock: nat -> Time, k: nat)
    requires k < |selected| && forall i, j :: 0 <= i < j < |selected| ==> selected[i].id != selected[j].id
    ensures selected[k].id in Applied(h, selected, batch, clock) && Applied(h, selected, batch, clock)[selected[k].id].checksum == selected[k].checksum
  {
    if k < |selected| - 1 {
      AppliedChecksum(h, selected[..|selected| - 1], batch, clock, k);
    }
  }

  // ------------------------------------------------------- what is selected and executed

  /** The script of one migration in one direction. */
  function ScriptOf(m: Migration, up: bool): seq<string> {
    if up then m.up else if m.down.Some? then m.down.value else []
  }

  /** Where the script of the `k`-th selected migration begins. */
  function Offset(selected: seq<Migration>, up: bool, k: nat): nat
    requires k <= |selected|
  {
    if k == 0 then 0 else Offset(selected, up, k - 1) + |ScriptOf(selected[k - 1], up)|
  }

  /** The executed statements are the chosen direction's scripts, one after the other. */
  lemma {:induction false} StatementsAre(selected: seq<Migration>, up: bool, k: nat)
    requires k < |selected|
    ensures |Statements(selected, up)| == Offset(selected, up, |selected|)
    ensures Offset(selected, up, k) + |ScriptOf(selected[k], up)| <= |Statements(selected, up)|
    ensures Statements(selected, up)[Offset(selected, up, k)..][..|ScriptOf(selected[k], up)|] == ScriptOf(selected[k], up)
    decreases |selected|
  {
    var init, last := selected[..|selected| - 1], selected[|selected| - 1];
    OffsetOfPrefix(selected, up, |init|);
    OffsetOfPrefix(selected, up, k);
    if |init| > 0 {
      StatementsAre(init, up, if k < |init| then k else 0);
    }
    assert Statements(selected, up) == Statements(init, up) + ScriptOf(last, up);
    if k < |init| {
      var n := |ScriptOf(selected[k], up)|;
      var o := Offset(selected, up, k);
      assert Statements(selected, up)[o..][..n] == Statements(init, up)[o..][..n];
    }
  }

  lemma {:induction false} OffsetOfPrefix(selected: seq<Migration>, up: bool, k: nat)
    requires |selected| > 0 && k <= |selected| - 1
    ensures Offset(selected[..|selected| - 1], up, k) == Offset(selected, up, k)
  {
    if k > 0 {
      OffsetOfPrefix(selected, up, k - 1);
    }
  }

  /** A limited `up` takes exactly the first migrations that are not applied, as many as the limit allows. */
  lemma LimitExact(loaded: seq<Migration>, h: History, limit: Option<nat>)
    requires Ordered(loaded)
    ensures var all := PendingOf(loaded, h, None);
      && PendingOf(loaded, h, limit) == all[..if limit.Some? && limit.value < |all| then limit.value else |all|]
      && (forall m :: m in all <==> m in loaded && m.id !in h)
  {
    var ids := IdsIn(loaded) - h.Keys;
    FilterMembers(loaded, ids);
    var all := PendingOf(loaded, h, None);
    assert all[..|all|] == all;
    forall m | m in loaded ensures m.id in IdsIn(loaded) {
      var k :| 0 <= k < |loaded| && loaded[k] == m;
    }
  }

  /** The batch number of an `up` is one more than the greatest in the history, or 1. */
  lemma {:induction false} NextBatchExact(loaded: seq<Migration>, h: History)
    requires forall k :: 0 <= k < |loaded| && loaded[k].id in h ==> h[loaded[k].id].batch >= 1
    ensures NextBatch(loaded, h) == 1 || exists k :: 0 <= k < |loaded| && loaded[k].id in h && NextBatch(loaded, h) == h[loaded[k].id].batch + 1
    ensures (forall k :: 0 <= k < |loaded| ==> loaded[k].id !in h) ==> NextBatch(loaded, h) == 1
  {
    if |loaded| > 0 {
      var init := loaded[..|loaded| - 1];
      NextBatchExact(init, h);
      if NextBatch(loaded, h) != 1 && NextBatch(loaded, h) == NextBatch(init, h) {
        var k :| 0 <= k < |init| && init[k].id in h && NextBatch(init, h) == h[init[k].id].batch + 1;
        assert loaded[k].id in h;
      }
    }
  }

  /** `top` are the `count` greatest batch numbers, or all if there are fewer. */
  predicate GreatestBatches(h: History, count: nat, top: set<int>) {
    && top <= Batches(h)
    && (forall x, y :: x in top && y in Batches(h) && y !in top ==> y < x)
    && (|top| == count || (|top| < count && top == Batches(h)))
  }

  /** A rollback of `count` batches removes exactly the ids recorded in the `count` greatest ones. */
  lemma LastBatchesExact(h: History, count: nat, top: set<int>)
    requires GreatestBatches(h, count, top)
    ensures forall id :: id in LastBatches(h, count) <==> id in h && h[id].batch in top
  {
    forall id | id in h ensures Later(h, h[id].batch) < count <==> h[id].batch in top {
      var b := h[id].batch;
      assert b in Batches(h);
      var after := set x | x in Batches(h) && x > b;
      if b in top {
        assert after <= top - {b};
        Smaller(after, top - {b});
      } else if |top| == count {
        assert top <= after;
        Smaller(top, after);
      }
    }
  }

  lemma Smaller(a: set<int>, b: set<int>)
    requires a <= b
    ensures |a| <= |b|
  {
    assert b == a + (b - a);
  }

  // -------------------------------------------------------------------------------- up

  lemma DistinctMembers(loaded: seq<Migration>, i: nat, j: nat)
    requires Ordered(loaded) && i < |loaded| && j < |loaded| && loaded[i].id == loaded[j].id
    ensures i == j
  {
  }

  /** A limited `up` never cuts off a dependency of what it keeps. */
  lemma CutKeepsEarlier(loaded: seq<Migration>, ids: set<Id>, limit: Option<nat>, j: nat, k: nat)
    requires Ordered(loaded) && j < k < |loaded| && loaded[k] in Cut(Filter(loaded, ids), limit) && loaded[j].id in ids
    ensures loaded[j] in Cut(Filter(loaded, ids), limit)
  {
    var all := Filter(loaded, ids);
    var cut := Cut(all, limit);
    var at := FilterWithin(loaded, ids);
    FilterMembers(loaded, ids);
    assert loaded[j] in all;
    var a :| 0 <= a < |cut| && cut[a] == loaded[k];
    var b :| 0 <= b < |all| && all[b] == loaded[j];
    DistinctMembers(loaded, at[a], k);
    DistinctMembers(loaded, at[b], j);
    assert b < a;
    assert cut[b] == loaded[j];
  }

  lemma PendingFacts(loaded: seq<Migration>, h: History, limit: Option<nat>)
    requires Ordered(loaded)
    ensures var pending := PendingOf(loaded, h, limit);
      && (forall m :: m in pending ==> m in loaded && m.id !in h)
      && (forall i, j :: 0 <= i < j < |pending| ==> pending[i].id != pending[j].id)
  {
    var all := Filter(loaded, IdsIn(loaded) - h.Keys);
    FilterMembers(loaded, IdsIn(loaded) - h.Keys);
    var at := FilterWithin(loaded, IdsIn(loaded) - h.Keys);
    forall i, j | 0 <= i < j < |all| ensures all[i].id != all[j].id {
      assert at[i] < at[j];
    }
    assert forall k :: 0 <= k < |PendingOf(loaded, h, limit)| ==> PendingOf(loaded, h, limit)[k] == all[k];
  }

  lemma KnownMember(s: seq<Migration>, m: Migration)
    requires m in s
    ensures Known(s, m.id)
  {
    var k :| 0 <= k < |s| && s[k] == m;
  }

  /** What a newly applied migration depends on is applied, in the same batch or an earlier one. */
  lemma NewRecordOk(loaded: seq<Migration>, h: History, limit: Option<nat>, clock: nat -> Time, k: nat)
    requires Ordered(loaded) && Checked(loaded, h) && k < |loaded| && loaded[k] in PendingOf(loaded, h, limit)
    ensures RecordOk(loaded[k], Applied(h, PendingOf(loaded, h, limit), NextBatch(loaded, h), clock))
  {
    hide Applied, NextBatch, Filter, Checked;
    var pending := PendingOf(loaded, h, limit);
    var batch := NextBatch(loaded, h);
    var h' := Applied(h, pending, batch, clock);
    PendingFacts(loaded, h, limit);
    AppliedFacts(h, pending, batch, clock);
    NextBatchAbove(loaded, h);
    var a :| 0 <= a < |pending| && pending[a] == loaded[k];
    AppliedChecksum(h, pending, batch, clock, a);
    forall d | d in loaded[k].dependsOn ensures d in h' && h'[d].batch <= h'[loaded[k].id].batch {
      assert DependsBefore(loaded, k);
      var j :| 0 <= j < k && loaded[j].id == d;
      if d !in h {
        assert d in IdsIn(loaded) - h.Keys;
        CutKeepsEarlier(loaded, IdsIn(loaded) - h.Keys, limit, j, k);
        var b :| 0 <= b < |pending| && pending[b] == loaded[j];
      } else {
        assert !Known(pending, d) by { NotPending(pending, h, d); }
      }
    }
  }

  lemma NotPending(pending: seq<Migration>, h: History, id: Id)
    requires (forall m :: m in pending ==> m.id !in h) && id in h
    ensures !Known(pending, id)
  {
    forall k | 0 <= k < |pending| ensures pending[k].id != id {
      assert pending[k] in pending;
    }
  }

  lemma OldRecordOk(loaded: seq<Migration>, h: History, limit: Option<nat>, clock: nat -> Time, k: nat)
    requires Ordered(loaded) && Checked(loaded, h) && k < |loaded| && loaded[k].id in h
    ensures RecordOk(loaded[k], Applied(h, PendingOf(loaded, h, limit), NextBatch(loaded, h), clock))
  {
    hide Applied, NextBatch, Filter, PendingOf;
    var pending := PendingOf(loaded, h, limit);
    PendingFacts(loaded, h, limit);
    AppliedFacts(h, pending, NextBatch(loaded, h), clock);
    assert RecordOk(loaded[k], h);
    forall id | id in h ensures !Known(pending, id) { NotPending(pending, h, id); }
  }

  /** Every `up`, with any limit, leaves a history that the next run accepts. */
  lemma UpKeepsChecked(loaded: seq<Migration>, h: History, limit: Option<nat>, clock: nat -> Time)
    requires Ordered(loaded) && Checked(loaded, h)
    ensures Checked(loaded, Applied(h, PendingOf(loaded, h, limit), NextBatch(loaded, h), clock))
  {
    hide Applied, NextBatch, PendingOf, RecordOk;
    var pending := PendingOf(loaded, h, limit);
    var h' := Applied(h, pending, NextBatch(loaded, h), clock);
    AppliedFacts(h, pending, NextBatch(loaded, h), clock);
    PendingFacts(loaded, h, limit);
    forall k | 0 <= k < |loaded| ensures RecordOk(loaded[k], h') {
      if loaded[k].id in h {
        OldRecordOk(loaded, h, limit, clock, k);
      } else if loaded[k] in pending {
        NewRecordOk(loaded, h, limit, clock, k);
      } else {
        assert loaded[k].id !in h' by { StillPending(loaded, h, pending, k); }
        assert RecordOk(loaded[k], h') by { Unrecorded(loaded[k], h'); }
      }
    }
    forall id | id in h' ensures Known(loaded, id) {
      if id !in h {
        var a :| 0 <= a < |pending| && pending[a].id == id;
        assert pending[a] in pending;
        KnownMember(loaded, pending[a]);
      }
    }
  }

  lemma StillPending(loaded: seq<Migration>, h: History, pending: seq<Migration>, k: nat)
    requires Ordered(loaded) && k < |loaded| && loaded[k] !in pending && forall m :: m in pending ==> m in loaded
    ensures !Known(pending, loaded[k].id)
  {
    forall a | 0 <= a < |pending| ensures pending[a].id != loaded[k].id {
      assert pending[a] in pending;
      var i :| 0 <= i < |loaded| && loaded[i] == pending[a];
      assert i != k;
    }
  }

  lemma Unrecorded(m: Migration, h: History)
    requires m.id !in h
    ensures RecordOk(m, h)
  {
  }

  // -------------------------------------------------------------------------- rollback

  lemma LaterMonotone(h: History, a: int, b: int)
    requires a <= b
    ensures Later(h, a) >= Later(h, b)
  {
    var after := set x | x in Batches(h) && x > a;
    var afterB := set x | x in Batches(h) && x > b;
    assert afterB <= after;
    assert after == afterB + (after - afterB);
  }

  /** Rolling back any number of batches leaves a history that the next run accepts. */
  lemma RollbackKeepsChecked(loaded: seq<Migration>, h: History, count: nat)
    requires Checked(loaded, h)
    ensures Checked(loaded, h - LastBatches(h, count))
  {
    hide Later, Known;
    var h' := h - LastBatches(h, count);
    forall k | 0 <= k < |loaded| ensures RecordOk(loaded[k], h') {
      assert RecordOk(loaded[k], h);
      if loaded[k].id in h' {
        forall d | d in loaded[k].dependsOn ensures d in h' && h'[d].batch <= h'[loaded[k].id].batch {
          LaterMonotone(h, h[d].batch, h[loaded[k].id].batch);
        }
      }
    }
  }

  /** `rollback` and `reset` undo dependents before what they depend on. */
  lemma DownsDependentsFirst(loaded: seq<Migration>, ids: set<Id>, i: nat, j: nat)
    requires Ordered(loaded)
    requires var downs := Reverse(Filter(loaded, ids)); i < |downs| && j < |downs| && downs[i].id in downs[j].dependsOn
    ensures j < i
  {
    var all := Filter(loaded, ids);
    ReverseAt(all);
    var at := FilterWithin(loaded, ids);
    var dependency, dependent := at[|all| - 1 - i], at[|all| - 1 - j];
    assert DependsBefore(loaded, dependent);
    var p :| 0 <= p < dependent && loaded[p].id == loaded[dependency].id;
    DistinctMembers(loaded, p, dependency);
    assert dependency < dependent;
  }

  /** A non-empty `up` makes one new last batch, so rolling back one batch restores the history. */
  lemma RollbackUndoesUp(loaded: seq<Migration>, h: History, limit: Option<nat>, clock: nat -> Time)
    requires Ordered(loaded) && Checked(loaded, h) && |PendingOf(loaded, h, limit)| > 0
    ensures var h' := Applied(h, PendingOf(loaded, h, limit), NextBatch(loaded, h), clock);
      && h' - LastBatches(h', 1) == h
      && Filter(loaded, LastBatches(h', 1)) == PendingOf(loaded, h, limit)
  {
    hide Applied, NextBatch, PendingOf, RecordOk;
    var pending := PendingOf(loaded, h, limit);
    var batch := NextBatch(loaded, h);
    var h' := Applied(h, pending, batch, clock);
    AppliedFacts(h, pending, batch, clock);
    PendingFacts(loaded, h, limit);
    forall id | id in h ensures !Known(pending, id) && h[id].batch < batch {
      NotPending(pending, h, id);
      NextBatchAbove(loaded, h);
      var k :| 0 <= k < |loaded| && loaded[k].id == id;
    }
    LastBatchIs(h, h', pending, batch);
    SameHistory(h' - LastBatches(h', 1), h);
    FilterOfPending(loaded, h, limit, LastBatches(h', 1));
  }

  lemma SameHistory(a: History, b: History)
    requires forall id :: id in a <==> id in b
    requires forall id :: id in b ==> a[id] == b[id]
    ensures a == b
  {
    assert a.Keys == b.Keys;
  }

  lemma LastBatchIs(h: History, h': History, pending: seq<Migration>, batch: int)
    requires |pending| > 0 && forall id :: id in h' <==> id in h || Known(pending, id)
    requires forall id :: id in h ==> !Known(pending, id) && h'[id] == h[id] && h[id].batch < batch
    requires forall k :: 0 <= k < |pending| ==> pending[k].id in h' && h'[pending[k].id].batch == batch
    ensures forall id :: id in LastBatches(h', 1) <==> Known(pending, id)
  {
    assert forall id :: id in h' ==> h'[id].batch <= batch;
    forall id | Known(pending, id) ensures id in LastBatches(h', 1) {
      var k :| 0 <= k < |pending| && pending[k].id == id;
      assert (set x | x in Batches(h') && x > batch) == {};
    }
    assert pending[0].id in h' && h'[pending[0].id].batch == batch;
    forall id | id in h ensures id !in LastBatches(h', 1) {
      NotEmpty((set x | x in Batches(h') && x > h[id].batch), batch);
    }
  }

  lemma NotEmpty(s: set<int>, x: int)
    requires x in s
    ensures |s| >= 1
  {
    assert s == {x} + (s - {x});
  }

  lemma FilterSame(loaded: seq<Migration>, a: set<Id>, b: set<Id>)
    requires forall k :: 0 <= k < |loaded| ==> (loaded[k].id in a <==> loaded[k].id in b)
    ensures Filter(loaded, a) == Filter(loaded, b)
  {
    if |loaded| > 0 {
      FilterSame(loaded[..|loaded| - 1], a, b);
    }
  }

  lemma {:induction false} FilterPrefix(loaded: seq<Migration>, ids: set<Id>, n: nat)
    requires forall i, j :: 0 <= i < j < |loaded| ==> loaded[i].id != loaded[j].id
    requires n <= |Filter(loaded, ids)|
    ensures Filter(loaded, IdsIn(Filter(loaded, ids)[..n])) == Filter(loaded, ids)[..n]
    decreases |loaded|
  {
    if |loaded| > 0 {
      var init, m := loaded[..|loaded| - 1], loaded[|loaded| - 1];
      var before := Filter(init, ids);
      FilterMembers(init, ids);
      assert forall k :: 0 <= k < |before| ==> before[k] in before && before[k].id != m.id;
      var all := Filter(loaded, ids);
      if n <= |before| {
        assert all[..n] == before[..n];
        FilterPrefix(init, ids, n);
      } else {
        assert all[..n] == all && before[..|before|] == before;
        FilterPrefix(init, ids, |before|);
        assert all[|before|] == m;
        assert forall id :: id in IdsIn(all) <==> id in IdsIn(before) || id == m.id by { IdsSplit(all); }
        FilterSame(init, IdsIn(all), IdsIn(before));
      }
    }
  }

  lemma IdsSplit(s: seq<Migration>)
    requires |s| > 0
    ensures forall id :: id in IdsIn(s) <==> id in IdsIn(s[..|s| - 1]) || id == s[|s| - 1].id
  {
    forall id | id in IdsIn(s[..|s| - 1]) ensures id in IdsIn(s) {
      var k :| 0 <= k < |s| - 1 && s[..|s| - 1][k].id == id;
      assert s[k].id == id;
    }
  }

  /** The last batch holds exactly what the `up` applied, in the same order. */
  lemma FilterOfPending(loaded: seq<Migration>, h: History, limit: Option<nat>, ids: set<Id>)
    requires Ordered(loaded) && forall id :: id in ids <==> Known(PendingOf(loaded, h, limit), id)
    ensures Filter(loaded, ids) == PendingOf(loaded, h, limit)
  {
    var wanted := IdsIn(loaded) - h.Keys;
    var all := Filter(loaded, wanted);
    var n := if limit.Some? && limit.value < |all| then limit.value else |all|;
    assert all[..|all|] == all && PendingOf(loaded, h, limit) == all[..n];
    FilterPrefix(loaded, wanted, n);
    FilterSame(loaded, ids, IdsIn(all[..n]));
  }

  // ------------------------------------------------------------------------ the backend

  datatype Direction = Up | Down

  /** The loop of `execute`; the maps and lists it works on belong to the transaction. */
  method Execute(selected: seq<Migration>, direction: Direction, batch: int, pretend: bool, clock: nat -> Time, failsAt: Option<nat>,
                 records0: History, statements0: seq<string>)
    returns (ok: bool, records: History, statements: seq<string>, executed: seq<Id>)
    requires direction.Down? ==> Reversible(selected)
    ensures ok <==> failsAt.None? || failsAt.value >= |selected|
    ensures ok ==> executed == IdSeq(selected)
    ensures ok && pretend ==> records == records0 && statements == statements0
    ensures ok && !pretend ==>
      && records == (if direction.Up? then Applied(records0, selected, batch, clock) else records0 - IdsIn(selected))
      && statements == statements0 + Statements(selected, direction.Up?)
  {
    records, statements, executed := records0, statements0, [];
    var i := 0;
    while i < |selected|
      invariant 0 <= i <= |selected| && executed == IdSeq(selected[..i])
      invariant failsAt.None? || failsAt.value >= i
      invariant pretend ==> records == records0 && statements == statements0
      invariant !pretend ==> statements == statements0 + Statements(selected[..i], direction.Up?)
      invariant !pretend ==> records == (if direction.Up? then Applied(records0, selected[..i], batch, clock) else records0 - IdsIn(selected[..i]))
    {
      if failsAt == Some(i) {
        return false, records, statements, executed;
      }
      var item := selected[i];
      assert selected[..i + 1][..i] == selected[..i];
      if !pretend {
        if direction.Up? {
          statements := statements + item.up;
          records := records[item.id := Record(item.checksum, batch, clock(i))];
        } else {
          statements := statements + item.down.value;
          records := records - {item.id};
          assert IdsIn(selected[..i + 1]) == IdsIn(selected[..i]) + {item.id} by { IdsSplit(selected[..i + 1]); }
        }
      }
      executed := executed + [item.id];
      i := i + 1;
    }
    assert selected[..|selected|] == selected;
    ok := true;
  }

  class InMemoryMigrationBackend {
    var records: History
    var statements: seq<string>
    var dropped: seq<string>

    constructor ()
      ensures records == map[] && statements == [] && dropped == []
    {
      records, statements, dropped := map[], [], [];
    }

    /** The callback works on copies, which replace the fields only if it does not throw. */
    method Transact(selected: seq<Migration>, direction: Direction, batch: int, pretend: bool, clock: nat -> Time, failsAt: Option<nat>)
      returns (ok: bool, executed: seq<Id>)
      requires direction.Down? ==> Reversible(selected)
      modifies this`records, this`statements
      ensures ok <==> failsAt.None? || failsAt.value >= |selected|
      ensures ok ==> executed == IdSeq(selected)
      ensures !ok || pretend ==> records == old(records) && statements == old(statements)
      ensures ok && !pretend ==>
        && records == (if direction.Up? then Applied(old(records), selected, batch, clock) else old(records) - IdsIn(selected))
        && statements == old(statements) + Statements(selected, direction.Up?)
    {
      var done, copy, script, ids := Execute(selected, direction, batch, pretend, clock, failsAt, records, statements);
      if !done {
        return false, [];
      }
      records := copy;
      statements := script;
      return true, ids;
    }

    method RunUp(loaded: seq<Migration>, limit: Option<nat>, pretend: bool, clock: nat -> Time, failsAt: Option<nat>) returns (ok: bool, executed: seq<Id>)
      requires Ordered(loaded)
      modifies this`records, this`statements
      ensures !ok || pretend ==> records == old(records) && statements == old(statements)
      ensures ok ==> Checked(loaded, old(records)) && Checked(loaded, records)
      ensures ok ==> executed == IdSeq(PendingOf(loaded, old(records), limit))
      ensures ok && !pretend ==>
        && records == Applied(old(records), PendingOf(loaded, old(records), limit), NextBatch(loaded, old(records)), clock)
        && statements == old(statements) + Statements(PendingOf(loaded, old(records), limit), true)
      ensures Checked(loaded, old(records)) && failsAt.None? ==> ok
    {
      if !Checked(loaded, records) {
        return false, [];
      }
      UpKeepsChecked(loaded, records, limit, clock);
      ok, executed := Transact(PendingOf(loaded, records, limit), Up, NextBatch(loaded, records), pretend, clock, failsAt);
    }

    method Rollback(loaded: seq<Migration>, batches: nat, pretend: bool, failsAt: Option<nat>) returns (ok: bool, executed: seq<Id>)
      requires Ordered(loaded) && batches >= 1
      modifies this`records, this`statements
      ensures !ok || pretend ==> records == old(records) && statements == old(statements)
      ensures ok ==> Checked(loaded, old(records)) && Checked(loaded, records)
      ensures ok ==> executed == IdSeq(Reverse(Filter(loaded, LastBatches(old(records), batches))))
      ensures ok && !pretend ==>
        && records == old(records) - LastBatches(old(records), batches)
        && statements == old(statements) + Statements(Reverse(Filter(loaded, LastBatches(old(records), batches))), false)
      ensures Checked(loaded, old(records)) && failsAt.None? && Reversible(Filter(loaded, LastBatches(old(records), batches))) ==> ok
    {
      if !Checked(loaded, records) {
        return false, [];
      }
      var ids := LastBatches(records, batches);
      var selected := Reverse(Filter(loaded, ids));
      ReverseAt(Filter(loaded, ids));
      if !Reversible(selected) {
        assert !Reversible(Filter(loaded, ids));
        return false, [];
      }
      RollbackKeepsChecked(loaded, records, batches);
      SelectedIds(loaded, records, ids);
      var clock := (n: nat) => 0;
      ok, executed := Transact(selected, Down, 0, pretend, clock, failsAt);
    }

    method Reset(loaded: seq<Migration>, pretend: bool, failsAt: Option<nat>) returns (ok: bool, executed: seq<Id>)
      requires Ordered(loaded)
      modifies this`records, this`statements
      ensures !ok || pretend ==> records == old(records) && statements == old(statements)
      ensures ok ==> Checked(loaded, old(records)) && Checked(loaded, records)
      ensures ok ==> executed == IdSeq(Reverse(Filter(loaded, old(records).Keys)))
      ensures ok && !pretend ==> records == map[] && statements == old(statements) + Statements(Reverse(Filter(loaded, old(records).Keys)), false)
      ensures Checked(loaded, old(records)) && failsAt.None? && Reversible(Filter(loaded, old(records).Keys)) ==> ok
    {
      if !Checked(loaded, records) {
        return false, [];
      }
      var selected := Reverse(Filter(loaded, records.Keys));
      ReverseAt(Filter(loaded, records.Keys));
      if !Reversible(selected) {
        assert !Reversible(Filter(loaded, records.Keys));
        return false, [];
      }
      SelectedIds(loaded, records, records.Keys);
      var clock := (n: nat) => 0;
      ok, executed := Transact(selected, Down, 0, pretend, clock, failsAt);
      assert ok && !pretend ==> records == map[];
    }

    /** `fresh`, with a valid ownership manifest; None for a rejected one. */
    method Fresh(loaded: seq<Migration>, owned: Option<seq<string>>, pretend: bool, clock: nat -> Time, failsAt: Option<nat>) returns (ok: bool, executed: seq<Id>)
      requires Ordered(loaded)
      modifies this
      ensures !ok || pretend ==> records == old(records) && statements == old(statements) && dropped == old(dropped)
      ensures ok ==> owned.Some? && Checked(loaded, old(records)) && Checked(loaded, records) && executed == IdSeq(loaded)
      ensures ok && !pretend ==>
        && records == Applied(map[], loaded, 1, clock) && dropped == old(dropped) + owned.value
        && statements == old(statements) + Statements(loaded, true)
      ensures Checked(loaded, old(records)) && owned.Some? && failsAt.None? ==> ok
    {
      if !Checked(loaded, records) || owned.None? {
        return false, [];
      }
      FreshChecked(loaded, clock);
      var start := if pretend then records else map[];
      var done, copy, script, ids := Execute(loaded, Up, 1, pretend, clock, failsAt, start, statements);
      if !done {
        return false, [];
      }
      if !pretend {
        dropped := dropped + owned.value;
      }
      records, statements := copy, script;
      return true, ids;
    }
  }

  /** Removing what was selected removes exactly the wanted records. */
  lemma SelectedIds(loaded: seq<Migration>, h: History, ids: set<Id>)
    requires Checked(loaded, h) && ids <= h.Keys
    ensures h - IdsIn(Reverse(Filter(loaded, ids))) == h - ids
  {
    var all := Filter(loaded, ids);
    FilterMembers(loaded, ids);
    ReverseAt(all);
    forall id | id in ids ensures id in IdsIn(Reverse(all)) {
      assert Known(loaded, id);
      var k :| 0 <= k < |loaded| && loaded[k].id == id;
      assert loaded[k] in all;
      var a :| 0 <= a < |all| && all[a] == loaded[k];
      assert Reverse(all)[|all| - 1 - a].id == id;
    }
    forall k | 0 <= k < |all| ensures Reverse(all)[k].id in ids {
      assert all[|all| - 1 - k] in all;
    }
  }

  lemma FreshChecked(loaded: seq<Migration>, clock: nat -> Time)
    requires Ordered(loaded)
    ensures Checked(loaded, Applied(map[], loaded, 1, clock))
  {
    hide Applied;
    AppliedFacts(map[], loaded, 1, clock);
    var h := Applied(map[], loaded, 1, clock);
    forall k | 0 <= k < |loaded| ensures RecordOk(loaded[k], h) {
      AppliedChecksum(map[], loaded, 1, clock, k);
      assert DependsBefore(loaded, k);
    }
  }

  /** A non-empty `up` followed by rolling back one batch: the old records, if what was applied is reversible. */
  method UpThenRollback(backend: InMemoryMigrationBackend, loaded: seq<Migration>, limit: Option<nat>, clock: nat -> Time)
    returns (applied: seq<Id>, undone: seq<Id>)
    requires Ordered(loaded) && Checked(loaded, backend.records) && |PendingOf(loaded, backend.records, limit)| > 0
    requires Reversible(PendingOf(loaded, backend.records, limit))
    modifies backend
    ensures backend.records == old(backend.records)
    ensures applied == IdSeq(PendingOf(loaded, old(backend.records), limit))
    ensures undone == IdSeq(Reverse(PendingOf(loaded, old(backend.records), limit)))
  {
    hide PendingOf, Filter, Applied, LastBatches, NextBatch, Reverse, IdSeq, Checked, Reversible;
    RollbackUndoesUp(loaded, backend.records, limit, clock);
    var ok, ids := backend.RunUp(loaded, limit, false, clock, None);
    var rolled, back := backend.Rollback(loaded, 1, false, None);
    return ids, back;
  }
}
