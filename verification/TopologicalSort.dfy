/**
 * The dependency order of migrations (packages/migrations/src/index.ts:372-396): Kahn's algorithm
 * with a ready list that is kept sorted. An id is represented by its rank in the order that
 * `localeCompare` gives the loaded ids. `load` has already rejected duplicate ids.
 */
module TopologicalSort {
  import opened Options

  type Id = int

  datatype Item = Item(id: Id, dependsOn: seq<Id>)

  datatype SortError = UnknownDependency | DependencyCycle

  /** The dependencies of every id. */
  type Graph = map<Id, seq<Id>>

  predicate DistinctIds(items: seq<Item>) {
    forall i, j :: 0 <= i < j < |items| ==> items[i].id != items[j].id
  }

  ghost function GraphOf(items: seq<Item>): Graph {
    if |items| == 0 then map[] else GraphOf(items[..|items| - 1])[items[|items| - 1].id := items[|items| - 1].dependsOn]
  }

  // ------------------------------------------------------------------ what is wanted

  predicate Closed(g: Graph) {
    forall i, d :: i in g && d in g[i] ==> d in g
  }

  function Placed(order: seq<Id>): set<Id> {
    set i | i in order
  }

  predicate Ready(g: Graph, placed: set<Id>, i: Id) {
    i in g && i !in placed && forall d :: d in g[i] ==> d in placed
  }

  /** Each position holds the least id among those whose dependencies all come earlier. */
  ghost predicate LeastReadyFirst(g: Graph, order: seq<Id>) {
    forall k :: 0 <= k < |order| ==>
      Ready(g, Placed(order[..k]), order[k]) && forall i :: Ready(g, Placed(order[..k]), i) ==> order[k] <= i
  }

  ghost predicate Complete(g: Graph, order: seq<Id>) {
    forall i :: i in order <==> i in g
  }

  /** A closed walk along dependencies. */
  predicate Cycle(g: Graph, walk: seq<Id>) {
    && |walk| > 0
    && (forall k :: 0 <= k < |walk| ==> walk[k] in g)
    && (forall k :: 0 <= k < |walk| - 1 ==> walk[k + 1] in g[walk[k]])
    && walk[0] in g[walk[|walk| - 1]]
  }

  ghost predicate Cyclic(g: Graph) {
    exists walk :: Cycle(g, walk)
  }

  // -------------------------------------------------------------------- counting

  function Unplaced(deps: seq<Id>, placed: set<Id>): nat {
    if |deps| == 0 then 0 else Unplaced(deps[..|deps| - 1], placed) + if deps[|deps| - 1] in placed then 0 else 1
  }

  lemma {:induction false} UnplacedZero(deps: seq<Id>, placed: set<Id>)
    ensures Unplaced(deps, placed) == 0 <==> forall d :: d in deps ==> d in placed
  {
    if |deps| > 0 {
      UnplacedZero(deps[..|deps| - 1], placed);
      assert forall d :: d in deps <==> d in deps[..|deps| - 1] || d == deps[|deps| - 1];
      assert deps == deps[..|deps| - 1] + [deps[|deps| - 1]];
    }
  }

  /** Placing one more id settles exactly its occurrences. */
  lemma {:induction false} UnplacedLess(deps: seq<Id>, placed: set<Id>, x: Id)
    requires x !in placed
    ensures Unplaced(deps, placed + {x}) == Unplaced(deps, placed) - multiset(deps)[x]
    ensures multiset(deps)[x] <= Unplaced(deps, placed)
  {
    if |deps| > 0 {
      UnplacedLess(deps[..|deps| - 1], placed, x);
      assert deps == deps[..|deps| - 1] + [deps[|deps| - 1]];
    }
  }

  lemma {:induction false} UnplacedAll(deps: seq<Id>)
    ensures Unplaced(deps, {}) == |deps|
  {
    if |deps| > 0 {
      UnplacedAll(deps[..|deps| - 1]);
    }
  }

  // ------------------------------------------------------------------ the ready list

  predicate Increasing(s: seq<Id>) {
    forall i, j :: 0 <= i < j < |s| ==> s[i] < s[j]
  }

  /** `push` followed by `sort`. */
  function Insert(s: seq<Id>, x: Id): seq<Id> {
    if |s| == 0 || x < s[0] then [x] + s else [s[0]] + Insert(s[1..], x)
  }

  lemma {:induction false} InsertMembers(s: seq<Id>, x: Id)
    ensures forall i :: i in Insert(s, x) <==> i in s || i == x
  {
    if |s| > 0 && x >= s[0] {
      InsertMembers(s[1..], x);
      assert s == [s[0]] + s[1..];
    }
  }

  lemma {:induction false} InsertIncreasing(s: seq<Id>, x: Id)
    requires Increasing(s) && x !in s
    ensures Increasing(Insert(s, x))
  {
    if |s| > 0 && x >= s[0] {
      var rest := Insert(s[1..], x);
      InsertIncreasing(s[1..], x);
      InsertMembers(s[1..], x);
      assert x != s[0];
      forall k | 0 <= k < |rest| ensures rest[k] > s[0] {
        assert rest[k] in rest;
      }
    }
  }

  // -------------------------------------------------------------------- the tables

  /** The two maps after the items before `n` have been entered. */
  predicate Tables(g: Graph, incoming: map<Id, nat>, outgoing: map<Id, seq<Id>>) {
    && incoming.Keys == g.Keys && outgoing.Keys == g.Keys
    && (forall i :: i in g ==> incoming[i] == |g[i]|)
    && (forall i, d :: i in g && d in g ==> multiset(outgoing[d])[i] == multiset(g[i])[d])
    && (forall d, i :: d in outgoing && i in outgoing[d] ==> i in g)
  }

  /** Everything but the current item, whose dependencies before `n` have been entered. */
  predicate Partial(g: Graph, done: set<Id>, item: Item, n: int, incoming: map<Id, nat>, outgoing: map<Id, seq<Id>>) {
    0 <= n <= |item.dependsOn| && PartialIn(g, done, item, n, incoming) && PartialOut(g, done, item, n, outgoing)
  }

  predicate PartialIn(g: Graph, done: set<Id>, item: Item, n: nat, incoming: map<Id, nat>) {
    && incoming.Keys == g.Keys
    && (forall i :: i in g ==> incoming[i] == if i in done then |g[i]| else if i == item.id then n else 0)
  }

  predicate PartialOut(g: Graph, done: set<Id>, item: Item, n: nat, outgoing: map<Id, seq<Id>>)
    requires n <= |item.dependsOn|
  {
    && outgoing.Keys == g.Keys
    && (forall d, i :: d in g && i in g ==>
          multiset(outgoing[d])[i] == if i in done then multiset(g[i])[d] else if i == item.id then multiset(item.dependsOn[..n])[d] else 0)
    && (forall d, i :: d in outgoing && i in outgoing[d] ==> i in g)
  }

  lemma {:induction false} GraphFacts(items: seq<Item>)
    requires DistinctIds(items)
    ensures forall k :: 0 <= k < |items| ==> items[k].id in GraphOf(items) && GraphOf(items)[items[k].id] == items[k].dependsOn
    ensures forall i :: i in GraphOf(items) ==> exists k :: 0 <= k < |items| && items[k].id == i
    ensures |GraphOf(items)| == |items|
  {
    if |items| > 0 {
      GraphFacts(items[..|items| - 1]);
    }
  }

  ghost function IdsOf(items: seq<Item>, n: int): set<Id>
    requires 0 <= n <= |items|
  {
    set k | 0 <= k < n :: items[k].id
  }

  /** A longer prefix has one occurrence more of its last element. */
  lemma OneMore(s: seq<Id>, n: int)
    requires 0 <= n < |s|
    ensures multiset(s[..n + 1])[s[n]] == multiset(s[..n])[s[n]] + 1
    ensures forall i :: i != s[n] ==> multiset(s[..n + 1])[i] == multiset(s[..n])[i]
  {
    assert s[..n + 1] == s[..n] + [s[n]];
  }

  lemma EnterOne(g: Graph, done: set<Id>, item: Item, n: int, incoming: map<Id, nat>, outgoing: map<Id, seq<Id>>)
    requires Partial(g, done, item, n, incoming, outgoing) && n < |item.dependsOn| && item.id in g && item.id !in done && item.dependsOn[n] in g
    ensures var d := item.dependsOn[n];
      Partial(g, done, item, n + 1, incoming[item.id := incoming[item.id] + 1], outgoing[d := outgoing[d] + [item.id]])
  {
    hide PartialIn, PartialOut;
    EnterIncoming(g, done, item, n, incoming);
    EnterOutgoing(g, done, item, n, outgoing);
  }

  lemma EnterIncoming(g: Graph, done: set<Id>, item: Item, n: nat, incoming: map<Id, nat>)
    requires PartialIn(g, done, item, n, incoming) && item.id in g && item.id !in done
    ensures item.id in incoming && PartialIn(g, done, item, n + 1, incoming[item.id := incoming[item.id] + 1])
  {
  }

  lemma EnterOutgoing(g: Graph, done: set<Id>, item: Item, n: nat, outgoing: map<Id, seq<Id>>)
    requires n < |item.dependsOn| && PartialOut(g, done, item, n, outgoing) && item.id in g && item.id !in done && item.dependsOn[n] in g
    ensures var d := item.dependsOn[n]; d in outgoing && PartialOut(g, done, item, n + 1, outgoing[d := outgoing[d] + [item.id]])
  {
    OneMore(item.dependsOn, n);
    var d := item.dependsOn[n];
    var more := outgoing[d] + [item.id];
    assert multiset(more) == multiset(outgoing[d]) + multiset{item.id};
    assert forall i :: i in more ==> i in outgoing[d] || i == item.id;
  }

  lemma AllIds(items: seq<Item>)
    requires DistinctIds(items)
    ensures IdsOf(items, |items|) == GraphOf(items).Keys
  {
    GraphFacts(items);
    forall i | i in GraphOf(items) ensures i in IdsOf(items, |items|) {
      var k :| 0 <= k < |items| && items[k].id == i;
    }
  }

  method EmptyTables(items: seq<Item>) returns (incoming: map<Id, nat>, outgoing: map<Id, seq<Id>>)
    requires DistinctIds(items)
    ensures incoming.Keys == outgoing.Keys == GraphOf(items).Keys
    ensures forall d :: d in incoming ==> incoming[d] == 0 && outgoing[d] == []
  {
    incoming := map[];
    outgoing := map[];
    var i := 0;
    while i < |items|
      invariant 0 <= i <= |items| && incoming.Keys == outgoing.Keys == IdsOf(items, i)
      invariant forall d :: d in incoming ==> incoming[d] == 0 && outgoing[d] == []
    {
      incoming := incoming[items[i].id := 0];
      outgoing := outgoing[items[i].id := []];
      i := i + 1;
    }
    AllIds(items);
  }

  /** The inner loop: one item's dependencies. */
  method EnterItem(ghost g: Graph, ghost done: set<Id>, item: Item, incoming0: map<Id, nat>, outgoing0: map<Id, seq<Id>>)
    returns (incoming: map<Id, nat>, outgoing: map<Id, seq<Id>>, ok: bool)
    requires Partial(g, done, item, 0, incoming0, outgoing0) && item.id in g && item.id !in done
    ensures ok <==> KnownItem(g, item)
    ensures ok ==> Partial(g, done, item, |item.dependsOn|, incoming, outgoing)
  {
    hide Partial;
    incoming, outgoing := incoming0, outgoing0;
    var n := 0;
    while n < |item.dependsOn|
      invariant 0 <= n <= |item.dependsOn|
      invariant Partial(g, done, item, n, incoming, outgoing)
      invariant forall k :: 0 <= k < n ==> item.dependsOn[k] in g
    {
      var d := item.dependsOn[n];
      assert incoming.Keys == g.Keys == outgoing.Keys by { PartialKeys(g, done, item, n, incoming, outgoing); }
      if d !in incoming {
        assert d in item.dependsOn;
        return incoming, outgoing, false;
      }
      EnterOne(g, done, item, n, incoming, outgoing);
      incoming := incoming[item.id := incoming[item.id] + 1];
      outgoing := outgoing[d := outgoing[d] + [item.id]];
      n := n + 1;
    }
    ok := true;
  }

  lemma NothingEntered(g: Graph, next: Item, incoming: map<Id, nat>, outgoing: map<Id, seq<Id>>)
    requires incoming.Keys == outgoing.Keys == g.Keys
    requires forall d :: d in incoming ==> incoming[d] == 0 && outgoing[d] == []
    ensures Partial(g, {}, next, 0, incoming, outgoing)
  {
    assert next.dependsOn[..0] == [];
  }

  lemma PartialKeys(g: Graph, done: set<Id>, item: Item, n: int, incoming: map<Id, nat>, outgoing: map<Id, seq<Id>>)
    requires Partial(g, done, item, n, incoming, outgoing)
    ensures incoming.Keys == g.Keys == outgoing.Keys
  {
  }

  lemma NextItem(g: Graph, done: set<Id>, item: Item, next: Item, incoming: map<Id, nat>, outgoing: map<Id, seq<Id>>)
    requires Partial(g, done, item, |item.dependsOn|, incoming, outgoing) && item.id in g && g[item.id] == item.dependsOn && item.id !in done
    requires next.id !in done + {item.id}
    ensures Partial(g, done + {item.id}, next, 0, incoming, outgoing)
  {
    assert item.dependsOn[..|item.dependsOn|] == item.dependsOn;
    assert next.dependsOn[..0] == [];
  }

  lemma Finished(g: Graph, done: set<Id>, next: Item, incoming: map<Id, nat>, outgoing: map<Id, seq<Id>>)
    requires Partial(g, done, next, 0, incoming, outgoing) && done == g.Keys
    ensures Tables(g, incoming, outgoing)
  {
  }

  /** An item that is not in the list, for the state between two items. */
  ghost function Outsider(items: seq<Item>): (r: Item)
    ensures forall k :: 0 <= k < |items| ==> items[k].id < r.id
  {
    if |items| == 0 then Item(0, [])
    else var rest := Outsider(items[..|items| - 1]); Item(Max(rest.id, items[|items| - 1].id + 1), [])
  }

  ghost function Current(items: seq<Item>, i: int): Item
    requires 0 <= i <= |items|
  {
    if i < |items| then items[i] else Outsider(items)
  }

  lemma CurrentIsNew(items: seq<Item>, i: int)
    requires DistinctIds(items) && 0 <= i <= |items|
    ensures Current(items, i).id !in IdsOf(items, i) && (i < |items| ==> Current(items, i) == items[i])
  {
  }

  /** Every dependency of the first `n` items is known. */
  predicate KnownUpTo(g: Graph, items: seq<Item>, n: int)
    requires 0 <= n <= |items|
  {
    forall k :: 0 <= k < n ==> KnownItem(g, items[k])
  }

  predicate KnownItem(g: Graph, item: Item) {
    forall d :: d in item.dependsOn ==> d in g
  }

  lemma ItemInGraph(items: seq<Item>, k: nat)
    requires DistinctIds(items) && k < |items|
    ensures items[k].id in GraphOf(items) && GraphOf(items)[items[k].id] == items[k].dependsOn
  {
    GraphFacts(items);
  }

  lemma ClosedIsKnown(items: seq<Item>)
    requires DistinctIds(items)
    ensures Closed(GraphOf(items)) <==> KnownUpTo(GraphOf(items), items, |items|)
  {
    GraphFacts(items);
    var g := GraphOf(items);
    if Closed(g) {
      forall k | 0 <= k < |items| ensures KnownItem(g, items[k]) {
        assert items[k].id in g && g[items[k].id] == items[k].dependsOn;
      }
    }
    if KnownUpTo(g, items, |items|) {
      forall i, d | i in g && d in g[i] ensures d in g {
        var k :| 0 <= k < |items| && items[k].id == i;
        assert KnownItem(g, items[k]);
      }
    }
  }

  lemma NothingKnown(g: Graph, items: seq<Item>)
    ensures KnownUpTo(g, items, 0)
  {
  }

  lemma KnownMore(g: Graph, items: seq<Item>, n: int)
    requires 0 <= n < |items| && KnownUpTo(g, items, n)
    ensures KnownUpTo(g, items, n + 1) <==> KnownItem(g, items[n])
    ensures !KnownItem(g, items[n]) ==> !KnownUpTo(g, items, |items|)
  {
  }

  lemma IdsMore(items: seq<Item>, n: int)
    requires 0 <= n < |items|
    ensures IdsOf(items, n + 1) == IdsOf(items, n) + {items[n].id}
  {
  }

  lemma NoIds(items: seq<Item>)
    ensures IdsOf(items, 0) == {}
  {
  }

  /** The loops that count dependencies; not ok for an unknown one. */
  method BuildTables(items: seq<Item>) returns (incoming: map<Id, nat>, outgoing: map<Id, seq<Id>>, ok: bool)
    requires DistinctIds(items)
    ensures ok <==> Closed(GraphOf(items))
    ensures ok ==> Tables(GraphOf(items), incoming, outgoing)
  {
    hide *;
    ghost var g := GraphOf(items);
    ClosedIsKnown(items);
    incoming, outgoing := EmptyTables(items);
    NothingEntered(g, Current(items, 0), incoming, outgoing);
    NoIds(items);
    NothingKnown(g, items);
    var i := 0;
    while i < |items|
      invariant 0 <= i <= |items|
      invariant Partial(g, IdsOf(items, i), Current(items, i), 0, incoming, outgoing)
      invariant KnownUpTo(g, items, i)
    {
      CurrentIsNew(items, i);
      ItemInGraph(items, i);
      incoming, outgoing, ok := EnterItem(g, IdsOf(items, i), items[i], incoming, outgoing);
      KnownMore(g, items, i);
      if !ok {
        return;
      }
      CurrentIsNew(items, i + 1);
      IdsMore(items, i);
      NextItem(g, IdsOf(items, i), items[i], Current(items, i + 1), incoming, outgoing);
      i := i + 1;
    }
    AllIds(items);
    Finished(g, IdsOf(items, i), Current(items, i), incoming, outgoing);
    ok := true;
  }

  // ---------------------------------------------------------------- facts about the order

  /** Dependencies come first, no id comes twice, and every id is a known one. */
  lemma DependenciesFirst(g: Graph, order: seq<Id>, k: nat)
    requires LeastReadyFirst(g, order) && k < |order|
    ensures order[k] in g
    ensures forall d :: d in g[order[k]] ==> exists j :: 0 <= j < k && order[j] == d
    ensures forall j :: 0 <= j < k ==> order[j] != order[k]
  {
    var before := order[..k];
    assert Ready(g, Placed(before), order[k]);
    forall d | d in g[order[k]] ensures exists j :: 0 <= j < k && order[j] == d {
      assert d in before;
      var j :| 0 <= j < |before| && before[j] == d;
      assert order[j] == d;
    }
    forall j | 0 <= j < k ensures order[j] != order[k] {
      assert before[j] in before;
    }
  }

  lemma PlacedDependencies(g: Graph, order: seq<Id>, i: Id)
    requires LeastReadyFirst(g, order) && i in order
    ensures i in g && forall d :: d in g[i] ==> d in order
  {
    var k :| 0 <= k < |order| && order[k] == i;
    DependenciesFirst(g, order, k);
  }

  lemma ExtendOrder(g: Graph, order: seq<Id>, x: Id)
    requires LeastReadyFirst(g, order) && Ready(g, Placed(order), x) && forall i :: Ready(g, Placed(order), i) ==> x <= i
    ensures LeastReadyFirst(g, order + [x])
  {
    var order' := order + [x];
    forall k | 0 <= k < |order'|
      ensures Ready(g, Placed(order'[..k]), order'[k]) && forall i :: Ready(g, Placed(order'[..k]), i) ==> order'[k] <= i
    {
      if k < |order| {
        assert order'[..k] == order[..k];
      } else {
        assert order'[..k] == order;
      }
    }
  }

  /** The order is determined by the graph. */
  lemma {:induction false} OrderIsUnique(g: Graph, a: seq<Id>, b: seq<Id>, n: nat)
    requires LeastReadyFirst(g, a) && LeastReadyFirst(g, b) && n <= |a| && n <= |b|
    ensures a[..n] == b[..n]
  {
    if n > 0 {
      OrderIsUnique(g, a, b, n - 1);
      assert a[n - 1] == b[n - 1];
      assert a[..n] == a[..n - 1] + [a[n - 1]] && b[..n] == b[..n - 1] + [b[n - 1]];
    }
  }

  lemma {:induction false} DistinctSize(order: seq<Id>)
    requires forall i, j :: 0 <= i < j < |order| ==> order[i] != order[j]
    ensures |Placed(order)| == |order|
  {
    if |order| > 0 {
      var init := order[..|order| - 1];
      DistinctSize(init);
      assert Placed(order) == Placed(init) + {order[|order| - 1]};
    }
  }

  /** An order is complete exactly when it is as long as the list of items. */
  lemma CompleteByLength(g: Graph, order: seq<Id>)
    requires LeastReadyFirst(g, order)
    ensures Complete(g, order) <==> |order| == |g|
    ensures Placed(order) <= g.Keys
  {
    forall i, j | 0 <= i < j < |order| ensures order[i] != order[j] { DependenciesFirst(g, order, j); }
    DistinctSize(order);
    forall i | i in Placed(order) ensures i in g { PlacedDependencies(g, order, i); }
    assert |g| == |g.Keys|;
    if |order| == |g| {
      SameSize(Placed(order), g.Keys);
    }
    if Complete(g, order) {
      forall i | i in g ensures i in Placed(order) {
        assert i in order;
      }
      assert g.Keys == Placed(order);
    }
  }

  lemma SameSize(a: set<Id>, b: set<Id>)
    requires a <= b && |a| == |b|
    ensures a == b
  {
    assert |b - a| == 0;
  }

  // ------------------------------------------------------------------------- cycles

  lemma DependencyIndex(g: Graph, order: seq<Id>, k: nat, d: Id) returns (j: int)
    requires LeastReadyFirst(g, order) && k < |order| && order[k] in g && d in g[order[k]]
    ensures 0 <= j < k && order[j] == d
  {
    DependenciesFirst(g, order, k);
    j :| 0 <= j < k && order[j] == d;
  }

  /** No order ever reaches an id on a cycle. */
  lemma {:induction false} CycleBlocks(g: Graph, order: seq<Id>, walk: seq<Id>, n: nat)
    requires LeastReadyFirst(g, order) && Cycle(g, walk) && n <= |order|
    ensures forall k, m :: 0 <= k < n && 0 <= m < |walk| ==> order[k] != walk[m]
  {
    if n > 0 {
      CycleBlocks(g, order, walk, n - 1);
      DependenciesFirst(g, order, n - 1);
      forall m | 0 <= m < |walk| ensures order[n - 1] != walk[m] {
        var successor := if m + 1 < |walk| then m + 1 else 0;
        assert walk[successor] in g[walk[m]];
        if order[n - 1] == walk[m] {
          var j := DependencyIndex(g, order, n - 1, walk[successor]);
        }
      }
    }
  }

  predicate Walk(g: Graph, within: set<Id>, walk: seq<Id>) {
    && |walk| > 0 && within <= g.Keys
    && (forall k :: 0 <= k < |walk| ==> walk[k] in within)
    && (forall k :: 0 <= k < |walk| - 1 ==> walk[k] in g && walk[k + 1] in g[walk[k]])
  }

  /** Everyone in the set depends on someone in the set. */
  predicate EveryoneDepends(g: Graph, within: set<Id>) {
    within <= g.Keys && forall i :: i in within ==> DependsInside(g, within, i)
  }

  predicate DependsInside(g: Graph, within: set<Id>, i: Id) {
    i in g && exists d :: d in g[i] && d in within
  }

  /** Following dependencies inside a set where everyone has one, the walk must close. */
  lemma {:induction false} FindCycle(g: Graph, within: set<Id>, walk: seq<Id>, unseen: set<Id>) returns (cycle: seq<Id>)
    requires Walk(g, within, walk) && EveryoneDepends(g, within) && forall i :: i in within ==> i in walk || i in unseen
    ensures Cycle(g, cycle)
    decreases |unseen|
  {
    hide EveryoneDepends, Cycle;
    var next := Successor(g, within, walk[|walk| - 1]);
    if next in walk {
      var k :| 0 <= k < |walk| && walk[k] == next;
      cycle := CloseWalk(g, within, walk, k);
    } else {
      ExtendWalk(g, within, walk, next);
      cycle := FindCycle(g, within, walk + [next], unseen - {next});
    }
  }

  lemma Successor(g: Graph, within: set<Id>, i: Id) returns (d: Id)
    requires EveryoneDepends(g, within) && i in within
    ensures i in g && d in g[i] && d in within
  {
    assert DependsInside(g, within, i);
    d :| d in g[i] && d in within;
  }

  lemma CloseWalk(g: Graph, within: set<Id>, walk: seq<Id>, k: nat) returns (cycle: seq<Id>)
    requires Walk(g, within, walk) && k < |walk| && walk[k] in g[walk[|walk| - 1]]
    ensures Cycle(g, cycle)
  {
    cycle := walk[k..];
  }

  lemma ExtendWalk(g: Graph, within: set<Id>, walk: seq<Id>, next: Id)
    requires Walk(g, within, walk) && next in within && next in g[walk[|walk| - 1]]
    ensures Walk(g, within, walk + [next])
  {
  }

  /** When nothing is ready and something is left, there is a cycle. */
  lemma StuckMeansCycle(g: Graph, order: seq<Id>)
    requires Closed(g) && LeastReadyFirst(g, order) && !Complete(g, order)
    requires forall i :: !Ready(g, Placed(order), i)
    ensures Cyclic(g)
  {
    CompleteByLength(g, order);
    var left := g.Keys - Placed(order);
    assert EveryoneDepends(g, left) by {
      forall i | i in left ensures DependsInside(g, left, i) {
        assert !Ready(g, Placed(order), i);
      }
    }
    var first :| first in g && first !in order;
    var walk := FindCycle(g, left, [first], left);
  }

  // --------------------------------------------------------------------- the algorithm

  /** Between two turns of the main loop. */
  ghost predicate LoopState(g: Graph, order: seq<Id>, incoming: map<Id, nat>, ready: seq<Id>) {
    && Closed(g) && LeastReadyFirst(g, order) && incoming.Keys == g.Keys && Increasing(ready)
    && (forall i :: i in g ==> incoming[i] == Unplaced(g[i], Placed(order)))
    && (forall i :: i in ready <==> i in g && i !in order && incoming[i] == 0)
  }

  /** While the releases of the item `x` just placed are counted down; `outs[..n]` are done. */
  ghost predicate Releasing(g: Graph, order: seq<Id>, x: Id, outs: seq<Id>, n: int, incoming: map<Id, nat>, ready: seq<Id>) {
    && 0 <= n <= |outs| && incoming.Keys == g.Keys && Increasing(ready)
    && (forall i :: i in g ==> incoming[i] == Unplaced(g[i], Placed(order)) - multiset(outs[..n])[i])
    && (forall i :: i in ready <==> i in g && i !in order && i != x && incoming[i] == 0)
  }

  /** What the outgoing list of `x` says. */
  predicate OutgoingOf(g: Graph, x: Id, outs: seq<Id>) {
    (forall i :: i in outs ==> i in g) && forall i :: i in g ==> multiset(outs)[i] == multiset(g[i])[x]
  }

  lemma CountPositive(g: Graph, order: seq<Id>, x: Id, outs: seq<Id>, n: int)
    requires LeastReadyFirst(g, order) && OutgoingOf(g, x, outs) && 0 <= n < |outs| && x !in order
    ensures outs[n] in g && multiset(outs[..n])[outs[n]] + 1 <= Unplaced(g[outs[n]], Placed(order))
    ensures outs[n] !in order && x in g[outs[n]]
  {
    var i := outs[n];
    assert outs == outs[..n] + [i] + outs[n + 1..];
    assert multiset(outs)[i] >= multiset(outs[..n])[i] + 1;
    UnplacedLess(g[i], Placed(order), x);
    assert x in g[i];
    if i in order {
      PlacedDependencies(g, order, i);
    }
  }

  lemma ReleaseOne(g: Graph, order: seq<Id>, x: Id, outs: seq<Id>, n: int, incoming: map<Id, nat>, ready: seq<Id>)
    requires Releasing(g, order, x, outs, n, incoming, ready) && n < |outs| && Ready(g, Placed(order), x)
    requires LeastReadyFirst(g, order) && OutgoingOf(g, x, outs)
    ensures outs[n] in incoming && incoming[outs[n]] > 0
    ensures var i := outs[n]; var incoming' := incoming[i := incoming[i] - 1];
      Releasing(g, order, x, outs, n + 1, incoming', if incoming'[i] == 0 then Insert(ready, i) else ready)
  {
    hide LeastReadyFirst, OutgoingOf, Unplaced, Insert;
    var i := outs[n];
    assert x !in order;
    CountPositive(g, order, x, outs, n);
    assert i != x by { ReadyIsNotItsOwn(g, order, x, i); }
    OneMore(outs, n);
    InsertMembers(ready, i);
    assert i !in ready;
    InsertIncreasing(ready, i);
  }

  lemma ReadyIsNotItsOwn(g: Graph, order: seq<Id>, x: Id, i: Id)
    requires Ready(g, Placed(order), x) && i in g && x in g[i]
    ensures i != x
  {
  }

  /** The inner loop over the outgoing list of the item just placed. */
  method Release(ghost g: Graph, ghost order: seq<Id>, x: Id, outs: seq<Id>, incoming0: map<Id, nat>, ready0: seq<Id>)
    returns (incoming: map<Id, nat>, ready: seq<Id>)
    requires LeastReadyFirst(g, order) && OutgoingOf(g, x, outs) && Ready(g, Placed(order), x)
    requires Releasing(g, order, x, outs, 0, incoming0, ready0)
    ensures Releasing(g, order, x, outs, |outs|, incoming, ready)
  {
    hide *;
    incoming, ready := incoming0, ready0;
    var n := 0;
    while n < |outs|
      invariant 0 <= n <= |outs|
      invariant Releasing(g, order, x, outs, n, incoming, ready)
    {
      ReleaseOne(g, order, x, outs, n, incoming, ready);
      var i := outs[n];
      incoming := incoming[i := incoming[i] - 1];
      if incoming[i] == 0 {
        ready := Insert(ready, i);
      }
      n := n + 1;
    }
  }

  lemma StartRelease(g: Graph, order: seq<Id>, incoming: map<Id, nat>, ready: seq<Id>, outs: seq<Id>)
    requires LoopState(g, order, incoming, ready) && |ready| > 0
    ensures Ready(g, Placed(order), ready[0]) && LeastReadyFirst(g, order + [ready[0]])
    ensures Releasing(g, order, ready[0], outs, 0, incoming, ready[1..])
  {
    var x := ready[0];
    assert x in ready;
    UnplacedZero(g[x], Placed(order));
    forall i | Ready(g, Placed(order), i) ensures x <= i {
      UnplacedZero(g[i], Placed(order));
      assert i in ready;
    }
    ExtendOrder(g, order, x);
    assert ready == [x] + ready[1..];
    assert outs[..0] == [];
  }

  lemma EndRelease(g: Graph, order: seq<Id>, x: Id, outs: seq<Id>, incoming: map<Id, nat>, ready: seq<Id>)
    requires Releasing(g, order, x, outs, |outs|, incoming, ready) && OutgoingOf(g, x, outs) && x !in order
    requires Closed(g) && LeastReadyFirst(g, order + [x])
    ensures LoopState(g, order + [x], incoming, ready)
  {
    assert outs[..|outs|] == outs;
    assert Placed(order + [x]) == Placed(order) + {x};
    forall i | i in g ensures incoming[i] == Unplaced(g[i], Placed(order + [x])) {
      UnplacedLess(g[i], Placed(order), x);
    }
  }

  /** The initial ready list: every id without dependencies, sorted. */
  method InitialReady(items: seq<Item>, incoming: map<Id, nat>) returns (ready: seq<Id>)
    requires DistinctIds(items) && incoming.Keys == IdsOf(items, |items|)
    ensures Increasing(ready) && forall i :: i in ready <==> i in incoming && incoming[i] == 0
  {
    ready := [];
    var k := 0;
    while k < |items|
      invariant 0 <= k <= |items| && Increasing(ready)
      invariant forall i :: i in ready <==> i in IdsOf(items, k) && i in incoming && incoming[i] == 0
    {
      var id := items[k].id;
      assert id in IdsOf(items, |items|) && IdsOf(items, k + 1) == IdsOf(items, k) + {id};
      if incoming[id] == 0 {
        InsertMembers(ready, id);
        InsertIncreasing(ready, id);
        ready := Insert(ready, id);
      }
      k := k + 1;
    }
  }

  lemma StartLoop(g: Graph, incoming: map<Id, nat>, outgoing: map<Id, seq<Id>>, ready: seq<Id>)
    requires Closed(g) && Tables(g, incoming, outgoing) && Increasing(ready)
    requires forall i :: i in ready <==> i in incoming && incoming[i] == 0
    ensures LoopState(g, [], incoming, ready)
  {
    assert Placed([]) == {};
    forall i | i in g ensures incoming[i] == Unplaced(g[i], {}) { UnplacedAll(g[i]); }
  }

  lemma TablesOutgoing(g: Graph, incoming: map<Id, nat>, outgoing: map<Id, seq<Id>>, x: Id)
    requires Tables(g, incoming, outgoing) && x in g
    ensures x in outgoing && OutgoingOf(g, x, outgoing[x])
  {
  }

  lemma NothingReady(g: Graph, order: seq<Id>, incoming: map<Id, nat>)
    requires LoopState(g, order, incoming, [])
    ensures forall i :: !Ready(g, Placed(order), i)
  {
    forall i ensures !Ready(g, Placed(order), i) {
      if i in g {
        UnplacedZero(g[i], Placed(order));
      }
    }
  }

  /**
   * The sort fails exactly when a dependency is unknown or the dependencies contain a cycle;
   * otherwise it returns every id once, always the least one whose dependencies were all returned.
   */
  method Sort(items: seq<Item>) returns (result: Result<seq<Id>, SortError>)
    requires DistinctIds(items)
    ensures SortedTo(items, result)
  {
    hide Tables, LoopState, LeastReadyFirst, Complete, Cyclic, GraphOf, Closed, Releasing, OutgoingOf, Increasing, Ready;
    ghost var g := GraphOf(items);
    var incoming, outgoing, ok := BuildTables(items);
    if !ok {
      return Err(UnknownDependency);
    }
    ghost var counts := incoming;
    assert incoming.Keys == IdsOf(items, |items|) by { AllIds(items); TableKeys(g, incoming, outgoing); }
    var ready := InitialReady(items, incoming);
    StartLoop(g, incoming, outgoing, ready);
    var sorted: seq<Id> := [];
    while |ready| > 0
      invariant LoopState(g, sorted, incoming, ready)
      invariant |sorted| <= |g|
      decreases |g| - |sorted|
    {
      var x := ready[0];
      assert x in g && x !in sorted && LeastReadyFirst(g, sorted) by { HeadReady(g, sorted, incoming, ready); }
      TablesOutgoing(g, counts, outgoing, x);
      StartRelease(g, sorted, incoming, ready, outgoing[x]);
      incoming, ready := Release(g, sorted, x, outgoing[x], incoming, ready[1..]);
      EndRelease(g, sorted, x, outgoing[x], incoming, ready);
      sorted := sorted + [x];
      OrderFits(g, sorted);
    }
    assert LeastReadyFirst(g, sorted) by { OrderOf(g, sorted, incoming, ready); }
    GraphFacts(items);
    CompleteByLength(g, sorted);
    if |sorted| != |items| {
      NothingReady(g, sorted, incoming);
      StuckMeansCycle(g, sorted);
      return Err(DependencyCycle);
    }
    NoCycle(g, sorted);
    return Ok(sorted);
  }

  lemma TableKeys(g: Graph, incoming: map<Id, nat>, outgoing: map<Id, seq<Id>>)
    requires Tables(g, incoming, outgoing)
    ensures incoming.Keys == g.Keys == outgoing.Keys
  {
  }

  lemma OrderOf(g: Graph, order: seq<Id>, incoming: map<Id, nat>, ready: seq<Id>)
    requires LoopState(g, order, incoming, ready)
    ensures LeastReadyFirst(g, order)
  {
  }

  lemma HeadReady(g: Graph, order: seq<Id>, incoming: map<Id, nat>, ready: seq<Id>)
    requires LoopState(g, order, incoming, ready) && |ready| > 0
    ensures ready[0] in g && ready[0] !in order && LeastReadyFirst(g, order)
  {
    assert ready[0] in ready;
  }

  lemma OrderFits(g: Graph, order: seq<Id>)
    requires LeastReadyFirst(g, order)
    ensures |order| <= |g|
  {
    forall i, j | 0 <= i < j < |order| ensures order[i] != order[j] { DependenciesFirst(g, order, j); }
    DistinctSize(order);
    CompleteByLength(g, order);
    assert g.Keys == Placed(order) + (g.Keys - Placed(order));
    assert |g| == |g.Keys|;
  }

  lemma IndexOf(g: Graph, order: seq<Id>, i: Id) returns (k: int)
    requires Complete(g, order) && i in g
    ensures 0 <= k < |order| && order[k] == i
  {
    k :| 0 <= k < |order| && order[k] == i;
  }

  lemma NoCycle(g: Graph, order: seq<Id>)
    requires LeastReadyFirst(g, order) && Complete(g, order)
    ensures !Cyclic(g)
  {
    forall walk ensures !Cycle(g, walk) {
      if |walk| > 0 && walk[0] in g && Cycle(g, walk) {
        var k := IndexOf(g, order, walk[0]);
        CycleBlocks(g, order, walk, |order|);
      }
    }
  }

  // ------------------------------------------------------------------- source order

  lemma SameGraph(a: seq<Item>, b: seq<Item>)
    requires DistinctIds(a) && DistinctIds(b) && forall item :: item in a <==> item in b
    ensures GraphOf(a) == GraphOf(b)
  {
    GraphFacts(a);
    GraphFacts(b);
    forall i | i in GraphOf(a) ensures i in GraphOf(b) && GraphOf(a)[i] == GraphOf(b)[i] {
      var k :| 0 <= k < |a| && a[k].id == i;
      assert a[k] in b;
    }
    forall i | i in GraphOf(b) ensures i in GraphOf(a) {
      var k :| 0 <= k < |b| && b[k].id == i;
      assert b[k] in a;
    }
  }

  /** What `Sort` promises. */
  ghost predicate SortedTo(items: seq<Item>, result: Result<seq<Id>, SortError>) {
    && (result == Err(UnknownDependency) <==> !Closed(GraphOf(items)))
    && (result == Err(DependencyCycle) <==> Closed(GraphOf(items)) && Cyclic(GraphOf(items)))
    && (result.Ok? ==> LeastReadyFirst(GraphOf(items), result.value) && Complete(GraphOf(items), result.value))
  }

  /** The order in which the sources list their migrations does not matter, neither for the result nor for the failure. */
  lemma SourceOrderIrrelevant(a: seq<Item>, b: seq<Item>, x: Result<seq<Id>, SortError>, y: Result<seq<Id>, SortError>)
    requires DistinctIds(a) && DistinctIds(b) && forall item :: item in a <==> item in b
    requires SortedTo(a, x) && SortedTo(b, y)
    ensures x == y
  {
    hide LeastReadyFirst, Complete, GraphOf, Closed, Cyclic;
    SameGraph(a, b);
    assert x.Err? ==> x.error.UnknownDependency? || x.error.DependencyCycle?;
    assert y.Err? ==> y.error.UnknownDependency? || y.error.DependencyCycle?;
    if x.Ok? && y.Ok? {
      CompleteByLength(GraphOf(a), x.value);
      CompleteByLength(GraphOf(a), y.value);
      OrderIsUnique(GraphOf(a), x.value, y.value, |x.value|);
      assert x.value[..|x.value|] == x.value && y.value[..|y.value|] == y.value;
    }
  }
}
