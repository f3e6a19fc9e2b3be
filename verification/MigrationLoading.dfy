/**
 * From the listed migrations to the order the runner works in
 * (packages/migrations/src/index.ts:341-357, 372-396): the sort sees ids only through their rank in
 * the locale's order, and its result is what `MigrationHistory` calls an ordered list.
 */
module MigrationLoading {
  import opened Options
  import Sorting = TopologicalSort
  import opened MigrationHistory

  /** The ids that occur, as an id or as a dependency. */
  predicate Mentions(all: seq<Migration>, id: Id) {
    exists k :: 0 <= k < |all| && (all[k].id == id || id in all[k].dependsOn)
  }

  /** Different ids have different ranks. */
  ghost predicate Ranks(rank: Id -> int, all: seq<Migration>) {
    forall x, y :: Mentions(all, x) && Mentions(all, y) && rank(x) == rank(y) ==> x == y
  }

  predicate Distinct(all: seq<Migration>) {
    forall i, j :: 0 <= i < j < |all| ==> all[i].id != all[j].id
  }

  function ItemOf(rank: Id -> int, m: Migration): Sorting.Item {
    Sorting.Item(rank(m.id), seq(|m.dependsOn|, k requires 0 <= k < |m.dependsOn| => rank(m.dependsOn[k])))
  }

  function ItemsOf(rank: Id -> int, all: seq<Migration>): (r: seq<Sorting.Item>)
    ensures |r| == |all| && forall k :: 0 <= k < |all| ==> r[k] == ItemOf(rank, all[k])
  {
    seq(|all|, k requires 0 <= k < |all| => ItemOf(rank, all[k]))
  }

  lemma DistinctRanks(rank: Id -> int, all: seq<Migration>)
    requires Distinct(all) && Ranks(rank, all)
    ensures Sorting.DistinctIds(ItemsOf(rank, all))
  {
    forall i, j | 0 <= i < j < |all| ensures rank(all[i].id) != rank(all[j].id) {
      assert Mentions(all, all[i].id) && Mentions(all, all[j].id);
    }
  }

  /** `loaded` is the list the ordered ranks stand for. */
  predicate StandsFor(rank: Id -> int, all: seq<Migration>, order: seq<int>, loaded: seq<Migration>) {
    |loaded| == |order| && forall k :: 0 <= k < |order| ==> loaded[k] in all && rank(loaded[k].id) == order[k]
  }

  lemma DependenciesOf(rank: Id -> int, all: seq<Migration>, m: Migration)
    requires Distinct(all) && Ranks(rank, all) && m in all
    ensures var g := Sorting.GraphOf(ItemsOf(rank, all));
      rank(m.id) in g && forall d :: d in m.dependsOn ==> rank(d) in g[rank(m.id)]
  {
    var items := ItemsOf(rank, all);
    DistinctRanks(rank, all);
    var k :| 0 <= k < |all| && all[k] == m;
    Sorting.ItemInGraph(items, k);
    forall d | d in m.dependsOn ensures rank(d) in items[k].dependsOn {
      var j :| 0 <= j < |m.dependsOn| && m.dependsOn[j] == d;
      assert items[k].dependsOn[j] == rank(d);
    }
  }

  /** The sorted list has no id twice and dependencies first. */
  lemma SortedIsOrdered(rank: Id -> int, all: seq<Migration>, order: seq<int>, loaded: seq<Migration>)
    requires Distinct(all) && Ranks(rank, all) && StandsFor(rank, all, order, loaded)
    requires Sorting.LeastReadyFirst(Sorting.GraphOf(ItemsOf(rank, all)), order)
    ensures Ordered(loaded)
  {
    hide Sorting.LeastReadyFirst, Sorting.GraphOf;
    var g := Sorting.GraphOf(ItemsOf(rank, all));
    forall i, j | 0 <= i < j < |loaded| ensures loaded[i].id != loaded[j].id {
      Sorting.DependenciesFirst(g, order, j);
    }
    forall i | 0 <= i < |loaded| ensures DependsBefore(loaded, i) {
      Sorting.DependenciesFirst(g, order, i);
      DependenciesOf(rank, all, loaded[i]);
      forall d | d in loaded[i].dependsOn ensures exists j :: 0 <= j < i && loaded[j].id == d {
        assert rank(d) in g[order[i]];
        var j :| 0 <= j < i && order[j] == rank(d);
        SameId(rank, all, loaded[j], loaded[i], d);
      }
    }
  }

  lemma SameId(rank: Id -> int, all: seq<Migration>, a: Migration, b: Migration, d: Id)
    requires Ranks(rank, all) && a in all && b in all && d in b.dependsOn && rank(a.id) == rank(d)
    ensures a.id == d
  {
    var k :| 0 <= k < |all| && all[k] == a;
    var l :| 0 <= l < |all| && all[l] == b;
    assert Mentions(all, a.id) && Mentions(all, d);
  }

  /** Every ordered rank is the rank of one of the migrations. */
  lemma RankKnown(rank: Id -> int, all: seq<Migration>, order: seq<int>, i: nat)
    requires Distinct(all) && Ranks(rank, all) && i < |order| && Sorting.LeastReadyFirst(Sorting.GraphOf(ItemsOf(rank, all)), order)
    ensures exists k :: 0 <= k < |all| && rank(all[k].id) == order[i]
  {
    var items := ItemsOf(rank, all);
    DistinctRanks(rank, all);
    Sorting.DependenciesFirst(Sorting.GraphOf(items), order, i);
    Sorting.GraphFacts(items);
    var k :| 0 <= k < |items| && items[k].id == order[i];
    assert rank(all[k].id) == order[i];
  }

  /** Nothing is lost on the way. */
  lemma EveryMigrationLoaded(rank: Id -> int, all: seq<Migration>, order: seq<int>, loaded: seq<Migration>, m: Migration)
    requires Distinct(all) && Ranks(rank, all) && StandsFor(rank, all, order, loaded) && m in all
    requires Sorting.Complete(Sorting.GraphOf(ItemsOf(rank, all)), order)
    ensures m in loaded
  {
    DependenciesOf(rank, all, m);
    var i := Sorting.IndexOf(Sorting.GraphOf(ItemsOf(rank, all)), order, rank(m.id));
    var k :| 0 <= k < |all| && all[k] == m;
    var l :| 0 <= l < |all| && all[l] == loaded[i];
    assert Mentions(all, m.id) && Mentions(all, loaded[i].id);
  }

  /** The end of `load`: sort, and look the migrations up again. */
  method Load(rank: Id -> int, all: seq<Migration>) returns (result: Result<seq<Migration>, Sorting.SortError>)
    requires Distinct(all) && Ranks(rank, all)
    ensures result.Err? ==> Sorting.SortedTo(ItemsOf(rank, all), Err(result.error))
    ensures result.Ok? ==>
      && Ordered(result.value)
      && (forall m :: m in result.value <==> m in all)
      && exists order :: Sorting.SortedTo(ItemsOf(rank, all), Ok(order)) && StandsFor(rank, all, order, result.value)
  {
    DistinctRanks(rank, all);
    var sorted := Sorting.Sort(ItemsOf(rank, all));
    if sorted.Err? {
      return Err(sorted.error);
    }
    hide Sorting.LeastReadyFirst, Sorting.GraphOf, Sorting.Complete, Ranks;
    var order := sorted.value;
    var loaded: seq<Migration> := [];
    var i := 0;
    while i < |order|
      invariant 0 <= i <= |order| && StandsFor(rank, all, order[..i], loaded)
    {
      RankKnown(rank, all, order, i);
      var k := 0;
      while rank(all[k].id) != order[i]
        invariant 0 <= k < |all| && exists j :: k <= j < |all| && rank(all[j].id) == order[i]
        decreases |all| - k
      {
        k := k + 1;
      }
      loaded := loaded + [all[k]];
      i := i + 1;
    }
    assert order[..|order|] == order;
    SortedIsOrdered(rank, all, order, loaded);
    forall m | m in all ensures m in loaded { EveryMigrationLoaded(rank, all, order, loaded, m); }
    return Ok(loaded);
  }
}
