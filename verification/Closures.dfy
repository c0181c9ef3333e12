/** Adjacency lists and the breadth-first closure behind the prerequisite and unlock queries. */
module Closures {
  import opened Sequences
  import opened Orders
  import opened Walks
  import opened Contracts
  import opened Validation

  datatype Missing = KeyMissing(key: Id)

  /** How often `target` is listed under `source`. */
  ghost function Listed(adjacency: map<Id, seq<Id>>, source: Id, target: Id): nat {
    multiset(DepsOf(adjacency, source))[target]
  }

  ghost function AdjacencyEdges(adjacency: map<Id, seq<Id>>): Edges {
    PrerequisiteEdges(adjacency)
  }

  /** Prerequisite edges, read from dependent to prerequisite when `reverse`. */
  ghost function DirectedEdges(cs: seq<Contract>, reverse: bool): Edges {
    var E := PrerequisiteEdges(Dependencies(cs));
    if reverse then E else Reverse(E)
  }

  method AddEdges(before: map<Id, seq<Id>>, id: Id, deps: seq<Id>, reverse: bool) returns (adjacency: map<Id, seq<Id>>)
    ensures forall a, b :: Listed(adjacency, a, b) ==
                           Listed(before, a, b)
                           + (if reverse && a == id then multiset(deps)[b] else 0)
                           + (if !reverse && b == id then multiset(deps)[a] else 0)
  {
    adjacency := before;
    for j := 0 to |deps|
      invariant forall a, b :: Listed(adjacency, a, b) ==
                               Listed(before, a, b)
                               + (if reverse && a == id then multiset(deps[..j])[b] else 0)
                               + (if !reverse && b == id then multiset(deps[..j])[a] else 0)
    {
      var source, target := if reverse then id else deps[j], if reverse then deps[j] else id;
      assert deps[..j + 1] == deps[..j] + [deps[j]];
      adjacency := adjacency[source := DepsOf(adjacency, source) + [target]];
    }
    assert deps[..|deps|] == deps;
  }

  ghost function ListedIn(cs: seq<Contract>, ids: seq<Id>, a: Id, b: Id): nat {
    if a in ids then Listed(Dependencies(cs), a, b) else 0
  }

  ghost function Collected(cs: seq<Contract>, ids: seq<Id>, reverse: bool, a: Id, b: Id): nat {
    if reverse then ListedIn(cs, ids, a, b) else ListedIn(cs, ids, b, a)
  }

  lemma {:induction false} CollectedNext(cs: seq<Contract>, ids: seq<Id>, id: Id, reverse: bool, a: Id, b: Id)
    requires id in ById(cs) && id !in ids
    ensures Collected(cs, ids + [id], reverse, a, b) ==
            Collected(cs, ids, reverse, a, b)
            + (if reverse && a == id then multiset(ById(cs)[id].prerequisites)[b] else 0)
            + (if !reverse && b == id then multiset(ById(cs)[id].prerequisites)[a] else 0)
  {
  }

  method CollectLists(cs: seq<Contract>, keys: seq<Id>, reverse: bool) returns (lists: map<Id, seq<Id>>)
    requires NoDup(keys) && forall k :: k in keys ==> k in ById(cs)
    ensures forall a, b :: Listed(lists, a, b) == Collected(cs, keys, reverse, a, b)
  {
    var contracts := ById(cs);
    lists := map[];
    for i := 0 to |keys|
      invariant forall a, b :: Listed(lists, a, b) == Collected(cs, keys[..i], reverse, a, b)
    {
      var id := keys[i];
      assert id in keys && id !in keys[..i];
      assert keys[..i + 1] == keys[..i] + [id];
      ghost var before := lists;
      lists := AddEdges(lists, id, contracts[id].prerequisites, reverse);
      forall a, b
        ensures Listed(lists, a, b) == Collected(cs, keys[..i + 1], reverse, a, b)
      {
        CollectedNext(cs, keys[..i], id, reverse, a, b);
        assert Listed(before, a, b) == Collected(cs, keys[..i], reverse, a, b);
      }
    }
    assert keys[..|keys|] == keys;
  }

  function SortLists(lists: map<Id, seq<Id>>): (sorted: map<Id, seq<Id>>)
    ensures forall a :: Sorted(DepsOf(sorted, a), StrLe)
    ensures forall a, b :: Listed(sorted, a, b) == Listed(lists, a, b)
  {
    map k | k in lists :: SortIds(lists[k])
  }

  /** Each list holds one entry per declared prerequisite, in ascending order. */
  method Adjacency(cs: seq<Contract>, reverse: bool) returns (adjacency: map<Id, seq<Id>>)
    ensures forall a :: Sorted(DepsOf(adjacency, a), StrLe)
    ensures forall a, b :: Listed(adjacency, a, b) ==
                           if reverse then Listed(Dependencies(cs), a, b) else Listed(Dependencies(cs), b, a)
  {
    var keys := SortedIds(ById(cs).Keys);
    var lists := CollectLists(cs, keys, reverse);
    adjacency := SortLists(lists);
    forall a, b
      ensures Listed(lists, a, b) == if reverse then Listed(Dependencies(cs), a, b) else Listed(Dependencies(cs), b, a)
    {
      assert Listed(lists, a, b) == Collected(cs, keys, reverse, a, b);
      assert (a in keys <==> a in ById(cs)) && (b in keys <==> b in ById(cs));
    }
  }

  lemma ListedMeansEdge(adjacency: map<Id, seq<Id>>, a: Id, b: Id)
    ensures Listed(adjacency, a, b) > 0 <==> (a, b) in AdjacencyEdges(adjacency)
  {
  }

  lemma AdjacencyIsDirected(cs: seq<Contract>, reverse: bool, adjacency: map<Id, seq<Id>>)
    requires forall a, b :: Listed(adjacency, a, b) ==
                            if reverse then Listed(Dependencies(cs), a, b) else Listed(Dependencies(cs), b, a)
    ensures AdjacencyEdges(adjacency) == DirectedEdges(cs, reverse)
  {
    forall e
      ensures e in AdjacencyEdges(adjacency) <==> e in DirectedEdges(cs, reverse)
    {
      assert e == (e.0, e.1);
      ListedMeansEdge(adjacency, e.0, e.1);
      ListedMeansEdge(Dependencies(cs), e.0, e.1);
      ListedMeansEdge(Dependencies(cs), e.1, e.0);
    }
  }

  /** Some start node leads to `x`. */
  ghost predicate ReachedFrom(E: Edges, start: seq<Id>, x: Id) {
    exists s :: s in start && Reaches(E, s, x)
  }

  ghost function Universe(start: seq<Id>, adjacency: map<Id, seq<Id>>): set<Id> {
    (set s | s in start) + set a, b | a in adjacency && b in adjacency[a] :: b
  }

  /** Everything seen is reachable, and every edge out of `output` leads to `output` or the queue. */
  ghost predicate Searching(E: Edges, start: seq<Id>, universe: set<Id>, output: set<Id>, queue: seq<Id>) {
    && (forall x :: x in output || x in queue ==> x in universe && ReachedFrom(E, start, x))
    && (forall s :: s in start ==> s in output || s in queue)
    && (forall a, b :: a in output && (a, b) in E ==> b in output || b in queue)
  }

  lemma SearchExpands(adjacency: map<Id, seq<Id>>, start: seq<Id>, output: set<Id>, queue: seq<Id>)
    requires queue != []
    requires Searching(AdjacencyEdges(adjacency), start, Universe(start, adjacency), output, queue)
    ensures Searching(AdjacencyEdges(adjacency), start, Universe(start, adjacency),
                      output + {queue[0]}, queue[1..] + DepsOf(adjacency, queue[0]))
  {
    var E, value := AdjacencyEdges(adjacency), queue[0];
    assert value in queue && queue == [value] + queue[1..];
    forall b | b in DepsOf(adjacency, value)
      ensures ReachedFrom(E, start, b)
    {
      var s :| s in start && Reaches(E, s, value);
      ReachesEdge(E, value, b);
      ReachesTrans(E, s, value, b);
    }
  }

  lemma SearchSkips(E: Edges, start: seq<Id>, universe: set<Id>, output: set<Id>, queue: seq<Id>)
    requires queue != [] && queue[0] in output
    requires Searching(E, start, universe, output, queue)
    ensures Searching(E, start, universe, output, queue[1..])
  {
    assert queue == [queue[0]] + queue[1..];
  }

  lemma SearchEnds(E: Edges, start: seq<Id>, universe: set<Id>, output: set<Id>)
    requires Searching(E, start, universe, output, [])
    ensures forall x :: x in output <==> ReachedFrom(E, start, x)
  {
    forall x | ReachedFrom(E, start, x)
      ensures x in output
    {
      var s :| s in start && Reaches(E, s, x);
      var w :| WalkFromTo(E, w, s, x);
      ClosedSetKeepsWalk(E, output, w);
    }
  }

  /** Exactly the reachable nodes, once each, ascending; queue entries may repeat. */
  method Closure(start: seq<Id>, adjacency: map<Id, seq<Id>>) returns (r: seq<Id>)
    ensures Sorted(r, StrLe) && NoDup(r)
    ensures forall x :: x in r <==> ReachedFrom(AdjacencyEdges(adjacency), start, x)
  {
    ghost var E := AdjacencyEdges(adjacency);
    ghost var universe := Universe(start, adjacency);
    var output: set<Id> := {};
    var queue := start;
    forall s | s in start ensures ReachedFrom(E, start, s) { SingletonWalk(E, s); }
    while queue != []
      invariant Searching(E, start, universe, output, queue)
      decreases universe - output, |queue|
    {
      var value := queue[0];
      assert value in queue;
      if value in output {
        SearchSkips(E, start, universe, output, queue);
        queue := queue[1..];
      } else {
        SearchExpands(adjacency, start, output, queue);
        assert value in universe - output;
        output := output + {value};
        queue := queue[1..] + DepsOf(adjacency, value);
      }
    }
    SearchEnds(E, start, universe, output);
    r := SortedIds(output);
  }

  /** Starting from the direct neighbours reaches what one or more edges reach. */
  lemma NeighboursReach(E: Edges, direct: seq<Id>, id: Id, x: Id)
    requires forall b :: b in direct <==> (id, b) in E
    ensures ReachedFrom(E, direct, x) <==> ReachesPlus(E, id, x)
  {
    ReachesPlusFirstEdge(E, id, x);
  }

  method Query(cs: seq<Contract>, id: Id, reverse: bool, transitive: bool) returns (r: Result<seq<Id>, Missing>)
    ensures r.Err? <==> id !in ById(cs)
    ensures r.Err? ==> r.error == KeyMissing(id)
    ensures r.Ok? ==> Sorted(r.value, StrLe)
    ensures r.Ok? && transitive ==>
              NoDup(r.value) && forall x :: x in r.value <==> ReachesPlus(DirectedEdges(cs, reverse), id, x)
    ensures r.Ok? && !transitive ==>
              forall x :: multiset(r.value)[x] ==
                          if reverse then Listed(Dependencies(cs), id, x) else Listed(Dependencies(cs), x, id)
  {
    var adjacency := Adjacency(cs, reverse);
    if id !in ById(cs) { return Err(KeyMissing(id)); }
    var direct := DepsOf(adjacency, id);
    if !transitive {
      forall x ensures multiset(direct)[x] == Listed(adjacency, id, x) {}
      return Ok(direct);
    }
    AdjacencyIsDirected(cs, reverse, adjacency);
    var closure := Closure(direct, adjacency);
    forall x
      ensures ReachedFrom(AdjacencyEdges(adjacency), direct, x) <==> ReachesPlus(AdjacencyEdges(adjacency), id, x)
    {
      NeighboursReach(AdjacencyEdges(adjacency), direct, id, x);
    }
    return Ok(closure);
  }

  /** Everything a Contract needs, directly or not; or its declared list, sorted. */
  method Prerequisites(cs: seq<Contract>, id: Id, transitive: bool) returns (r: Result<seq<Id>, Missing>)
    ensures r.Err? <==> id !in ById(cs)
    ensures r.Ok? ==> Sorted(r.value, StrLe)
    ensures r.Ok? && transitive ==>
              NoDup(r.value) && forall x :: x in r.value <==> ReachesPlus(PrerequisiteEdges(Dependencies(cs)), id, x)
    ensures r.Ok? && !transitive ==> multiset(r.value) == multiset(ById(cs)[id].prerequisites)
  {
    r := Query(cs, id, true, transitive);
    if r.Ok? && !transitive {
      assert forall x :: multiset(r.value)[x] == Listed(Dependencies(cs), id, x);
    }
  }

  /** Everything that needs a Contract, directly or not; or its direct dependents, sorted. */
  method UnlockedBy(cs: seq<Contract>, id: Id, transitive: bool) returns (r: Result<seq<Id>, Missing>)
    ensures r.Err? <==> id !in ById(cs)
    ensures r.Ok? ==> Sorted(r.value, StrLe)
    ensures r.Ok? && transitive ==>
              NoDup(r.value) && forall x :: x in r.value <==> ReachesPlus(PrerequisiteEdges(Dependencies(cs)), x, id)
    ensures r.Ok? && !transitive ==>
              forall x :: multiset(r.value)[x] == if x in ById(cs) then multiset(ById(cs)[x].prerequisites)[id] else 0
  {
    r := Query(cs, id, false, transitive);
    ghost var E := PrerequisiteEdges(Dependencies(cs));
    if r.Ok? {
      if transitive {
        forall x ensures x in r.value <==> ReachesPlus(E, x, id) {
          ReverseReaches(E, x, id);
        }
      } else {
        assert forall x :: multiset(r.value)[x] == Listed(Dependencies(cs), x, id);
      }
    }
  }

  // ----- consequences on a valid corpus -----

  /** A closure stays inside a valid corpus. */
  lemma ClosureStaysKnown(cs: seq<Contract>, a: Id, b: Id)
    requires WellFormed(cs) && a in KnownIds(cs)
    requires Reaches(PrerequisiteEdges(Dependencies(cs)), a, b)
    ensures b in KnownIds(cs)
  {
    var E := PrerequisiteEdges(Dependencies(cs));
    var w :| WalkFromTo(E, w, a, b);
    forall x, y | (x, y) in E && x in KnownIds(cs)
      ensures y in KnownIds(cs)
    {
      var c := ById(cs)[x];
      assert c in cs && Sound(KnownIds(cs), c);
    }
    ClosedSetKeepsWalk(E, KnownIds(cs), w);
  }

  /** On a valid corpus the two queries are inverse to each other, and nothing needs itself. */
  method QueriesAreDual(cs: seq<Contract>, a: Id, b: Id) returns (needed: seq<Id>, unlocked: seq<Id>)
    requires WellFormed(cs) && a in KnownIds(cs) && b in KnownIds(cs)
    ensures Sorted(needed, StrLe) && NoDup(needed)
    ensures forall x :: x in needed <==> ReachesPlus(PrerequisiteEdges(Dependencies(cs)), b, x)
    ensures Sorted(unlocked, StrLe) && NoDup(unlocked)
    ensures forall x :: x in unlocked <==> ReachesPlus(PrerequisiteEdges(Dependencies(cs)), x, a)
    ensures a in needed <==> b in unlocked
    ensures b !in needed && a !in unlocked
  {
    assert a in ById(cs) && b in ById(cs);
    var p := Prerequisites(cs, b, true);
    var u := UnlockedBy(cs, a, true);
    AcyclicIsIrreflexive(PrerequisiteEdges(Dependencies(cs)));
    needed, unlocked := p.value, u.value;
  }
}
