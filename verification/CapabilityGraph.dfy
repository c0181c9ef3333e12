/** The capability graph and Kahn's topological check, tied to the validation that precedes it. */
module CapabilityGraph {
  import opened Sequences
  import opened Orders
  import opened Walks
  import opened Contracts
  import opened Validation
  import Workloads

  type Edge = (Id, Id)

  datatype Graph = Graph(nodes: set<Id>, edges: seq<Edge>)

  datatype TopologyReport = TopologyReport(acyclic: bool, roots: seq<Id>, order: seq<Id>)

  ghost function EdgeSet(edges: seq<Edge>): Edges {
    set e | e in edges
  }

  // ----- building the graph -----

  predicate EdgeLe(a: Edge, b: Edge) {
    if a.0 == b.0 then StrLe(a.1, b.1) else StrLe(a.0, b.0)
  }

  lemma EdgeLeTotalPreorder()
    ensures TotalPreorder(EdgeLe)
  {
    StrLeTotalOrder();
  }

  function EdgesInto(target: Id, sources: seq<Id>): (r: seq<Edge>)
    ensures forall a, b :: (a, b) in r <==> b == target && a in sources
  {
    if sources == [] then [] else [(sources[0], target)] + EdgesInto(target, sources[1..])
  }

  /** One edge from each prerequisite to the Contract that lists it. */
  function EdgeList(cs: seq<Contract>): (r: seq<Edge>)
    ensures forall a, b :: (a, b) in r <==> exists c :: c in cs && c.id == b && a in c.prerequisites
  {
    if cs == [] then [] else EdgesInto(cs[0].id, cs[0].prerequisites) + EdgeList(cs[1..])
  }

  /** With unique ids, the graph's edges are the prerequisite edges turned round. */
  lemma {:induction false} EdgeListIsReverse(cs: seq<Contract>)
    requires UniqueIds(cs)
    ensures EdgeSet(EdgeList(cs)) == Reverse(PrerequisiteEdges(Dependencies(cs)))
  {
    var R := Reverse(PrerequisiteEdges(Dependencies(cs)));
    forall e
      ensures e in EdgeSet(EdgeList(cs)) <==> e in R
    {
      assert e == (e.0, e.1);
      EdgeListEntry(cs, e.0, e.1);
    }
  }

  lemma {:induction false} EdgeListEntry(cs: seq<Contract>, a: Id, b: Id)
    requires UniqueIds(cs)
    ensures (a, b) in EdgeList(cs) <==> (b, a) in PrerequisiteEdges(Dependencies(cs))
  {
    var m := ById(cs);
    if (a, b) in EdgeList(cs) {
      var c :| c in cs && c.id == b && a in c.prerequisites;
      UniqueLookup(cs, c);
    }
    if b in m && a in m[b].prerequisites {
      assert m[b] in cs && m[b].id == b;
    }
  }

  lemma {:induction false} UniqueLookup(cs: seq<Contract>, c: Contract)
    requires UniqueIds(cs) && c in cs
    ensures c.id in ById(cs) && ById(cs)[c.id] == c
  {
    var i :| 0 <= i < |cs| && cs[i] == c;
    LaterContractWins(cs, i);
  }

  // ----- counting edges -----

  /** How many edges enter `n` from a node that is not yet done. */
  ghost function InCount(edges: seq<Edge>, n: Id, done: set<Id>): nat {
    if edges == [] then 0
    else
      var e := edges[|edges| - 1];
      InCount(edges[..|edges| - 1], n, done) + if e.1 == n && e.0 !in done then 1 else 0
  }

  /** The targets of the edges that leave `a`, one per edge, in edge order. */
  ghost function Targets(edges: seq<Edge>, a: Id): seq<Id> {
    if edges == [] then []
    else
      var e := edges[|edges| - 1];
      Targets(edges[..|edges| - 1], a) + if e.0 == a then [e.1] else []
  }

  lemma {:induction false} InCountNext(edges: seq<Edge>, e: Edge, n: Id, done: set<Id>)
    ensures InCount(edges + [e], n, done) == InCount(edges, n, done) + if e.1 == n && e.0 !in done then 1 else 0
  {
    assert (edges + [e])[..|edges|] == edges;
  }

  lemma {:induction false} TargetsNext(edges: seq<Edge>, e: Edge, a: Id)
    ensures Targets(edges + [e], a) == Targets(edges, a) + if e.0 == a then [e.1] else []
  {
    assert (edges + [e])[..|edges|] == edges;
  }

  lemma {:induction false} TargetsAreEdges(edges: seq<Edge>, a: Id, b: Id)
    ensures b in Targets(edges, a) <==> (a, b) in edges
  {
    if edges != [] {
      TargetsAreEdges(edges[..|edges| - 1], a, b);
      assert edges == edges[..|edges| - 1] + [edges[|edges| - 1]];
    }
  }

  lemma {:induction false} InCountZero(edges: seq<Edge>, n: Id, done: set<Id>)
    ensures InCount(edges, n, done) == 0 <==> forall a :: (a, n) in edges ==> a in done
  {
    if edges != [] {
      InCountZero(edges[..|edges| - 1], n, done);
      assert edges == edges[..|edges| - 1] + [edges[|edges| - 1]];
      var e := edges[|edges| - 1];
      assert e == (e.0, e.1);
    }
  }

  /** Finishing `a` releases exactly its own edges into `n`. */
  lemma {:induction false} InCountFinish(edges: seq<Edge>, n: Id, done: set<Id>, a: Id)
    requires a !in done
    ensures InCount(edges, n, done) == InCount(edges, n, done + {a}) + multiset(Targets(edges, a))[n]
  {
    if edges != [] {
      InCountFinish(edges[..|edges| - 1], n, done, a);
    }
  }

  // ----- Kahn's algorithm -----

  ghost predicate InDegrees(nodes: set<Id>, edges: seq<Edge>, indegree: map<Id, int>) {
    indegree.Keys == nodes && forall n :: n in indegree ==> indegree[n] == InCount(edges, n, {})
  }

  ghost predicate OutLists(edges: seq<Edge>, adjacency: map<Id, seq<Id>>) {
    forall a :: DepsOf(adjacency, a) == Targets(edges, a)
  }

  lemma {:induction false} InDegreesNext(nodes: set<Id>, edges: seq<Edge>, e: Edge, indegree: map<Id, int>)
    requires InDegrees(nodes, edges, indegree) && e.1 in nodes
    ensures InDegrees(nodes, edges + [e], indegree[e.1 := indegree[e.1] + 1])
  {
    var more := indegree[e.1 := indegree[e.1] + 1];
    forall n | n in more ensures more[n] == InCount(edges + [e], n, {}) {
      InCountNext(edges, e, n, {});
    }
  }

  lemma {:induction false} OutListsNext(edges: seq<Edge>, e: Edge, adjacency: map<Id, seq<Id>>)
    requires OutLists(edges, adjacency)
    ensures OutLists(edges + [e], adjacency[e.0 := DepsOf(adjacency, e.0) + [e.1]])
  {
    forall a ensures Targets(edges + [e], a) == Targets(edges, a) + if a == e.0 then [e.1] else [] {
      TargetsNext(edges, e, a);
    }
  }

  method CountEdges(graph: Graph) returns (r: Option<(map<Id, int>, map<Id, seq<Id>>)>)
    ensures r.None? <==> exists e :: e in graph.edges && e.1 !in graph.nodes
    ensures r.Some? ==> InDegrees(graph.nodes, graph.edges, r.value.0) && OutLists(graph.edges, r.value.1)
  {
    var indegree: map<Id, int> := map n | n in graph.nodes :: 0;
    var adjacency: map<Id, seq<Id>> := map[];
    for i := 0 to |graph.edges|
      invariant forall e :: e in graph.edges[..i] ==> e.1 in graph.nodes
      invariant InDegrees(graph.nodes, graph.edges[..i], indegree)
      invariant OutLists(graph.edges[..i], adjacency)
    {
      var source, target := graph.edges[i].0, graph.edges[i].1;
      if target !in indegree { return None; }
      assert graph.edges[..i + 1] == graph.edges[..i] + [graph.edges[i]];
      InDegreesNext(graph.nodes, graph.edges[..i], graph.edges[i], indegree);
      OutListsNext(graph.edges[..i], graph.edges[i], adjacency);
      indegree := indegree[target := indegree[target] + 1];
      adjacency := adjacency[source := DepsOf(adjacency, source) + [target]];
    }
    assert graph.edges[..|graph.edges|] == graph.edges;
    return Some((indegree, adjacency));
  }

  /** How often `n` is among the first `j` children. */
  ghost function Seen(children: seq<Id>, j: nat, n: Id): nat
    requires j <= |children|
  {
    multiset(children[..j])[n]
  }

  lemma SeenNext(children: seq<Id>, j: nat, n: Id)
    requires j < |children|
    ensures Seen(children, j + 1, n) == Seen(children, j, n) + if n == children[j] then 1 else 0
    ensures Seen(children, j + 1, n) <= multiset(children)[n]
    ensures n in children[..j + 1] <==> n in children[..j] || n == children[j]
  {
    assert children[..j + 1] == children[..j] + [children[j]];
    assert children == children[..j + 1] + children[j + 1..];
  }

  /** Decrement once per child; a child whose count reaches zero joins the queue. */
  method ReleaseChildren(children: seq<Id>, before: map<Id, int>, waiting: seq<Id>)
    returns (indegree: map<Id, int>, queue: seq<Id>)
    requires forall n :: n in children ==> n in before && n !in waiting
    requires forall n :: n in before ==> before[n] >= multiset(children)[n]
    requires NoDup(waiting)
    ensures indegree.Keys == before.Keys
    ensures forall n :: n in before ==> indegree[n] == before[n] - multiset(children)[n]
    ensures NoDup(queue)
    ensures forall n :: n in queue <==> n in waiting || (n in children && indegree[n] == 0)
  {
    indegree, queue := before, waiting;
    for j := 0 to |children|
      invariant indegree.Keys == before.Keys
      invariant forall n :: n in before ==> indegree[n] == before[n] - Seen(children, j, n)
      invariant NoDup(queue)
      invariant forall n :: n in queue <==> n in waiting || (n in children[..j] && indegree[n] == 0)
    {
      var child := children[j];
      forall n
        ensures Seen(children, j + 1, n) == Seen(children, j, n) + if n == child then 1 else 0
        ensures Seen(children, j + 1, n) <= multiset(children)[n]
        ensures n in children[..j + 1] <==> n in children[..j] || n == child
      {
        SeenNext(children, j, n);
      }
      assert child in children && indegree[child] >= 1;
      indegree := indegree[child := indegree[child] - 1];
      if indegree[child] == 0 {
        assert child !in queue;
        queue := queue + [child];
      }
    }
    assert children[..|children|] == children;
  }

  /** Every node of `order` has all its predecessors before it. */
  ghost predicate Forward(edges: seq<Edge>, order: seq<Id>) {
    forall i, a :: 0 <= i < |order| && (a, order[i]) in edges ==> a in order[..i]
  }

  lemma {:induction false} ForwardIsAcyclic(edges: seq<Edge>, order: seq<Id>)
    requires Forward(edges, order)
    requires forall e :: e in edges ==> e.1 in order
    ensures Acyclic(EdgeSet(edges))
    ensures forall e :: e in edges ==> e.0 in order && Pos(order, e.0) < Pos(order, e.1)
  {
    forall a, b | (a, b) in edges
      ensures a in order && Pos(order, a) < Pos(order, b)
    {
      assert (a, b).1 in order;
      var i := Pos(order, b);
      assert (a, order[i]) in edges;
      assert a in order[..i];
      assert order == order[..i] + order[i..];
    }
    forall e | e in edges ensures e.0 in order && Pos(order, e.0) < Pos(order, e.1) {
      assert e == (e.0, e.1);
    }
    var rank: Id -> int := x => if x in order then |order| - Pos(order, x) else |order| + 1;
    RankedIsAcyclic(EdgeSet(edges), rank);
  }

  /** Nodes left over by the algorithm all wait for one another, or for a source outside the graph. */
  lemma LeftOverMeansCycle(graph: Graph, order: seq<Id>)
    requires Acyclic(EdgeSet(graph.edges))
    requires forall e :: e in graph.edges ==> e.0 in graph.nodes
    requires forall n :: n in graph.nodes && n !in order ==> exists a :: (a, n) in graph.edges && a !in order
    ensures forall n :: n in graph.nodes ==> n in order
  {
    var left := set n | n in graph.nodes && n !in order;
    if left != {} {
      var x := HasSource(EdgeSet(graph.edges), left);
      assert false;
    }
    forall n | n in graph.nodes ensures n in order {
      assert n !in left;
    }
  }

  lemma SameSizeMeansAll(order: seq<Id>, nodes: set<Id>)
    requires NoDup(order) && forall n :: n in order ==> n in nodes
    ensures |order| <= |nodes|
    ensures |order| == |nodes| <==> forall n :: n in nodes ==> n in order
  {
    var s := Members(order);
    NoDupSetSize(order);
    SubsetSize(s, nodes);
    if forall n :: n in nodes ==> n in order { assert s == nodes; }
  }

  /** What a topology report says about a graph. */
  ghost predicate TopologyOf(graph: Graph, t: TopologyReport) {
    && (t.acyclic <==> Acyclic(EdgeSet(graph.edges)) && forall e :: e in graph.edges ==> e.0 in graph.nodes)
    && Lists(t.roots, set n | n in graph.nodes && forall a :: (a, n) !in EdgeSet(graph.edges))
    && NoDup(t.order)
    && (forall n :: n in t.order ==> n in graph.nodes)
    && Forward(graph.edges, t.order)
    && (forall n :: n in graph.nodes && n !in t.order ==> exists a :: (a, n) in graph.edges && a !in t.order)
  }

  /** One edge from a node that is not in the graph: no cycle, and yet the report is not an acyclic one. */
  lemma {:induction false} UnknownSourceLooksCyclic(a: Id, b: Id, t: TopologyReport)
    requires a != b && TopologyOf(Graph({b}, [(a, b)]), t)
    ensures Acyclic(EdgeSet([(a, b)])) && !t.acyclic
  {
    var edges := [(a, b)];
    var order := [a, b];
    forall i, x | 0 <= i < |order| && (x, order[i]) in edges
      ensures x in order[..i]
    {
      assert i == 1 && x == a && order[..1] == [a];
    }
    ForwardIsAcyclic(edges, order);
    assert edges[0] in edges && edges[0].0 !in {b};
  }

  /** An acyclic verdict comes with a permutation of the nodes in which every edge points forward. */
  lemma AcyclicOrderIsTopological(graph: Graph, t: TopologyReport)
    requires TopologyOf(graph, t) && t.acyclic
    requires forall e :: e in graph.edges ==> e.1 in graph.nodes
    ensures NoDup(t.order) && forall n :: n in t.order <==> n in graph.nodes
    ensures forall e :: e in graph.edges ==> e.0 in t.order && e.1 in t.order && Pos(t.order, e.0) < Pos(t.order, e.1)
  {
    LeftOverMeansCycle(graph, t.order);
    ForwardIsAcyclic(graph.edges, t.order);
  }

  /** The state at the head of the loop: counts of unfinished edges; nodes with none are done or queued. */
  ghost predicate KahnState(graph: Graph, indegree: map<Id, int>, queue: seq<Id>, order: seq<Id>) {
    && indegree.Keys == graph.nodes
    && NoDup(order) && NoDup(queue) && (forall n :: n in queue ==> n !in order)
    && (forall n :: n in order ==> n in graph.nodes)
    && (forall n :: n in indegree ==> indegree[n] == InCount(graph.edges, n, Members(order)))
    && (forall n :: n in indegree && indegree[n] == 0 <==> n in order || n in queue)
    && Forward(graph.edges, order)
  }

  lemma KahnStart(graph: Graph, indegree: map<Id, int>, roots: seq<Id>)
    requires indegree.Keys == graph.nodes
    requires forall n :: n in indegree ==> indegree[n] == InCount(graph.edges, n, {})
    requires Lists(roots, set n | n in indegree && indegree[n] == 0)
    ensures KahnState(graph, indegree, roots, [])
    ensures Lists(roots, set n | n in graph.nodes && forall a :: (a, n) !in EdgeSet(graph.edges))
  {
    assert Members<Id>([]) == {};
    forall n
      ensures InCount(graph.edges, n, {}) == 0 <==> forall a :: (a, n) !in EdgeSet(graph.edges)
    {
      InCountZero(graph.edges, n, {});
    }
    assert (set n | n in indegree && indegree[n] == 0)
        == set n | n in graph.nodes && forall a :: (a, n) !in EdgeSet(graph.edges);
  }

  /** What taking one node from the queue relies on. */
  lemma KahnTake(graph: Graph, indegree: map<Id, int>, queue: seq<Id>, order: seq<Id>, children: seq<Id>)
    requires KahnState(graph, indegree, queue, order) && queue != []
    requires multiset(children) == multiset(Targets(graph.edges, queue[0]))
    requires forall e :: e in graph.edges ==> e.1 in graph.nodes
    ensures forall n :: n in children ==> n in indegree && n !in queue[1..]
    ensures forall n :: n in indegree ==>
              indegree[n] == InCount(graph.edges, n, Members(order + [queue[0]])) + multiset(children)[n]
    ensures NoDup(queue[1..]) && Forward(graph.edges, order + [queue[0]])
    ensures queue[0] in graph.nodes && NoDup(order + [queue[0]])
  {
    var a := queue[0];
    ChildrenAreTargets(graph, children, a);
    assert Members(order + [a]) == Members(order) + {a};
    forall n | n in indegree
      ensures indegree[n] == InCount(graph.edges, n, Members(order + [a])) + multiset(children)[n]
    {
      InCountFinish(graph.edges, n, Members(order), a);
    }
    forall n | n in children
      ensures n in indegree && n !in queue[1..]
    {
      assert (a, n) in graph.edges && (a, n).1 in graph.nodes;
      assert multiset(children)[n] > 0;
      assert indegree[n] > 0;
    }
    assert a in queue && indegree[a] == 0;
    InCountZero(graph.edges, a, Members(order));
    ForwardNext(graph.edges, order, a);
  }

  /** After the release the state of the loop head is restored. */
  lemma KahnRelease(graph: Graph, before: map<Id, int>, queue: seq<Id>, order: seq<Id>, children: seq<Id>,
                    indegree: map<Id, int>, queue': seq<Id>)
    requires KahnState(graph, before, queue, order) && queue != []
    requires multiset(children) == multiset(Targets(graph.edges, queue[0]))
    requires forall e :: e in graph.edges ==> e.1 in graph.nodes
    requires indegree.Keys == before.Keys && NoDup(queue')
    requires forall n :: n in before ==> indegree[n] == before[n] - multiset(children)[n]
    requires forall n :: n in queue' <==> n in queue[1..] || (n in children && n in indegree && indegree[n] == 0)
    ensures KahnState(graph, indegree, queue', order + [queue[0]])
  {
    var a := queue[0];
    KahnTake(graph, before, queue, order, children);
    assert a in queue && before[a] == 0;
    forall n | n in before
      ensures indegree[n] == 0 <==> n in order + [a] || n in queue'
      ensures n in queue' ==> n !in order + [a]
    {
      KahnReleaseNode(graph, before, queue, order, children, n);
    }
  }

  lemma KahnReleaseNode(graph: Graph, before: map<Id, int>, queue: seq<Id>, order: seq<Id>, children: seq<Id>, n: Id)
    requires KahnState(graph, before, queue, order) && queue != [] && n in before
    requires before[n] >= multiset(children)[n]
    requires n in children ==> n !in queue[1..]
    ensures before[n] - multiset(children)[n] == 0 <==>
            n in order || n == queue[0] || n in queue[1..] || (n in children && before[n] - multiset(children)[n] == 0)
    ensures n in queue[1..] || (n in children && before[n] - multiset(children)[n] == 0) ==>
              n !in order && n != queue[0]
  {
    assert queue == [queue[0]] + queue[1..];
    assert n in children <==> multiset(children)[n] > 0;
  }

  /** The loop's exit: what was not reached waits on something that was not reached. */
  lemma KahnEnd(graph: Graph, indegree: map<Id, int>, roots: seq<Id>, order: seq<Id>)
    requires KahnState(graph, indegree, [], order)
    requires forall e :: e in graph.edges ==> e.1 in graph.nodes
    requires Lists(roots, set n | n in graph.nodes && forall a :: (a, n) !in EdgeSet(graph.edges))
    ensures TopologyOf(graph, TopologyReport(|order| == |indegree|, roots, order))
  {
    forall n | n in graph.nodes && n !in order
      ensures exists a :: (a, n) in graph.edges && a !in order
    {
      assert indegree[n] != 0;
      InCountZero(graph.edges, n, Members(order));
    }
    SameSizeMeansAll(order, graph.nodes);
    if forall n :: n in graph.nodes ==> n in order {
      ForwardIsAcyclic(graph.edges, order);
    } else if Acyclic(EdgeSet(graph.edges)) && forall e :: e in graph.edges ==> e.0 in graph.nodes {
      LeftOverMeansCycle(graph, order);
    }
  }

  /** `None` stands for the `KeyError` on an edge into an unknown node. */
  method Topology(graph: Graph) returns (r: Option<TopologyReport>)
    ensures r.None? <==> exists e :: e in graph.edges && e.1 !in graph.nodes
    ensures r.Some? ==> TopologyOf(graph, r.value)
  {
    var counted := CountEdges(graph);
    if counted.None? { return None; }
    var (indegree, adjacency) := counted.value;
    var roots := SortedIds(set n | n in indegree && indegree[n] == 0);
    KahnStart(graph, indegree, roots);
    var queue, order := roots, [];
    while queue != []
      invariant KahnState(graph, indegree, queue, order)
      decreases |graph.nodes| - |order|
    {
      var identifier := queue[0];
      var children := SortIds(DepsOf(adjacency, identifier));
      KahnTake(graph, indegree, queue, order, children);
      var indegree', queue' := ReleaseChildren(children, indegree, queue[1..]);
      KahnRelease(graph, indegree, queue, order, children, indegree', queue');
      indegree, queue, order := indegree', queue', order + [identifier];
      SameSizeMeansAll(order, graph.nodes);
    }
    KahnEnd(graph, indegree, roots, order);
    return Some(TopologyReport(|order| == |indegree|, roots, order));
  }

  lemma ForwardNext(edges: seq<Edge>, order: seq<Id>, n: Id)
    requires Forward(edges, order)
    requires forall a :: (a, n) in edges ==> a in order
    ensures Forward(edges, order + [n])
  {
    var f := order + [n];
    forall i, a | 0 <= i < |f| && (a, f[i]) in edges
      ensures a in f[..i]
    {
      assert f[..i] == order[..i];
    }
  }

  lemma {:induction false} ChildrenAreTargets(graph: Graph, children: seq<Id>, a: Id)
    requires multiset(children) == multiset(Targets(graph.edges, a))
    ensures forall n :: n in children <==> (a, n) in graph.edges
  {
    SameMembers(children, Targets(graph.edges, a));
    forall n ensures n in children <==> (a, n) in graph.edges { TargetsAreEdges(graph.edges, a, n); }
  }

  // ----- the two checks together -----

  datatype GraphError =
    | InvalidCorpus(issues: seq<Issue>)
    | KeyMissing
    | GraphHasCycle
    | MatrixFails(error: Workloads.WorkloadError)

  /** By source, and by target within a source. */
  ghost predicate InEdgeOrder(edges: seq<Edge>) {
    forall i, j :: 0 <= i < j < |edges| ==>
      StrLe(edges[i].0, edges[j].0) && (edges[i].0 == edges[j].0 ==> StrLe(edges[i].1, edges[j].1))
  }

  lemma SortedEdges(edges: seq<Edge>)
    requires Sorted(edges, EdgeLe)
    ensures InEdgeOrder(edges)
  {
    StrLeTotalOrder();
  }

  method BuildGraph(cs: seq<Contract>) returns (r: Result<Graph, GraphError>)
    ensures r.Ok? <==> WellFormed(cs)
    ensures r.Err? ==> r.error.InvalidCorpus?
    ensures r.Ok? ==> r.value.nodes == KnownIds(cs) && multiset(r.value.edges) == multiset(EdgeList(cs))
    ensures r.Ok? ==> InEdgeOrder(r.value.edges)
  {
    var issues := Validate(cs);
    if issues != [] { return Err(InvalidCorpus(issues)); }
    EdgeLeTotalPreorder();
    SortedEdges(Sort(EdgeList(cs), EdgeLe));
    return Ok(Graph(KnownIds(cs), Sort(EdgeList(cs), EdgeLe)));
  }

  /** A graph with the edges of a well-formed corpus passes Kahn's check. */
  lemma {:induction false} ValidGraphIsAcyclic(cs: seq<Contract>, graph: Graph)
    requires WellFormed(cs)
    requires graph.nodes == KnownIds(cs) && multiset(graph.edges) == multiset(EdgeList(cs))
    ensures Acyclic(EdgeSet(graph.edges))
    ensures forall e :: e in graph.edges ==> e.0 in graph.nodes && e.1 in graph.nodes
  {
    SameMembers(graph.edges, EdgeList(cs));
    assert EdgeSet(graph.edges) == EdgeSet(EdgeList(cs));
    EdgeListIsReverse(cs);
    ReverseAcyclic(PrerequisiteEdges(Dependencies(cs)));
    forall e | e in graph.edges ensures e.0 in graph.nodes && e.1 in graph.nodes {
      assert (e.0, e.1) in EdgeList(cs);
      var c :| c in cs && c.id == e.1 && e.0 in c.prerequisites;
      assert Sound(KnownIds(cs), c);
    }
  }

  /** The Contracts that declare no prerequisite. */
  ghost function WithoutPrerequisites(cs: seq<Contract>): set<Id> {
    set n | n in ById(cs) && ById(cs)[n].prerequisites == []
  }

  /** `order` holds every Contract once, after all its prerequisites. */
  ghost predicate OrdersCorpus(cs: seq<Contract>, order: seq<Id>) {
    && NoDup(order) && (forall n :: n in order <==> n in KnownIds(cs))
    && forall c, p :: c in cs && p in c.prerequisites ==>
      p in order && c.id in order && Pos(order, p) < Pos(order, c.id)
  }

  /** The report on the graph of a valid corpus. */
  ghost predicate ReportsOn(cs: seq<Contract>, t: TopologyReport) {
    t.acyclic && Lists(t.roots, WithoutPrerequisites(cs)) && OrdersCorpus(cs, t.order)
  }

  lemma {:induction false} DeclaresNothing(cs: seq<Contract>, n: Id, edges: set<Edge>)
    requires UniqueIds(cs) && n in KnownIds(cs) && edges == EdgeSet(EdgeList(cs))
    ensures n in ById(cs)
    ensures ById(cs)[n].prerequisites == [] <==> forall a :: (a, n) !in edges
  {
    var c := ById(cs)[n];
    if c.prerequisites != [] { assert (c.prerequisites[0], n) in EdgeList(cs); }
    forall a | (a, n) in edges ensures c.prerequisites != [] {
      var d :| d in cs && d.id == n && a in d.prerequisites;
      UniqueLookup(cs, d);
    }
  }

  lemma {:induction false} RootsDeclareNothing(cs: seq<Contract>, edges: set<Edge>)
    requires UniqueIds(cs) && edges == EdgeSet(EdgeList(cs))
    ensures (set n | n in KnownIds(cs) && forall a :: (a, n) !in edges) == WithoutPrerequisites(cs)
  {
    forall n | n in KnownIds(cs)
      ensures n in ById(cs)
      ensures ById(cs)[n].prerequisites == [] <==> forall a :: (a, n) !in edges
    {
      DeclaresNothing(cs, n, edges);
    }
    forall n | n in ById(cs) ensures n in KnownIds(cs) { assert ById(cs)[n] in cs; }
  }

  lemma {:induction false} OrderFollowsPrerequisites(cs: seq<Contract>, graph: Graph, t: TopologyReport)
    requires WellFormed(cs) && TopologyOf(graph, t) && t.acyclic
    requires graph.nodes == KnownIds(cs) && multiset(graph.edges) == multiset(EdgeList(cs))
    ensures OrdersCorpus(cs, t.order)
  {
    SameMembers(graph.edges, EdgeList(cs));
    ValidGraphIsAcyclic(cs, graph);
    AcyclicOrderIsTopological(graph, t);
    forall c, p | c in cs && p in c.prerequisites
      ensures p in t.order && c.id in t.order && Pos(t.order, p) < Pos(t.order, c.id)
    {
      var e := (p, c.id);
      assert e in EdgeList(cs);
      assert e in graph.edges && e.0 == p && e.1 == c.id;
    }
  }

  /** The graph of a corpus with its topological report: all that precedes the first write. */
  method CheckedGraph(cs: seq<Contract>) returns (r: Result<TopologyReport, GraphError>)
    ensures r.Ok? <==> WellFormed(cs)
    ensures r.Err? ==> r.error.InvalidCorpus?
    ensures r.Ok? ==> ReportsOn(cs, r.value)
  {
    var built := BuildGraph(cs);
    if built.Err? { return Err(built.error); }
    var graph := built.value;
    ValidGraphIsAcyclic(cs, graph);
    var topology := Topology(graph);
    if topology.None? { return Err(KeyMissing); }
    if !topology.value.acyclic { return Err(GraphHasCycle); }
    SameMembers(graph.edges, EdgeList(cs));
    assert EdgeSet(graph.edges) == EdgeSet(EdgeList(cs));
    RootsDeclareNothing(cs, EdgeSet(graph.edges));
    OrderFollowsPrerequisites(cs, graph, topology.value);
    return Ok(topology.value);
  }

  /** Writing the graph outputs fails exactly for an invalid corpus, and for a valid one with a workload that does not
      resolve; the cycle error in between cannot be raised. */
  method WriteGraphOutputs(cs: seq<Contract>, doc: Workloads.Document)
    returns (r: Result<(TopologyReport, map<Id, seq<Id>>), GraphError>)
    ensures r.Ok? <==> WellFormed(cs) && Workloads.Resolves(cs, doc)
    ensures r.Err? ==> if WellFormed(cs) then r.error.MatrixFails? else r.error.InvalidCorpus?
    ensures r.Ok? ==>
              var (report, matrix) := r.value;
              && ReportsOn(cs, report)
              && matrix.Keys == doc.Keys
              && forall w :: w in doc ==> Workloads.ListsClosure(cs, doc[w].value, matrix[w])
  {
    var report := CheckedGraph(cs);
    if report.Err? { return Err(report.error); }
    var matrix := Workloads.WorkloadMatrix(cs, doc);
    if matrix.Err? { return Err(MatrixFails(matrix.error)); }
    return Ok((report.value, matrix.value));
  }

  /** A workload that names an unknown Contract makes writing fail on a valid corpus. */
  lemma UnknownContractBreaksOutputs(cs: seq<Contract>, w: Id, c: Id)
    requires WellFormed(cs) && c !in KnownIds(cs)
    ensures !Workloads.Resolves(cs, map[w := Some([c])])
  {
    var m := ById(cs);
    forall k | k in m ensures k in KnownIds(cs) { assert m[k] in cs; }
    assert c in [c];
    assert w in map[w := Some([c])];
  }
}
