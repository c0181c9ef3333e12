/** The Contract corpus, its semantic validation, and the depth-first cycle check that gates it. */
module Contracts {
  import opened Sequences
  import opened Orders
  import opened Walks

  const LEVEL_COUNT := 11
  /** Index into the list of benchmark levels, from `boot` (0) to `full_reconstruction` (10). */
  type Level = l: nat | l < LEVEL_COUNT
  const BOOT: Level := 0
  const REAL_WORKLOADS: Level := 9
  const FULL_RECONSTRUCTION: Level := 10

  datatype Rule =
    | NoRule | Pid | Ppid | Tid | Timestamps | TemporaryPaths | Inode | EphemeralPort
    | Addresses | DirectoryOrder | SchedulerOrder | HostMetadata

  datatype Equivalence = Exact | Semantic | Relation | PartialOrder | SetOf | MultisetOf | Range(tolerance: real)

  datatype Contract = Contract(
    id: Id,
    level: Level,
    domain: string,
    prerequisites: seq<Id>,
    orthogonalWith: seq<Id>,
    observables: seq<string>,
    normalization: seq<Rule>,
    equivalence: Equivalence)

  datatype Issue =
    | DuplicateId(id: Id)
    | UnknownPrerequisite(id: Id, dependency: Id)
    | SelfPrerequisite(id: Id)
    | UnknownOrthogonal(id: Id, other: Id)
    | SelfOrthogonal(id: Id)
    | NoneCombined(id: Id)
    | CycleFound(cycle: seq<Id>)

  /** A `dict` comprehension over the corpus: a later Contract replaces an earlier one with the same id. */
  function ById(cs: seq<Contract>): (m: map<Id, Contract>)
    ensures forall c :: c in cs ==> c.id in m
    ensures forall k :: k in m ==> m[k] in cs && m[k].id == k
  {
    if cs == [] then map[]
    else
      var c := cs[|cs| - 1];
      ById(cs[..|cs| - 1])[c.id := c]
  }

  /** Of Contracts with one id, the last is the one that is found. */
  lemma {:induction false} LaterContractWins(cs: seq<Contract>, i: nat)
    requires i < |cs| && forall j :: i < j < |cs| ==> cs[j].id != cs[i].id
    ensures cs[i].id in ById(cs) && ById(cs)[cs[i].id] == cs[i]
  {
    if i < |cs| - 1 {
      LaterContractWins(cs[..|cs| - 1], i);
    }
  }

  function Dependencies(cs: seq<Contract>): map<Id, seq<Id>> {
    var m := ById(cs);
    map k | k in m :: m[k].prerequisites
  }

  /** An edge for every prerequisite, from the Contract to what it needs. */
  ghost function PrerequisiteEdges(deps: map<Id, seq<Id>>): (E: Edges)
    ensures forall a, b :: (a, b) in E <==> a in deps && b in deps[a]
  {
    set a, b | a in deps && b in deps[a] :: (a, b)
  }

  // ----- the depth-first cycle check -----

  /** A closed walk along prerequisites whose nodes are distinct apart from its two ends. */
  ghost predicate IsCycle(deps: map<Id, seq<Id>>, c: seq<Id>) {
    && |c| >= 2
    && c[0] == c[|c| - 1]
    && IsWalk(PrerequisiteEdges(deps), c)
    && NoDup(c[..|c| - 1])
  }

  /** `dependencies.get(node, [])`: an id outside the corpus needs nothing. */
  function DepsOf(deps: map<Id, seq<Id>>, node: Id): seq<Id> {
    if node in deps then deps[node] else []
  }

  /** The nodes under visit form a walk along prerequisites without repetition. */
  ghost predicate IsStack(deps: map<Id, seq<Id>>, stack: seq<Id>) {
    NoDup(stack) && forall i :: 0 <= i < |stack| - 1 ==> stack[i + 1] in DepsOf(deps, stack[i])
  }

  /** Every dependency of a finished node finished before it. */
  ghost predicate FinishedInOrder(deps: map<Id, seq<Id>>, finished: seq<Id>) {
    forall i, d :: 0 <= i < |finished| && d in DepsOf(deps, finished[i]) ==> d in finished[..i]
  }

  ghost predicate Covers(universe: set<Id>, deps: map<Id, seq<Id>>) {
    deps.Keys <= universe && forall n, d :: d in DepsOf(deps, n) ==> d in universe
  }

  lemma BackEdgeClosesCycle(deps: map<Id, seq<Id>>, stack: seq<Id>, index: nat)
    requires IsStack(deps, stack) && index < |stack|
    requires stack[index] in DepsOf(deps, stack[|stack| - 1])
    ensures IsCycle(deps, stack[index..] + [stack[index]])
  {
    var c := stack[index..] + [stack[index]];
    forall i | 0 <= i < |c| - 1
      ensures (c[i], c[i + 1]) in PrerequisiteEdges(deps)
    {
      assert c[i] == stack[index + i];
      assert c[i + 1] in DepsOf(deps, c[i]);
    }
    assert c[..|c| - 1] == stack[index..];
  }

  lemma FinishNext(deps: map<Id, seq<Id>>, finished: seq<Id>, node: Id)
    requires FinishedInOrder(deps, finished)
    requires forall d :: d in DepsOf(deps, node) ==> d in finished
    ensures FinishedInOrder(deps, finished + [node])
  {
    var f := finished + [node];
    forall i, d | 0 <= i < |f| && d in DepsOf(deps, f[i])
      ensures d in f[..i]
    {
      assert f[..i] == finished[..i];
    }
  }

  class CycleFinder {
    const dependencies: map<Id, seq<Id>>
    ghost const universe: set<Id>
    var visiting: set<Id>
    var visited: set<Id>
    var stack: seq<Id>
    /** The visited nodes in the order in which their visits ended. */
    ghost var finished: seq<Id>

    ghost predicate Valid()
      reads this
    {
      && Covers(universe, dependencies)
      && IsStack(dependencies, stack)
      && (forall x :: x in visiting <==> x in stack)
      && (forall x :: x in visited <==> x in finished)
      && visiting !! visited
      && FinishedInOrder(dependencies, finished)
    }

    constructor (deps: map<Id, seq<Id>>)
      ensures Valid() && dependencies == deps
      ensures visiting == {} && visited == {} && stack == [] && finished == []
    {
      dependencies := deps;
      universe := deps.Keys + set k, d | k in deps && d in deps[k] :: d;
      visiting, visited, stack, finished := {}, {}, [], [];
    }

    method Visit(node: Id) returns (cycle: Option<seq<Id>>)
      requires Valid() && node in universe
      requires stack != [] ==> node in DepsOf(dependencies, stack[|stack| - 1])
      modifies this
      ensures cycle.None? ==>
                && Valid() && node in visited
                && stack == old(stack) && visiting == old(visiting)
                && old(visited) <= visited
      ensures cycle.Some? ==> IsCycle(dependencies, cycle.value)
      decreases universe - visited - visiting, 0
    {
      if node in visited { return None; }
      if node in visiting {
        var index := Pos(stack, node);
        BackEdgeClosesCycle(dependencies, stack, index);
        return Some(stack[index..] + [node]);
      }
      visiting := visiting + {node};
      stack := stack + [node];
      cycle := VisitDependencies(node);
      if cycle.None? {
        Leave(node, old(stack), old(visiting));
      }
    }

    /** Visit everything the node on top of the stack depends on, up to the first cycle. */
    method VisitDependencies(node: Id) returns (cycle: Option<seq<Id>>)
      requires Valid() && stack != [] && stack[|stack| - 1] == node
      modifies this
      ensures cycle.None? ==>
                && Valid() && stack == old(stack) && visiting == old(visiting) && old(visited) <= visited
                && forall d :: d in DepsOf(dependencies, node) ==> d in visited
      ensures cycle.Some? ==> IsCycle(dependencies, cycle.value)
      decreases universe - visited - visiting, 1
    {
      var deps := DepsOf(dependencies, node);
      for i := 0 to |deps|
        invariant Valid() && stack == old(stack) && visiting == old(visiting) && old(visited) <= visited
        invariant forall j :: 0 <= j < i ==> deps[j] in visited
      {
        cycle := Visit(deps[i]);
        if cycle.Some? { return; }
      }
      cycle := None;
    }

    /** Pop the node on top of the stack: all it depends on is visited, and now it is too. */
    method Leave(node: Id, ghost below: seq<Id>, ghost others: set<Id>)
      requires Valid() && node !in others
      requires stack == below + [node] && visiting == others + {node}
      requires forall d :: d in DepsOf(dependencies, node) ==> d in visited
      modifies this
      ensures Valid() && stack == below && visiting == others && visited == old(visited) + {node}
    {
      FinishNext(dependencies, finished, node);
      forall i | 0 <= i < |below| ensures below[i] != node { assert stack[i] == below[i] && stack[|below|] == node; }
      assert IsStack(dependencies, below) by {
        forall i | 0 <= i < |below| ensures below[i] == stack[i] {}
      }
      stack := stack[..|stack| - 1];
      visiting := visiting - {node};
      visited := visited + {node};
      finished := finished + [node];
      assert stack == below && visiting == others;
    }
  }

  /** Once everything is finished, the finishing order ranks the prerequisites. */
  lemma FinishedMeansAcyclic(deps: map<Id, seq<Id>>, finished: seq<Id>)
    requires forall k :: k in deps ==> k in finished
    requires FinishedInOrder(deps, finished)
    ensures Acyclic(PrerequisiteEdges(deps))
  {
    var E := PrerequisiteEdges(deps);
    var rank: Id -> int := x => if x in finished then Pos(finished, x) else -1;
    forall a, b | (a, b) in E
      ensures rank(a) > rank(b)
    {
      var i := Pos(finished, a);
      assert b in DepsOf(deps, finished[i]);
      assert b in finished[..i];
    }
    RankedIsAcyclic(E, rank);
  }

  lemma CycleRefutesAcyclic(deps: map<Id, seq<Id>>, c: seq<Id>)
    requires IsCycle(deps, c)
    ensures !Acyclic(PrerequisiteEdges(deps))
  {
  }

  /** The outer loop: visit the nodes in turn, up to the first cycle. */
  method FirstCycle(finder: CycleFinder, nodes: seq<Id>) returns (found: Option<seq<Id>>)
    requires finder.Valid() && finder.stack == [] && forall n :: n in nodes ==> n in finder.universe
    modifies finder
    ensures found.Some? ==> IsCycle(finder.dependencies, found.value)
    ensures found.None? ==> finder.Valid() && forall n :: n in nodes ==> n in finder.finished
  {
    for i := 0 to |nodes|
      invariant finder.Valid() && finder.stack == []
      invariant forall k :: 0 <= k < i ==> nodes[k] in finder.visited
    {
      assert nodes[i] in nodes;
      found := finder.Visit(nodes[i]);
      if found.Some? { return; }
    }
    found := None;
  }

  /** The check that gates the corpus: an empty answer exactly when no Contract needs itself. */
  method CycleNodes(contracts: seq<Contract>) returns (cycle: seq<Id>)
    ensures cycle == [] <==> Acyclic(PrerequisiteEdges(Dependencies(contracts)))
    ensures cycle != [] ==> IsCycle(Dependencies(contracts), cycle)
  {
    var dependencies := Dependencies(contracts);
    var finder := new CycleFinder(dependencies);
    var nodes := SortedIds(dependencies.Keys);
    assert forall n :: n in nodes <==> n in dependencies;
    var found := FirstCycle(finder, nodes);
    if found.Some? {
      CycleRefutesAcyclic(dependencies, found.value);
      return found.value;
    }
    FinishedMeansAcyclic(dependencies, finder.finished);
    return [];
  }
}
