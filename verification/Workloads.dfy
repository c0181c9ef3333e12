/** Workload closures: three routes to the same relation between workloads and Contracts. */
module Workloads {
  import opened Sequences
  import opened Orders
  import opened Walks
  import opened Contracts
  import opened Validation
  import opened Closures

  /** The workload document: the direct Contracts of each workload, or `None` where the entry is not a mapping. */
  type Document = map<Id, Option<seq<Id>>>

  datatype WorkloadError = UnknownWorkload(name: Id) | UnknownContract(id: Id) | NotAMapping(name: Id)

  ghost function NeedEdges(cs: seq<Contract>): Edges {
    PrerequisiteEdges(Dependencies(cs))
  }

  /** `x` is one of the direct Contracts, or something one of them needs. */
  ghost predicate InClosure(cs: seq<Contract>, direct: seq<Id>, x: Id) {
    ReachedFrom(NeedEdges(cs), direct, x)
  }

  ghost predicate ListsClosure(cs: seq<Contract>, direct: seq<Id>, r: seq<Id>) {
    Sorted(r, StrLe) && NoDup(r) && forall x :: x in r <==> InClosure(cs, direct, x)
  }

  ghost predicate Closed(cs: seq<Contract>, S: set<Id>) {
    forall a, b :: (a, b) in NeedEdges(cs) && a in S ==> b in S
  }

  ghost predicate KnownAll(cs: seq<Contract>, ids: seq<Id>) {
    forall x :: x in ids ==> x in ById(cs)
  }

  /** Every workload is a mapping that names known Contracts only. */
  ghost predicate Resolves(cs: seq<Contract>, doc: Document) {
    forall w :: w in doc ==> doc[w].Some? && KnownAll(cs, doc[w].value)
  }

  /** The workload's closure contains its direct Contracts and is closed under prerequisites, and it is the least such
      set. */
  lemma ClosureIsLeast(cs: seq<Contract>, direct: seq<Id>, closure: set<Id>, S: set<Id>)
    requires forall x :: x in closure <==> InClosure(cs, direct, x)
    ensures Closed(cs, closure) && forall x :: x in direct ==> x in closure
    ensures Closed(cs, S) && (forall x :: x in direct ==> x in S) ==> closure <= S
  {
    var E := NeedEdges(cs);
    forall x | x in direct ensures x in closure { SingletonWalk(E, x); }
    forall a, b | (a, b) in E && a in closure
      ensures b in closure
    {
      var s :| s in direct && Reaches(E, s, a);
      ReachesEdge(E, a, b);
      ReachesTrans(E, s, a, b);
    }
    if Closed(cs, S) && forall x :: x in direct ==> x in S {
      forall x | x in closure
        ensures x in S
      {
        var s :| s in direct && Reaches(E, s, x);
        var w :| WalkFromTo(E, w, s, x);
        ClosedSetKeepsWalk(E, S, w);
      }
    }
  }

  /** One direct Contract contributes itself and what it needs. */
  lemma ClosureGrows(cs: seq<Contract>, done: seq<Id>, id: Id, x: Id)
    ensures InClosure(cs, done + [id], x) <==> InClosure(cs, done, x) || x == id || ReachesPlus(NeedEdges(cs), id, x)
  {
    var E := NeedEdges(cs);
    SingletonWalk(E, id);
    assert id in done + [id];
    assert forall s :: s in done ==> s in done + [id];
    if InClosure(cs, done + [id], x) {
      var s :| s in done + [id] && Reaches(E, s, x);
      if s !in done {
        var w :| WalkFromTo(E, w, id, x);
        assert |w| == 1 ==> x == id;
      }
    }
  }

  lemma ClosureGrowsBy(cs: seq<Contract>, done: seq<Id>, id: Id, needed: set<Id>)
    requires forall x :: x in needed <==> ReachesPlus(NeedEdges(cs), id, x)
    ensures forall x :: InClosure(cs, done + [id], x) <==> InClosure(cs, done, x) || x == id || x in needed
  {
    forall x
      ensures InClosure(cs, done + [id], x) <==> InClosure(cs, done, x) || x == id || x in needed
    {
      ClosureGrows(cs, done, id, x);
    }
  }

  lemma DirectInClosure(cs: seq<Contract>, direct: seq<Id>)
    ensures forall x :: x in direct ==> InClosure(cs, direct, x)
  {
    forall x | x in direct ensures InClosure(cs, direct, x) { SingletonWalk(NeedEdges(cs), x); }
  }

  /** Both renderings of a closure are the same list. */
  lemma ClosureListingUnique(cs: seq<Contract>, direct: seq<Id>, r: seq<Id>, q: seq<Id>)
    requires ListsClosure(cs, direct, r) && ListsClosure(cs, direct, q)
    ensures r == q
  {
    ListsUnique(r, q, set x | x in r);
  }

  method ContractsForWorkload(cs: seq<Contract>, doc: Document, workload: Id)
    returns (r: Result<seq<Id>, WorkloadError>)
    ensures r.Ok? <==> workload in doc && doc[workload].Some? && KnownAll(cs, doc[workload].value)
    ensures r.Ok? ==> ListsClosure(cs, doc[workload].value, r.value)
    ensures r.Err? ==> r.error == UnknownWorkload(workload) || (r.error.UnknownContract? && r.error.id !in ById(cs))
  {
    if workload !in doc || doc[workload].None? { return Err(UnknownWorkload(workload)); }
    r := DirectAndNeeded(cs, doc[workload].value);
  }

  method NeededBy(cs: seq<Contract>, id: Id) returns (r: Result<set<Id>, WorkloadError>)
    ensures r.Ok? <==> id in ById(cs)
    ensures r.Ok? ==> forall x :: x in r.value <==> ReachesPlus(NeedEdges(cs), id, x)
    ensures r.Err? ==> r.error == UnknownContract(id)
  {
    var query := Prerequisites(cs, id, true);
    if query.Err? { return Err(UnknownContract(id)); }
    return Ok(set x | x in query.value);
  }

  method DirectAndNeeded(cs: seq<Contract>, direct: seq<Id>) returns (r: Result<seq<Id>, WorkloadError>)
    ensures r.Ok? <==> KnownAll(cs, direct)
    ensures r.Ok? ==> ListsClosure(cs, direct, r.value)
    ensures r.Err? ==> r.error.UnknownContract? && r.error.id !in ById(cs)
  {
    var closure := set x | x in direct;
    DirectInClosure(cs, direct);
    for i := 0 to |direct|
      invariant KnownAll(cs, direct[..i])
      invariant forall x :: x in closure <==> x in direct || InClosure(cs, direct[..i], x)
    {
      assert direct[..i + 1] == direct[..i] + [direct[i]];
      var query := NeededBy(cs, direct[i]);
      if query.Err? { return Err(query.error); }
      var needed := query.value;
      ClosureGrowsBy(cs, direct[..i], direct[i], needed);
      closure := closure + needed;
    }
    assert direct[..|direct|] == direct;
    return Ok(SortedIds(closure));
  }

  ghost predicate ResolvesAll(cs: seq<Contract>, doc: Document, names: seq<Id>) {
    forall w :: w in names ==> w in doc && doc[w].Some? && KnownAll(cs, doc[w].value)
  }

  /** Which of the named workloads have `id` in their closure. */
  method NamesWith(cs: seq<Contract>, doc: Document, names: seq<Id>, id: Id) returns (r: Result<set<Id>, WorkloadError>)
    requires forall w :: w in names ==> w in doc
    ensures r.Ok? <==> ResolvesAll(cs, doc, names)
    ensures r.Ok? ==> forall w :: w in r.value <==> w in names && InClosure(cs, doc[w].value, id)
  {
    var found: set<Id> := {};
    for i := 0 to |names|
      invariant ResolvesAll(cs, doc, names[..i])
      invariant forall w :: w in found <==> w in names[..i] && InClosure(cs, doc[w].value, id)
    {
      assert names[i] in names && names[..i + 1] == names[..i] + [names[i]];
      var closure := ContractsForWorkload(cs, doc, names[i]);
      if closure.Err? { return Err(closure.error); }
      if id in closure.value {
        found := found + {names[i]};
      }
    }
    assert names[..|names|] == names;
    return Ok(found);
  }

  /** `KeyError` for an unknown Contract, and for any workload that does not resolve. */
  method WorkloadsFor(cs: seq<Contract>, doc: Document, id: Id) returns (r: Result<seq<Id>, WorkloadError>)
    ensures r.Ok? <==> id in ById(cs) && Resolves(cs, doc)
    ensures r.Ok? ==> Sorted(r.value, StrLe) && NoDup(r.value)
    ensures r.Ok? ==> forall w :: w in r.value <==> w in doc && InClosure(cs, doc[w].value, id)
  {
    if id !in ById(cs) { return Err(UnknownContract(id)); }
    var names := SortedIds(doc.Keys);
    assert forall w :: w in names <==> w in doc;
    var found := NamesWith(cs, doc, names, id);
    if found.Err? { return Err(found.error); }
    return Ok(SortedIds(found.value));
  }

  method Render(cs: seq<Contract>, doc: Document, names: seq<Id>, adjacency: map<Id, seq<Id>>)
    returns (r: Result<map<Id, seq<Id>>, WorkloadError>)
    requires AdjacencyEdges(adjacency) == NeedEdges(cs) && forall w :: w in names ==> w in doc
    ensures r.Ok? <==> ResolvesAll(cs, doc, names)
    ensures r.Ok? ==> forall w :: w in r.value <==> w in names
    ensures r.Ok? ==> forall w :: w in names ==> ListsClosure(cs, doc[w].value, r.value[w])
  {
    var rendered: map<Id, seq<Id>> := map[];
    for i := 0 to |names|
      invariant ResolvesAll(cs, doc, names[..i])
      invariant forall w :: w in rendered <==> w in names[..i]
      invariant forall w :: w in rendered ==> ListsClosure(cs, doc[w].value, rendered[w])
    {
      assert names[i] in names && names[..i + 1] == names[..i] + [names[i]];
      if doc[names[i]].None? { return Err(NotAMapping(names[i])); }
      var row := MatrixRow(cs, adjacency, doc[names[i]].value);
      if row.Err? { return Err(row.error); }
      rendered := rendered[names[i] := row.value];
    }
    assert names[..|names|] == names;
    return Ok(rendered);
  }

  /** The rendered matrix: every workload with its closure. */
  method WorkloadMatrix(cs: seq<Contract>, doc: Document) returns (r: Result<map<Id, seq<Id>>, WorkloadError>)
    ensures r.Ok? <==> Resolves(cs, doc)
    ensures r.Ok? ==> r.value.Keys == doc.Keys && forall w :: w in doc ==> ListsClosure(cs, doc[w].value, r.value[w])
  {
    var adjacency := Adjacency(cs, true);
    AdjacencyIsDirected(cs, true, adjacency);
    var names := SortedIds(doc.Keys);
    assert forall w :: w in names <==> w in doc;
    r := Render(cs, doc, names, adjacency);
  }

  method MatrixRow(cs: seq<Contract>, adjacency: map<Id, seq<Id>>, direct: seq<Id>)
    returns (r: Result<seq<Id>, WorkloadError>)
    requires AdjacencyEdges(adjacency) == NeedEdges(cs)
    ensures r.Ok? <==> KnownAll(cs, direct)
    ensures r.Ok? ==> ListsClosure(cs, direct, r.value)
  {
    ghost var E := NeedEdges(cs);
    var closure := set x | x in direct;
    DirectInClosure(cs, direct);
    for i := 0 to |direct|
      invariant KnownAll(cs, direct[..i])
      invariant forall x :: x in closure <==> x in direct || InClosure(cs, direct[..i], x)
    {
      assert direct[..i + 1] == direct[..i] + [direct[i]];
      if direct[i] !in ById(cs) { return Err(UnknownContract(direct[i])); }
      var neighbours := DepsOf(adjacency, direct[i]);
      var reached := Closure(neighbours, adjacency);
      forall x ensures x in reached <==> ReachesPlus(E, direct[i], x) { NeighboursReach(E, neighbours, direct[i], x); }
      var needed := set x | x in reached;
      ClosureGrowsBy(cs, direct[..i], direct[i], needed);
      closure := closure + needed;
    }
    assert direct[..|direct|] == direct;
    return Ok(SortedIds(closure));
  }

  /** A Contract blocks at least every workload that anything depending on it blocks. */
  method BlockingIsMonotone(cs: seq<Contract>, doc: Document, prerequisite: Id, dependent: Id)
    returns (blocked: seq<Id>, blockedByDependent: seq<Id>)
    requires WellFormed(cs) && Resolves(cs, doc)
    requires dependent in KnownIds(cs) && Reaches(NeedEdges(cs), dependent, prerequisite)
    ensures forall w :: w in blockedByDependent ==> w in blocked
    ensures forall w :: w in blocked <==> w in doc && InClosure(cs, doc[w].value, prerequisite)
    ensures forall w :: w in blockedByDependent <==> w in doc && InClosure(cs, doc[w].value, dependent)
  {
    ClosureStaysKnown(cs, dependent, prerequisite);
    assert dependent in ById(cs) && prerequisite in ById(cs);
    var a := WorkloadsFor(cs, doc, prerequisite);
    var b := WorkloadsFor(cs, doc, dependent);
    blocked, blockedByDependent := a.value, b.value;
    forall w | w in blockedByDependent
      ensures w in blocked
    {
      var s :| s in doc[w].value && Reaches(NeedEdges(cs), s, dependent);
      ReachesTrans(NeedEdges(cs), s, dependent, prerequisite);
    }
  }

  /** Workloads-for is the inverse of contracts-for: the two answers agree on every pair. */
  method InverseRelations(cs: seq<Contract>, doc: Document, workload: Id, id: Id)
    returns (contracts: seq<Id>, workloads: seq<Id>)
    requires Resolves(cs, doc) && workload in doc && id in ById(cs)
    ensures ListsClosure(cs, doc[workload].value, contracts)
    ensures Sorted(workloads, StrLe) && NoDup(workloads)
    ensures forall w :: w in workloads <==> w in doc && InClosure(cs, doc[w].value, id)
    ensures id in contracts <==> workload in workloads
  {
    var closure := ContractsForWorkload(cs, doc, workload);
    var blocked := WorkloadsFor(cs, doc, id);
    contracts, workloads := closure.value, blocked.value;
  }
}
