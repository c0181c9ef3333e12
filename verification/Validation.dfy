/** Semantic validation of a corpus: exactly which issues it reports, and what an empty report guarantees. */
module Validation {
  import opened Orders
  import opened Walks
  import opened Contracts

  function KnownIds(cs: seq<Contract>): set<Id> {
    set c | c in cs :: c.id
  }

  ghost predicate UniqueIds(cs: seq<Contract>) {
    forall i, j :: 0 <= i < j < |cs| ==> cs[i].id != cs[j].id
  }

  /** What one Contract may be blamed for, given the known ids. */
  ghost predicate LocalDefect(known: set<Id>, c: Contract, d: Issue) {
    match d
    case UnknownPrerequisite(id, dependency) => id == c.id && dependency in c.prerequisites && dependency !in known
    case SelfPrerequisite(id) => id == c.id && c.id in c.prerequisites
    case UnknownOrthogonal(id, other) => id == c.id && other in c.orthogonalWith && other !in known
    case SelfOrthogonal(id) => id == c.id && c.id in c.orthogonalWith
    case NoneCombined(id) => id == c.id && NoRule in c.normalization && |c.normalization| > 1
    case DuplicateId(_) => false
    case CycleFound(_) => false
  }

  ghost predicate RepeatedId(cs: seq<Contract>, id: Id) {
    exists i, j :: 0 <= i < j < |cs| && cs[i].id == cs[j].id == id
  }

  /** The defects of a corpus other than a cycle. */
  ghost predicate Defect(cs: seq<Contract>, d: Issue) {
    if d.DuplicateId? then RepeatedId(cs, d.id)
    else exists c :: c in cs && LocalDefect(KnownIds(cs), c, d)
  }

  /** References are to other known Contracts, and the rule `none` stands alone. */
  ghost predicate Sound(known: set<Id>, c: Contract) {
    && (forall p :: p in c.prerequisites ==> p in known && p != c.id)
    && (forall p :: p in c.orthogonalWith ==> p in known && p != c.id)
    && (NoRule in c.normalization ==> |c.normalization| == 1)
  }

  ghost predicate WellFormed(cs: seq<Contract>) {
    && UniqueIds(cs)
    && (forall c :: c in cs ==> Sound(KnownIds(cs), c))
    && Acyclic(PrerequisiteEdges(Dependencies(cs)))
  }

  lemma SoundMeansBlameless(known: set<Id>, c: Contract)
    ensures Sound(known, c) <==> forall d :: !LocalDefect(known, c, d)
  {
    if forall d :: !LocalDefect(known, c, d) {
      forall p | p in c.prerequisites
        ensures p in known && p != c.id
      {
        assert !LocalDefect(known, c, UnknownPrerequisite(c.id, p));
        assert !LocalDefect(known, c, SelfPrerequisite(c.id));
      }
      forall p | p in c.orthogonalWith
        ensures p in known && p != c.id
      {
        assert !LocalDefect(known, c, UnknownOrthogonal(c.id, p));
        assert !LocalDefect(known, c, SelfOrthogonal(c.id));
      }
      assert !LocalDefect(known, c, NoneCombined(c.id));
    }
  }

  lemma UniqueMeansNoRepeat(cs: seq<Contract>)
    ensures UniqueIds(cs) <==> forall id :: !RepeatedId(cs, id)
  {
    if forall id :: !RepeatedId(cs, id) {
      forall i, j | 0 <= i < j < |cs|
        ensures cs[i].id != cs[j].id
      {
        assert !RepeatedId(cs, cs[i].id);
      }
    }
  }

  /** A corpus is well formed exactly when it has no defect and no cycle. */
  lemma WellFormedMeansNoDefect(cs: seq<Contract>)
    ensures WellFormed(cs) <==> (forall d :: !Defect(cs, d)) && Acyclic(PrerequisiteEdges(Dependencies(cs)))
  {
    var known := KnownIds(cs);
    UniqueMeansNoRepeat(cs);
    if forall d :: !Defect(cs, d) {
      forall id ensures !RepeatedId(cs, id) { assert !Defect(cs, DuplicateId(id)); }
      forall c | c in cs ensures Sound(known, c) {
        forall d ensures !LocalDefect(known, c, d) { assert !Defect(cs, d); }
        SoundMeansBlameless(known, c);
      }
    }
    if WellFormed(cs) {
      forall d ensures !Defect(cs, d) {
        if !d.DuplicateId? {
          forall c | c in cs ensures !LocalDefect(known, c, d) {
            assert Sound(known, c);
            SoundMeansBlameless(known, c);
          }
        }
      }
    }
  }

  method CheckContract(c: Contract, known: set<Id>) returns (issues: seq<Issue>)
    ensures forall d :: d in issues <==> LocalDefect(known, c, d)
  {
    issues := [];
    for i := 0 to |c.prerequisites|
      invariant forall d :: d in issues <==>
                  (d.UnknownPrerequisite? || d.SelfPrerequisite?)
                  && LocalDefect(known, c.(prerequisites := c.prerequisites[..i]), d)
    {
      var dependency := c.prerequisites[i];
      if dependency !in known { issues := issues + [UnknownPrerequisite(c.id, dependency)]; }
      if dependency == c.id { issues := issues + [SelfPrerequisite(c.id)]; }
    }
    assert c.(prerequisites := c.prerequisites[..|c.prerequisites|]) == c;
    for i := 0 to |c.orthogonalWith|
      invariant forall d :: d in issues <==>
                  (d.UnknownPrerequisite? || d.SelfPrerequisite? || d.UnknownOrthogonal? || d.SelfOrthogonal?)
                  && LocalDefect(known, c.(orthogonalWith := c.orthogonalWith[..i]), d)
    {
      var other := c.orthogonalWith[i];
      if other !in known { issues := issues + [UnknownOrthogonal(c.id, other)]; }
      if other == c.id { issues := issues + [SelfOrthogonal(c.id)]; }
    }
    assert c.(orthogonalWith := c.orthogonalWith[..|c.orthogonalWith|]) == c;
    if NoRule in c.normalization && |c.normalization| > 1 {
      issues := issues + [NoneCombined(c.id)];
    }
  }

  /** Ids met a second time are reported, and only those. */
  method CheckIds(cs: seq<Contract>) returns (issues: seq<Issue>)
    ensures forall d :: d in issues <==> d.DuplicateId? && Defect(cs, d)
  {
    issues := [];
    var identifiers: set<Id> := {};
    for i := 0 to |cs|
      invariant forall x :: x in identifiers <==> exists j :: 0 <= j < i && cs[j].id == x
      invariant forall d :: d in issues <==> d.DuplicateId? && RepeatedId(cs[..i], d.id)
    {
      ghost var before := issues;
      if cs[i].id in identifiers {
        issues := issues + [DuplicateId(cs[i].id)];
      } else {
        identifiers := identifiers + {cs[i].id};
      }
      forall id: Id
        ensures RepeatedId(cs[..i + 1], id)
                <==> RepeatedId(cs[..i], id) || (id == cs[i].id && exists j :: 0 <= j < i && cs[j].id == id)
      {
        RepeatedIdNext(cs, i, id);
      }
    }
    assert cs[..|cs|] == cs;
  }

  lemma RepeatedIdNext(cs: seq<Contract>, i: nat, id: Id)
    requires i < |cs|
    ensures RepeatedId(cs[..i + 1], id)
            <==> RepeatedId(cs[..i], id) || (id == cs[i].id && exists j :: 0 <= j < i && cs[j].id == id)
  {
    var longer, shorter := cs[..i + 1], cs[..i];
    if a, b :| 0 <= a < b < |longer| && longer[a].id == longer[b].id == id {
      if b < i { assert shorter[a].id == shorter[b].id == id; } else { assert cs[a].id == id; }
    }
    if a, b :| 0 <= a < b < |shorter| && shorter[a].id == shorter[b].id == id {
      assert longer[a].id == longer[b].id == id;
    }
    if j :| id == cs[i].id && 0 <= j < i && cs[j].id == id {
      assert longer[j].id == longer[i].id == id;
    }
  }

  /** The issues name every defect and nothing else; a clean report means a well-formed, acyclic corpus. */
  method Validate(cs: seq<Contract>) returns (issues: seq<Issue>)
    ensures forall d: Issue :: !d.CycleFound? ==> (d in issues <==> Defect(cs, d))
    ensures forall c :: CycleFound(c) in issues ==> issues == [CycleFound(c)] && IsCycle(Dependencies(cs), c)
    ensures issues == [] <==> WellFormed(cs)
  {
    issues := CheckIds(cs);
    var known := KnownIds(cs);
    for i := 0 to |cs|
      invariant forall d :: d in issues <==>
                  if d.DuplicateId? then Defect(cs, d) else exists j :: 0 <= j < i && LocalDefect(known, cs[j], d)
    {
      var more := CheckContract(cs[i], known);
      issues := issues + more;
    }
    assert forall d: Issue :: !d.DuplicateId? ==>
      ((exists j :: 0 <= j < |cs| && LocalDefect(known, cs[j], d))
        <==> exists c :: c in cs && LocalDefect(known, c, d));
    assert forall d :: d in issues <==> Defect(cs, d);
    assert issues != [] ==> issues[0] in issues;
    WellFormedMeansNoDefect(cs);
    if issues == [] {
      var cycle := CycleNodes(cs);
      if cycle != [] {
        issues := [CycleFound(cycle)];
      }
    }
  }
}
