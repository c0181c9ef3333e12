/** Finite directed graphs: walks, reachability, cycles, and the finiteness arguments behind the cycle checks. */
module Walks {
  import opened Sequences
  import opened Orders

  type Edges = set<(Id, Id)>

  /** A nonempty list of nodes, each joined to the next by an edge. */
  ghost predicate IsWalk(E: Edges, w: seq<Id>) {
    w != [] && forall i :: 0 <= i < |w| - 1 ==> (w[i], w[i + 1]) in E
  }

  ghost predicate WalkFromTo(E: Edges, w: seq<Id>, a: Id, b: Id) {
    IsWalk(E, w) && w[0] == a && w[|w| - 1] == b
  }

  /** Zero or more edges lead from `a` to `b`. */
  ghost predicate Reaches(E: Edges, a: Id, b: Id) {
    exists w :: WalkFromTo(E, w, a, b)
  }

  /** One or more edges lead from `a` to `b`. */
  ghost predicate ReachesPlus(E: Edges, a: Id, b: Id) {
    exists w :: WalkFromTo(E, w, a, b) && |w| >= 2
  }

  /** No walk of at least one edge returns to where it began. */
  ghost predicate Acyclic(E: Edges) {
    forall w :: IsWalk(E, w) && |w| >= 2 ==> w[0] != w[|w| - 1]
  }

  ghost function Reverse(E: Edges): (R: Edges)
    ensures forall a, b :: (a, b) in R <==> (b, a) in E
  {
    var R := set e | e in E :: (e.1, e.0);
    assert forall a, b :: (b, a) in E ==> ((b, a).1, (b, a).0) in R;
    R
  }

  ghost predicate HasSuccessorIn(E: Edges, S: set<Id>, x: Id) {
    exists y :: y in S && (x, y) in E
  }

  // ----- walks -----

  lemma SingletonWalk(E: Edges, a: Id)
    ensures WalkFromTo(E, [a], a, a)
  {
  }

  lemma JoinWalks(E: Edges, u: seq<Id>, v: seq<Id>)
    requires IsWalk(E, u) && IsWalk(E, v) && u[|u| - 1] == v[0]
    ensures WalkFromTo(E, u + v[1..], u[0], v[|v| - 1])
  {
    var w := u + v[1..];
    forall i | 0 <= i < |w| - 1
      ensures (w[i], w[i + 1]) in E
    {
      if i >= |u| - 1 {
        assert w[i] == v[i - (|u| - 1)] && w[i + 1] == v[i - (|u| - 1) + 1];
      }
    }
  }

  lemma ReachesTrans(E: Edges, a: Id, b: Id, c: Id)
    requires Reaches(E, a, b) && Reaches(E, b, c)
    ensures Reaches(E, a, c)
  {
    var u :| WalkFromTo(E, u, a, b);
    var v :| WalkFromTo(E, v, b, c);
    JoinWalks(E, u, v);
  }

  lemma ReachesEdge(E: Edges, a: Id, b: Id)
    requires (a, b) in E
    ensures ReachesPlus(E, a, b) && Reaches(E, a, b)
  {
    assert WalkFromTo(E, [a, b], a, b);
  }

  /** One or more edges: a first edge and then zero or more. */
  lemma ReachesPlusFirstEdge(E: Edges, a: Id, b: Id)
    ensures ReachesPlus(E, a, b) <==> exists c :: (a, c) in E && Reaches(E, c, b)
  {
    if ReachesPlus(E, a, b) {
      var w :| WalkFromTo(E, w, a, b) && |w| >= 2;
      assert WalkFromTo(E, w[1..], w[1], b);
      assert (a, w[1]) in E && Reaches(E, w[1], b);
    }
    if c :| (a, c) in E && Reaches(E, c, b) {
      var v :| WalkFromTo(E, v, c, b);
      assert IsWalk(E, [a, c]);
      JoinWalks(E, [a, c], v);
      assert |[a, c] + v[1..]| >= 2;
    }
  }

  /** A set closed under the edges keeps every walk that starts in it. */
  lemma {:induction false} ClosedSetKeepsWalk(E: Edges, S: set<Id>, w: seq<Id>)
    requires forall a, b :: (a, b) in E && a in S ==> b in S
    requires IsWalk(E, w) && w[0] in S
    ensures forall i :: 0 <= i < |w| ==> w[i] in S
  {
    if |w| > 1 {
      var u := w[..|w| - 1];
      assert IsWalk(E, u);
      ClosedSetKeepsWalk(E, S, u);
      assert u[|u| - 1] in S && (w[|w| - 2], w[|w| - 1]) in E;
    }
  }

  // ----- reversal -----

  function Reversed(w: seq<Id>): (r: seq<Id>)
    ensures |r| == |w|
    ensures forall i :: 0 <= i < |w| ==> r[i] == w[|w| - 1 - i]
  {
    seq(|w|, i requires 0 <= i < |w| => w[|w| - 1 - i])
  }

  lemma ReverseTwice(E: Edges)
    ensures Reverse(Reverse(E)) == E
  {
    forall a, b
      ensures (a, b) in Reverse(Reverse(E)) <==> (a, b) in E
    {
      assert (b, a) in Reverse(E) <==> (a, b) in E;
    }
  }

  lemma ReversedWalk(E: Edges, w: seq<Id>, a: Id, b: Id)
    requires WalkFromTo(E, w, a, b)
    ensures WalkFromTo(Reverse(E), Reversed(w), b, a)
  {
    var r := Reversed(w);
    forall i | 0 <= i < |r| - 1
      ensures (r[i], r[i + 1]) in Reverse(E)
    {
      assert (w[|w| - 2 - i], w[|w| - 2 - i + 1]) in E;
    }
  }

  /** Reachability in the reversed graph is reachability backwards. */
  lemma ReverseReaches(E: Edges, a: Id, b: Id)
    ensures ReachesPlus(Reverse(E), b, a) <==> ReachesPlus(E, a, b)
    ensures Reaches(Reverse(E), b, a) <==> Reaches(E, a, b)
  {
    ReverseTwice(E);
    if w :| WalkFromTo(E, w, a, b) && |w| >= 2 {
      ReversedWalk(E, w, a, b);
      assert |Reversed(w)| >= 2;
    }
    if w :| WalkFromTo(E, w, a, b) { ReversedWalk(E, w, a, b); }
    if w :| WalkFromTo(Reverse(E), w, b, a) && |w| >= 2 {
      ReversedWalk(Reverse(E), w, b, a);
      assert |Reversed(w)| >= 2;
    }
    if w :| WalkFromTo(Reverse(E), w, b, a) { ReversedWalk(Reverse(E), w, b, a); }
  }

  lemma ReverseAcyclic(E: Edges)
    ensures Acyclic(Reverse(E)) <==> Acyclic(E)
  {
    ReverseTwice(E);
    if Acyclic(E) { ReverseAcyclicHalf(E); }
    if Acyclic(Reverse(E)) { ReverseAcyclicHalf(Reverse(E)); }
  }

  lemma ReverseAcyclicHalf(E: Edges)
    requires Acyclic(E)
    ensures Acyclic(Reverse(E))
  {
    ReverseTwice(E);
    forall w | IsWalk(Reverse(E), w) && |w| >= 2
      ensures w[0] != w[|w| - 1]
    {
      ReversedWalk(Reverse(E), w, w[0], w[|w| - 1]);
      assert |Reversed(w)| >= 2;
    }
  }

  // ----- cycles -----

  lemma AcyclicIsIrreflexive(E: Edges)
    ensures Acyclic(E) <==> forall a :: !ReachesPlus(E, a, a)
  {
    if a :| ReachesPlus(E, a, a) {
      var w :| WalkFromTo(E, w, a, a) && |w| >= 2;
      assert !Acyclic(E);
    }
    if w :| IsWalk(E, w) && |w| >= 2 && w[0] == w[|w| - 1] {
      assert WalkFromTo(E, w, w[0], w[0]);
      assert ReachesPlus(E, w[0], w[0]);
    }
  }

  /** A rank that drops along every edge rules out cycles. */
  lemma {:induction false} RankDropsAlongWalk(E: Edges, rank: Id -> int, w: seq<Id>)
    requires forall a, b :: (a, b) in E ==> rank(a) > rank(b)
    requires IsWalk(E, w)
    ensures |w| >= 2 ==> rank(w[0]) > rank(w[|w| - 1])
  {
    if |w| >= 2 {
      assert (w[0], w[1]) in E;
      assert IsWalk(E, w[1..]);
      RankDropsAlongWalk(E, rank, w[1..]);
    }
  }

  lemma RankedIsAcyclic(E: Edges, rank: Id -> int)
    requires forall a, b :: (a, b) in E ==> rank(a) > rank(b)
    ensures Acyclic(E)
  {
    forall w | IsWalk(E, w) && |w| >= 2
      ensures w[0] != w[|w| - 1]
    {
      RankDropsAlongWalk(E, rank, w);
    }
  }

  lemma {:induction false} Pigeonhole(w: seq<Id>, S: set<Id>)
    requires forall i :: 0 <= i < |w| ==> w[i] in S
    requires |w| > |S|
    ensures exists i, j :: 0 <= i < j < |w| && w[i] == w[j]
  {
    if NoDup(w) {
      NoDupSetSize(w);
      SubsetSize(Members(w), S);
    }
  }

  lemma {:induction false} LongWalk(E: Edges, S: set<Id>, n: nat) returns (w: seq<Id>)
    requires S != {} && forall x :: x in S ==> HasSuccessorIn(E, S, x)
    ensures IsWalk(E, w) && |w| == n + 1 && forall i :: 0 <= i < |w| ==> w[i] in S
  {
    if n == 0 {
      var x :| x in S;
      w := [x];
    } else {
      var u := LongWalk(E, S, n - 1);
      assert HasSuccessorIn(E, S, u[|u| - 1]);
      var y :| y in S && (u[|u| - 1], y) in E;
      w := u + [y];
    }
  }

  lemma RepeatedNodeClosesWalk(E: Edges, w: seq<Id>, i: nat, j: nat)
    requires IsWalk(E, w) && i < j < |w| && w[i] == w[j]
    ensures !Acyclic(E)
  {
    var c := w[i..j + 1];
    forall k | 0 <= k < |c| - 1
      ensures (c[k], c[k + 1]) in E
    {
      assert (w[i + k], w[i + k + 1]) in E;
    }
    assert IsWalk(E, c) && c[0] == c[|c| - 1];
  }

  lemma AllHaveSuccessorsMeansCycle(E: Edges, S: set<Id>)
    requires S != {} && forall x :: x in S ==> HasSuccessorIn(E, S, x)
    ensures !Acyclic(E)
  {
    var w := LongWalk(E, S, |S|);
    Pigeonhole(w, S);
    var i, j :| 0 <= i < j < |w| && w[i] == w[j];
    RepeatedNodeClosesWalk(E, w, i, j);
  }

  /** Every nonempty finite part of an acyclic graph has a node without successors in that part. */
  lemma HasSink(E: Edges, S: set<Id>) returns (x: Id)
    requires Acyclic(E) && S != {}
    ensures x in S && !HasSuccessorIn(E, S, x)
  {
    if forall z :: z in S ==> HasSuccessorIn(E, S, z) {
      AllHaveSuccessorsMeansCycle(E, S);
    }
    x :| x in S && !HasSuccessorIn(E, S, x);
  }

  /** The mirror image: a node without predecessors in that part. */
  lemma HasSource(E: Edges, S: set<Id>) returns (x: Id)
    requires Acyclic(E) && S != {}
    ensures x in S && forall y :: y in S ==> (y, x) !in E
  {
    ReverseAcyclic(E);
    x := HasSink(Reverse(E), S);
    assert forall y :: y in S && (y, x) in E ==> (x, y) in Reverse(E);
  }
}
