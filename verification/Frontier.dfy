/** The frontier: unpassed Contracts whose direct prerequisites pass, and why following it always finishes. */
module Frontier {
  import opened Sequences
  import opened Orders
  import opened Walks
  import opened Contracts
  import opened Validation
  import opened Closures

  /** The `passed` entries of a result document; `None` where the entry is not a mapping or lacks the flag. */
  function PassedIn(entries: map<Id, Option<bool>>): set<Id> {
    set id | id in entries && entries[id] == Some(true)
  }

  predicate Ready(deps: map<Id, seq<Id>>, passed: set<Id>, id: Id) {
    id in deps && id !in passed && forall d :: d in deps[id] ==> d in passed
  }

  function FrontierOf(cs: seq<Contract>, passed: set<Id>): (r: seq<Id>)
    ensures Sorted(r, StrLe) && NoDup(r)
    ensures forall id :: id in r <==> Ready(Dependencies(cs), passed, id)
  {
    var deps := Dependencies(cs);
    SortedIds(set id | id in deps && Ready(deps, passed, id))
  }

  /** The `frontier` query on a result document. */
  function FrontierAfter(cs: seq<Contract>, entries: map<Id, Option<bool>>): (r: seq<Id>)
    ensures Sorted(r, StrLe) && NoDup(r)
    ensures forall id :: id in r <==>
              && id in Dependencies(cs)
              && !(id in entries && entries[id] == Some(true))
              && forall d :: d in Dependencies(cs)[id] ==> d in entries && entries[d] == Some(true)
  {
    FrontierOf(cs, PassedIn(entries))
  }

  ghost function Unpassed(cs: seq<Contract>, passed: set<Id>): set<Id> {
    KnownIds(cs) - passed
  }

  lemma KnownAreKeys(cs: seq<Contract>)
    ensures Dependencies(cs).Keys == KnownIds(cs)
  {
    var m := ById(cs);
    forall k ensures k in m <==> k in KnownIds(cs) {
      if k in m { assert m[k] in cs && m[k].id == k; }
    }
  }

  /** Whatever has not passed is waiting on something that can be worked on now. */
  lemma FrontierIsReachable(cs: seq<Contract>, passed: set<Id>, id: Id) returns (f: Id)
    requires WellFormed(cs) && id in Unpassed(cs, passed)
    ensures f in FrontierOf(cs, passed)
    ensures Reaches(PrerequisiteEdges(Dependencies(cs)), id, f)
  {
    var E := PrerequisiteEdges(Dependencies(cs));
    var S := set x | x in Unpassed(cs, passed) && Reaches(E, id, x);
    SingletonWalk(E, id);
    assert id in S;
    f := HasSink(E, S);
    KnownAreKeys(cs);
    forall d | d in Dependencies(cs)[f]
      ensures d in passed
    {
      ReachesEdge(E, f, d);
      ReachesTrans(E, id, f, d);
      ClosureStaysKnown(cs, f, d);
      assert !HasSuccessorIn(E, S, f);
    }
  }

  lemma EmptyMeansNoMember(r: seq<Id>)
    ensures r == [] <==> forall x :: x !in r
  {
    if r != [] { assert r[0] in r; }
  }

  lemma AllPassedMeansEmpty(cs: seq<Contract>, passed: set<Id>)
    requires KnownIds(cs) <= passed
    ensures FrontierOf(cs, passed) == []
  {
    KnownAreKeys(cs);
    EmptyMeansNoMember(FrontierOf(cs, passed));
  }

  lemma UnpassedMeansNonempty(cs: seq<Contract>, passed: set<Id>, id: Id)
    requires WellFormed(cs) && id in Unpassed(cs, passed)
    ensures FrontierOf(cs, passed) != []
  {
    var f := FrontierIsReachable(cs, passed, id);
    assert f in FrontierOf(cs, passed);
  }

  /** The frontier is empty exactly when everything passes. */
  lemma FrontierEmptyIffDone(cs: seq<Contract>, passed: set<Id>)
    requires WellFormed(cs)
    ensures FrontierOf(cs, passed) == [] <==> KnownIds(cs) <= passed
  {
    if KnownIds(cs) <= passed {
      AllPassedMeansEmpty(cs, passed);
    } else {
      var id :| id in KnownIds(cs) && id !in passed;
      UnpassedMeansNonempty(cs, passed, id);
    }
  }

  // ----- runs of an agent that always works on the frontier -----

  /** Each pick is on the frontier left by the picks before it. */
  ghost predicate IsRun(cs: seq<Contract>, passed: set<Id>, picks: seq<Id>) {
    forall i :: 0 <= i < |picks| ==> picks[i] in FrontierOf(cs, passed + Members(picks[..i]))
  }

  /** No Contract is passed twice, nor before its prerequisites. */
  lemma RunRespectsPrerequisites(cs: seq<Contract>, passed: set<Id>, picks: seq<Id>)
    requires IsRun(cs, passed, picks)
    ensures NoDup(picks) && Members(picks) <= Unpassed(cs, passed)
    ensures forall i, d :: 0 <= i < |picks| && d in Dependencies(cs)[picks[i]] ==> d in passed || d in picks[..i]
  {
    KnownAreKeys(cs);
    forall i | 0 <= i < |picks|
      ensures Ready(Dependencies(cs), passed + Members(picks[..i]), picks[i])
    {
      assert picks[i] in FrontierOf(cs, passed + Members(picks[..i]));
    }
    forall i, j | 0 <= i < j < |picks|
      ensures picks[i] != picks[j]
    {
      assert picks[..j][i] == picks[i];
      assert picks[i] in Members(picks[..j]);
    }
    forall i, d | 0 <= i < |picks| && d in Dependencies(cs)[picks[i]]
      ensures d in passed || d in picks[..i]
    {
      assert d in passed + Members(picks[..i]);
    }
  }

  /** Distinct picks from a set exhaust it exactly when there are as many of them as members. */
  lemma {:induction false} PicksExhaust(picks: seq<Id>, U: set<Id>)
    requires NoDup(picks) && Members(picks) <= U
    ensures |picks| <= |U|
    ensures |picks| == |U| <==> Members(picks) == U
  {
    NoDupSetSize(picks);
    SubsetSize(Members(picks), U);
    assert U == Members(picks) + (U - Members(picks));
  }

  lemma AllPickedIff(known: set<Id>, passed: set<Id>, picked: set<Id>)
    requires picked <= known - passed
    ensures picked == known - passed <==> known <= passed + picked
  {
  }

  /** Every run has at most one step per unpassed Contract, gets stuck only when all pass, and then has exactly that
      many. */
  lemma RunsFinishExactly(cs: seq<Contract>, passed: set<Id>, picks: seq<Id>)
    requires WellFormed(cs) && IsRun(cs, passed, picks)
    ensures |picks| <= |Unpassed(cs, passed)|
    ensures |picks| == |Unpassed(cs, passed)| <==> FrontierOf(cs, passed + Members(picks)) == []
    ensures |picks| == |Unpassed(cs, passed)| <==> KnownIds(cs) <= passed + Members(picks)
  {
    RunRespectsPrerequisites(cs, passed, picks);
    PicksExhaust(picks, Unpassed(cs, passed));
    AllPickedIff(KnownIds(cs), passed, Members(picks));
    FrontierEmptyIffDone(cs, passed + Members(picks));
  }

  /** A run that is not finished can go on with any Contract of the current frontier. */
  lemma RunExtends(cs: seq<Contract>, passed: set<Id>, picks: seq<Id>, next: Id)
    requires IsRun(cs, passed, picks) && next in FrontierOf(cs, passed + Members(picks))
    ensures IsRun(cs, passed, picks + [next])
  {
    var longer := picks + [next];
    forall i | 0 <= i < |longer|
      ensures longer[i] in FrontierOf(cs, passed + Members(longer[..i]))
    {
      assert longer[..i] == picks[..i];
      assert picks[..|picks|] == picks;
    }
  }
}
