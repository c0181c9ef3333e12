/** The prerequisite lists of a padded plan, position by position. */
module PaddedLists {
  import opened Sequences
  import opened Orders
  import opened Contracts
  import opened Bootstrap
  import opened Padding

  // ----- the first pass -----

  /** The latest earlier item of the domain of item `i`. */
  ghost predicate IsLatest(ordered: seq<Item>, i: nat, j: int)
    requires i < |ordered|
  {
    && 0 <= j < i && ordered[j].domain == ordered[i].domain
    && forall k :: j < k < i ==> ordered[k].domain != ordered[i].domain
  }

  /** The first earlier item of the level below that of item `i`, or of the lowest level for the lowest. */
  ghost predicate IsAnchor(ordered: seq<Item>, i: nat, j: int)
    requires i < |ordered|
  {
    && 0 <= j < i && (ordered[j].level == ordered[i].level - 1 || (ordered[i].level == 0 && ordered[j].level == 0))
    && forall k :: 0 <= k < j ==> ordered[k].level != ordered[j].level
  }

  /** `j` is that item, or there is none. */
  ghost predicate LatestOrNone(ordered: seq<Item>, i: nat, j: Option<nat>)
    requires i < |ordered|
  {
    if j.Some? then IsLatest(ordered, i, j.value) else forall k :: !IsLatest(ordered, i, k)
  }

  ghost predicate AnchorOrNone(ordered: seq<Item>, i: nat, j: Option<nat>)
    requires i < |ordered|
  {
    if j.Some? then IsAnchor(ordered, i, j.value) else forall k :: !IsAnchor(ordered, i, k)
  }

  /** The list of the first pass: the latest of the domain and the anchor, where there are any, or else the neighbour.
      */
  ghost predicate IsFirstList(ordered: seq<Item>, i: nat, list: seq<Id>)
    requires 0 < i < |ordered|
  {
    exists j: Option<nat>, a: Option<nat> ::
      && LatestOrNone(ordered, i, j) && AnchorOrNone(ordered, i, a)
      && list == if j.Some? && a.Some? && j != a then [ordered[j.value].id, ordered[a.value].id]
                 else if j.Some? then [ordered[j.value].id]
                 else if a.Some? then [ordered[a.value].id]
                 else [ordered[i - 1].id]
  }

  lemma {:induction false} LatestIs(items: seq<Item>, domain: string) returns (j: Option<nat>)
    ensures LastInDomain(items, domain) == if j.Some? && j.value < |items| then Some(items[j.value].id) else None
    ensures j.Some? ==> j.value < |items| && items[j.value].domain == domain
                        && forall k :: j.value < k < |items| ==> items[k].domain != domain
    ensures j.None? ==> forall k :: 0 <= k < |items| ==> items[k].domain != domain
  {
    if items == [] {
      j := None;
    } else {
      var rest, n := items[..|items| - 1], |items| - 1;
      j := LatestIs(rest, domain);
      if items[n].domain == domain { j := Some(n); }
    }
  }

  lemma {:induction false} AnchorIs(items: seq<Item>, level: Level) returns (j: Option<nat>)
    ensures FirstAtLevel(items, level) == if j.Some? && j.value < |items| then Some(items[j.value].id) else None
    ensures j.Some? ==> j.value < |items| && items[j.value].level == level
                        && forall k :: 0 <= k < j.value ==> items[k].level != level
    ensures j.None? ==> forall k :: 0 <= k < |items| ==> items[k].level != level
  {
    if items == [] {
      j := None;
    } else {
      var rest, n := items[..|items| - 1], |items| - 1;
      j := AnchorIs(rest, level);
      if j.None? && items[n].level == level { j := Some(n); }
    }
  }

  lemma LatestAt(ordered: seq<Item>, i: nat) returns (j: Option<nat>)
    requires i < |ordered|
    ensures LatestOrNone(ordered, i, j)
    ensures LastInDomain(ordered[..i], ordered[i].domain) == if j.Some? then Some(ordered[j.value].id) else None
  {
    j := LatestIs(ordered[..i], ordered[i].domain);
    forall k | 0 <= k < i ensures ordered[..i][k] == ordered[k] {}
  }

  lemma AnchorAt(ordered: seq<Item>, i: nat) returns (j: Option<nat>)
    requires i < |ordered|
    ensures AnchorOrNone(ordered, i, j)
    ensures FirstAtLevel(ordered[..i], LevelBelow(ordered[i].level))
            == if j.Some? then Some(ordered[j.value].id) else None
  {
    j := AnchorIs(ordered[..i], LevelBelow(ordered[i].level));
    forall k | 0 <= k < i ensures ordered[..i][k] == ordered[k] {}
  }

  lemma DistinctPair(x: Id, y: Id)
    ensures Distinct([x]) == [x]
    ensures Distinct([x, y]) == if x == y then [x] else [x, y]
  {
    assert [x][..0] == [] && [x, y][..1] == [x];
  }

  lemma FirstOfEither(x: Option<Id>, y: Option<Id>)
    ensures var candidates := ToSeq(x) + ToSeq(y);
            && (candidates == [] <==> x.None? && y.None?)
            && (candidates != [] ==>
                  Distinct(candidates) == if x.Some? && y.Some? && x != y then [x.value, y.value]
                                          else if x.Some? then [x.value] else [y.value])
  {
    if x.Some? && y.Some? {
      DistinctPair(x.value, y.value);
      assert ToSeq(x) + ToSeq(y) == [x.value, y.value];
    } else if x.Some? {
      DistinctPair(x.value, x.value);
      assert ToSeq(x) + ToSeq(y) == [x.value];
    } else if y.Some? {
      DistinctPair(y.value, y.value);
      assert ToSeq(x) + ToSeq(y) == [y.value];
    }
  }

  /** The definition of the first pass by recursion is that by positions. */
  lemma BaseIs(ordered: seq<Item>, i: nat)
    requires UniqueItems(ordered) && 0 < i < |ordered|
    ensures IsFirstList(ordered, i, Base(ordered, i))
  {
    var j := LatestAt(ordered, i);
    var a := AnchorAt(ordered, i);
    FirstOfEither(LastInDomain(ordered[..i], ordered[i].domain),
                  FirstAtLevel(ordered[..i], LevelBelow(ordered[i].level)));
    if j.Some? && a.Some? && j != a { assert ordered[j.value].id != ordered[a.value].id; }
  }

  // ----- the second pass -----

  /** A list with the given ids at its end, less those it has already. */
  ghost function Taken(list: seq<Id>, ids: seq<Id>): seq<Id>
    decreases |ids|
  {
    if ids == [] then list else Taken(if ids[0] in list then list else list + [ids[0]], ids[1..])
  }

  /** The ids of the first item, of those a third and half of the way to item `i`, and of its neighbour. */
  ghost predicate AreFour(ordered: seq<Item>, i: nat, four: seq<Id>)
    requires 2 <= i < |ordered|
  {
    exists a, b :: && 3 * a <= i < 3 * a + 3 && 2 * b <= i < 2 * b + 2
                   && four == [ordered[0].id, ordered[a].id, ordered[b].id, ordered[i - 1].id]
  }

  lemma ThirdAndHalf(n: nat)
    ensures 3 * (n / 3) <= n < 3 * (n / 3) + 3 && 2 * (n / 2) <= n < 2 * (n / 2) + 2
  {
  }

  lemma ChoicesAreFour(ordered: seq<Item>, i: nat)
    requires 2 <= i < |ordered|
    ensures AreFour(ordered, i, Choices(ItemIds(ordered[..i])))
  {
    var earlier := ItemIds(ordered[..i]);
    var a, b := i / 3, i / 2;
    ThirdAndHalf(i);
    assert forall k :: 0 <= k < i ==> earlier[k] == ordered[k].id;
    assert Choices(earlier) == [ordered[0].id, ordered[a].id, ordered[b].id, ordered[i - 1].id];
  }

  /** The choices are taken in turn, and only the target stops them. */
  lemma {:induction false} ChoicesTaken(ordered: seq<Item>, plan: Plan, id: Id, choices: seq<Id>) returns (t: nat)
    requires id in plan && HasAll(ordered, plan)
    ensures t <= |choices|
    ensures PadChoices(ordered, plan, id, choices) == plan[id := Taken(plan[id], choices[..t])]
    ensures t < |choices| ==> EdgeTotal(ordered, PadChoices(ordered, plan, id, choices)) >= TARGET_EDGES
    decreases |choices|
  {
    if choices == [] || EdgeTotal(ordered, plan) >= TARGET_EDGES {
      t := 0;
      assert plan[id := plan[id]] == plan;
    } else {
      var more := TryEdge(plan, id, choices[0]);
      var k := ChoicesTaken(ordered, more, id, choices[1..]);
      t := k + 1;
      assert choices[..t][0] == choices[0] && choices[..t][1..] == choices[1..][..k];
      assert more[id] == if choices[0] in plan[id] then plan[id] else plan[id] + [choices[0]];
      assert PadChoices(ordered, plan, id, choices) == plan[id := Taken(more[id], choices[1..][..k])];
    }
  }

  /** Item `i` has its list of the first pass and what it took of the first `t` of its four. */
  ghost predicate TookOf(ordered: seq<Item>, first: Plan, plan: Plan, i: nat, t: nat)
    requires 2 <= i < |ordered|
  {
    && ordered[i].id in first && ordered[i].id in plan && t <= 4
    && exists four ::
         AreFour(ordered, i, four) && |four| == 4 && plan[ordered[i].id] == Taken(first[ordered[i].id], four[..t])
  }

  ghost predicate Untouched(ordered: seq<Item>, first: Plan, plan: Plan, i: nat)
    requires i < |ordered|
  {
    ordered[i].id in first && ordered[i].id in plan && plan[ordered[i].id] == first[ordered[i].id]
  }

  /** How many of its four item `i` was given, when the padding of `n` items was cut at item `m` after `t` of them. */
  ghost function Given(n: nat, m: nat, t: nat, i: nat): nat {
    if i < m then 4 else if i == m && m < n then t else 0
  }

  ghost predicate TookAt(ordered: seq<Item>, first: Plan, plan: Plan, n: nat, m: nat, t: nat, i: nat)
    requires 2 <= i < |ordered|
  {
    TookOf(ordered, first, plan, i, Given(n, m, t, i))
  }

  /** The first two items are left alone; the others took what they were given; and only the target makes a cut. */
  ghost predicate CutAt(ordered: seq<Item>, first: Plan, plan: Plan, n: nat, m: nat, t: nat) {
    && m <= n <= |ordered| && t <= 4 && HasAll(ordered, plan)
    && (forall i :: 0 <= i < 2 && i < |ordered| ==> Untouched(ordered, first, plan, i))
    && (forall i :: 2 <= i < |ordered| ==> TookAt(ordered, first, plan, n, m, t, i))
    && (m < n ==> EdgeTotal(ordered, plan) >= TARGET_EDGES)
  }

  lemma TookNothing(ordered: seq<Item>, first: Plan, plan: Plan, i: nat)
    requires 2 <= i < |ordered| && ordered[i].id in first && ordered[i].id in plan
    ensures TookOf(ordered, first, plan, i, 0) <==> plan[ordered[i].id] == first[ordered[i].id]
  {
    ChoicesAreFour(ordered, i);
    var four := Choices(ItemIds(ordered[..i]));
    assert four[..0] == [];
  }

  lemma NoCutYet(ordered: seq<Item>, first: Plan)
    requires HasAll(ordered, first)
    ensures CutAt(ordered, first, first, 0, 0, 0)
  {
    forall i | 2 <= i < |ordered| ensures TookAt(ordered, first, first, 0, 0, 0, i) {
      TookNothing(ordered, first, first, i);
    }
  }

  lemma {:induction false} SameTook(ordered: seq<Item>, first: Plan, plan: Plan, more: Plan, i: nat, t: nat)
    requires 2 <= i < |ordered| && TookOf(ordered, first, plan, i, t)
    requires ordered[i].id in more && more[ordered[i].id] == plan[ordered[i].id]
    ensures TookOf(ordered, first, more, i, t)
  {
  }

  lemma {:induction false} TookNow(ordered: seq<Item>, first: Plan, plan: Plan, n: nat) returns (k: nat)
    requires 2 <= n < |ordered| && HasAll(ordered, plan) && ordered[n].id in first && TookOf(ordered, first, plan, n, 0)
    ensures k <= 4 && TookOf(ordered, first, PadStep(ordered, plan, n), n, k)
    ensures k < 4 ==> EdgeTotal(ordered, PadStep(ordered, plan, n)) >= TARGET_EDGES
    ensures forall x :: x in plan && x != ordered[n].id ==> PadStep(ordered, plan, n)[x] == plan[x]
  {
    var id, four := ordered[n].id, Choices(ItemIds(ordered[..n]));
    ChoicesAreFour(ordered, n);
    k := ChoicesTaken(ordered, plan, id, four);
    TookNothing(ordered, first, plan, n);
    assert PadStep(ordered, plan, n)[id] == Taken(first[id], four[..k]);
  }

  /** An item is given some of its four, and nothing else changes. */
  lemma {:induction false} CutHere(ordered: seq<Item>, first: Plan, plan: Plan, more: Plan, n: nat, k: nat)
    returns (next: nat, m: nat, t: nat)
    requires UniqueItems(ordered) && 2 <= n < |ordered| && CutAt(ordered, first, plan, n, n, 0) && HasAll(ordered, more)
    requires k <= 4 && TookOf(ordered, first, more, n, k) && (k < 4 ==> EdgeTotal(ordered, more) >= TARGET_EDGES)
    requires forall x :: x in plan && x != ordered[n].id ==> x in more && more[x] == plan[x]
    ensures next == n + 1 && CutAt(ordered, first, more, next, m, t)
  {
    next, m, t := n + 1, if k == 4 then n + 1 else n, k;
    forall i | 0 <= i < 2 ensures Untouched(ordered, first, more, i) {
      assert Untouched(ordered, first, plan, i) && ordered[i].id != ordered[n].id;
    }
    forall i | 2 <= i < |ordered| ensures TookAt(ordered, first, more, next, m, t, i) {
      if i != n {
        assert TookAt(ordered, first, plan, n, n, 0, i) && ordered[i].id != ordered[n].id;
        SameTook(ordered, first, plan, more, i, Given(n, n, 0, i));
      }
    }
  }

  lemma {:induction false} CutNext(ordered: seq<Item>, first: Plan, plan: Plan, n: nat)
    returns (next: nat, m: nat, t: nat)
    requires UniqueItems(ordered) && 2 <= n < |ordered| && HasAll(ordered, first)
    requires CutAt(ordered, first, plan, n, n, 0) && EdgeTotal(ordered, plan) < TARGET_EDGES
    ensures next == n + 1 && CutAt(ordered, first, PadStep(ordered, plan, n), next, m, t)
  {
    assert TookAt(ordered, first, plan, n, n, 0, n);
    var k := TookNow(ordered, first, plan, n);
    next, m, t := CutHere(ordered, first, plan, PadStep(ordered, plan, n), n, k);
  }

  /** An item is given nothing. */
  lemma {:induction false} CutStays(ordered: seq<Item>, first: Plan, plan: Plan, n: nat, m: nat, t: nat)
    returns (next: nat, m': nat, t': nat)
    requires CutAt(ordered, first, plan, n, m, t) && n < |ordered|
    requires n < 2 || EdgeTotal(ordered, plan) >= TARGET_EDGES
    ensures next == n + 1 && CutAt(ordered, first, plan, next, m', t')
  {
    next, m', t' := n + 1, if m == n && n < 2 then n + 1 else m, if m < n then t else 0;
    forall i | 2 <= i < |ordered| ensures TookAt(ordered, first, plan, next, m', t', i) {
      assert TookAt(ordered, first, plan, n, m, t, i);
      assert Given(next, m', t', i) == Given(n, m, t, i);
    }
  }

  /** The second pass gives each item its four in turn, until the target is met. */
  lemma {:induction false} PaddingCut(ordered: seq<Item>, first: Plan, n: nat) returns (m: nat, t: nat)
    requires UniqueItems(ordered) && HasAll(ordered, first) && n <= |ordered|
    ensures CutAt(ordered, first, PadTo(ordered, first, n), n, m, t)
    decreases n
  {
    m, t := 0, 0;
    if n == 0 {
      NoCutYet(ordered, first);
    } else {
      var before := PadTo(ordered, first, n - 1);
      m, t := PaddingCut(ordered, first, n - 1);
      if n - 1 < 2 || EdgeTotal(ordered, before) >= TARGET_EDGES {
        StepStops(ordered, before, n - 1);
        var next;
        next, m, t := CutStays(ordered, first, before, n - 1, m, t);
      } else {
        CutAgain(ordered, first, before, n - 1, t);
        var next;
        next, m, t := CutNext(ordered, first, before, n - 1);
      }
    }
  }

  lemma {:induction false} StepStops(ordered: seq<Item>, plan: Plan, n: nat)
    requires n < |ordered| && HasAll(ordered, plan) && (n < 2 || EdgeTotal(ordered, plan) >= TARGET_EDGES)
    ensures PadStep(ordered, plan, n) == plan
  {
    if n >= 2 { PadChoicesStop(ordered, plan, ordered[n].id, Choices(ItemIds(ordered[..n]))); }
  }

  /** Without a cut, the number taken at it does not matter. */
  lemma {:induction false} CutAgain(ordered: seq<Item>, first: Plan, plan: Plan, n: nat, t: nat)
    requires CutAt(ordered, first, plan, n, n, t)
    ensures CutAt(ordered, first, plan, n, n, 0)
  {
    forall i | 2 <= i < |ordered| ensures TookAt(ordered, first, plan, n, n, 0, i) {
      assert TookAt(ordered, first, plan, n, n, t, i);
      assert Given(n, n, 0, i) == Given(n, n, t, i);
    }
  }
}
