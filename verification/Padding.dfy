/** The second pass over a catalog: offering each item four earlier ones until there are enough edges. */
module Padding {
  import opened Sequences
  import opened Orders
  import opened Bootstrap

  // ----- edges that are tried -----

  /** The four earlier items a padded item is offered. */
  function Choices(earlier: seq<Id>): (r: seq<Id>)
    requires |earlier| >= 2
    ensures |r| == 4 && forall k :: 0 <= k < 4 ==> r[k] in earlier
  {
    var n := |earlier|;
    [earlier[0], earlier[n / 3], earlier[n / 2], earlier[n - 1]]
  }

  /** Every item has a list in the plan. */
  ghost predicate HasAll(ordered: seq<Item>, plan: Plan) {
    forall k :: 0 <= k < |ordered| ==> ordered[k].id in plan
  }

  /** The edge, unless it is there already. */
  function TryEdge(plan: Plan, id: Id, p: Id): (r: Plan)
    requires id in plan
    ensures r.Keys == plan.Keys
  {
    if p in plan[id] then plan else AddEdge(plan, id, p)
  }

  lemma NotItself(ordered: seq<Item>, index: nat, p: Id)
    requires UniqueItems(ordered) && index < |ordered| && p in ItemIds(ordered[..index])
    ensures p != ordered[index].id
  {
    var j := EarlierPosition(ordered, index, p);
  }

  /** A plan with its edge count, grown from another plan. */
  ghost predicate Grown(ordered: seq<Item>, plan: Plan, more: Plan, total: nat) {
    && Planned(ordered, more) && Extends(plan, more)
    && (forall k :: 0 <= k < |ordered| ==> ordered[k].id in more)
    && total == EdgeTotal(ordered, more)
  }

  lemma GrownTrans(ordered: seq<Item>, a: Plan, b: Plan, c: Plan, x: nat, y: nat)
    requires Grown(ordered, a, b, x) && Grown(ordered, b, c, y)
    ensures Grown(ordered, a, c, y)
  {
    ExtendsTrans(a, b, c);
  }

  lemma ExtendsLists(plan: Plan, more: Plan, x: Id)
    requires Extends(plan, more) && x in plan
    ensures x in more && |plan[x]| <= |more[x]| && forall c :: c in plan[x] ==> c in more[x]
  {
    assert plan[x] <= more[x];
  }

  /** Nothing is added but to the list of `id`, and there only some of the choices. */
  ghost predicate OnlyAdds(plan: Plan, more: Plan, id: Id, choices: seq<Id>) {
    && plan.Keys == more.Keys && id in plan
    && (forall x :: x in plan && x != id ==> more[x] == plan[x])
    && (forall p :: p in more[id] ==> p in plan[id] || p in choices)
  }

  lemma OnlyAddsTrans(a: Plan, b: Plan, c: Plan, id: Id, choices: seq<Id>, p: Id)
    requires OnlyAdds(a, b, id, choices) && OnlyAdds(b, c, id, [p]) && p in choices
    ensures OnlyAdds(a, c, id, choices)
  {
  }

  method Offer(ordered: seq<Item>, index: nat, plan: Plan, current: nat, candidate: Id) returns (more: Plan, total: nat)
    requires Grown(ordered, plan, plan, current) && index < |ordered| && candidate in ItemIds(ordered[..index])
    ensures Grown(ordered, plan, more, total) && current <= total <= current + 1
    ensures ordered[index].id in plan && more == TryEdge(plan, ordered[index].id, candidate)
    ensures candidate in more[ordered[index].id]
    ensures OnlyAdds(plan, more, ordered[index].id, [candidate])
  {
    NotItself(ordered, index, candidate);
    if candidate != ordered[index].id && candidate !in plan[ordered[index].id] {
      AddEdgePlanned(ordered, plan, index, candidate);
      more, total := AddEdge(plan, ordered[index].id, candidate), current + 1;
    } else {
      more, total := plan, current;
    }
  }

  /** An item's list holds the first `k` of the ids it was offered. */
  ghost predicate Took(plan: Plan, id: Id, choices: seq<Id>, k: nat) {
    id in plan && forall j :: 0 <= j < k && j < |choices| ==> choices[j] in plan[id]
  }

  lemma TookGrows(plan: Plan, more: Plan, id: Id, choices: seq<Id>, k: nat)
    requires Extends(plan, more) && Took(plan, id, choices, k)
    requires id in more && k < |choices| && choices[k] in more[id]
    ensures Took(more, id, choices, k + 1)
  {
    ExtendsLists(plan, more, id);
  }

  // ----- the second pass -----

  /** The inner loop of the second pass: the choices in turn, until the target is met. */
  ghost function PadChoices(ordered: seq<Item>, plan: Plan, id: Id, choices: seq<Id>): (r: Plan)
    requires id in plan && HasAll(ordered, plan)
    ensures r.Keys == plan.Keys
    decreases |choices|
  {
    if choices == [] || EdgeTotal(ordered, plan) >= TARGET_EDGES then plan
    else PadChoices(ordered, TryEdge(plan, id, choices[0]), id, choices[1..])
  }

  ghost function PadStep(ordered: seq<Item>, plan: Plan, index: nat): (r: Plan)
    requires index < |ordered| && HasAll(ordered, plan)
    ensures r.Keys == plan.Keys
  {
    if index < 2 then plan else PadChoices(ordered, plan, ordered[index].id, Choices(ItemIds(ordered[..index])))
  }

  /** The plan after the second pass has dealt with the first `n` items. */
  ghost function PadTo(ordered: seq<Item>, plan: Plan, n: nat): (r: Plan)
    requires n <= |ordered| && HasAll(ordered, plan)
    ensures r.Keys == plan.Keys
  {
    if n == 0 then plan else PadStep(ordered, PadTo(ordered, plan, n - 1), n - 1)
  }

  lemma {:induction false} PadChoicesStep(ordered: seq<Item>, plan: Plan, id: Id, choices: seq<Id>, k: nat)
    requires id in plan && HasAll(ordered, plan) && k < |choices| && EdgeTotal(ordered, plan) < TARGET_EDGES
    ensures PadChoices(ordered, plan, id, choices[k..])
            == PadChoices(ordered, TryEdge(plan, id, choices[k]), id, choices[k + 1..])
  {
    assert choices[k..][0] == choices[k] && choices[k..][1..] == choices[k + 1..];
  }

  lemma {:induction false} PadChoicesStop(ordered: seq<Item>, plan: Plan, id: Id, choices: seq<Id>)
    requires id in plan && HasAll(ordered, plan) && (choices == [] || EdgeTotal(ordered, plan) >= TARGET_EDGES)
    ensures PadChoices(ordered, plan, id, choices) == plan
  {
  }

  lemma {:induction false} PadChoicesGrown(ordered: seq<Item>, plan: Plan, total: nat, index: nat, choices: seq<Id>)
    returns (sum: nat)
    requires Grown(ordered, plan, plan, total) && index < |ordered|
    requires forall c :: c in choices ==> c in ItemIds(ordered[..index])
    ensures ordered[index].id in plan && HasAll(ordered, plan)
    ensures Grown(ordered, plan, PadChoices(ordered, plan, ordered[index].id, choices), sum)
    decreases |choices|
  {
    var id := ordered[index].id;
    sum := total;
    if choices != [] && EdgeTotal(ordered, plan) < TARGET_EDGES {
      var more := TryEdge(plan, id, choices[0]);
      assert choices[0] in choices;
      if more != plan { AddEdgePlanned(ordered, plan, index, choices[0]); }
      var t := EdgeTotal(ordered, more);
      assert Grown(ordered, plan, more, t) && Grown(ordered, more, more, t);
      sum := PadChoicesGrown(ordered, more, t, index, choices[1..]);
      GrownTrans(ordered, plan, more, PadChoices(ordered, more, id, choices[1..]), t, sum);
    }
  }

  lemma {:induction false} PadToGrown(ordered: seq<Item>, plan: Plan, total: nat, n: nat) returns (sum: nat)
    requires Grown(ordered, plan, plan, total) && n <= |ordered|
    ensures HasAll(ordered, plan) && Grown(ordered, plan, PadTo(ordered, plan, n), sum)
  {
    sum := total;
    if n > 0 {
      var before := PadTo(ordered, plan, n - 1);
      var t := PadToGrown(ordered, plan, total, n - 1);
      sum := t;
      if n - 1 >= 2 {
        assert Grown(ordered, before, before, t);
        sum := PadChoicesGrown(ordered, before, t, n - 1, Choices(ItemIds(ordered[..n - 1])));
        GrownTrans(ordered, plan, before, PadTo(ordered, plan, n), t, sum);
      }
    }
  }

  /** The inner loop of the padding: offer each choice until the target is met. */
  method PadItem(ordered: seq<Item>, index: nat, plan: Plan, current: nat) returns (padded: Plan, total: nat)
    requires Grown(ordered, plan, plan, current) && current < TARGET_EDGES && 2 <= index < |ordered|
    ensures Grown(ordered, plan, padded, total) && total <= TARGET_EDGES
    ensures padded == PadStep(ordered, plan, index)
    ensures OnlyAdds(plan, padded, ordered[index].id, Choices(ItemIds(ordered[..index])))
    ensures total < TARGET_EDGES ==> Took(padded, ordered[index].id, Choices(ItemIds(ordered[..index])), 4)
  {
    var choices := Choices(ItemIds(ordered[..index]));
    padded, total := plan, current;
    for k := 0 to 4
      invariant Grown(ordered, plan, padded, total) && total <= TARGET_EDGES
      invariant Took(padded, ordered[index].id, choices, k) && OnlyAdds(plan, padded, ordered[index].id, choices)
      invariant PadChoices(ordered, padded, ordered[index].id, choices[k..])
                == PadChoices(ordered, plan, ordered[index].id, choices)
    {
      if total >= TARGET_EDGES {
        PadChoicesStop(ordered, padded, ordered[index].id, choices[k..]);
        break;
      }
      PadChoicesStep(ordered, padded, ordered[index].id, choices, k);
      var more, sum := Offer(ordered, index, padded, total, choices[k]);
      TookGrows(padded, more, ordered[index].id, choices, k);
      OnlyAddsTrans(plan, padded, more, ordered[index].id, choices, choices[k]);
      GrownTrans(ordered, plan, padded, more, total, sum);
      padded, total := more, sum;
    }
  }

  function Least4(i: nat): nat {
    if i <= 4 then i else 4
  }

  /** From the third item on, padding offers at least `min(i, 4)` different items. */
  lemma ChoicesDiffer(ordered: seq<Item>, index: nat, list: seq<Id>)
    requires UniqueItems(ordered) && 2 <= index < |ordered|
    requires forall c :: c in Choices(ItemIds(ordered[..index])) ==> c in list
    ensures |list| >= Least4(index)
  {
    var earlier := ItemIds(ordered[..index]);
    var choices := Choices(earlier);
    assert choices[0] in list && choices[1] in list && choices[2] in list && choices[3] in list;
    assert earlier[0] == ordered[0].id && earlier[index - 1] == ordered[index - 1].id;
    var distinct := if index == 2 then [choices[0], choices[3]]
                    else if index == 3 then [choices[0], choices[1], choices[3]] else choices;
    assert NoDup(distinct);
    ShortList(distinct, list);
  }

  /** The first `n` items have at least `min(i, 4)` prerequisites each. */
  ghost predicate Filled(ordered: seq<Item>, plan: Plan, n: nat) {
    forall i :: 0 <= i < n && i < |ordered| ==> ordered[i].id in plan && |plan[ordered[i].id]| >= Least4(i)
  }

  lemma FilledGrows(ordered: seq<Item>, plan: Plan, more: Plan, n: nat)
    requires Filled(ordered, plan, n) && Extends(plan, more) && n < |ordered|
    requires ordered[n].id in more && |more[ordered[n].id]| >= Least4(n)
    ensures Filled(ordered, more, n + 1)
  {
    forall i | 0 <= i < n ensures ordered[i].id in more && |more[ordered[i].id]| >= Least4(i) {
      ExtendsLists(plan, more, ordered[i].id);
    }
  }

  /** One turn of the second pass: the first two items, and everything once the target is met, are left alone. */
  method PadOne(ordered: seq<Item>, index: nat, plan: Plan, current: nat) returns (padded: Plan, total: nat)
    requires Grown(ordered, plan, plan, current) && index < |ordered|
    ensures Grown(ordered, plan, padded, total)
    ensures padded == PadStep(ordered, plan, index)
    ensures if current >= TARGET_EDGES || index < 2 then padded == plan else total <= TARGET_EDGES
    ensures index >= 2 ==> OnlyAdds(plan, padded, ordered[index].id, Choices(ItemIds(ordered[..index])))
    ensures total < TARGET_EDGES ==> |padded[ordered[index].id]| >= Least4(index)
  {
    padded, total := plan, current;
    assert FitsAt(ordered, plan, index);
    if total < TARGET_EDGES && index >= 2 {
      padded, total := PadItem(ordered, index, plan, current);
      if total < TARGET_EDGES {
        ChoicesDiffer(ordered, index, padded[ordered[index].id]);
      }
    } else if index >= 2 {
      PadChoicesStop(ordered, plan, ordered[index].id, Choices(ItemIds(ordered[..index])));
    }
  }

  /** The list of each of the first `n` items has grown by nothing but its choices; later lists have not grown. */
  ghost predicate PaddedBy(ordered: seq<Item>, plan: Plan, padded: Plan, n: nat) {
    && plan.Keys == padded.Keys
    && (forall i :: 0 <= i < |ordered| ==> ordered[i].id in plan)
    && (forall i :: n <= i < |ordered| ==> padded[ordered[i].id] == plan[ordered[i].id])
    && (forall i, p :: 0 <= i < n && i < |ordered| && p in padded[ordered[i].id] ==>
          p in plan[ordered[i].id] || (i >= 2 && p in Choices(ItemIds(ordered[..i]))))
  }

  lemma PaddedByNext(ordered: seq<Item>, plan: Plan, padded: Plan, more: Plan, n: nat)
    requires PaddedBy(ordered, plan, padded, n) && n < |ordered| && UniqueItems(ordered)
    requires if n >= 2 then OnlyAdds(padded, more, ordered[n].id, Choices(ItemIds(ordered[..n]))) else more == padded
    ensures PaddedBy(ordered, plan, more, n + 1)
  {
    forall i | 0 <= i < |ordered| && i != n ensures more[ordered[i].id] == padded[ordered[i].id] {
      assert ordered[i].id != ordered[n].id;
    }
  }

  /** The second pass: unless the target is met, every item ends up with `min(i, 4)` prerequisites or more. */
  method Pad(ordered: seq<Item>, plan: Plan, current: nat) returns (padded: Plan, total: nat)
    requires Grown(ordered, plan, plan, current)
    ensures Grown(ordered, plan, padded, total)
    ensures padded == PadTo(ordered, plan, |ordered|)
    ensures if current >= TARGET_EDGES then padded == plan else total <= TARGET_EDGES
    ensures PaddedBy(ordered, plan, padded, |ordered|)
    ensures total < TARGET_EDGES ==> Filled(ordered, padded, |ordered|)
  {
    padded, total := plan, current;
    for index := 0 to |ordered|
      invariant Grown(ordered, plan, padded, total)
      invariant if current >= TARGET_EDGES then padded == plan else total <= TARGET_EDGES
      invariant padded == PadTo(ordered, plan, index)
      invariant PaddedBy(ordered, plan, padded, index)
      invariant total < TARGET_EDGES ==> Filled(ordered, padded, index)
    {
      assert Grown(ordered, padded, padded, total);
      var more, sum := PadOne(ordered, index, padded, total);
      if sum < TARGET_EDGES {
        FilledGrows(ordered, padded, more, index);
      }
      PaddedByNext(ordered, plan, padded, more, index);
      GrownTrans(ordered, plan, padded, more, total, sum);
      padded, total := more, sum;
    }
  }
}
