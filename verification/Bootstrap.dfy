/** Building the Contract corpus from a catalog: its order, and the prerequisites of the first pass. */
module Bootstrap {
  import opened Sequences
  import opened Orders
  import opened Contracts

  datatype Item = Item(id: Id, domain: string, level: Level)

  const ROOT: Id := "boot.firmware.uefi_entry"
  const TARGET_EDGES := 503

  /** The prerequisites planned for each id. */
  type Plan = map<Id, seq<Id>>

  datatype BuildError = IndexError | ZeroDivisionError | WrongTotal(current: nat) | OutOfFuel

  ghost predicate UniqueItems(items: seq<Item>) {
    forall i, j :: 0 <= i < j < |items| ==> items[i].id != items[j].id
  }

  function ItemIds(items: seq<Item>): (ids: seq<Id>)
    ensures |ids| == |items| && forall i :: 0 <= i < |items| ==> ids[i] == items[i].id
  {
    seq(|items|, i requires 0 <= i < |items| => items[i].id)
  }

  // ----- the order of the catalog -----

  predicate ByLevel(a: Item, b: Item) {
    a.level < b.level || (a.level == b.level && StrLe(a.id, b.id))
  }

  predicate RootFirst(a: Item, b: Item) {
    if (a.id == ROOT) != (b.id == ROOT) then a.id == ROOT else ByLevel(a, b)
  }

  lemma ItemOrders()
    ensures TotalPreorder(ByLevel) && TotalPreorder(RootFirst)
  {
    StrLeTotalOrder();
  }

  /** The two sorts of the catalog: by level and id, then with the root in front. */
  function Ordered(catalog: seq<Item>): (r: seq<Item>)
    ensures multiset(r) == multiset(catalog) && |r| == |catalog|
    ensures Sorted(r, RootFirst)
  {
    ItemOrders();
    var r := Sort(Sort(catalog, ByLevel), RootFirst);
    assert |multiset(r)| == |r| && |multiset(catalog)| == |catalog|;
    r
  }

  lemma PermutedItemsUnique(a: seq<Item>, b: seq<Item>)
    requires UniqueItems(a) && multiset(a) == multiset(b)
    ensures UniqueItems(b)
  {
    SameMembers(a, b);
    MultisetNoDup(a, b);
    forall i, j | 0 <= i < j < |b|
      ensures b[i].id != b[j].id
    {
      assert b[i] in a && b[j] in a;
      var k :| 0 <= k < |a| && a[k] == b[i];
      var l :| 0 <= l < |a| && a[l] == b[j];
    }
  }

  lemma RootAtFront(o: seq<Item>, k: nat)
    requires Sorted(o, RootFirst) && UniqueItems(o) && k < |o| && o[k].id == ROOT
    ensures k == 0
  {
    assert k > 0 ==> RootFirst(o[0], o[k]);
  }

  lemma SortedByRootFirst(o: seq<Item>)
    requires Sorted(o, RootFirst) && UniqueItems(o)
    ensures (exists x :: x in o && x.id == ROOT) <==> o != [] && o[0].id == ROOT
    ensures forall i, j :: 1 <= i < j < |o| && o[0].id == ROOT ==> o[i].level <= o[j].level
  {
    if x :| x in o && x.id == ROOT {
      var k :| 0 <= k < |o| && o[k] == x;
      RootAtFront(o, k);
    }
    if o != [] && o[0].id == ROOT {
      assert o[0] in o;
      forall i, j | 1 <= i < j < |o|
        ensures o[i].level <= o[j].level
      {
        assert RootFirst(o[i], o[j]);
      }
    }
  }

  /** Items other than the root come by level, and by id within a level. */
  ghost predicate InOrder(a: Item, b: Item) {
    a.level < b.level || (a.level == b.level && StrLe(a.id, b.id))
  }

  lemma OthersInOrder(catalog: seq<Item>, i: nat, j: nat)
    requires i < j < |catalog|
    requires Ordered(catalog)[i].id != "boot.firmware.uefi_entry"
             && Ordered(catalog)[j].id != "boot.firmware.uefi_entry"
    ensures InOrder(Ordered(catalog)[i], Ordered(catalog)[j])
  {
    assert RootFirst(Ordered(catalog)[i], Ordered(catalog)[j]);
  }

  /** The root, if there is one, comes first; after it, levels never fall. */
  lemma OrderedShape(catalog: seq<Item>)
    requires UniqueItems(catalog)
    ensures UniqueItems(Ordered(catalog))
    ensures forall x :: x in Ordered(catalog) <==> x in catalog
    ensures (exists x :: x in catalog && x.id == ROOT) <==> catalog != [] && Ordered(catalog)[0].id == ROOT
    ensures forall i, j :: 1 <= i < j < |catalog| && Ordered(catalog)[0].id == ROOT ==>
              Ordered(catalog)[i].level <= Ordered(catalog)[j].level
  {
    ItemOrders();
    SameMembers(catalog, Ordered(catalog));
    PermutedItemsUnique(catalog, Ordered(catalog));
    SortedByRootFirst(Ordered(catalog));
  }

  // ----- the first prerequisites -----

  function Find<K, V>(m: map<K, V>, k: K): Option<V> {
    if k in m then Some(m[k]) else None
  }

  function ToSeq<T>(o: Option<T>): seq<T> {
    if o.Some? then [o.value] else []
  }

  /** The latest item of a domain. */
  function LastInDomain(items: seq<Item>, domain: string): Option<Id> {
    if items == [] then None
    else if items[|items| - 1].domain == domain then Some(items[|items| - 1].id)
    else LastInDomain(items[..|items| - 1], domain)
  }

  /** The earliest item of a level: its anchor. */
  function FirstAtLevel(items: seq<Item>, level: Level): Option<Id> {
    if items == [] then None
    else
      var earlier := FirstAtLevel(items[..|items| - 1], level);
      if earlier.Some? then earlier
      else if items[|items| - 1].level == level then Some(items[|items| - 1].id)
      else None
  }

  function LevelBelow(l: Level): Level {
    if l == 0 then 0 else l - 1
  }

  /** `list(dict.fromkeys(...))`: repetitions dropped, order kept. */
  function Distinct(s: seq<Id>): (r: seq<Id>)
    ensures NoDup(r) && |r| <= |s|
    ensures forall x :: x in r <==> x in s
    ensures s != [] ==> r != []
  {
    if s == [] then []
    else
      var r, last := Distinct(s[..|s| - 1]), s[|s| - 1];
      assert s == s[..|s| - 1] + [last];
      if last in r then r else r + [last]
  }

  /** What the first pass gives an item: its domain predecessor and the anchor of the level below, or else its
      neighbour. */
  function Base(ordered: seq<Item>, i: nat): seq<Id>
    requires 0 < i < |ordered|
  {
    var candidates := Candidates(ordered[..i], ordered[i]);
    if candidates == [] then [ordered[i - 1].id] else Distinct(candidates)
  }

  function Candidates(prior: seq<Item>, item: Item): seq<Id> {
    ToSeq(LastInDomain(prior, item.domain)) + ToSeq(FirstAtLevel(prior, LevelBelow(item.level)))
  }

  /** Ids have to be distinct: after an item of the same id and domain, an item is planned to need itself. */
  lemma RepeatedIdNeedsItself(ordered: seq<Item>, i: nat)
    requires 0 < i < |ordered|
    requires ordered[i - 1].id == ordered[i].id && ordered[i - 1].domain == ordered[i].domain
    ensures ordered[i].id in Base(ordered, i)
  {
    assert LastInDomain(ordered[..i], ordered[i].domain) == Some(ordered[i].id);
    assert ordered[i].id in Candidates(ordered[..i], ordered[i]);
  }

  /** The two dictionaries of the first pass, after `items`. */
  ghost predicate Tracks(items: seq<Item>, lastDomain: map<string, Id>, levelAnchor: map<Level, Id>) {
    && (forall d :: Find(lastDomain, d) == LastInDomain(items, d))
    && (forall l :: Find(levelAnchor, l) == FirstAtLevel(items, l))
  }

  /** `setdefault` on the anchors. */
  function WithAnchor(levelAnchor: map<Level, Id>, item: Item): map<Level, Id> {
    if item.level in levelAnchor then levelAnchor else levelAnchor[item.level := item.id]
  }

  lemma {:induction false} TracksNext(items: seq<Item>, item: Item, lastDomain: map<string, Id>,
                                      levelAnchor: map<Level, Id>)
    requires Tracks(items, lastDomain, levelAnchor)
    ensures Tracks(items + [item], lastDomain[item.domain := item.id], WithAnchor(levelAnchor, item))
  {
    var next, domains, anchors := items + [item], lastDomain[item.domain := item.id], WithAnchor(levelAnchor, item);
    assert next[..|items|] == items && next[|items|] == item;
    forall d ensures Find(domains, d) == LastInDomain(next, d) {
      assert Find(lastDomain, d) == LastInDomain(items, d);
    }
    forall l ensures Find(anchors, l) == FirstAtLevel(next, l) {
      assert Find(levelAnchor, l) == FirstAtLevel(items, l);
    }
  }

  lemma {:induction false} DistinctOfOne(s: seq<Id>)
    requires |s| == 1
    ensures Distinct(s) == s
  {
    assert s[..0] == [] && s == [s[0]];
    assert Distinct(s[..|s| - 1]) == [];
  }

  method Lookup(items: seq<Item>, item: Item, lastDomain: map<string, Id>, levelAnchor: map<Level, Id>)
    returns (candidates: seq<Id>)
    requires Tracks(items, lastDomain, levelAnchor)
    ensures candidates == Candidates(items, item)
    ensures items == [] ==> candidates == []
  {
    var level := LevelBelow(item.level);
    assert Find(lastDomain, item.domain) == LastInDomain(items, item.domain);
    assert Find(levelAnchor, level) == FirstAtLevel(items, level);
    candidates := [];
    if item.domain in lastDomain {
      candidates := candidates + [lastDomain[item.domain]];
    }
    if level in levelAnchor {
      candidates := candidates + [levelAnchor[level]];
    }
  }

  method FirstFor(ordered: seq<Item>, i: nat, lastDomain: map<string, Id>, levelAnchor: map<Level, Id>, prior: seq<Id>)
    returns (r: Result<seq<Id>, BuildError>)
    requires i < |ordered| && prior == ItemIds(ordered[..i]) && Tracks(ordered[..i], lastDomain, levelAnchor)
    ensures if i > 0 then r == Ok(Base(ordered, i)) else r == Err(IndexError)
  {
    var candidates := Lookup(ordered[..i], ordered[i], lastDomain, levelAnchor);
    if candidates == [] {
      if prior == [] { return Err(IndexError); }
      candidates := [prior[|prior| - 1]];
      DistinctOfOne(candidates);
    }
    r := Ok(Distinct(candidates));
  }

  /** The first `n` items have the lists that `lists` gives them; the root has none. */
  ghost predicate Listed(ordered: seq<Item>, plan: Plan, lists: nat -> seq<Id>, n: nat) {
    && n <= |ordered|
    && (forall x :: x in plan <==> x == ROOT || x in ItemIds(ordered[..n]))
    && plan[ROOT] == []
    && (n > 0 ==> ordered[0].id == ROOT)
    && (forall k :: 0 < k < n ==> ordered[k].id in plan && plan[ordered[k].id] == lists(k))
  }

  lemma ListedNext(ordered: seq<Item>, plan: Plan, lists: nat -> seq<Id>, i: nat)
    requires Listed(ordered, plan, lists, i) && 0 < i < |ordered| && UniqueItems(ordered)
    ensures ordered[i].id != ROOT && Listed(ordered, plan[ordered[i].id := lists(i)], lists, i + 1)
  {
    assert ordered[..i + 1] == ordered[..i] + [ordered[i]];
    assert ItemIds(ordered[..i + 1]) == ItemIds(ordered[..i]) + [ordered[i].id];
  }

  lemma ListedRoot(ordered: seq<Item>, plan: Plan, lists: nat -> seq<Id>)
    requires Listed(ordered, plan, lists, 0) && ordered != [] && ordered[0].id == ROOT
    ensures Listed(ordered, plan, lists, 1)
  {
    assert ItemIds(ordered[..0]) == [] && ItemIds(ordered[..1]) == [ROOT];
  }

  /** The variables of the first pass, before item `i`. */
  ghost predicate Planning(ordered: seq<Item>, i: nat, plan: Plan,
                           lastDomain: map<string, Id>, levelAnchor: map<Level, Id>,
                           prior: seq<Id>, lists: nat -> seq<Id>) {
    && i <= |ordered| && prior == ItemIds(ordered[..i])
    && Tracks(ordered[..i], lastDomain, levelAnchor) && Listed(ordered, plan, lists, i)
  }

  lemma PlanningNext(ordered: seq<Item>, i: nat, plan: Plan, more: Plan, lastDomain: map<string, Id>,
                     levelAnchor: map<Level, Id>, prior: seq<Id>, lists: nat -> seq<Id>)
    requires Planning(ordered, i, plan, lastDomain, levelAnchor, prior, lists)
    requires i < |ordered| && Listed(ordered, more, lists, i + 1)
    ensures Planning(ordered, i + 1, more, lastDomain[ordered[i].domain := ordered[i].id],
                     WithAnchor(levelAnchor, ordered[i]), prior + [ordered[i].id], lists)
  {
    assert ordered[..i + 1] == ordered[..i] + [ordered[i]];
    TracksNext(ordered[..i], ordered[i], lastDomain, levelAnchor);
  }

  /** One turn of the first pass: the root keeps its empty list, any other item gets its candidates. */
  method PlanItem(ordered: seq<Item>, i: nat, plan: Plan, lastDomain: map<string, Id>, levelAnchor: map<Level, Id>,
                  prior: seq<Id>, ghost lists: nat -> seq<Id>)
    returns (r: Result<Plan, BuildError>)
    requires UniqueItems(ordered) && i < |ordered| && (i > 0 ==> lists(i) == Base(ordered, i))
    requires Planning(ordered, i, plan, lastDomain, levelAnchor, prior, lists)
    ensures r.Ok? ==> Listed(ordered, r.value, lists, i + 1)
    ensures r.Err? ==> r.error == IndexError && ordered[0].id != ROOT
  {
    if i > 0 {
      ListedNext(ordered, plan, lists, i);
    }
    if ordered[i].id == ROOT {
      ListedRoot(ordered, plan, lists);
      return Ok(plan);
    }
    var first := FirstFor(ordered, i, lastDomain, levelAnchor, prior);
    if first.Err? { return Err(first.error); }
    r := Ok(plan[ordered[i].id := first.value]);
  }

  lemma PlanningStart(ordered: seq<Item>, lists: nat -> seq<Id>)
    ensures Planning(ordered, 0, map[ROOT := []], map[], map[], [], lists)
  {
  }

  lemma PlanningEnds(ordered: seq<Item>, plan: Plan, lastDomain: map<string, Id>, levelAnchor: map<Level, Id>,
                     prior: seq<Id>, lists: nat -> seq<Id>)
    requires Planning(ordered, |ordered|, plan, lastDomain, levelAnchor, prior, lists)
    ensures Listed(ordered, plan, lists, |ordered|) && (ordered != [] ==> ordered[0].id == ROOT)
  {
  }

  /** The loop of the first pass. */
  method FirstPass(ordered: seq<Item>, ghost lists: nat -> seq<Id>) returns (r: Result<Plan, BuildError>)
    requires UniqueItems(ordered) && forall i :: 0 < i < |ordered| ==> lists(i) == Base(ordered, i)
    ensures r.Err? <==> ordered != [] && ordered[0].id != ROOT
    ensures r.Err? ==> r.error == IndexError
    ensures r.Ok? ==> Listed(ordered, r.value, lists, |ordered|)
  {
    var plan: Plan := map[ROOT := []];
    var lastDomain: map<string, Id> := map[];
    var levelAnchor: map<Level, Id> := map[];
    var prior: seq<Id> := [];
    PlanningStart(ordered, lists);
    for i := 0 to |ordered|
      invariant Planning(ordered, i, plan, lastDomain, levelAnchor, prior, lists)
    {
      var item := ordered[i];
      var next := PlanItem(ordered, i, plan, lastDomain, levelAnchor, prior, lists);
      if next.Err? { return next; }
      PlanningNext(ordered, i, plan, next.value, lastDomain, levelAnchor, prior, lists);
      plan := next.value;
      lastDomain := lastDomain[item.domain := item.id];
      levelAnchor := WithAnchor(levelAnchor, item);
      prior := prior + [item.id];
    }
    PlanningEnds(ordered, plan, lastDomain, levelAnchor, prior, lists);
    r := Ok(plan);
  }

  /** The item at `i` has the list of the first pass. */
  ghost predicate HasBase(ordered: seq<Item>, plan: Plan, i: nat)
    requires 0 < i < |ordered|
  {
    ordered[i].id in plan && plan[ordered[i].id] == Base(ordered, i)
  }

  ghost predicate AllBase(ordered: seq<Item>, plan: Plan) {
    forall i :: 0 < i < |ordered| ==> HasBase(ordered, plan, i)
  }

  /** What the first pass gives each item, as a function of its position. */
  ghost function BaseLists(ordered: seq<Item>): nat -> seq<Id> {
    (i: nat) => if 0 < i < |ordered| then Base(ordered, i) else []
  }

  method FirstPrerequisites(ordered: seq<Item>) returns (r: Result<Plan, BuildError>)
    requires UniqueItems(ordered)
    ensures r.Err? <==> ordered != [] && ordered[0].id != ROOT
    ensures r.Err? ==> r.error == IndexError
    ensures r.Ok? ==> (forall x :: x in r.value <==> x == ROOT || x in ItemIds(ordered)) && r.value[ROOT] == []
    ensures r.Ok? ==> AllBase(ordered, r.value)
  {
    r := FirstPass(ordered, BaseLists(ordered));
    assert ordered[..|ordered|] == ordered;
    if r.Ok? {
      forall i | 0 < i < |ordered| ensures HasBase(ordered, r.value, i) {}
    }
  }

  // ----- what every pass keeps -----

  /** A list of distinct, strictly earlier items; only the first item may have none. */
  ghost predicate Fits(ordered: seq<Item>, i: nat, list: seq<Id>)
    requires i < |ordered|
  {
    NoDup(list) && (forall p :: p in list ==> p in ItemIds(ordered[..i])) && (i > 0 ==> list != [])
  }

  ghost predicate FitsAt(ordered: seq<Item>, plan: Plan, i: nat)
    requires i < |ordered|
  {
    ordered[i].id in plan && Fits(ordered, i, plan[ordered[i].id])
  }

  ghost predicate Planned(ordered: seq<Item>, plan: Plan) {
    && UniqueItems(ordered) && ordered != [] && ordered[0].id == ROOT
    && (forall x :: x in plan <==> x in ItemIds(ordered))
    && forall i :: 0 <= i < |ordered| ==> FitsAt(ordered, plan, i)
  }

  /** Lists only grow, and only at the end. */
  ghost predicate Extends(plan: Plan, more: Plan) {
    plan.Keys == more.Keys && forall x :: x in plan ==> plan[x] <= more[x]
  }

  /** `sum(len(value) ...)` over the first items. */
  function EdgeTotal(items: seq<Item>, plan: Plan): nat
    requires forall i :: 0 <= i < |items| ==> items[i].id in plan
  {
    if items == [] then 0
    else EdgeTotal(items[..|items| - 1], plan) + |plan[items[|items| - 1].id]|
  }

  lemma InPlan(ordered: seq<Item>, plan: Plan)
    requires Planned(ordered, plan)
    ensures forall i :: 0 <= i < |ordered| ==> ordered[i].id in plan
  {
    forall i | 0 <= i < |ordered| ensures ordered[i].id in plan { assert ItemIds(ordered)[i] == ordered[i].id; }
  }

  /** The position of an earlier item, from its id. */
  lemma EarlierPosition(ordered: seq<Item>, i: nat, p: Id) returns (j: nat)
    requires i <= |ordered| && p in ItemIds(ordered[..i])
    ensures j < i && ordered[j].id == p
  {
    j :| 0 <= j < i && ItemIds(ordered[..i])[j] == p;
  }

  lemma EarlierId(ordered: seq<Item>, i: nat, j: nat)
    requires j < i <= |ordered|
    ensures ordered[j].id in ItemIds(ordered[..i])
  {
    assert ItemIds(ordered[..i])[j] == ordered[j].id;
  }

  lemma {:induction false} ShortList(list: seq<Id>, ids: seq<Id>)
    requires NoDup(list) && forall x :: x in list ==> x in ids
    ensures |list| <= |ids|
  {
    assert list != [] ==> list[0] in ids;
    if ids != [] {
      var last, rest := ids[|ids| - 1], ids[..|ids| - 1];
      assert ids == rest + [last];
      if last in list {
        var k :| 0 <= k < |list| && list[k] == last;
        var less := list[..k] + list[k + 1..];
        forall x | x in less ensures x in rest { assert x in list && x != last; }
        ShortList(less, rest);
      } else {
        ShortList(list, rest);
      }
    }
  }

  lemma {:induction false} DomainsAreItems(items: seq<Item>, domain: string)
    ensures LastInDomain(items, domain).Some? ==> LastInDomain(items, domain).value in ItemIds(items)
  {
    if items != [] {
      var rest := items[..|items| - 1];
      DomainsAreItems(rest, domain);
      assert ItemIds(items) == ItemIds(rest) + [items[|items| - 1].id];
    }
  }

  lemma {:induction false} AnchorsAreItems(items: seq<Item>, level: Level)
    ensures FirstAtLevel(items, level).Some? ==> FirstAtLevel(items, level).value in ItemIds(items)
  {
    if items != [] {
      var rest := items[..|items| - 1];
      AnchorsAreItems(rest, level);
      assert ItemIds(items) == ItemIds(rest) + [items[|items| - 1].id];
    }
  }

  lemma CandidatesAreItems(items: seq<Item>, item: Item)
    ensures |Candidates(items, item)| <= 2 && forall p :: p in Candidates(items, item) ==> p in ItemIds(items)
  {
    DomainsAreItems(items, item.domain);
    AnchorsAreItems(items, LevelBelow(item.level));
  }

  lemma BaseFits(ordered: seq<Item>, i: nat)
    requires 0 < i < |ordered|
    ensures Fits(ordered, i, Base(ordered, i)) && |Base(ordered, i)| <= if i == 1 then 1 else 2
  {
    CandidatesAreItems(ordered[..i], ordered[i]);
    EarlierId(ordered, i, i - 1);
    ShortList(Base(ordered, i), ItemIds(ordered[..i]));
  }

  lemma FirstPlanned(ordered: seq<Item>, plan: Plan)
    requires UniqueItems(ordered) && ordered != [] && ordered[0].id == ROOT
    requires (forall x :: x in plan <==> x == ROOT || x in ItemIds(ordered)) && plan[ROOT] == []
    requires AllBase(ordered, plan)
    ensures Planned(ordered, plan)
  {
    assert ItemIds(ordered)[0] == ROOT;
    forall i | 0 <= i < |ordered| ensures FitsAt(ordered, plan, i) {
      if i > 0 {
        assert HasBase(ordered, plan, i);
        BaseFits(ordered, i);
      }
    }
  }

  // ----- adding one edge -----

  lemma {:induction false} TotalAfterEdge(items: seq<Item>, plan: Plan, i: nat, p: Id)
    requires UniqueItems(items) && forall k :: 0 <= k < |items| ==> items[k].id in plan
    requires i < |items|
    ensures forall k :: 0 <= k < |items| ==> items[k].id in AddEdge(plan, items[i].id, p)
    ensures EdgeTotal(items, AddEdge(plan, items[i].id, p)) == EdgeTotal(items, plan) + 1
  {
    var more, n := AddEdge(plan, items[i].id, p), |items| - 1;
    if i < n {
      assert items[..n][i] == items[i];
      TotalAfterEdge(items[..n], plan, i, p);
    } else {
      TotalDependsOnLists(items[..n], plan, more);
    }
  }

  lemma {:induction false} TotalDependsOnLists(items: seq<Item>, a: Plan, b: Plan)
    requires forall k :: 0 <= k < |items| ==>
               items[k].id in a && items[k].id in b && |a[items[k].id]| == |b[items[k].id]|
    ensures EdgeTotal(items, a) == EdgeTotal(items, b)
  {
    if items != [] {
      TotalDependsOnLists(items[..|items| - 1], a, b);
      assert items[|items| - 1].id in a;
    }
  }

  function AddEdge(plan: Plan, id: Id, p: Id): Plan
    requires id in plan
  {
    plan[id := plan[id] + [p]]
  }

  /** A new edge to an earlier item keeps a plan a plan, and makes it one edge larger. */
  lemma {:induction false} AddEdgePlanned(ordered: seq<Item>, plan: Plan, i: nat, p: Id)
    requires Planned(ordered, plan) && i < |ordered|
    requires p in ItemIds(ordered[..i]) && ordered[i].id in plan && p !in plan[ordered[i].id]
    ensures Planned(ordered, AddEdge(plan, ordered[i].id, p)) && Extends(plan, AddEdge(plan, ordered[i].id, p))
    ensures forall k :: 0 <= k < |ordered| ==> ordered[k].id in plan && ordered[k].id in AddEdge(plan, ordered[i].id, p)
    ensures EdgeTotal(ordered, AddEdge(plan, ordered[i].id, p)) == EdgeTotal(ordered, plan) + 1
  {
    InPlan(ordered, plan);
    TotalAfterEdge(ordered, plan, i, p);
    var more := AddEdge(plan, ordered[i].id, p);
    forall k | 0 <= k < |ordered| ensures FitsAt(ordered, more, k) {
      assert FitsAt(ordered, plan, k);
    }
  }

  lemma ExtendsTrans(a: Plan, b: Plan, c: Plan)
    requires Extends(a, b) && Extends(b, c)
    ensures Extends(a, c)
  {
    forall x | x in a ensures a[x] <= c[x] { assert a[x] <= b[x]; }
  }

  /** An item is the only one with its id. */
  lemma PosOfItem(ordered: seq<Item>, i: nat)
    requires UniqueItems(ordered) && i < |ordered|
    ensures ordered[i].id in ItemIds(ordered) && Pos(ItemIds(ordered), ordered[i].id) == i
  {
    var ids := ItemIds(ordered);
    assert ids[i] == ordered[i].id;
    var k := Pos(ids, ids[i]);
    assert ordered[k].id == ordered[i].id;
  }
}
