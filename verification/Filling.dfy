/** The third pass over a catalog, and exactly when the three passes together meet the target. */
module Filling {
  import opened Arithmetic
  import opened Sequences
  import opened Orders
  import opened Contracts
  import opened Bootstrap
  import opened Padding
  import opened PaddedLists

  // ----- the third pass -----

  /** One turn of the third pass: the item that `cursor` falls on, and the earlier item that `17 * cursor` falls on. */
  ghost function Turn(ordered: seq<Item>, plan: Plan, cursor: nat): (r: Plan)
    requires ordered != [] && HasAll(ordered, plan)
    ensures r.Keys == plan.Keys
  {
    var i := cursor % |ordered|;
    if i == 0 then plan else TryEdge(plan, ordered[i].id, ordered[(cursor * 17) % i].id)
  }

  /** The plan after so many turns; the cursor starts at 2. */
  ghost function After(ordered: seq<Item>, plan: Plan, turns: nat): (r: Plan)
    requires ordered != [] && HasAll(ordered, plan)
    ensures r.Keys == plan.Keys
  {
    if turns == 0 then plan else Turn(ordered, After(ordered, plan, turns - 1), turns + 1)
  }

  /** One turn as the source takes it: the item is looked up by its id. */
  method TakeTurn(ordered: seq<Item>, plan: Plan, current: nat, cursor: nat) returns (more: Plan, total: nat)
    requires Grown(ordered, plan, plan, current)
    ensures Grown(ordered, plan, more, total) && current <= total <= current + 1
    ensures more == Turn(ordered, plan, cursor)
  {
    var cid := ordered[cursor % |ordered|].id;
    PosOfItem(ordered, cursor % |ordered|);
    var index := Pos(ItemIds(ordered), cid);
    var earlier := ItemIds(ordered[..index]);
    more, total := plan, current;
    if earlier != [] {
      more, total := Offer(ordered, index, plan, current, earlier[(cursor * 17) % |earlier|]);
    }
  }

  /** A plan in which every item has its list. */
  ghost predicate Full(ordered: seq<Item>, plan: Plan) {
    Planned(ordered, plan) && HasAll(ordered, plan)
  }

  /** A full plan that has lost nothing since an earlier one. */
  ghost predicate Later(ordered: seq<Item>, plan: Plan, more: Plan) {
    && Full(ordered, plan) && Full(ordered, more) && Extends(plan, more)
    && EdgeTotal(ordered, plan) <= EdgeTotal(ordered, more)
  }

  lemma TryEdgeLater(ordered: seq<Item>, plan: Plan, i: nat, j: nat)
    requires Full(ordered, plan) && j < i < |ordered|
    ensures Later(ordered, plan, TryEdge(plan, ordered[i].id, ordered[j].id))
  {
    EarlierId(ordered, i, j);
    if ordered[j].id !in plan[ordered[i].id] {
      AddEdgePlanned(ordered, plan, i, ordered[j].id);
    }
  }

  lemma TurnLater(ordered: seq<Item>, plan: Plan, cursor: nat)
    requires Full(ordered, plan)
    ensures Later(ordered, plan, Turn(ordered, plan, cursor))
  {
    var i := cursor % |ordered|;
    if i > 0 {
      TryEdgeLater(ordered, plan, i, (cursor * 17) % i);
    }
  }

  lemma LaterTrans(ordered: seq<Item>, a: Plan, b: Plan, c: Plan)
    requires Later(ordered, a, b) && Later(ordered, b, c)
    ensures Later(ordered, a, c)
  {
    ExtendsTrans(a, b, c);
  }

  lemma LaterRefl(ordered: seq<Item>, plan: Plan)
    requires Full(ordered, plan)
    ensures Later(ordered, plan, plan)
  {
  }

  /** `f` goes from the plan after `k` turns to the plan after one more. */
  ghost predicate TurnAt(ordered: seq<Item>, f: nat -> Plan, k: nat) {
    ordered != [] && HasAll(ordered, f(k)) && f(k + 1) == Turn(ordered, f(k), k + 2)
  }

  ghost predicate AllTurns(ordered: seq<Item>, f: nat -> Plan) {
    forall k: nat :: TurnAt(ordered, f, k)
  }

  lemma TurnAtLater(ordered: seq<Item>, f: nat -> Plan, k: nat)
    requires TurnAt(ordered, f, k) && Full(ordered, f(k))
    ensures Later(ordered, f(k), f(k + 1))
  {
    TurnLater(ordered, f(k), k + 2);
  }

  /** Turns keep a plan a plan, and never lose an edge. */
  lemma {:induction false} TurnsLater(ordered: seq<Item>, f: nat -> Plan, few: nat, more: nat)
    requires AllTurns(ordered, f) && Full(ordered, f(few))
    ensures Later(ordered, f(few), f(few + more))
    decreases more
  {
    if more == 0 {
      LaterRefl(ordered, f(few));
    } else {
      TurnsLater(ordered, f, few, more - 1);
      assert TurnAt(ordered, f, few + more - 1);
      TurnAtLater(ordered, f, few + more - 1);
      LaterTrans(ordered, f(few), f(few + more - 1), f(few + more));
    }
  }

  lemma {:induction false} TurnsAreFull(ordered: seq<Item>, f: nat -> Plan, turns: nat)
    requires AllTurns(ordered, f) && Full(ordered, f(0))
    ensures Full(ordered, f(turns))
  {
    TurnsLater(ordered, f, 0, turns);
  }

  ghost function Turns(ordered: seq<Item>, plan: Plan): nat -> Plan
    requires ordered != [] && HasAll(ordered, plan)
  {
    (k: nat) => After(ordered, plan, k)
  }

  lemma {:induction false} TurnsAreTurns(ordered: seq<Item>, plan: Plan)
    requires ordered != [] && HasAll(ordered, plan)
    ensures AllTurns(ordered, Turns(ordered, plan))
    ensures forall k: nat :: Turns(ordered, plan)(k) == After(ordered, plan, k)
  {
    var f := Turns(ordered, plan);
    forall k: nat ensures TurnAt(ordered, f, k) {
      assert f(k + 1) == After(ordered, plan, k + 1) == Turn(ordered, After(ordered, plan, k), k + 2);
    }
  }

  /** One turn of the loop, with the plans of all turns at hand. */
  method FillTurn(ordered: seq<Item>, plan: Plan, filled: Plan, total: nat, cursor: nat, ghost f: nat -> Plan)
    returns (more: Plan, sum: nat)
    requires cursor >= 2 && TurnAt(ordered, f, cursor - 2)
    requires Grown(ordered, plan, filled, total) && filled == f(cursor - 2)
    ensures Grown(ordered, plan, more, sum) && more == f(cursor - 1)
    ensures total <= sum <= total + 1
  {
    assert Grown(ordered, filled, filled, total);
    more, sum := TakeTurn(ordered, filled, total, cursor);
    GrownTrans(ordered, plan, filled, more, total, sum);
  }

  /** Meeting the target early is meeting it late. */
  lemma {:induction false} TargetStaysMet(ordered: seq<Item>, plan: Plan, total: nat, f: nat -> Plan, few: nat,
                                          many: nat)
    requires AllTurns(ordered, f) && few <= many && Grown(ordered, plan, f(few), total)
    ensures HasAll(ordered, f(many)) && EdgeTotal(ordered, f(many)) >= total
  {
    TurnsLater(ordered, f, few, many - few);
  }

  /** The loop of the third pass, with the plans of all turns at hand. */
  method FillLoop(ordered: seq<Item>, plan: Plan, current: nat, fuel: nat, ghost f: nat -> Plan)
    returns (filled: Plan, total: nat, turns: nat)
    requires Grown(ordered, plan, plan, current) && AllTurns(ordered, f) && f(0) == plan
    ensures turns <= fuel && Grown(ordered, plan, filled, total) && filled == f(turns)
    ensures current <= total <= if current < TARGET_EDGES then TARGET_EDGES else current
    ensures total < TARGET_EDGES ==> turns == fuel
    ensures current >= TARGET_EDGES ==> filled == plan
  {
    filled, total, turns := plan, current, 0;
    while total < TARGET_EDGES && turns < fuel
      invariant turns <= fuel && Grown(ordered, plan, filled, total) && filled == f(turns)
      invariant current <= total <= if current < TARGET_EDGES then TARGET_EDGES else current
      invariant current >= TARGET_EDGES ==> filled == plan
    {
      assert TurnAt(ordered, f, turns);
      var cursor := turns + 2;
      filled, total := FillTurn(ordered, plan, filled, total, cursor, f);
      turns := turns + 1;
    }
  }

  method FillFrom(ordered: seq<Item>, plan: Plan, current: nat, fuel: nat, ghost f: nat -> Plan)
    returns (r: Result<Plan, BuildError>)
    requires Grown(ordered, plan, plan, current) && AllTurns(ordered, f) && f(0) == plan
    ensures HasAll(ordered, f(fuel))
    ensures r.Ok? ==> Grown(ordered, plan, r.value, if current < TARGET_EDGES then TARGET_EDGES else current)
    ensures r.Ok? ==> exists k :: 0 <= k <= fuel && r.value == f(k)
    ensures r.Ok? && current >= TARGET_EDGES ==> r.value == plan
    ensures r.Err? ==> r.error == OutOfFuel
    ensures r.Err? <==> EdgeTotal(ordered, f(fuel)) < TARGET_EDGES
  {
    var filled, total, turns := FillLoop(ordered, plan, current, fuel, f);
    TargetStaysMet(ordered, plan, total, f, turns, fuel);
    if total < TARGET_EDGES {
      GrownHasAll(ordered, plan, filled, total);
      return Err(OutOfFuel);
    }
    r := Ok(filled);
  }

  /** The third pass goes round and round; `fuel` bounds the turns it is given here. It ends at the first plan that
      meets the target, and runs out exactly when none of the plans within the bound does. */
  method Fill(ordered: seq<Item>, plan: Plan, current: nat, fuel: nat) returns (r: Result<Plan, BuildError>)
    requires Grown(ordered, plan, plan, current)
    ensures r.Ok? ==> Grown(ordered, plan, r.value, if current < TARGET_EDGES then TARGET_EDGES else current)
    ensures r.Ok? ==> exists k :: 0 <= k <= fuel && r.value == After(ordered, plan, k)
    ensures r.Ok? && current >= TARGET_EDGES ==> r.value == plan
    ensures r.Err? ==> r.error == OutOfFuel
    ensures r.Err? <==> EdgeTotal(ordered, After(ordered, plan, fuel)) < TARGET_EDGES
  {
    TurnsAreTurns(ordered, plan);
    r := FillFrom(ordered, plan, current, fuel, Turns(ordered, plan));
  }

  // ----- how many edges there can be -----

  ghost function SumTo(f: nat -> nat, n: nat): nat {
    if n == 0 then 0 else SumTo(f, n - 1) + f(n - 1)
  }

  lemma {:induction false} TotalIsSum(items: seq<Item>, plan: Plan, f: nat -> nat)
    requires forall k :: 0 <= k < |items| ==> items[k].id in plan && |plan[items[k].id]| == f(k)
    ensures EdgeTotal(items, plan) == SumTo(f, |items|)
  {
    if items != [] {
      TotalIsSum(items[..|items| - 1], plan, f);
    }
  }

  lemma {:induction false} SumBetween(f: nat -> nat, n: nat)
    requires forall k :: 0 <= k < n ==> (if k == 0 then 0 else 1) <= f(k) <= if k <= 1 then k else 2
    ensures if n <= 1 then SumTo(f, n) == 0 else n - 1 <= SumTo(f, n) <= 2 * n - 3
  {
    if n >= 1 {
      SumBetween(f, n - 1);
    }
  }

  /** How many edges the first pass gives each item. */
  ghost function BaseLength(ordered: seq<Item>): nat -> nat {
    (i: nat) => if 0 < i < |ordered| then |Base(ordered, i)| else 0
  }

  ghost function BaseTotal(ordered: seq<Item>): nat {
    SumTo(BaseLength(ordered), |ordered|)
  }

  lemma BaseTotalBound(ordered: seq<Item>)
    ensures if |ordered| <= 1 then BaseTotal(ordered) == 0 else |ordered| - 1 <= BaseTotal(ordered) <= 2 * |ordered| - 3
  {
    var f := BaseLength(ordered);
    forall k | 0 <= k < |ordered| ensures (if k == 0 then 0 else 1) <= f(k) <= if k <= 1 then k else 2 {
      if k > 0 { BaseFits(ordered, k); }
    }
    SumBetween(f, |ordered|);
  }

  lemma {:induction false} FirstTotal(ordered: seq<Item>, plan: Plan)
    requires Planned(ordered, plan)
    requires forall k :: 0 <= k < |ordered| ==> ordered[k].id in plan
    requires AllBase(ordered, plan)
    ensures EdgeTotal(ordered, plan) == BaseTotal(ordered)
  {
    FirstHasNone(ordered, plan);
    var f := BaseLength(ordered);
    forall k | 0 <= k < |ordered| ensures |plan[ordered[k].id]| == f(k) {
      if k > 0 { assert HasBase(ordered, plan, k); }
    }
    TotalIsSum(ordered, plan, BaseLength(ordered));
  }

  lemma FirstHasNone(ordered: seq<Item>, plan: Plan)
    requires Planned(ordered, plan) && ordered[0].id in plan
    ensures plan[ordered[0].id] == []
  {
    var list := plan[ordered[0].id];
    assert FitsAt(ordered, plan, 0);
    if list != [] {
      var j := EarlierPosition(ordered, 0, list[0]);
    }
  }

  lemma {:induction false} FilledTotal(ordered: seq<Item>, plan: Plan, n: nat)
    requires Filled(ordered, plan, n) && n <= |ordered|
    requires forall k :: 0 <= k < |ordered| ==> ordered[k].id in plan
    ensures EdgeTotal(ordered[..n], plan) >= 4 * n - 10
    ensures n <= 4 ==> 2 * EdgeTotal(ordered[..n], plan) >= n * (n - 1)
  {
    if n >= 1 {
      FilledTotal(ordered, plan, n - 1);
      assert ordered[..n][..n - 1] == ordered[..n - 1];
    }
  }

  /** No list is longer than the number of items before it. */
  ghost predicate Triangular(ordered: seq<Item>, plan: Plan) {
    forall i :: 0 <= i < |ordered| ==> ordered[i].id in plan && |plan[ordered[i].id]| <= i
  }

  lemma PlannedIsTriangular(ordered: seq<Item>, plan: Plan)
    requires Planned(ordered, plan)
    ensures Triangular(ordered, plan)
  {
    InPlan(ordered, plan);
    forall i | 0 <= i < |ordered| ensures |plan[ordered[i].id]| <= i {
      assert FitsAt(ordered, plan, i);
      ShortList(plan[ordered[i].id], ItemIds(ordered[..i]));
    }
  }

  /** No plan has more edges than there are pairs of items. */
  lemma {:induction false} TriangularTotal(ordered: seq<Item>, plan: Plan, n: nat)
    requires Triangular(ordered, plan) && n <= |ordered|
    ensures forall k :: 0 <= k < n ==> ordered[..n][k].id in plan
    ensures 2 * EdgeTotal(ordered[..n], plan) <= n * (n - 1)
  {
    if n >= 1 {
      TriangularTotal(ordered, plan, n - 1);
      assert ordered[..n][..n - 1] == ordered[..n - 1];
      assert ordered[..n][n - 1] == ordered[n - 1];
      PairsNext(n);
    }
  }

  // ----- where the third pass leads -----

  /** The earlier item that the third pass tries when it comes to item `i` for the time `t`, counting from the cursor
      `i`. */
  function Landing(n: nat, i: nat, t: nat): (j: nat)
    requires i >= 1
    ensures j < i
  {
    ((i + n * t) * 17) % i
  }

  /** Everything the third pass can ever give item `i`: after `i` visits it starts to repeat itself. */
  ghost function LimitSet(ordered: seq<Item>, plan: Plan, i: nat): set<Id>
    requires i < |ordered| && ordered[i].id in plan
  {
    Members(plan[ordered[i].id]) + (set t | 0 <= t < i :: ordered[Landing(|ordered|, i, t)].id)
  }

  ghost function LimitLength(ordered: seq<Item>, plan: Plan): nat -> nat
    requires HasAll(ordered, plan)
  {
    (i: nat) => if i < |ordered| then |LimitSet(ordered, plan, i)| else 0
  }

  /** How many edges the third pass can bring a plan to. */
  ghost function LimitTotal(ordered: seq<Item>, plan: Plan): nat
    requires HasAll(ordered, plan)
  {
    SumTo(LimitLength(ordered, plan), |ordered|)
  }

  /** The third pass has tried `p` on item `i` within so many turns. */
  ghost predicate Tried(ordered: seq<Item>, turns: nat, i: nat, p: Id)
    requires 0 < i < |ordered|
  {
    exists c :: 2 <= c < 2 + turns && TriedAt(ordered, c, i, p)
  }

  ghost predicate TriedAt(ordered: seq<Item>, cursor: nat, i: nat, p: Id)
    requires 0 < i < |ordered|
  {
    cursor % |ordered| == i && p == ordered[(cursor * 17) % i].id
  }

  lemma TriedNext(ordered: seq<Item>, turns: nat, i: nat, p: Id)
    requires 0 < i < |ordered|
    ensures Tried(ordered, turns + 1, i, p) <==> Tried(ordered, turns, i, p) || TriedAt(ordered, turns + 2, i, p)
  {
  }

  lemma TurnMembers(ordered: seq<Item>, plan: Plan, cursor: nat, i: nat, p: Id)
    requires UniqueItems(ordered) && 0 < i < |ordered| && HasAll(ordered, plan)
    ensures p in Turn(ordered, plan, cursor)[ordered[i].id]
            <==> p in plan[ordered[i].id] || TriedAt(ordered, cursor, i, p)
  {
    var k := cursor % |ordered|;
    if k != i { assert ordered[k].id != ordered[i].id; }
  }

  /** What an item has after some turns: what it had, and what was tried on it. */
  lemma {:induction false} AfterMembers(ordered: seq<Item>, plan: Plan, turns: nat, i: nat, p: Id)
    requires UniqueItems(ordered) && 0 < i < |ordered| && HasAll(ordered, plan)
    ensures p in After(ordered, plan, turns)[ordered[i].id] <==> p in plan[ordered[i].id] || Tried(ordered, turns, i, p)
  {
    if turns > 0 {
      AfterMembers(ordered, plan, turns - 1, i, p);
      TurnMembers(ordered, After(ordered, plan, turns - 1), turns + 1, i, p);
      TriedNext(ordered, turns - 1, i, p);
    }
  }

  /** Whenever the cursor falls on item `i`, it lands where one of the first `i` visits would. */
  lemma CursorLands(n: nat, i: nat, c: nat) returns (t: nat)
    requires 0 < i < n && c % n == i
    ensures t < i && (c * 17) % i == Landing(n, i, t)
  {
    var q := c / n;
    var m := q / i;
    t := q % i;
    assert c == n * q + i && q == i * m + t;
    Expand(n, i, m, t);
    SameRemainder(c * 17, (i + n * t) * 17, i, n * m * 17);
  }

  /** And each of these visits happens within the square of the number of items. */
  lemma VisitIsEarly(n: nat, i: nat, t: nat)
    requires 0 < i < n && t < i
    ensures (i + n * t) % n == i && i + n * t < n * n
  {
    QuotientIs(i + n * t, t, n, i);
    Scale(n, t + 1, n);
    assert n * (t + 1) == n * t + n;
  }

  lemma EarlyVisit(n: nat, i: nat, t: nat) returns (cursor: nat)
    requires 0 < i < n && t < i
    ensures cursor == i + n * t && cursor % n == i && i <= cursor < n * n
  {
    VisitIsEarly(n, i, t);
    cursor := i + n * t;
  }

  lemma {:induction false} AfterWithinSet(ordered: seq<Item>, plan: Plan, turns: nat, i: nat)
    requires Full(ordered, plan) && 0 < i < |ordered|
    ensures Members(After(ordered, plan, turns)[ordered[i].id]) <= LimitSet(ordered, plan, i)
  {
    forall p | p in After(ordered, plan, turns)[ordered[i].id]
      ensures p in LimitSet(ordered, plan, i)
    {
      AfterMembers(ordered, plan, turns, i, p);
      if p !in plan[ordered[i].id] {
        var c :| 2 <= c < 2 + turns && TriedAt(ordered, c, i, p);
        var t := CursorLands(|ordered|, i, c);
      }
    }
  }

  lemma {:induction false} AfterFillsSet(ordered: seq<Item>, plan: Plan, turns: nat, i: nat)
    requires Full(ordered, plan) && 0 < i < |ordered| && turns >= |ordered| * |ordered|
    ensures Members(After(ordered, plan, turns)[ordered[i].id]) == LimitSet(ordered, plan, i)
  {
    var list := After(ordered, plan, turns)[ordered[i].id];
    AfterWithinSet(ordered, plan, turns, i);
    forall p | p in plan[ordered[i].id] ensures p in list { AfterMembers(ordered, plan, turns, i, p); }
    forall t | 0 <= t < i ensures ordered[Landing(|ordered|, i, t)].id in list {
      var cursor := EarlyVisit(|ordered|, i, t);
      LandingIsReached(ordered, plan, turns, i, t, cursor);
    }
  }

  lemma {:induction false} CursorIsTried(ordered: seq<Item>, plan: Plan, turns: nat, i: nat, cursor: nat)
    requires Full(ordered, plan) && 0 < i < |ordered| && 2 <= cursor < 2 + turns && cursor % |ordered| == i
    ensures ordered[(cursor * 17) % i].id in After(ordered, plan, turns)[ordered[i].id]
  {
    var p := ordered[(cursor * 17) % i].id;
    AfterMembers(ordered, plan, turns, i, p);
    assert TriedAt(ordered, cursor, i, p);
  }

  lemma LandingIs(n: nat, i: nat, t: nat, cursor: nat)
    requires i >= 1 && cursor == i + n * t
    ensures Landing(n, i, t) == (cursor * 17) % i
  {
  }

  lemma {:induction false} LandingIsReached(ordered: seq<Item>, plan: Plan, turns: nat, i: nat, t: nat, cursor: nat)
    requires Full(ordered, plan) && 0 < i < |ordered| && t < i && cursor < turns && cursor % |ordered| == i
    requires cursor == i + |ordered| * t && i <= cursor
    ensures ordered[Landing(|ordered|, i, t)].id in After(ordered, plan, turns)[ordered[i].id]
  {
    if i == 1 {
      SecondHasFirst(ordered, plan);
      AfterMembers(ordered, plan, turns, 1, ordered[0].id);
    } else {
      LandingIs(|ordered|, i, t, cursor);
      CursorIsTried(ordered, plan, turns, i, cursor);
    }
  }

  /** The second item has the first as its prerequisite from the start. */
  lemma SecondHasFirst(ordered: seq<Item>, plan: Plan)
    requires Full(ordered, plan) && |ordered| >= 2
    ensures ordered[0].id in plan[ordered[1].id]
  {
    assert FitsAt(ordered, plan, 1);
    var p := plan[ordered[1].id][0];
    var j := EarlierPosition(ordered, 1, p);
  }

  ghost function ListLength(ordered: seq<Item>, plan: Plan): nat -> nat
    requires HasAll(ordered, plan)
  {
    (i: nat) => if i < |ordered| then |plan[ordered[i].id]| else 0
  }

  lemma {:induction false} SumOrder(f: nat -> nat, g: nat -> nat, n: nat)
    requires forall k :: 0 <= k < n ==> f(k) <= g(k)
    ensures SumTo(f, n) <= SumTo(g, n)
  {
    if n > 0 { SumOrder(f, g, n - 1); }
  }

  lemma {:induction false} TotalOfLists(ordered: seq<Item>, plan: Plan)
    requires HasAll(ordered, plan)
    ensures EdgeTotal(ordered, plan) == SumTo(ListLength(ordered, plan), |ordered|)
  {
    TotalIsSum(ordered, plan, ListLength(ordered, plan));
  }

  lemma {:induction false} AfterLength(ordered: seq<Item>, plan: Plan, turns: nat, i: nat)
    requires Full(ordered, plan) && i < |ordered|
    ensures |After(ordered, plan, turns)[ordered[i].id]| <= |LimitSet(ordered, plan, i)|
    ensures turns >= |ordered| * |ordered| ==>
              |After(ordered, plan, turns)[ordered[i].id]| == |LimitSet(ordered, plan, i)|
  {
    var more := After(ordered, plan, turns);
    AfterIsFull(ordered, plan, turns);
    if i == 0 {
      FirstHasNone(ordered, more);
      FirstHasNone(ordered, plan);
      assert LimitSet(ordered, plan, 0) == {};
    } else {
      assert FitsAt(ordered, more, i);
      NoDupSetSize(more[ordered[i].id]);
      AfterWithinSet(ordered, plan, turns, i);
      SubsetSize(Members(more[ordered[i].id]), LimitSet(ordered, plan, i));
      if turns >= |ordered| * |ordered| { AfterFillsSet(ordered, plan, turns, i); }
    }
  }

  lemma {:induction false} AfterIsFull(ordered: seq<Item>, plan: Plan, turns: nat)
    requires Full(ordered, plan)
    ensures Full(ordered, After(ordered, plan, turns))
  {
    TurnsAreTurns(ordered, plan);
    TurnsAreFull(ordered, Turns(ordered, plan), turns);
  }

  /** The third pass never exceeds its limit, and has reached it after as many turns as there are pairs of items. */
  lemma {:induction false} AfterTotal(ordered: seq<Item>, plan: Plan, turns: nat)
    requires Full(ordered, plan)
    ensures EdgeTotal(ordered, After(ordered, plan, turns)) <= LimitTotal(ordered, plan)
    ensures turns >= |ordered| * |ordered| ==>
              EdgeTotal(ordered, After(ordered, plan, turns)) == LimitTotal(ordered, plan)
  {
    var more := After(ordered, plan, turns);
    var f, g := ListLength(ordered, more), LimitLength(ordered, plan);
    TotalOfLists(ordered, more);
    forall i | 0 <= i < |ordered|
      ensures f(i) <= g(i)
      ensures turns >= |ordered| * |ordered| ==> f(i) == g(i)
    {
      AfterLength(ordered, plan, turns, i);
    }
    SumOrder(f, g, |ordered|);
    if turns >= |ordered| * |ordered| { SumOrder(g, f, |ordered|); }
  }

  // ----- the three passes together -----

  ghost predicate HasRoot(catalog: seq<Item>) {
    exists x :: x in catalog && x.id == ROOT
  }

  /** The list of the item at `i` begins with that of the first pass. */
  ghost predicate KeepsBase(ordered: seq<Item>, plan: Plan, i: nat)
    requires 0 < i < |ordered|
  {
    ordered[i].id in plan && Base(ordered, i) <= plan[ordered[i].id]
  }

  /** A finished plan: the invariant of all passes, the first pass at the head of every list, and the target met. */
  ghost predicate Finished(ordered: seq<Item>, plan: Plan) {
    && Grown(ordered, plan, plan, TARGET_EDGES)
    && forall i :: 0 < i < |ordered| ==> KeepsBase(ordered, plan, i)
  }

  lemma FinishedFrom(ordered: seq<Item>, first: Plan, plan: Plan)
    requires Grown(ordered, first, plan, TARGET_EDGES)
    requires AllBase(ordered, first)
    ensures Finished(ordered, plan)
  {
    forall i | 0 < i < |ordered| ensures KeepsBase(ordered, plan, i) {
      assert HasBase(ordered, first, i);
      assert first[ordered[i].id] <= plan[ordered[i].id];
    }
  }

  /** A catalog of 129 items or more never reaches the third pass with edges missing. */
  lemma FilledMeetsTarget(ordered: seq<Item>, plan: Plan, total: nat)
    requires Grown(ordered, plan, plan, total) && total < TARGET_EDGES && Filled(ordered, plan, |ordered|)
    ensures |ordered| < 129
  {
    FilledTotal(ordered, plan, |ordered|);
    assert ordered[..|ordered|] == ordered;
  }

  lemma FinishedIsLarge(ordered: seq<Item>, plan: Plan)
    requires Finished(ordered, plan)
    ensures |ordered| >= 33
  {
    PlannedIsTriangular(ordered, plan);
    TriangularTotal(ordered, plan, |ordered|);
    assert ordered[..|ordered|] == ordered;
    if |ordered| < 33 { SmallSquare(|ordered|); }
  }

  lemma SmallSquare(n: nat)
    requires n < 33
    ensures n * (n - 1) <= 32 * 31
  {
    assert n * (n - 1) <= 32 * (n - 1) || n == 0;
  }

  lemma {:induction false} GrownHasAll(ordered: seq<Item>, plan: Plan, more: Plan, total: nat)
    requires Grown(ordered, plan, more, total)
    ensures HasAll(ordered, more) && EdgeTotal(ordered, more) == total && Grown(ordered, more, more, total)
    ensures plan.Keys == more.Keys && HasAll(ordered, plan)
  {
  }

  /** The third pass starts only below the target, which 129 items never leave it, and goes on turn by turn. */
  ghost predicate FilledFrom(ordered: seq<Item>, padded: Plan, plan: Plan) {
    && ordered != [] && HasAll(ordered, padded)
    && (exists k :: 0 <= k && plan == After(ordered, padded, k))
    && (EdgeTotal(ordered, padded) >= TARGET_EDGES ==> plan == padded)
    && (|ordered| >= 129 ==> EdgeTotal(ordered, padded) >= TARGET_EDGES)
  }

  /** The second and third pass, on the plan of the first. */
  method PadAndFill(ordered: seq<Item>, first: Plan, current: nat, fuel: nat) returns (r: Result<Plan, BuildError>)
    requires Grown(ordered, first, first, current)
    ensures HasAll(ordered, first)
    ensures r.Ok? ==> Grown(ordered, first, r.value, if current < TARGET_EDGES then TARGET_EDGES else current)
    ensures r.Err? ==> r.error == OutOfFuel && |ordered| < 129 && current < TARGET_EDGES
    ensures r.Err? <==> EdgeTotal(ordered, After(ordered, PadTo(ordered, first, |ordered|), fuel)) < TARGET_EDGES
    ensures r.Ok? ==> FilledFrom(ordered, PadTo(ordered, first, |ordered|), r.value)
  {
    GrownHasAll(ordered, first, first, current);
    var padded, total := Pad(ordered, first, current);
    GrownHasAll(ordered, first, padded, total);
    if total < TARGET_EDGES { FilledMeetsTarget(ordered, padded, total); }
    r := Fill(ordered, padded, total, fuel);
    if r.Ok? {
      GrownTrans(ordered, first, padded, r.value, total, if total < TARGET_EDGES then TARGET_EDGES else total);
    } else {
      AfterLosesNothing(ordered, padded, total, fuel);
    }
  }

  lemma {:induction false} AfterLosesNothing(ordered: seq<Item>, plan: Plan, total: nat, turns: nat)
    requires Grown(ordered, plan, plan, total) && HasAll(ordered, plan)
    ensures EdgeTotal(ordered, After(ordered, plan, turns)) >= total
  {
    TurnsAreTurns(ordered, plan);
    TargetStaysMet(ordered, plan, total, Turns(ordered, plan), 0, turns);
  }

  /** The final check of the total. */
  method Complete(ordered: seq<Item>, first: Plan, fuel: nat) returns (r: Result<Plan, BuildError>)
    requires Grown(ordered, first, first, BaseTotal(ordered)) && AllBase(ordered, first)
    ensures HasAll(ordered, first)
    ensures r.Ok? ==> FilledFrom(ordered, PadTo(ordered, first, |ordered|), r.value)
    ensures r.Ok? ==> Finished(ordered, r.value)
    ensures r.Err? ==> r.error == WrongTotal(BaseTotal(ordered)) || (r.error == OutOfFuel && |ordered| < 129)
    ensures r.Err? && r.error.WrongTotal? <==> BaseTotal(ordered) > TARGET_EDGES
    ensures r == Err(OutOfFuel)
            <==> EdgeTotal(ordered, After(ordered, PadTo(ordered, first, |ordered|), fuel)) < TARGET_EDGES
  {
    GrownHasAll(ordered, first, first, BaseTotal(ordered));
    r := PadAndFill(ordered, first, EdgeTotal(ordered, first), fuel);
    if r.Ok? {
      var total := if BaseTotal(ordered) < TARGET_EDGES then TARGET_EDGES else BaseTotal(ordered);
      GrownHasAll(ordered, first, r.value, total);
      if EdgeTotal(ordered, r.value) != TARGET_EDGES {
        return Err(WrongTotal(EdgeTotal(ordered, r.value)));
      }
      FinishedFrom(ordered, first, r.value);
    }
  }

  /** The plan of the first pass, as a function of the order. */
  ghost function FirstPlan(ordered: seq<Item>): (r: Plan)
    requires UniqueItems(ordered)
    ensures HasAll(ordered, r)
  {
    FirstPlanHasAll(ordered);
    map id | id in ItemIds(ordered) :: FirstList(ordered, Pos(ItemIds(ordered), id))
  }

  ghost function FirstList(ordered: seq<Item>, i: nat): seq<Id>
    requires i < |ordered|
  {
    if i == 0 then [] else Base(ordered, i)
  }

  lemma FirstPlanHasAll(ordered: seq<Item>)
    requires UniqueItems(ordered)
    ensures forall k :: 0 <= k < |ordered| ==> ordered[k].id in ItemIds(ordered)
  {
    forall k | 0 <= k < |ordered| ensures ordered[k].id in ItemIds(ordered) { PosOfItem(ordered, k); }
  }

  lemma FirstPlanIsPlanned(ordered: seq<Item>)
    requires UniqueItems(ordered) && ordered != [] && ordered[0].id == ROOT
    ensures Planned(ordered, FirstPlan(ordered))
  {
    var plan := FirstPlan(ordered);
    forall i | 0 <= i < |ordered| ensures plan[ordered[i].id] == FirstList(ordered, i) { PosOfItem(ordered, i); }
    forall i | 0 < i < |ordered| ensures HasBase(ordered, plan, i) {}
    FirstPlanned(ordered, plan);
  }

  /** There is only one plan of the first pass. */
  lemma FirstPlanUnique(ordered: seq<Item>, plan: Plan)
    requires Planned(ordered, plan) && AllBase(ordered, plan)
    ensures plan == FirstPlan(ordered)
  {
    var first := FirstPlan(ordered);
    forall id | id in plan ensures first[id] == plan[id] {
      var i := Pos(ItemIds(ordered), id);
      assert ordered[i].id == id;
      if i == 0 {
        InPlan(ordered, plan);
        FirstHasNone(ordered, plan);
      } else {
        assert HasBase(ordered, plan, i);
      }
    }
    assert first.Keys == plan.Keys;
  }

  /** The first pass with its edge count. */
  method Begin(ordered: seq<Item>) returns (r: Result<Plan, BuildError>)
    requires UniqueItems(ordered) && ordered != []
    ensures r.Err? <==> ordered[0].id != ROOT
    ensures r.Err? ==> r.error == IndexError
    ensures r.Ok? ==> Grown(ordered, r.value, r.value, BaseTotal(ordered))
    ensures r.Ok? ==> AllBase(ordered, r.value) && r.value == FirstPlan(ordered)
  {
    r := FirstPrerequisites(ordered);
    if r.Ok? {
      FirstPlanned(ordered, r.value);
      InPlan(ordered, r.value);
      FirstTotal(ordered, r.value);
      FirstPlanUnique(ordered, r.value);
    }
  }

  /** The third pass can bring the plan of the second to the target. */
  ghost predicate Settles(ordered: seq<Item>)
    requires UniqueItems(ordered)
  {
    LimitTotal(ordered, PadTo(ordered, FirstPlan(ordered), |ordered|)) >= TARGET_EDGES
  }

  lemma {:induction false} PadToIsFull(ordered: seq<Item>, first: Plan, total: nat)
    requires Grown(ordered, first, first, total)
    ensures HasAll(ordered, first) && Full(ordered, PadTo(ordered, first, |ordered|))
  {
    var all := PadToGrown(ordered, first, total, |ordered|);
  }

  /** The catalogs that have a plan: the root is there, the first pass keeps within the target, and the third reaches
      it. */
  ghost predicate Plannable(catalog: seq<Item>)
    requires UniqueItems(Ordered(catalog))
  {
    HasRoot(catalog) && BaseTotal(Ordered(catalog)) <= TARGET_EDGES && Settles(Ordered(catalog))
  }

  // ----- the lists of a finished plan, by position -----

  lemma {:induction false} AfterKeeps(ordered: seq<Item>, padded: Plan, turns: nat)
    requires Full(ordered, padded)
    ensures Extends(padded, After(ordered, padded, turns))
  {
    TurnsAreTurns(ordered, padded);
    TurnsLater(ordered, Turns(ordered, padded), 0, turns);
  }

  /** One list of the second pass, after the third. */
  lemma {:induction false} FilledList(ordered: seq<Item>, padded: Plan, plan: Plan, i: nat, exact: bool)
    requires Full(ordered, padded) && FilledFrom(ordered, padded, plan) && 0 < i < |ordered|
    requires exact ==> plan == padded
    ensures ordered[i].id in plan && Completes(ordered, i, plan[ordered[i].id], padded[ordered[i].id], exact)
  {
    var k :| 0 <= k && plan == After(ordered, padded, k);
    AfterKeeps(ordered, padded, k);
    var list, full := plan[ordered[i].id], padded[ordered[i].id];
    forall p | p in list && p !in full
      ensures exists cursor: nat :: FallsOn(ordered, i, p, cursor)
    {
      AfterMembers(ordered, padded, k, i, p);
      var c :| 2 <= c < 2 + k && TriedAt(ordered, c, i, p);
      assert FallsOn(ordered, i, p, c);
    }
  }

  lemma {:induction false} PlanListAt(ordered: seq<Item>, first: Plan, padded: Plan, plan: Plan, m: nat, t: nat,
                                      exact: bool, i: nat)
    requires Full(ordered, padded) && FilledFrom(ordered, padded, plan) && 0 < i < |ordered|
    requires exact ==> plan == padded
    requires UniqueItems(ordered) && HasBase(ordered, first, i)
    requires CutAt(ordered, first, padded, |ordered|, m, t)
    ensures ListAt(ordered, plan, m, t, exact, i)
  {
    FilledList(ordered, padded, plan, i, exact);
    BaseIs(ordered, i);
    if i < 2 {
      assert Untouched(ordered, first, padded, i);
    } else {
      assert TookAt(ordered, first, padded, |ordered|, m, t, i);
      var g := Given(|ordered|, m, t, i);
      var four :| AreFour(ordered, i, four) && |four| == 4
                  && padded[ordered[i].id] == Taken(first[ordered[i].id], four[..g]);
      assert Completes(ordered, i, plan[ordered[i].id], Taken(Base(ordered, i), four[..g]), exact);
    }
  }

  lemma {:induction false} FinishedByPosition(ordered: seq<Item>, first: Plan, plan: Plan)
    requires Grown(ordered, first, first, BaseTotal(ordered)) && AllBase(ordered, first) && HasAll(ordered, first)
    requires FilledFrom(ordered, PadTo(ordered, first, |ordered|), plan) && Finished(ordered, plan)
    ensures ByPosition(ordered, plan)
  {
    var padded := PadTo(ordered, first, |ordered|);
    PadToIsFull(ordered, first, BaseTotal(ordered));
    var m, t := PaddingCut(ordered, first, |ordered|);
    var exact := m < |ordered| || |ordered| >= 129;
    FirstHasNone(ordered, plan);
    PlanLists(ordered, first, padded, plan, m, t, exact);
    assert CutLists(ordered, plan, m, t);
  }

  lemma {:induction false} PlanLists(ordered: seq<Item>, first: Plan, padded: Plan, plan: Plan, m: nat, t: nat,
                                     exact: bool)
    requires Full(ordered, padded) && FilledFrom(ordered, padded, plan) && (exact ==> plan == padded)
    requires UniqueItems(ordered) && AllBase(ordered, first) && CutAt(ordered, first, padded, |ordered|, m, t)
    ensures forall i :: 0 < i < |ordered| ==> ListAt(ordered, plan, m, t, exact, i)
  {
    forall i | 0 < i < |ordered| ensures ListAt(ordered, plan, m, t, exact, i) {
      assert HasBase(ordered, first, i);
      PlanListAt(ordered, first, padded, plan, m, t, exact, i);
    }
  }

  /** The third pass comes to item `i` at `cursor`, and falls on `p`. */
  ghost predicate FallsOn(ordered: seq<Item>, i: nat, p: Id, cursor: nat)
    requires 0 < i < |ordered|
  {
    cursor >= 2 && cursor % |ordered| == i && p == ordered[(cursor * 17) % i].id
  }

  /** The list begins with `full`; it is `full`, if `exact`; and whatever else it has the third pass fell on. */
  ghost predicate Completes(ordered: seq<Item>, i: nat, list: seq<Id>, full: seq<Id>, exact: bool)
    requires 0 < i < |ordered|
  {
    && full <= list && (exact ==> list == full)
    && forall p :: p in list && p !in full ==> exists cursor: nat :: FallsOn(ordered, i, p, cursor)
  }

  /** The list of item `i`: the first pass; from the third item on what it took of its four; and what the third pass
      added. */
  ghost predicate ListAt(ordered: seq<Item>, plan: Plan, m: nat, t: nat, exact: bool, i: nat)
    requires 0 < i < |ordered|
  {
    && ordered[i].id in plan
    && exists first :: IsFirstList(ordered, i, first)
         && if i < 2 then Completes(ordered, i, plan[ordered[i].id], first, exact)
            else exists four :: AreFour(ordered, i, four) && |four| == 4 && Given(|ordered|, m, t, i) <= 4
                   && Completes(ordered, i, plan[ordered[i].id], Taken(first, four[..Given(|ordered|, m, t, i)]), exact)
  }

  /** The root has no prerequisites, and there are 503 in all. There is a cut in the second pass: the items before it
      took all of their four, the one at it the first `t`, and those after it none. Only without a cut, and for fewer
      than 129 items, does the third pass add anything. */
  ghost predicate ByPosition(ordered: seq<Item>, plan: Plan) {
    && ordered != [] && ordered[0].id == "boot.firmware.uefi_entry"
    && ordered[0].id in plan && plan[ordered[0].id] == []
    && HasAll(ordered, plan) && EdgeTotal(ordered, plan) == 503
    && exists m: nat, t: nat :: CutLists(ordered, plan, m, t)
  }

  ghost predicate CutLists(ordered: seq<Item>, plan: Plan, m: nat, t: nat) {
    var exact := m < |ordered| || |ordered| >= 129;
    && m <= |ordered| && t <= 4
    && forall i :: 0 < i < |ordered| ==> ListAt(ordered, plan, m, t, exact, i)
  }

  /** Prerequisites for a whole catalog, or the reason there are none. With enough fuel for the square of the number of
      items the third pass runs out exactly when it could go on for ever. */
  method BuildPrerequisites(catalog: seq<Item>, fuel: nat) returns (r: Result<Plan, BuildError>)
    requires UniqueItems(catalog)
    ensures UniqueItems(Ordered(catalog))
    ensures r.Ok? ==> Finished(Ordered(catalog), r.value) && |catalog| >= 33
    ensures r.Ok? ==> ByPosition(Ordered(catalog), r.value)
    ensures r == Err(ZeroDivisionError) <==> catalog == []
    ensures r == Err(IndexError) <==> catalog != [] && !HasRoot(catalog)
    ensures r.Err? && r.error.WrongTotal? <==> HasRoot(catalog) && BaseTotal(Ordered(catalog)) > TARGET_EDGES
    ensures r.Err? && r.error.WrongTotal? ==> r.error.current == BaseTotal(Ordered(catalog))
    ensures HasRoot(catalog) && !Settles(Ordered(catalog)) ==> r == Err(OutOfFuel)
    ensures r == Err(OutOfFuel) && fuel >= |catalog| * |catalog| ==> HasRoot(catalog) && !Settles(Ordered(catalog))
    ensures fuel >= |catalog| * |catalog| ==> (r.Ok? <==> Plannable(catalog))
    ensures HasRoot(catalog) && 129 <= |catalog| <= 253 ==> r.Ok?
    ensures HasRoot(catalog) && |catalog| >= 129 && BaseTotal(Ordered(catalog)) <= TARGET_EDGES ==> r.Ok?
  {
    var ordered := Ordered(catalog);
    OrderedShape(catalog);
    BaseTotalBound(ordered);
    // With nothing to plan, the third pass divides by the number of items at once.
    if ordered == [] { return Err(ZeroDivisionError); }
    var first := Begin(ordered);
    if first.Err? { return first; }
    r := Complete(ordered, first.value, fuel);
    PadToIsFull(ordered, first.value, BaseTotal(ordered));
    AfterTotal(ordered, PadTo(ordered, first.value, |ordered|), fuel);
    if r.Ok? {
      FinishedIsLarge(ordered, r.value);
      FinishedByPosition(ordered, first.value, r.value);
    }
  }

  // ----- what the first pass leaves in every finished plan -----

  lemma {:induction false} LastOfDomain(items: seq<Item>, domain: string, j: nat)
    requires j < |items| && items[j].domain == domain
    requires forall k :: j < k < |items| ==> items[k].domain != domain
    ensures LastInDomain(items, domain) == Some(items[j].id)
  {
    if j < |items| - 1 {
      LastOfDomain(items[..|items| - 1], domain, j);
    }
  }

  lemma {:induction false} FirstOfLevel(items: seq<Item>, level: Level, j: nat)
    requires j < |items| && items[j].level == level
    requires forall k :: 0 <= k < j ==> items[k].level != level
    ensures FirstAtLevel(items, level) == Some(items[j].id)
  {
    var rest := items[..|items| - 1];
    if j < |items| - 1 {
      FirstOfLevel(rest, level, j);
    } else {
      NoneAtLevel(rest, level);
    }
  }

  lemma {:induction false} NoneAtLevel(items: seq<Item>, level: Level)
    requires forall k :: 0 <= k < |items| ==> items[k].level != level
    ensures FirstAtLevel(items, level) == None
  {
    if items != [] { NoneAtLevel(items[..|items| - 1], level); }
  }

  lemma KeptFromBase(ordered: seq<Item>, plan: Plan, i: nat, p: Id)
    requires Finished(ordered, plan) && 0 < i < |ordered| && p in Candidates(ordered[..i], ordered[i])
    ensures ordered[i].id in plan && p in plan[ordered[i].id]
  {
    assert KeepsBase(ordered, plan, i) && p in Base(ordered, i);
  }

  /** The latest earlier item of the same domain is a prerequisite. */
  lemma DomainPredecessorKept(ordered: seq<Item>, plan: Plan, i: nat, j: nat)
    requires Finished(ordered, plan) && j < i < |ordered| && ordered[j].domain == ordered[i].domain
    requires forall k :: j < k < i ==> ordered[k].domain != ordered[i].domain
    ensures ordered[i].id in plan && ordered[j].id in plan[ordered[i].id]
  {
    LastOfDomain(ordered[..i], ordered[i].domain, j);
    KeptFromBase(ordered, plan, i, ordered[j].id);
  }

  /** The first earlier item of the level below (of the lowest level, for the lowest level) is a prerequisite. */
  lemma LevelAnchorKept(ordered: seq<Item>, plan: Plan, i: nat, j: nat)
    requires Finished(ordered, plan) && j < i < |ordered| && ordered[j].level == LevelBelow(ordered[i].level)
    requires forall k :: 0 <= k < j ==> ordered[k].level != LevelBelow(ordered[i].level)
    ensures ordered[i].id in plan && ordered[j].id in plan[ordered[i].id]
  {
    FirstOfLevel(ordered[..i], LevelBelow(ordered[i].level), j);
    KeptFromBase(ordered, plan, i, ordered[j].id);
  }
}
