/** What the built corpus is like: single-rooted, free of cycles, level by level, and accepted by validation. */
module BuiltCorpus {
  import opened Arithmetic
  import opened Sequences
  import opened Orders
  import opened Walks
  import opened Contracts
  import opened Validation
  import opened Bootstrap
  import opened Padding
  import opened Filling
  import opened Frontier

  // ----- shape of a plan -----

  /** The position of an id. */
  ghost function Rank(ordered: seq<Item>, id: Id): int {
    if id in ItemIds(ordered) then Pos(ItemIds(ordered), id) else -1
  }

  lemma RankOfItem(ordered: seq<Item>, i: nat)
    requires UniqueItems(ordered) && i < |ordered|
    ensures Rank(ordered, ordered[i].id) == i
  {
    PosOfItem(ordered, i);
  }

  /** An edge of a plan leads from an item to an earlier one. */
  lemma EdgeIsEarlier(ordered: seq<Item>, plan: Plan, a: Id, b: Id) returns (i: nat, j: nat)
    requires Planned(ordered, plan) && a in plan && b in plan[a]
    ensures j < i < |ordered| && ordered[i].id == a && ordered[j].id == b
  {
    i :| 0 <= i < |ordered| && ItemIds(ordered)[i] == a;
    assert FitsAt(ordered, plan, i);
    j := EarlierPosition(ordered, i, b);
  }

  lemma PlanIsAcyclic(ordered: seq<Item>, plan: Plan)
    requires Planned(ordered, plan)
    ensures Acyclic(PrerequisiteEdges(plan))
  {
    forall a, b | (a, b) in PrerequisiteEdges(plan)
      ensures Rank(ordered, a) > Rank(ordered, b)
    {
      var i, j := EdgeIsEarlier(ordered, plan, a, b);
      RankOfItem(ordered, i);
      RankOfItem(ordered, j);
    }
    RankedIsAcyclic(PrerequisiteEdges(plan), x => Rank(ordered, x));
  }

  /** The root alone has no prerequisites. */
  lemma OnlyRootHasNone(ordered: seq<Item>, plan: Plan, id: Id)
    requires Planned(ordered, plan) && id in plan
    ensures plan[id] == [] <==> id == ROOT
  {
    var i :| 0 <= i < |ordered| && ItemIds(ordered)[i] == id;
    assert FitsAt(ordered, plan, i);
    InPlan(ordered, plan);
    FirstHasNone(ordered, plan);
    if i > 0 { assert ordered[0].id != ordered[i].id; }
  }

  /** The root is a transitive prerequisite of every other item. */
  lemma {:induction false} RootUnderItem(ordered: seq<Item>, plan: Plan, i: nat)
    requires Planned(ordered, plan) && 0 < i < |ordered|
    ensures ReachesPlus(PrerequisiteEdges(plan), ordered[i].id, ROOT)
    decreases i
  {
    var E := PrerequisiteEdges(plan);
    InPlan(ordered, plan);
    assert FitsAt(ordered, plan, i);
    var p := plan[ordered[i].id][0];
    var j := EarlierPosition(ordered, i, p);
    assert (ordered[i].id, p) in E;
    if j == 0 {
      assert WalkFromTo(E, [ordered[i].id, ROOT], ordered[i].id, ROOT);
    } else {
      RootUnderItem(ordered, plan, j);
      var w :| WalkFromTo(E, w, p, ROOT) && |w| >= 2;
      assert WalkFromTo(E, [ordered[i].id] + w, ordered[i].id, ROOT);
    }
  }

  lemma RootUnderEverything(ordered: seq<Item>, plan: Plan, id: Id)
    requires Planned(ordered, plan) && id in plan
    ensures ReachesPlus(PrerequisiteEdges(plan), id, ROOT) <==> id != ROOT
  {
    var i :| 0 <= i < |ordered| && ItemIds(ordered)[i] == id;
    assert ordered[i].id == id;
    if i > 0 { RootUnderItem(ordered, plan, i); assert ordered[0].id != ordered[i].id; }
    if id == ROOT {
      PlanIsAcyclic(ordered, plan);
      AcyclicIsIrreflexive(PrerequisiteEdges(plan));
    }
  }

  // ----- levels -----

  ghost predicate LevelsNeverRise(ordered: seq<Item>, plan: Plan) {
    forall i, j :: 0 <= i < |ordered| && 0 <= j < |ordered|
                   && ordered[i].id in plan && ordered[j].id in plan[ordered[i].id] ==>
      ordered[j].level <= ordered[i].level
  }

  ghost predicate RootIsLowest(catalog: seq<Item>) {
    forall r, x :: r in catalog && x in catalog && r.id == ROOT ==> r.level <= x.level
  }

  lemma SecondNeedsRoot(ordered: seq<Item>, plan: Plan)
    requires Planned(ordered, plan) && |ordered| >= 2
    ensures ordered[1].id in plan && plan[ordered[1].id] == [ROOT]
  {
    InPlan(ordered, plan);
    var list := plan[ordered[1].id];
    assert FitsAt(ordered, plan, 1);
    assert ItemIds(ordered[..1]) == [ROOT];
    ShortList(list, [ROOT]);
    assert list[0] in list;
  }

  ghost predicate FirstIsLowest(ordered: seq<Item>) {
    forall i :: 0 <= i < |ordered| ==> ordered[0].level <= ordered[i].level
  }

  lemma FirstLowestMeansLevelsFall(ordered: seq<Item>, plan: Plan)
    requires Planned(ordered, plan) && FirstIsLowest(ordered)
    requires forall i, j :: 1 <= i < j < |ordered| ==> ordered[i].level <= ordered[j].level
    ensures LevelsNeverRise(ordered, plan)
  {
    forall i, j | 0 <= i < |ordered| && 0 <= j < |ordered|
                  && ordered[i].id in plan && ordered[j].id in plan[ordered[i].id]
      ensures ordered[j].level <= ordered[i].level
    {
      var a, b := EdgeIsEarlier(ordered, plan, ordered[i].id, ordered[j].id);
      assert a == i by { assert ordered[a].id == ordered[i].id; }
      assert b == j by { assert ordered[b].id == ordered[j].id; }
    }
  }

  lemma LevelsFallMeansFirstLowest(ordered: seq<Item>, plan: Plan)
    requires Planned(ordered, plan) && LevelsNeverRise(ordered, plan)
    requires forall i, j :: 1 <= i < j < |ordered| ==> ordered[i].level <= ordered[j].level
    ensures FirstIsLowest(ordered)
  {
    if |ordered| >= 2 {
      SecondNeedsRoot(ordered, plan);
      assert ordered[0].id in plan[ordered[1].id];
    }
  }

  lemma RootIsFirst(catalog: seq<Item>)
    requires UniqueItems(catalog) && catalog != [] && Ordered(catalog)[0].id == ROOT
    ensures RootIsLowest(catalog) <==> FirstIsLowest(Ordered(catalog))
  {
    var o := Ordered(catalog);
    OrderedShape(catalog);
    if RootIsLowest(catalog) {
      forall i | 0 <= i < |o| ensures o[0].level <= o[i].level { assert o[0] in o && o[i] in o; }
    }
    if FirstIsLowest(o) {
      forall r, x | r in catalog && x in catalog && r.id == ROOT
        ensures r.level <= x.level
      {
        assert r in o && x in o;
        var l :| 0 <= l < |o| && o[l] == r;
      }
    }
  }

  /** Prerequisites are at the same or a lower level exactly when the catalog puts the root at the lowest level. */
  lemma LevelsNeverRiseIff(catalog: seq<Item>, plan: Plan)
    requires UniqueItems(catalog) && Planned(Ordered(catalog), plan)
    ensures LevelsNeverRise(Ordered(catalog), plan) <==> RootIsLowest(catalog)
  {
    OrderedShape(catalog);
    RootIsFirst(catalog);
    if FirstIsLowest(Ordered(catalog)) {
      FirstLowestMeansLevelsFall(Ordered(catalog), plan);
    }
    if LevelsNeverRise(Ordered(catalog), plan) {
      LevelsFallMeansFirstLowest(Ordered(catalog), plan);
    }
  }

  lemma OrderOfTwo(root: Item, other: Item)
    requires root.id == ROOT && other.id != ROOT
    ensures Ordered([root, other]) == [root, other]
  {
    var catalog, o := [root, other], Ordered([root, other]);
    OrderedShape(catalog);
    assert root in catalog && other in catalog;
    assert root in o && other in o;
    assert o[0].id == ROOT && o[0] in catalog && o[1] in catalog;
  }

  /** The root above the only other item: the plan of the two makes the lower one need the higher. */
  lemma HighRootMakesLevelsRise(root: Item, other: Item)
    requires root.id == ROOT && other.id != ROOT && other.level < root.level
    ensures Ordered([root, other]) == [root, other]
    ensures UniqueItems([root, other]) && FirstPlan([root, other])[other.id] == [ROOT]
    ensures !LevelsNeverRise([root, other], FirstPlan([root, other]))
  {
    var o := [root, other];
    OrderOfTwo(root, other);
    FirstPlanIsPlanned(o);
    SecondNeedsRoot(o, FirstPlan(o));
    assert o[0].id in FirstPlan(o)[o[1].id];
  }

  // ----- the Contracts -----

  const OBSERVABLES_BY_DOMAIN: map<string, seq<string>> := map[
    "boot" := ["boot_log", "serial_output", "exit_code"],
    "machine" := ["syscall_return", "signal", "device_state", "timing"],
    "filesystem" := ["syscall_return", "errno", "filesystem_state", "file_contents", "metadata", "links"],
    "fd" := ["syscall_return", "errno", "fd_state"],
    "process" := ["syscall_return", "errno", "exit_code", "process_tree", "environment"],
    "thread" := ["syscall_return", "errno", "process_tree", "memory_state"],
    "signal" := ["syscall_return", "errno", "signal", "process_tree"],
    "memory" := ["syscall_return", "errno", "memory_state", "resource_usage"],
    "socket" := ["syscall_return", "errno", "socket_behavior"],
    "network" := ["socket_behavior", "packet_trace", "identity"],
    "permission" := ["syscall_return", "errno", "permissions", "identity"],
    "identity" := ["identity", "permissions", "environment"],
    "package" := ["exit_code", "stdout", "stderr", "package_state", "filesystem_state", "service_state"],
    "service" := ["exit_code", "service_state", "boot_log"],
    "persistence" := ["persistent_state", "filesystem_state", "service_state", "package_state"],
    "workload" := ["exit_code", "stdout", "stderr", "filesystem_state", "socket_behavior"],
    "full" := ["boot_log", "exit_code", "persistent_state", "service_state", "package_state"]]

  const DEFAULT_OBSERVABLES := ["syscall_return", "errno", "stdout", "stderr", "exit_code"]

  function NormalizationOf(domain: string): (r: seq<Rule>)
    ensures NoRule in r ==> r == [NoRule]
  {
    match domain
    case "filesystem" => [TemporaryPaths, Inode, Timestamps, DirectoryOrder]
    case "fd" => [Pid]
    case "process" => [Pid, Ppid, Timestamps]
    case "thread" => [Pid, Tid, SchedulerOrder]
    case "signal" => [Pid, SchedulerOrder]
    case "scheduling" => [Pid, Tid, SchedulerOrder, Timestamps]
    case "socket" => [EphemeralPort, Addresses, SchedulerOrder]
    case "network" => [EphemeralPort, Addresses, HostMetadata]
    case "time" => [Timestamps]
    case "distro" => [HostMetadata, Timestamps]
    case "service" => [Pid, Timestamps, SchedulerOrder]
    case "persistence" => [Timestamps, Inode]
    case "workload" => [TemporaryPaths, Pid, Timestamps, EphemeralPort]
    case "full" => [TemporaryPaths, Pid, Timestamps, EphemeralPort, Inode]
    case _ => [NoRule]
  }

  /** The neighbours one and seven places on, going round, other than the item itself. */
  function Peers(ids: seq<Id>, i: nat): (r: seq<Id>)
    requires i < |ids|
    ensures ids[i] !in r && forall p :: p in r ==> p in ids
  {
    SortedIds({ids[(i + 1) % |ids|], ids[(i + 7) % |ids|]} - {ids[i]})
  }

  /** The domains that declare each rule. */
  lemma ProcessRulesByDomain(domain: string)
    ensures Pid in NormalizationOf(domain) <==>
            domain in {"fd", "process", "thread", "signal", "scheduling", "service", "workload", "full"}
    ensures Ppid in NormalizationOf(domain) <==> domain == "process"
    ensures Tid in NormalizationOf(domain) <==> domain in {"thread", "scheduling"}
    ensures SchedulerOrder in NormalizationOf(domain) <==>
            domain in {"thread", "signal", "scheduling", "socket", "service"}
  {
  }

  lemma FileRulesByDomain(domain: string)
    ensures Inode in NormalizationOf(domain) <==> domain in {"filesystem", "persistence", "full"}
    ensures DirectoryOrder in NormalizationOf(domain) <==> domain == "filesystem"
    ensures TemporaryPaths in NormalizationOf(domain) <==> domain in {"filesystem", "workload", "full"}
    ensures Timestamps in NormalizationOf(domain) <==>
            domain in {"filesystem", "process", "scheduling", "time", "distro", "service", "persistence",
                       "workload", "full"}
  {
  }

  lemma NetworkRulesByDomain(domain: string)
    ensures EphemeralPort in NormalizationOf(domain) <==> domain in {"socket", "network", "workload", "full"}
    ensures Addresses in NormalizationOf(domain) <==> domain in {"socket", "network"}
    ensures HostMetadata in NormalizationOf(domain) <==> domain in {"network", "distro"}
  {
  }

  /** Position `j` is `d` places on from `i`, going round. */
  ghost predicate PlacesOn(n: nat, i: nat, d: nat, j: nat) {
    j < n && exists q: nat :: j + q * n == i + d
  }

  lemma RemainderIsPlace(n: nat, i: nat, d: nat)
    requires n > 0
    ensures PlacesOn(n, i, d, (i + d) % n)
    ensures forall j :: 0 <= j && PlacesOn(n, i, d, j) ==> j == (i + d) % n
  {
    var q := (i + d) / n;
    assert (i + d) % n + q * n == i + d;
    forall j | 0 <= j && PlacesOn(n, i, d, j) ensures j == (i + d) % n {
      var p: nat :| j + p * n == i + d;
      QuotientIs(i + d, p, n, j);
    }
  }

  /** The peers of an item are the items one and seven places on, other than itself, in ascending order. */
  lemma PeersAre(ids: seq<Id>, i: nat, p: Id)
    requires i < |ids|
    ensures Sorted(Peers(ids, i), StrLe) && NoDup(Peers(ids, i))
    ensures p in Peers(ids, i) <==>
            p != ids[i] && exists j :: 0 <= j < |ids| && p == ids[j]
                                       && (PlacesOn(|ids|, i, 1, j) || PlacesOn(|ids|, i, 7, j))
  {
    RemainderIsPlace(|ids|, i, 1);
    RemainderIsPlace(|ids|, i, 7);
  }

  function ContractOf(ordered: seq<Item>, plan: Plan, i: nat): Contract
    requires i < |ordered| && ordered[i].id in plan
  {
    var item := ordered[i];
    Contract(item.id, item.level, item.domain, plan[item.id], Peers(ItemIds(ordered), i),
             ObservablesOf(item.domain), NormalizationOf(item.domain), Semantic)
  }

  function ObservablesOf(domain: string): seq<string> {
    if domain in OBSERVABLES_BY_DOMAIN then OBSERVABLES_BY_DOMAIN[domain] else DEFAULT_OBSERVABLES
  }

  /** The duration of a run counts for machine Contracts, and for those of memory. */
  lemma TimedDomains(domain: string)
    ensures "timing" in ObservablesOf(domain) <==> domain == "machine"
    ensures "resource_usage" in ObservablesOf(domain) <==> domain == "memory"
  {
  }

  /** Each Contract has the id, level and domain of its item, its planned list, and what its domain declares. */
  ghost predicate Mirrors(item: Item, plan: Plan, c: Contract) {
    && c.id == item.id && c.level == item.level && c.domain == item.domain
    && item.id in plan && c.prerequisites == plan[item.id]
    && c.observables == ObservablesOf(item.domain) && c.normalization == NormalizationOf(item.domain)
    && c.equivalence == Semantic
  }

  lemma CorpusMirrors(ordered: seq<Item>, plan: Plan, cs: seq<Contract>)
    requires CorpusOf(ordered, plan, cs)
    ensures forall i :: 0 <= i < |cs| ==> Mirrors(ordered[i], plan, cs[i])
    ensures forall i :: 0 <= i < |cs| ==> cs[i].orthogonalWith == Peers(ItemIds(ordered), i)
  {
  }

  /** One Contract per item, with its planned prerequisites. */
  ghost predicate CorpusOf(ordered: seq<Item>, plan: Plan, cs: seq<Contract>) {
    && |cs| == |ordered|
    && forall i :: 0 <= i < |cs| ==> ordered[i].id in plan && cs[i] == ContractOf(ordered, plan, i)
  }

  /** The ids and prerequisites of a corpus are those of the plan. */
  ghost predicate Carries(ordered: seq<Item>, plan: Plan, cs: seq<Contract>) {
    && |cs| == |ordered|
    && forall i :: 0 <= i < |cs| ==>
         cs[i].id == ordered[i].id && cs[i].id in plan && cs[i].prerequisites == plan[cs[i].id]
  }

  lemma CorpusCarries(ordered: seq<Item>, plan: Plan, cs: seq<Contract>)
    requires CorpusOf(ordered, plan, cs)
    ensures Carries(ordered, plan, cs)
  {
    forall i | 0 <= i < |cs|
      ensures cs[i].id == ordered[i].id && cs[i].id in plan && cs[i].prerequisites == plan[cs[i].id]
    {
      assert cs[i] == ContractOf(ordered, plan, i);
    }
  }

  lemma CarriedList(ordered: seq<Item>, plan: Plan, cs: seq<Contract>, c: Contract)
    requires Carries(ordered, plan, cs) && c in cs
    ensures c.id in plan && c.prerequisites == plan[c.id]
  {
    var i :| 0 <= i < |cs| && cs[i] == c;
  }

  lemma CarriedItem(ordered: seq<Item>, plan: Plan, cs: seq<Contract>, id: Id) returns (c: Contract)
    requires Carries(ordered, plan, cs) && id in ItemIds(ordered)
    ensures c in cs && c.id == id
  {
    var i :| 0 <= i < |ordered| && ItemIds(ordered)[i] == id;
    c := cs[i];
    assert c in cs && c.id == ordered[i].id;
  }

  lemma CorpusKnown(ordered: seq<Item>, plan: Plan, cs: seq<Contract>)
    requires Carries(ordered, plan, cs) && forall x :: x in plan <==> x in ItemIds(ordered)
    ensures KnownIds(cs) == plan.Keys
  {
    forall k ensures k in KnownIds(cs) <==> k in plan {
      if k in KnownIds(cs) {
        var c :| c in cs && c.id == k;
        CarriedList(ordered, plan, cs, c);
      }
      if k in plan { var c := CarriedItem(ordered, plan, cs, k); }
    }
  }

  lemma CorpusDependencies(ordered: seq<Item>, plan: Plan, cs: seq<Contract>)
    requires Carries(ordered, plan, cs) && forall x :: x in plan <==> x in ItemIds(ordered)
    ensures Dependencies(cs) == plan
  {
    var m := ById(cs);
    forall k ensures k in m <==> k in plan {
      if k in m { CarriedList(ordered, plan, cs, m[k]); }
      if k in plan { var c := CarriedItem(ordered, plan, cs, k); }
    }
    forall k | k in m ensures m[k].prerequisites == plan[k] {
      CarriedList(ordered, plan, cs, m[k]);
    }
  }

  lemma BuiltContractIsSound(ordered: seq<Item>, plan: Plan, i: nat)
    requires Planned(ordered, plan) && i < |ordered| && ordered[i].id in plan
    ensures Sound(plan.Keys, ContractOf(ordered, plan, i))
  {
    var c := ContractOf(ordered, plan, i);
    assert FitsAt(ordered, plan, i);
    forall p | p in c.prerequisites ensures p in plan.Keys && p != c.id {
      NotItself(ordered, i, p);
      var j := EarlierPosition(ordered, i, p);
      InPlan(ordered, plan);
    }
  }

  lemma CarriedIdsUnique(ordered: seq<Item>, plan: Plan, cs: seq<Contract>)
    requires UniqueItems(ordered) && Carries(ordered, plan, cs)
    ensures UniqueIds(cs)
  {
    forall i, j | 0 <= i < j < |cs| ensures cs[i].id != cs[j].id {
      assert ordered[i].id != ordered[j].id;
    }
  }

  /** The built corpus has no defect and no cycle: validation accepts it. */
  lemma BuiltCorpusIsWellFormed(ordered: seq<Item>, plan: Plan, cs: seq<Contract>)
    requires Planned(ordered, plan) && CorpusOf(ordered, plan, cs)
    ensures WellFormed(cs)
  {
    CorpusCarries(ordered, plan, cs);
    CorpusKnown(ordered, plan, cs);
    CorpusDependencies(ordered, plan, cs);
    PlanIsAcyclic(ordered, plan);
    CarriedIdsUnique(ordered, plan, cs);
    forall c | c in cs ensures Sound(KnownIds(cs), c) {
      var i :| 0 <= i < |cs| && cs[i] == c;
      BuiltContractIsSound(ordered, plan, i);
    }
  }

  /** The root is the only Contract without prerequisites, and every other Contract needs it, directly or not. */
  lemma BuiltCorpusIsSingleRooted(ordered: seq<Item>, plan: Plan, cs: seq<Contract>, c: Contract)
    requires Planned(ordered, plan) && CorpusOf(ordered, plan, cs) && c in cs
    ensures c.prerequisites == [] <==> c.id == ROOT
    ensures ReachesPlus(PrerequisiteEdges(Dependencies(cs)), c.id, ROOT) <==> c.id != ROOT
  {
    CorpusCarries(ordered, plan, cs);
    CorpusDependencies(ordered, plan, cs);
    CarriedList(ordered, plan, cs, c);
    OnlyRootHasNone(ordered, plan, c.id);
    RootUnderEverything(ordered, plan, c.id);
  }

  lemma ReadyFromNothing(ordered: seq<Item>, plan: Plan, id: Id)
    requires Planned(ordered, plan)
    ensures Ready(plan, {}, id) <==> id == ROOT
  {
    assert ItemIds(ordered)[0] == ROOT;
    if id in plan {
      OnlyRootHasNone(ordered, plan, id);
      if plan[id] != [] { assert plan[id][0] in plan[id]; }
    }
  }

  lemma OnlyMember(r: seq<Id>, x: Id)
    requires NoDup(r) && forall id :: id in r <==> id == x
    ensures r == [x]
  {
    ShortList(r, [x]);
    assert x in r;
  }

  lemma PlanOfCorpus(ordered: seq<Item>, plan: Plan, cs: seq<Contract>)
    requires Planned(ordered, plan) && CorpusOf(ordered, plan, cs)
    ensures Dependencies(cs) == plan
  {
    CorpusCarries(ordered, plan, cs);
    CorpusDependencies(ordered, plan, cs);
  }

  /** An agent that has passed nothing is offered the root alone. */
  lemma FirstFrontierIsRoot(ordered: seq<Item>, plan: Plan, cs: seq<Contract>)
    requires Planned(ordered, plan) && CorpusOf(ordered, plan, cs)
    ensures FrontierOf(cs, {}) == [ROOT]
  {
    PlanOfCorpus(ordered, plan, cs);
    forall id ensures id in FrontierOf(cs, {}) <==> id == ROOT { ReadyFromNothing(ordered, plan, id); }
    OnlyMember(FrontierOf(cs, {}), ROOT);
  }

  method Collect(ordered: seq<Item>, plan: Plan) returns (contracts: seq<Contract>)
    requires forall k :: 0 <= k < |ordered| ==> ordered[k].id in plan
    ensures CorpusOf(ordered, plan, contracts)
  {
    contracts := [];
    for i := 0 to |ordered|
      invariant |contracts| == i
      invariant forall k :: 0 <= k < i ==> contracts[k] == ContractOf(ordered, plan, k)
    {
      contracts := contracts + [ContractOf(ordered, plan, i)];
    }
  }

  method BuildContracts(catalog: seq<Item>, fuel: nat) returns (r: Result<seq<Contract>, BuildError>)
    requires UniqueItems(catalog)
    ensures r.Ok? ==> exists plan ::
                        && Finished(Ordered(catalog), plan) && ByPosition(Ordered(catalog), plan)
                        && CorpusOf(Ordered(catalog), plan, r.value)
    ensures r.Ok? ==> WellFormed(r.value)
    ensures UniqueItems(Ordered(catalog))
    ensures fuel >= |catalog| * |catalog| ==> (r.Ok? <==> Plannable(catalog))
    ensures HasRoot(catalog) && 129 <= |catalog| <= 253 ==> r.Ok?
  {
    var plan := BuildPrerequisites(catalog, fuel);
    if plan.Err? { return Err(plan.error); }
    InPlan(Ordered(catalog), plan.value);
    var contracts := Collect(Ordered(catalog), plan.value);
    BuiltCorpusIsWellFormed(Ordered(catalog), plan.value, contracts);
    r := Ok(contracts);
  }
}
