/** Case selection: one representative per Contract, shards by digest, and an optional cap. */
module Selection {
  import opened Arithmetic
  import opened Sequences
  import opened Orders

  datatype CaseRow = CaseRow(caseId: Id, contract: Id, cleanSnapshot: bool, caseFamily: string)

  /** The first eight digest bytes of a case id, as a number. */
  type Digest = Id -> nat

  function IdsOf(rows: seq<CaseRow>): (ids: seq<Id>)
    ensures |ids| == |rows|
  {
    seq(|rows|, i requires 0 <= i < |rows| => rows[i].caseId)
  }

  datatype SelectionError = BadShardCount | BadShardIndex | BadMaxCases

  function CaseShard(digest: Digest, id: Id, shardCount: nat): (i: nat)
    requires shardCount >= 1
    ensures i < shardCount
    ensures exists q: nat :: digest(id) == q * shardCount + i
  {
    var q := digest(id) / shardCount;
    assert digest(id) == q * shardCount + digest(id) % shardCount;
    digest(id) % shardCount
  }

  // ----- representatives -----

  /** The key `(clean_snapshot, case_family, case_id)`, compared like a Python tuple. */
  predicate KeyLe(a: CaseRow, b: CaseRow) {
    if a.cleanSnapshot != b.cleanSnapshot then !a.cleanSnapshot
    else if a.caseFamily != b.caseFamily then StrLe(a.caseFamily, b.caseFamily)
    else StrLe(a.caseId, b.caseId)
  }

  lemma KeyLeTotalPreorder()
    ensures TotalPreorder(KeyLe)
  {
    StrLeTotalOrder();
  }

  function OfContract(cases: seq<CaseRow>, c: Id): (r: seq<CaseRow>)
    ensures forall x :: x in r <==> x in cases && x.contract == c
  {
    if cases == [] then []
    else
      var last := cases[|cases| - 1];
      assert cases == cases[..|cases| - 1] + [last];
      OfContract(cases[..|cases| - 1], c) + if last.contract == c then [last] else []
  }

  /** `b` is a member of the group that no member's key is below, and the first such one. */
  ghost predicate FirstLeast(group: seq<CaseRow>, b: CaseRow) {
    exists i :: 0 <= i < |group| && group[i] == b
      && (forall j :: 0 <= j < |group| ==> KeyLe(b, group[j]))
      && (forall j :: 0 <= j < i ==> !KeyLe(group[j], b))
  }

  /** `min(group, key=...)` */
  method Least(group: seq<CaseRow>) returns (b: CaseRow)
    requires group != []
    ensures FirstLeast(group, b)
  {
    KeyLeTotalPreorder();
    b := group[0];
    ghost var at := 0;
    for i := 1 to |group|
      invariant 0 <= at < i && group[at] == b
      invariant forall j :: 0 <= j < i ==> KeyLe(b, group[j])
      invariant forall j :: 0 <= j < at ==> !KeyLe(group[j], b)
    {
      if !KeyLe(b, group[i]) {
        ghost var was := b;
        b, at := group[i], i;
        forall j | 0 <= j < i
          ensures KeyLe(b, group[j]) && !KeyLe(group[j], b)
        {
          assert KeyLe(was, group[j]) && KeyLe(b, was);
        }
      }
    }
  }

  function ContractsOf(cases: seq<CaseRow>): set<Id> {
    set x | x in cases :: x.contract
  }

  /** One row per Contract, in Contract order, each the first of its group with the least key. */
  ghost predicate Representatives(cases: seq<CaseRow>, reps: seq<CaseRow>) {
    && |reps| == |ContractsOf(cases)|
    && forall i :: 0 <= i < |reps| ==>
         && reps[i].contract == SortedIds(ContractsOf(cases))[i]
         && FirstLeast(OfContract(cases, reps[i].contract), reps[i])
  }

  lemma {:induction false} SomeOfContract(cases: seq<CaseRow>, c: Id)
    ensures OfContract(cases, c) != [] <==> c in ContractsOf(cases)
  {
    if cases != [] {
      var rest, last := cases[..|cases| - 1], cases[|cases| - 1];
      SomeOfContract(rest, c);
      assert cases == rest + [last];
      assert ContractsOf(cases) == ContractsOf(rest) + {last.contract};
    }
  }

  lemma {:induction false} GroupNext(cases: seq<CaseRow>, row: CaseRow)
    ensures ContractsOf(cases + [row]) == ContractsOf(cases) + {row.contract}
    ensures forall c :: OfContract(cases + [row], c) == OfContract(cases, c) + if row.contract == c then [row] else []
  {
    assert (cases + [row])[..|cases|] == cases;
  }

  method Group(cases: seq<CaseRow>) returns (grouped: map<Id, seq<CaseRow>>)
    ensures grouped.Keys == ContractsOf(cases)
    ensures forall c :: c in grouped ==> grouped[c] == OfContract(cases, c) && grouped[c] != []
  {
    grouped := map[];
    for i := 0 to |cases|
      invariant grouped.Keys == ContractsOf(cases[..i])
      invariant forall c :: c in grouped ==> grouped[c] == OfContract(cases[..i], c)
    {
      var row := cases[i];
      assert cases[..i + 1] == cases[..i] + [row];
      GroupNext(cases[..i], row);
      SomeOfContract(cases[..i], row.contract);
      grouped := grouped[row.contract := (if row.contract in grouped then grouped[row.contract] else []) + [row]];
    }
    assert cases[..|cases|] == cases;
    forall c | c in grouped ensures grouped[c] != [] { SomeOfContract(cases, c); }
  }

  method OnePerContract(cases: seq<CaseRow>) returns (reps: seq<CaseRow>)
    ensures Representatives(cases, reps)
  {
    var grouped := Group(cases);
    var ids := SortedIds(grouped.Keys);
    reps := LeastOfEach(cases, grouped, ids);
  }

  method LeastOfEach(cases: seq<CaseRow>, grouped: map<Id, seq<CaseRow>>, ids: seq<Id>) returns (reps: seq<CaseRow>)
    requires forall c :: c in ids ==> c in grouped && grouped[c] == OfContract(cases, c) && grouped[c] != []
    ensures |reps| == |ids|
    ensures forall i :: 0 <= i < |ids| ==> reps[i].contract == ids[i] && FirstLeast(OfContract(cases, ids[i]), reps[i])
  {
    reps := [];
    for i := 0 to |ids|
      invariant |reps| == i
      invariant forall j :: 0 <= j < i ==> reps[j].contract == ids[j] && FirstLeast(OfContract(cases, ids[j]), reps[j])
    {
      assert ids[i] in ids;
      var best := Least(grouped[ids[i]]);
      assert best in OfContract(cases, ids[i]);
      reps := reps + [best];
    }
  }

  /** Exactly one representative for every Contract of the corpus, and no case's key is below its representative's. */
  lemma RepresentativesAreLeast(cases: seq<CaseRow>, reps: seq<CaseRow>, x: CaseRow)
    requires Representatives(cases, reps) && x in cases
    ensures exists i :: 0 <= i < |reps| && reps[i].contract == x.contract && reps[i] in cases && KeyLe(reps[i], x)
    ensures forall i, j :: 0 <= i < j < |reps| ==> reps[i].contract != reps[j].contract
  {
    var ids := SortedIds(ContractsOf(cases));
    assert x.contract in ids;
    var i :| 0 <= i < |ids| && ids[i] == x.contract;
    assert FirstLeast(OfContract(cases, reps[i].contract), reps[i]);
    assert x in OfContract(cases, x.contract);
    forall a, b | 0 <= a < b < |reps|
      ensures reps[a].contract != reps[b].contract
    {
      assert ids[a] != ids[b];
    }
  }

  lemma FirstLeastUnique(group: seq<CaseRow>, a: CaseRow, b: CaseRow)
    requires FirstLeast(group, a) && FirstLeast(group, b)
    ensures a == b
  {
  }

  /** The representatives are determined by the corpus. */
  lemma RepresentativesUnique(cases: seq<CaseRow>, r: seq<CaseRow>, q: seq<CaseRow>)
    requires Representatives(cases, r) && Representatives(cases, q)
    ensures r == q
  {
    forall i | 0 <= i < |r|
      ensures r[i] == q[i]
    {
      FirstLeastUnique(OfContract(cases, r[i].contract), r[i], q[i]);
    }
  }

  /** Among the cases of its Contract with its snapshot flag, none has a smaller family, and none of its family a
      smaller id. */
  lemma RepresentativeIsSmallest(cases: seq<CaseRow>, reps: seq<CaseRow>, i: nat, x: CaseRow)
    requires Representatives(cases, reps) && i < |reps|
    requires x in cases && x.contract == reps[i].contract && x.cleanSnapshot == reps[i].cleanSnapshot
    ensures StrLe(reps[i].caseFamily, x.caseFamily)
    ensures x.caseFamily == reps[i].caseFamily ==> StrLe(reps[i].caseId, x.caseId)
  {
    StrLeTotalOrder();
    var group := OfContract(cases, reps[i].contract);
    assert FirstLeast(group, reps[i]);
    assert x in group;
    assert KeyLe(reps[i], x);
  }

  // ----- which representative is preferred -----

  /** A representative shares the clean snapshot only when every case of its Contract does. */
  lemma RepresentativeAvoidsClean(cases: seq<CaseRow>, reps: seq<CaseRow>, i: nat)
    requires Representatives(cases, reps) && i < |reps|
    ensures reps[i] in cases
    ensures reps[i].cleanSnapshot <==> forall x :: x in cases && x.contract == reps[i].contract ==> x.cleanSnapshot
  {
    var group := OfContract(cases, reps[i].contract);
    assert FirstLeast(group, reps[i]);
    assert reps[i] in group;
    forall x | x in cases && x.contract == reps[i].contract
      ensures KeyLe(reps[i], x)
    {
      assert x in group;
    }
  }

  /** What the comment at the key asks for: a clean representative wherever the Contract has a clean case. */
  ghost predicate PrefersClean(cases: seq<CaseRow>, reps: seq<CaseRow>) {
    forall i, x :: 0 <= i < |reps| && x in cases && x.contract == reps[i].contract && x.cleanSnapshot ==>
      reps[i].cleanSnapshot
  }

  /** No Contract has cases of both kinds. */
  ghost predicate Unmixed(cases: seq<CaseRow>) {
    forall x, y :: x in cases && y in cases && x.contract == y.contract ==> x.cleanSnapshot == y.cleanSnapshot
  }

  /** The documented preference is met exactly by corpora that leave nothing to prefer. */
  lemma PrefersCleanIff(cases: seq<CaseRow>, reps: seq<CaseRow>)
    requires Representatives(cases, reps)
    ensures PrefersClean(cases, reps) <==> Unmixed(cases)
  {
    forall i | 0 <= i < |reps|
      ensures reps[i] in cases
      ensures reps[i].cleanSnapshot <==> forall x :: x in cases && x.contract == reps[i].contract ==> x.cleanSnapshot
    {
      RepresentativeAvoidsClean(cases, reps, i);
    }
    if PrefersClean(cases, reps) {
      forall x, y | x in cases && y in cases && x.contract == y.contract && x.cleanSnapshot
        ensures y.cleanSnapshot
      {
        RepresentativesAreLeast(cases, reps, x);
        var i :| 0 <= i < |reps| && reps[i].contract == x.contract;
        assert reps[i].cleanSnapshot;
      }
    }
  }

  /** A Contract with one clean and one unclean case is represented by the unclean one. */
  lemma MixedContractIsRepresentedUnclean(clean: CaseRow, unclean: CaseRow, reps: seq<CaseRow>)
    requires clean.contract == unclean.contract && clean.cleanSnapshot && !unclean.cleanSnapshot
    requires Representatives([clean, unclean], reps)
    ensures reps == [unclean] && !PrefersClean([clean, unclean], reps)
  {
    var cases := [clean, unclean];
    assert clean in cases && unclean in cases;
    assert ContractsOf(cases) == {clean.contract};
    RepresentativeAvoidsClean(cases, reps, 0);
    assert reps[0].contract == clean.contract by { RepresentativesAreLeast(cases, reps, clean); }
  }

  // ----- shards -----

  /** The cases of shard `i`, in corpus order. */
  function InShard(digest: Digest, cases: seq<CaseRow>, k: nat, i: nat): seq<CaseRow>
    requires k >= 1
  {
    if cases == [] then []
    else (if CaseShard(digest, cases[0].caseId, k) == i then [cases[0]] else []) + InShard(digest, cases[1..], k, i)
  }

  /** At most the first `max` of them. */
  function Cap(s: seq<CaseRow>, max: Option<int>): seq<CaseRow>
    requires max.Some? ==> max.value >= 1
  {
    if max.Some? && |s| > max.value then s[..max.value] else s
  }

  /** What a run selects from a corpus of candidates. */
  ghost predicate Selects(digest: Digest, cases: seq<CaseRow>, onePerContract: bool, max: Option<int>, k: nat, i: nat,
                          selected: seq<CaseRow>)
    requires k >= 1 && (max.Some? ==> max.value >= 1)
  {
    if onePerContract
    then exists reps :: Representatives(cases, reps) && selected == Cap(InShard(digest, reps, k, i), max)
    else selected == Cap(InShard(digest, cases, k, i), max)
  }

  method SelectCases(digest: Digest, cases: seq<CaseRow>, onePerContract: bool, maxCases: Option<int>,
                     shardCount: int, shardIndex: int)
    returns (r: Result<seq<CaseRow>, SelectionError>)
    ensures r.Ok? <==> shardCount >= 1 && 0 <= shardIndex < shardCount && (maxCases.Some? ==> maxCases.value >= 1)
    ensures r.Ok? ==> Selects(digest, cases, onePerContract, maxCases, shardCount, shardIndex, r.value)
    ensures r.Ok? && maxCases.None? && !onePerContract ==>
              forall x :: x in r.value <==>
                          x in cases && exists q: nat :: digest(x.caseId) == q * shardCount + shardIndex
    ensures r == Err(BadShardCount) <==> shardCount < 1
    ensures r == Err(BadShardIndex) <==> shardCount >= 1 && !(0 <= shardIndex < shardCount)
  {
    if shardCount < 1 { return Err(BadShardCount); }
    if shardIndex < 0 || shardIndex >= shardCount { return Err(BadShardIndex); }
    if maxCases.Some? && maxCases.value < 1 { return Err(BadMaxCases); }
    var corpus := cases;
    if onePerContract {
      corpus := OnePerContract(cases);
    }
    var selected := TakeShard(digest, corpus, shardCount, shardIndex, maxCases);
    forall x
      ensures x in InShard(digest, cases, shardCount, shardIndex)
              <==> x in cases && exists q: nat :: digest(x.caseId) == q * shardCount + shardIndex
    {
      ShardIsRemainder(digest, cases, shardCount, shardIndex, x);
    }
    return Ok(selected);
  }

  lemma {:induction false} InShardNext(digest: Digest, corpus: seq<CaseRow>, i: nat, k: nat, index: nat,
                                       before: seq<CaseRow>)
    requires k >= 1 && i < |corpus|
    ensures before + InShard(digest, corpus[i..], k, index) ==
            (if CaseShard(digest, corpus[i].caseId, k) == index then before + [corpus[i]] else before)
            + InShard(digest, corpus[i + 1..], k, index)
  {
    assert corpus[i..][0] == corpus[i] && corpus[i..][1..] == corpus[i + 1..];
  }

  lemma CapReached(selected: seq<CaseRow>, rest: seq<CaseRow>, max: int)
    requires 1 <= max == |selected|
    ensures selected == Cap(selected + rest, Some(max))
  {
  }

  method TakeShard(digest: Digest, corpus: seq<CaseRow>, k: nat, index: nat, max: Option<int>)
    returns (selected: seq<CaseRow>)
    requires k >= 1 && (max.Some? ==> max.value >= 1)
    ensures selected == Cap(InShard(digest, corpus, k, index), max)
  {
    ghost var whole := InShard(digest, corpus, k, index);
    selected := [];
    for i := 0 to |corpus|
      invariant selected + InShard(digest, corpus[i..], k, index) == whole
      invariant max.Some? ==> |selected| < max.value
    {
      InShardNext(digest, corpus, i, k, index, selected);
      if CaseShard(digest, corpus[i].caseId, k) == index {
        selected := selected + [corpus[i]];
        if max.Some? && |selected| >= max.value {
          CapReached(selected, InShard(digest, corpus[i + 1..], k, index), max.value);
          return;
        }
      }
    }
  }

  // ----- the shards of a corpus -----

  /** A shard holds the cases whose digest leaves its index as the remainder. */
  lemma {:induction false} ShardIsRemainder(digest: Digest, cases: seq<CaseRow>, k: nat, i: nat, x: CaseRow)
    requires i < k
    ensures x in InShard(digest, cases, k, i) <==> x in cases && exists q: nat :: digest(x.caseId) == q * k + i
  {
    ShardMultiplicity(digest, cases, k, i, x);
    assert x in InShard(digest, cases, k, i) <==> multiset(InShard(digest, cases, k, i))[x] > 0;
    assert x in cases <==> multiset(cases)[x] > 0;
    if q: nat :| digest(x.caseId) == q * k + i { QuotientIs(digest(x.caseId), q, k, i); }
  }

  lemma {:induction false} ShardIsSubsequence(digest: Digest, cases: seq<CaseRow>, k: nat, i: nat)
    requires k >= 1
    ensures Subsequence(InShard(digest, cases, k, i), cases)
    ensures forall x :: x in InShard(digest, cases, k, i) ==> CaseShard(digest, x.caseId, k) == i
  {
    if cases != [] {
      ShardIsSubsequence(digest, cases[1..], k, i);
      var rest := InShard(digest, cases[1..], k, i);
      if CaseShard(digest, cases[0].caseId, k) == i {
        assert ([cases[0]] + rest)[1..] == rest;
      } else {
        assert [] + rest == rest;
      }
    }
  }

  lemma {:induction false} ShardMultiplicity(digest: Digest, cases: seq<CaseRow>, k: nat, i: nat, x: CaseRow)
    requires k >= 1
    ensures multiset(InShard(digest, cases, k, i))[x]
            == if CaseShard(digest, x.caseId, k) == i then multiset(cases)[x] else 0
  {
    if cases != [] {
      ShardMultiplicity(digest, cases[1..], k, i, x);
      assert cases == [cases[0]] + cases[1..];
    }
  }

  /** `parts[j]` is shard `order[j]` of the corpus. */
  ghost predicate AreShards(digest: Digest, cases: seq<CaseRow>, k: nat, order: seq<nat>, parts: seq<seq<CaseRow>>)
    requires k >= 1
  {
    |parts| == |order| && forall j :: 0 <= j < |order| ==> parts[j] == InShard(digest, cases, k, order[j])
  }

  lemma {:induction false} ShardsMultiplicity(digest: Digest, cases: seq<CaseRow>, k: nat, order: seq<nat>,
                                              parts: seq<seq<CaseRow>>, x: CaseRow)
    requires k >= 1 && NoDup(order) && AreShards(digest, cases, k, order, parts)
    ensures multiset(Flatten(parts))[x] == if CaseShard(digest, x.caseId, k) in order then multiset(cases)[x] else 0
    decreases |order|
  {
    if order != [] {
      var n := |order| - 1;
      ShardsMultiplicity(digest, cases, k, order[..n], parts[..n], x);
      ShardMultiplicity(digest, cases, k, order[n], x);
      assert order == order[..n] + [order[n]] && order[n] !in order[..n];
    }
  }

  /** Every index below `k` once, in any order. */
  ghost predicate CompleteShardSet(order: seq<nat>, k: nat) {
    NoDup(order) && forall i :: i in order <==> i < k
  }

  /** The k shards in any order make up the corpus, each case in exactly one of them. */
  lemma {:induction false} ShardsPartition(digest: Digest, cases: seq<CaseRow>, k: nat, order: seq<nat>,
                                           parts: seq<seq<CaseRow>>)
    requires k >= 1 && CompleteShardSet(order, k) && AreShards(digest, cases, k, order, parts)
    ensures multiset(Flatten(parts)) == multiset(cases)
  {
    forall x ensures multiset(Flatten(parts))[x] == multiset(cases)[x] {
      ShardsMultiplicity(digest, cases, k, order, parts, x);
    }
  }

  /** Distinct shards share no case. */
  lemma {:induction false} ShardsDisjoint(digest: Digest, cases: seq<CaseRow>, k: nat, i: nat, j: nat, x: CaseRow)
    requires k >= 1 && i != j && x in InShard(digest, cases, k, i)
    ensures x !in InShard(digest, cases, k, j)
  {
    ShardIsSubsequence(digest, cases, k, i);
    ShardIsSubsequence(digest, cases, k, j);
  }

  /** One shard is the whole corpus. */
  lemma {:induction false} SingleShardIsAll(digest: Digest, cases: seq<CaseRow>)
    ensures InShard(digest, cases, 1, 0) == cases
  {
    if cases != [] {
      SingleShardIsAll(digest, cases[1..]);
      assert CaseShard(digest, cases[0].caseId, 1) == 0;
    }
  }

  /** What k shard runs and one whole run select from the same cases, without a cap. */
  ghost predicate ShardedSelections(digest: Digest, cases: seq<CaseRow>, one: bool, k: nat, order: seq<nat>,
                                    parts: seq<seq<CaseRow>>, whole: seq<CaseRow>)
    requires k >= 1
  {
    && CompleteShardSet(order, k) && |parts| == |order|
    && (forall j :: 0 <= j < |order| ==> Selects(digest, cases, one, None, k, order[j], parts[j]))
    && Selects(digest, cases, one, None, 1, 0, whole)
  }

  /** The selections partition the unsharded one, in order, also with one representative per Contract. */
  lemma {:induction false} SelectionsPartition(digest: Digest, cases: seq<CaseRow>, one: bool, k: nat, order: seq<nat>,
                            parts: seq<seq<CaseRow>>, whole: seq<CaseRow>)
    requires k >= 1 && ShardedSelections(digest, cases, one, k, order, parts, whole)
    ensures multiset(Flatten(parts)) == multiset(whole)
    ensures forall j :: 0 <= j < |parts| ==> Subsequence(parts[j], whole)
    ensures forall i, j, x :: 0 <= i < |parts| && 0 <= j < |parts| && x in parts[i] && x in parts[j] ==> i == j
  {
    AllFromOneCorpus(digest, cases, one, k, order, parts, whole);
    ShardsPartition(digest, whole, k, order, parts);
    forall j | 0 <= j < |parts| ensures Subsequence(parts[j], whole) { ShardIsSubsequence(digest, whole, k, order[j]); }
    forall i, j, x | 0 <= i < |parts| && 0 <= j < |parts| && x in parts[i] && x in parts[j]
      ensures i == j
    {
      ShardIsSubsequence(digest, whole, k, order[i]);
      ShardIsSubsequence(digest, whole, k, order[j]);
      assert order[i] == order[j];
    }
  }

  lemma AllFromOneCorpus(digest: Digest, cases: seq<CaseRow>, one: bool, k: nat, order: seq<nat>,
                         parts: seq<seq<CaseRow>>, whole: seq<CaseRow>)
    requires k >= 1 && ShardedSelections(digest, cases, one, k, order, parts, whole)
    ensures AreShards(digest, whole, k, order, parts)
    ensures one ==> Representatives(cases, whole)
    ensures !one ==> whole == cases
  {
    if one {
      var reps :| Representatives(cases, reps) && whole == Cap(InShard(digest, reps, 1, 0), None);
      SingleShardIsAll(digest, reps);
      forall j | 0 <= j < |order|
        ensures parts[j] == InShard(digest, whole, k, order[j])
      {
        var q :| Representatives(cases, q) && parts[j] == Cap(InShard(digest, q, k, order[j]), None);
        RepresentativesUnique(cases, q, reps);
      }
    } else {
      SingleShardIsAll(digest, cases);
      forall j | 0 <= j < |order|
        ensures parts[j] == InShard(digest, whole, k, order[j])
      {
        assert Selects(digest, cases, one, None, k, order[j], parts[j]);
      }
    }
  }
}
