/** What a merge claims about completeness, and when the claim is true. */
module MergeCompleteness {
  import opened Arithmetic
  import opened Sequences
  import opened Orders
  import opened Results
  import opened Selection
  import opened Outcomes
  import opened ShardInvariance

  // ----- which case ids some shards hold, and how often -----

  /** How often the case id `y` occurs among `rows`. */
  ghost function Copies(rows: seq<CaseRow>, y: Id): nat {
    multiset(IdsOf(rows))[y]
  }

  lemma CopiesCons(x: CaseRow, rest: seq<CaseRow>, y: Id)
    ensures Copies([x] + rest, y) == Copies(rest, y) + if x.caseId == y then 1 else 0
  {
    assert IdsOf([x] + rest) == [x.caseId] + IdsOf(rest);
  }

  lemma CopiesAppend(a: seq<CaseRow>, b: seq<CaseRow>, y: Id)
    ensures Copies(a + b, y) == Copies(a, y) + Copies(b, y)
  {
    assert IdsOf(a + b) == IdsOf(a) + IdsOf(b);
  }

  lemma {:induction false} CopiesMeanCase(rows: seq<CaseRow>, y: Id)
    ensures Copies(rows, y) > 0 <==> exists i :: 0 <= i < |rows| && rows[i].caseId == y
  {
    if Copies(rows, y) > 0 {
      assert y in IdsOf(rows);
      var i :| 0 <= i < |rows| && IdsOf(rows)[i] == y;
      assert rows[i].caseId == y;
    }
    if i :| 0 <= i < |rows| && rows[i].caseId == y {
      assert IdsOf(rows)[i] == y;
    }
  }

  lemma {:induction false} ShardCopies(digest: Digest, cases: seq<CaseRow>, k: nat, i: nat, y: Id)
    requires k >= 1
    ensures Copies(InShard(digest, cases, k, i), y) == if CaseShard(digest, y, k) == i then Copies(cases, y) else 0
  {
    if cases != [] {
      var x, rest := cases[0], cases[1..];
      assert cases == [x] + rest;
      ShardCopies(digest, rest, k, i, y);
      CopiesCons(x, rest, y);
      CopiesCons(x, InShard(digest, rest, k, i), y);
      if CaseShard(digest, x.caseId, k) != i { assert InShard(digest, cases, k, i) == InShard(digest, rest, k, i); }
    }
  }

  lemma CountLast(order: seq<nat>, i: nat)
    requires order != []
    ensures var n := |order| - 1;
            multiset(order)[i] == multiset(order[..n])[i] + if order[n] == i then 1 else 0
  {
    assert order == order[..|order| - 1] + [order[|order| - 1]];
  }

  /** A case is held as often as its shard is given. */
  lemma {:induction false} ShardsCopies(digest: Digest, cases: seq<CaseRow>, k: nat, order: seq<nat>,
                                        parts: seq<seq<CaseRow>>, y: Id)
    requires k >= 1 && AreShards(digest, cases, k, order, parts)
    ensures Copies(Flatten(parts), y) == multiset(order)[CaseShard(digest, y, k)] * Copies(cases, y)
    decreases |order|
  {
    if order != [] {
      var n := |order| - 1;
      ShardsCopies(digest, cases, k, order[..n], parts[..n], y);
      ShardCopies(digest, cases, k, order[n], y);
      CopiesAppend(Flatten(parts[..n]), parts[n], y);
      CountLast(order, CaseShard(digest, y, k));
      Distribute(multiset(order[..n])[CaseShard(digest, y, k)], Copies(cases, y));
    } else {
      assert multiset(order)[CaseShard(digest, y, k)] == 0;
    }
  }

  lemma Distribute(times: nat, each: nat)
    ensures (times + 1) * each == times * each + each
    ensures 0 * each == 0 && times * 0 == 0
  {
  }

  /** The shard of every selected case is given exactly once. */
  ghost predicate EachOnce(digest: Digest, whole: seq<CaseRow>, k: nat, order: seq<nat>)
    requires k >= 1
  {
    forall x :: x in whole ==> multiset(order)[CaseShard(digest, x.caseId, k)] == 1
  }

  lemma {:induction false} SameIdsIff(a: seq<CaseRow>, b: seq<CaseRow>)
    ensures multiset(IdsOf(a)) == multiset(IdsOf(b)) <==> forall y :: Copies(a, y) == Copies(b, y)
  {
    if forall y :: Copies(a, y) == Copies(b, y) {
      forall y ensures multiset(IdsOf(a))[y] == multiset(IdsOf(b))[y] { assert Copies(a, y) == Copies(b, y); }
    }
  }

  lemma {:induction false} HoldsAllOnceIff(digest: Digest, whole: seq<CaseRow>, k: nat, order: seq<nat>,
                                           parts: seq<seq<CaseRow>>)
    requires k >= 1 && AreShards(digest, whole, k, order, parts)
    ensures multiset(IdsOf(Flatten(parts))) == multiset(IdsOf(whole)) <==> EachOnce(digest, whole, k, order)
  {
    SameIdsIff(Flatten(parts), whole);
    forall y
      ensures Copies(whole, y) > 0 ==>
                (Copies(Flatten(parts), y) == Copies(whole, y) <==> multiset(order)[CaseShard(digest, y, k)] == 1)
      ensures Copies(whole, y) == 0 ==> Copies(Flatten(parts), y) == 0
    {
      ShardsCopies(digest, whole, k, order, parts, y);
      OnlyFactor(multiset(order)[CaseShard(digest, y, k)], Copies(whole, y));
    }
    forall y
      ensures Copies(whole, y) > 0 <==> exists i :: 0 <= i < |whole| && whole[i].caseId == y
    {
      CopiesMeanCase(whole, y);
    }
    if EachOnce(digest, whole, k, order) {
      forall y ensures Copies(Flatten(parts), y) == Copies(whole, y) {
        if Copies(whole, y) > 0 {
          var i :| 0 <= i < |whole| && whole[i].caseId == y;
          assert whole[i] in whole;
        }
      }
    }
    if forall y :: Copies(Flatten(parts), y) == Copies(whole, y) {
      forall x | x in whole ensures multiset(order)[CaseShard(digest, x.caseId, k)] == 1 {
        var i :| 0 <= i < |whole| && whole[i] == x;
        assert Copies(Flatten(parts), x.caseId) == Copies(whole, x.caseId) > 0;
      }
    }
  }

  lemma OnlyFactor(times: nat, each: nat)
    ensures each > 0 ==> (times * each == each <==> times == 1)
    ensures each == 0 ==> times * each == 0
  {
    if times >= 2 && each > 0 {
      AtLeastOnce(times - 1, each);
      Distribute(times - 1, each);
    }
  }

  // ----- the claim -----

  lemma SubBagSize<T>(M: multiset<T>, W: multiset<T>)
    requires M <= W
    ensures |M| == |W| <==> M == W
  {
    assert W == M + (W - M);
  }

  /** The merged shards cover the shard of every selected case. */
  ghost predicate Covers(digest: Digest, whole: seq<CaseRow>, k: nat, order: seq<nat>)
    requires k >= 1
  {
    forall x :: x in whole ==> CaseShard(digest, x.caseId, k) in order
  }

  lemma {:induction false} ShardsWithin(digest: Digest, whole: seq<CaseRow>, k: nat, order: seq<nat>,
                                        parts: seq<seq<CaseRow>>)
    requires k >= 1 && NoDup(order) && AreShards(digest, whole, k, order, parts)
    ensures multiset(Flatten(parts)) <= multiset(whole)
    ensures multiset(Flatten(parts)) == multiset(whole) <==> Covers(digest, whole, k, order)
  {
    var M, W := multiset(Flatten(parts)), multiset(whole);
    forall x ensures M[x] == if CaseShard(digest, x.caseId, k) in order then W[x] else 0 {
      ShardsMultiplicity(digest, whole, k, order, parts, x);
    }
    if Covers(digest, whole, k, order) {
      forall x ensures M[x] == W[x] { assert W[x] > 0 ==> x in whole; }
    } else {
      var x :| x in whole && CaseShard(digest, x.caseId, k) !in order;
      assert W[x] > 0 && M[x] == 0;
    }
  }

  /** Some shards of the selection add up to all of it exactly when they cover the shard of every case. */
  lemma {:induction false} ShardsAddUpIff(digest: Digest, whole: seq<CaseRow>, k: nat, order: seq<nat>,
                                          parts: seq<seq<CaseRow>>)
    requires k >= 1 && NoDup(order) && AreShards(digest, whole, k, order, parts)
    ensures |Flatten(parts)| == |whole| <==> Covers(digest, whole, k, order)
    ensures forall x :: x in Flatten(parts) ==> x in whole
  {
    var M, W := multiset(Flatten(parts)), multiset(whole);
    ShardsWithin(digest, whole, k, order, parts);
    SubBagSize(M, W);
    forall x | x in Flatten(parts) ensures x in whole { assert x in M; assert x in W; }
  }

  lemma {:induction false} RequestOf(f: OutcomeFn, rows: seq<CaseRow>, documents: seq<Document>)
    requires Quiet(f, rows)
    requires ConcatCases(documents) == ResultsFor(f, rows) && ConcatUnsupported(documents) == UnsupportedFor(f, rows)
    ensures MergedSelection(documents).requested == Some(|rows|) && MergedSelection(documents).completeShardSet
  {
    OutcomesAccount(f, rows);
  }

  lemma {:induction false} QuietRequest(s: Setup, k: nat, parts: seq<seq<CaseRow>>, runIds: seq<string>,
                                        documents: seq<Document>)
    requires GoodSetup(s) && AreRuns(s, k, parts, runIds, documents)
    requires Quiet(OutcomesUnder(s), Flatten(parts))
    ensures MergedSelection(documents).requested == Some(|Flatten(parts)|)
            && MergedSelection(documents).completeShardSet
  {
    MergedCasesAreRunCases(s, k, parts, runIds, documents);
    RequestOf(OutcomesUnder(s), Flatten(parts), documents);
  }

  /** A merge of quiet runs requests what its parts selected, and claims a complete shard set whatever they are. */
  lemma {:induction false} MergedRequest(s: Setup, k: nat, parts: seq<seq<CaseRow>>, runIds: seq<string>,
                                         documents: seq<Document>, runId: string)
    requires GoodSetup(s) && AreRuns(s, k, parts, runIds, documents) && documents != []
    requires Quiet(OutcomesUnder(s), Flatten(parts))
    ensures var merged := Merged(s.cfg, s.math, documents, LevelsOf(s.contracts), runId);
            merged.selection.value.requested == Some(|Flatten(parts)|) && merged.selection.value.completeShardSet
  {
    QuietRequest(s, k, parts, runIds, documents);
    var scores, aggregates := MergedIsReplaced(s.cfg, s.math, documents, LevelsOf(s.contracts), runId);
  }

  lemma {:induction false} GivenAreWhole(digest: Digest, whole: seq<CaseRow>, k: nat, order: seq<nat>,
                                         parts: seq<seq<CaseRow>>)
    requires k >= 1 && AreShards(digest, whole, k, order, parts)
    ensures forall x :: x in Flatten(parts) ==> x in whole
    decreases |order|
  {
    if order != [] {
      var n := |order| - 1;
      GivenAreWhole(digest, whole, k, order[..n], parts[..n]);
      forall x | x in parts[n]
        ensures x in whole
      {
        assert x in multiset(parts[n]);
        ShardMultiplicity(digest, whole, k, order[n], x);
        assert x in multiset(whole);
      }
    }
  }

  lemma {:induction false} MergeHolds(s: Setup, k: nat, parts: seq<seq<CaseRow>>, runIds: seq<string>,
                                      documents: seq<Document>, runId: string)
    requires GoodSetup(s) && AreRuns(s, k, parts, runIds, documents) && documents != []
    requires Quiet(OutcomesUnder(s), Flatten(parts))
    ensures HeldIds(Merged(s.cfg, s.math, documents, LevelsOf(s.contracts), runId)) == multiset(IdsOf(Flatten(parts)))
  {
    MergedCasesAreRunCases(s, k, parts, runIds, documents);
    OutcomesUnderLabelled(s);
    OutcomeIds(OutcomesUnder(s), Flatten(parts));
    var scores, aggregates := MergedIsReplaced(s.cfg, s.math, documents, LevelsOf(s.contracts), runId);
  }

  /** A merge of shards claims to be complete whichever it was given, and however often. It holds every selected case
      exactly once if and only if the shard of each was given exactly once. For distinct shards the number of requested
      cases tells; otherwise it does not. */
  lemma CompletenessClaimIff(s: Setup, digest: Digest, whole: seq<CaseRow>, k: nat, order: seq<nat>,
                             parts: seq<seq<CaseRow>>, runIds: seq<string>, documents: seq<Document>, runId: string)
    requires GoodSetup(s) && Quiet(OutcomesUnder(s), whole)
    requires k >= 1 && order != [] && AreShards(digest, whole, k, order, parts)
    requires AreRuns(s, k, parts, runIds, documents)
    ensures documents != []
    ensures var merged := Merged(s.cfg, s.math, documents, LevelsOf(s.contracts), runId);
            && merged.selection.value.completeShardSet
            && (HeldIds(merged) == multiset(IdsOf(whole)) <==> EachOnce(digest, whole, k, order))
            && (NoDup(order) ==>
                 (merged.selection.value.requested == Some(|whole|) <==> Covers(digest, whole, k, order)))
  {
    GivenAreWhole(digest, whole, k, order, parts);
    MergedRequest(s, k, parts, runIds, documents, runId);
    MergeHolds(s, k, parts, runIds, documents, runId);
    HoldsAllOnceIff(digest, whole, k, order, parts);
    if NoDup(order) { ShardsAddUpIff(digest, whole, k, order, parts); }
  }

  lemma {:induction false} FirstOfTwo(digest: Digest, a: CaseRow, b: CaseRow)
    requires CaseShard(digest, a.caseId, 2) == 0 && CaseShard(digest, b.caseId, 2) == 1
    ensures InShard(digest, [a, b], 2, 0) == [a]
    ensures Flatten([[a]]) == [a]
  {
    assert [a, b][1..] == [b] && [b][1..] == [];
    assert InShard(digest, [b], 2, 0) == [];
    assert InShard(digest, [a, b], 2, 0) == [a] + InShard(digest, [b], 2, 0);
    assert [[a]][..0] == [] && Flatten([[a]]) == Flatten([[a]][..0]) + [a];
    assert Flatten<CaseRow>([]) == [];
  }

  /** Two cases in different shards, of which only the first is merged: the result claims to be complete and lacks a
      case. */
  lemma LoneShardClaimsComplete(s: Setup, digest: Digest, a: CaseRow, b: CaseRow, lone: Document, shardRunId: string,
                                runId: string)
    requires GoodSetup(s) && Quiet(OutcomesUnder(s), [a, b])
    requires CaseShard(digest, a.caseId, 2) == 0 && CaseShard(digest, b.caseId, 2) == 1
    requires lone == RunDocument(s, shardRunId, 2, InShard(digest, [a, b], 2, 0))
    ensures var merged := Merged(s.cfg, s.math, [lone], LevelsOf(s.contracts), runId);
            merged.selection.value.completeShardSet && merged.selection.value.requested == Some(1) && |[a, b]| == 2
  {
    FirstOfTwo(digest, a, b);
    assert a in [a, b];
    var parts := [[a]];
    assert Flatten(parts) == [a] && |Flatten(parts)| == 1;
    MergedRequest(s, 2, parts, [shardRunId], [lone], runId);
  }

  lemma {:induction false} FirstTwice(digest: Digest, a: CaseRow, b: CaseRow)
    requires CaseShard(digest, a.caseId, 2) == 0 && CaseShard(digest, b.caseId, 2) == 1
    ensures Flatten([[a], [a]]) == [a, a]
    ensures multiset(IdsOf([a, a])) != multiset(IdsOf([a, b]))
  {
    var parts := [[a], [a]];
    FirstOfTwo(digest, a, b);
    assert parts[..1] == [[a]];
    assert b.caseId !in IdsOf([a, a]) && IdsOf([a, b])[1] == b.caseId;
    assert b.caseId in multiset(IdsOf([a, b]));
  }

  /** The same shard given twice: as many requested cases as selected ones, and still one of them is missing. */
  lemma ShardTwiceLooksComplete(s: Setup, digest: Digest, a: CaseRow, b: CaseRow, documents: seq<Document>,
                                runIds: seq<string>, runId: string)
    requires GoodSetup(s) && Quiet(OutcomesUnder(s), [a, b])
    requires CaseShard(digest, a.caseId, 2) == 0 && CaseShard(digest, b.caseId, 2) == 1
    requires AreRuns(s, 2, [InShard(digest, [a, b], 2, 0), InShard(digest, [a, b], 2, 0)], runIds, documents)
    ensures documents != []
    ensures var merged := Merged(s.cfg, s.math, documents, LevelsOf(s.contracts), runId);
            && merged.selection.value.completeShardSet && merged.selection.value.requested == Some(|[a, b]|)
            && HeldIds(merged) != multiset(IdsOf([a, b]))
  {
    FirstOfTwo(digest, a, b);
    FirstTwice(digest, a, b);
    assert a in [a, b];
    MergedRequest(s, 2, [[a], [a]], runIds, documents, runId);
    MergeHolds(s, 2, [[a], [a]], runIds, documents, runId);
  }
}
