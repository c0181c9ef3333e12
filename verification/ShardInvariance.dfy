/** Sharding is invisible: merging the shards' documents gives what one whole run gives. */
module ShardInvariance {
  import opened Sequences
  import opened Orders
  import opened Contracts
  import opened Scoring
  import opened Results
  import opened Selection
  import opened Outcomes

  // ----- outcomes of a reordered list of cases -----

  lemma {:induction false} OutcomesPermute(f: OutcomeFn, a: seq<CaseRow>, b: seq<CaseRow>)
    requires multiset(a) == multiset(b)
    ensures multiset(ResultsFor(f, a)) == multiset(ResultsFor(f, b))
    ensures multiset(UnsupportedFor(f, a)) == multiset(UnsupportedFor(f, b))
  {
    var results := (rows: seq<CaseRow>) => multiset(ResultsFor(f, rows));
    forall x, y ensures Adds(results, x, y) { ResultsAppend(f, x, y); }
    AdditivePermutes(results, a, b);
    var unsupported := (rows: seq<CaseRow>) => multiset(UnsupportedFor(f, rows));
    forall x, y ensures Adds(unsupported, x, y) { UnsupportedAppend(f, x, y); }
    AdditivePermutes(unsupported, a, b);
  }

  // ----- documents of the shards -----

  /** `documents[j]` is what a run on `parts[j]` writes. */
  ghost predicate AreRuns(s: Setup, k: nat, parts: seq<seq<CaseRow>>, runIds: seq<string>, documents: seq<Document>)
    requires GoodSetup(s)
  {
    && |documents| == |parts| == |runIds|
    && forall j :: 0 <= j < |parts| ==> documents[j] == RunDocument(s, runIds[j], k, parts[j])
  }

  /** `documents[j]` holds the results and the unsupported cases of `parts[j]`. */
  ghost predicate Carry(f: OutcomeFn, parts: seq<seq<CaseRow>>, documents: seq<Document>) {
    && |documents| == |parts|
    && forall j :: 0 <= j < |parts| ==>
         CasesOf(documents[j]) == ResultsFor(f, parts[j]) && UnsupportedOf(documents[j]) == UnsupportedFor(f, parts[j])
  }

  lemma RunsCarry(s: Setup, k: nat, parts: seq<seq<CaseRow>>, runIds: seq<string>, documents: seq<Document>)
    requires GoodSetup(s) && AreRuns(s, k, parts, runIds, documents)
    ensures Carry(OutcomesUnder(s), parts, documents)
  {
  }

  lemma {:induction false} ConcatOfCarried(f: OutcomeFn, parts: seq<seq<CaseRow>>, documents: seq<Document>)
    requires Carry(f, parts, documents)
    ensures ConcatCases(documents) == ResultsFor(f, Flatten(parts))
    ensures ConcatUnsupported(documents) == UnsupportedFor(f, Flatten(parts))
    decreases |parts|
  {
    if parts != [] {
      var n := |parts| - 1;
      ConcatOfCarried(f, parts[..n], documents[..n]);
      ResultsAppend(f, Flatten(parts[..n]), parts[n]);
      UnsupportedAppend(f, Flatten(parts[..n]), parts[n]);
    }
  }

  lemma {:induction false} MergedCasesAreRunCases(s: Setup, k: nat, parts: seq<seq<CaseRow>>, runIds: seq<string>,
                                                  documents: seq<Document>)
    requires GoodSetup(s) && AreRuns(s, k, parts, runIds, documents)
    ensures ConcatCases(documents) == ResultsFor(OutcomesUnder(s), Flatten(parts))
    ensures ConcatUnsupported(documents) == UnsupportedFor(OutcomesUnder(s), Flatten(parts))
  {
    RunsCarry(s, k, parts, runIds, documents);
    ConcatOfCarried(OutcomesUnder(s), parts, documents);
  }

  /** Merging reads an empty profile name as `local`, which matters where it changes whether performance is official. */
  ghost predicate ProfileSurvivesMerge(s: Setup) {
    || s.cfg.nativeThresholds == []
    || (s.profile == "" ==> ("" in s.cfg.officialProfiles <==> "local" in s.cfg.officialProfiles))
  }

  /** Of a profile, the scores reflect nothing but whether its performance is official, and only if there is a
      threshold. */
  lemma ScoreDependsOnOfficial(cfg: Config, m: LogExp, results: seq<CaseResult>, levels: map<Id, Level>, p: string,
                               q: string)
    requires |cfg.weights| == LEVEL_COUNT
    ensures ScoreOf(cfg, m, results, levels, p) == ScoreOf(cfg, m, results, levels, q)
            <==> cfg.nativeThresholds == [] || (p in cfg.officialProfiles <==> q in cfg.officialProfiles)
  {
    var a, b := ScoreOf(cfg, m, results, levels, p), ScoreOf(cfg, m, results, levels, q);
    if cfg.nativeThresholds == [] || (p in cfg.officialProfiles <==> q in cfg.officialProfiles) {
      assert a.native == b.native;
    } else {
      assert a.native[0] != b.native[0];
    }
  }

  /** What a merge and a single run agree on: everything but the order of cases. */
  ghost predicate AgreeUpToOrder(a: Document, b: Document) {
    && a.contracts.Some? && b.contracts.Some?
    && a.contracts.value.Keys == b.contracts.value.Keys
    && (forall c :: c in b.contracts.value ==> SameAggregate(a.contracts.value[c], b.contracts.value[c]))
    && multiset(CasesOf(a)) == multiset(CasesOf(b))
    && multiset(UnsupportedOf(a)) == multiset(UnsupportedOf(b))
  }

  /** Merging documents with the cases of a scored one, in any order, against that one. */
  lemma {:induction false} MergeAgrees(cfg: Config, m: LogExp, documents: seq<Document>, levels: map<Id, Level>,
                                       runId: string, single: Document, profile: string)
    requires documents != [] && |cfg.weights| == LEVEL_COUNT
    requires multiset(ConcatCases(documents)) == multiset(CasesOf(single))
    requires multiset(ConcatUnsupported(documents)) == multiset(UnsupportedOf(single))
    requires single.scores == Some(ScoreOf(cfg, m, CasesOf(single), levels, profile))
    requires single.contracts == Some(Aggregates(CasesOf(single)))
    ensures AgreeUpToOrder(Merged(cfg, m, documents, levels, runId), single)
    ensures Merged(cfg, m, documents, levels, runId).scores == single.scores
            <==> (cfg.nativeThresholds == []
                  || (ProfileOf(documents[0]) in cfg.officialProfiles <==> profile in cfg.officialProfiles))
  {
    ScoresPermute(cfg, m, ConcatCases(documents), CasesOf(single), levels, ProfileOf(documents[0]));
    ScoreDependsOnOfficial(cfg, m, CasesOf(single), levels, ProfileOf(documents[0]), profile);
    AggregatesPermute(ConcatCases(documents), CasesOf(single));
  }

  lemma {:induction false} RunDocumentReports(s: Setup, runId: string, k: int, rows: seq<CaseRow>)
    requires GoodSetup(s)
    ensures var d := RunDocument(s, runId, k, rows);
            && CasesOf(d) == ResultsFor(OutcomesUnder(s), rows)
            && UnsupportedOf(d) == UnsupportedFor(OutcomesUnder(s), rows)
            && d.scores == Some(ScoreOf(s.cfg, s.math, CasesOf(d), LevelsOf(s.contracts), s.profile))
            && d.contracts == Some(Aggregates(CasesOf(d)))
            && ProfileOf(d) == (if s.profile == "" then "local" else s.profile)
  {
  }

  lemma {:induction false} ShardsCoverRun(s: Setup, digest: Digest, cases: seq<CaseRow>, one: bool, k: nat,
                                          order: seq<nat>, parts: seq<seq<CaseRow>>, whole: seq<CaseRow>,
                                          runIds: seq<string>, documents: seq<Document>)
    requires GoodSetup(s)
    requires k >= 1 && ShardedSelections(digest, cases, one, k, order, parts, whole)
    requires AreRuns(s, k, parts, runIds, documents)
    ensures documents != []
    ensures multiset(ConcatCases(documents)) == multiset(ResultsFor(OutcomesUnder(s), whole))
    ensures multiset(ConcatUnsupported(documents)) == multiset(UnsupportedFor(OutcomesUnder(s), whole))
  {
    assert 0 in order;
    SelectionsPartition(digest, cases, one, k, order, parts, whole);
    MergedCasesAreRunCases(s, k, parts, runIds, documents);
    OutcomesPermute(OutcomesUnder(s), Flatten(parts), whole);
  }

  /** Merging a complete shard set in any order: the aggregates and the cases of the whole run, and, as far as the
      profile survives, its scores. */
  lemma ShardingIsInvisible(s: Setup, digest: Digest, cases: seq<CaseRow>, one: bool, k: nat, order: seq<nat>,
                            parts: seq<seq<CaseRow>>, whole: seq<CaseRow>,
                            runIds: seq<string>, documents: seq<Document>, runId: string)
    requires GoodSetup(s)
    requires k >= 1 && ShardedSelections(digest, cases, one, k, order, parts, whole)
    requires AreRuns(s, k, parts, runIds, documents)
    ensures documents != []
    ensures AgreeUpToOrder(Merged(s.cfg, s.math, documents, LevelsOf(s.contracts), runId),
                           RunDocument(s, runId, 1, whole))
    ensures Merged(s.cfg, s.math, documents, LevelsOf(s.contracts), runId).scores
            == RunDocument(s, runId, 1, whole).scores
            <==> ProfileSurvivesMerge(s)
  {
    ShardsCoverRun(s, digest, cases, one, k, order, parts, whole, runIds, documents);
    RunDocumentReports(s, runIds[0], k, parts[0]);
    RunDocumentReports(s, runId, 1, whole);
    MergeAgrees(s.cfg, s.math, documents, LevelsOf(s.contracts), runId, RunDocument(s, runId, 1, whole), s.profile);
  }

  /** Reordering the cases of a quiet run on distinct cases keeps their number and keeps ids distinct. */
  lemma {:induction false} ReorderedRunAccounts(f: OutcomeFn, rows: seq<CaseRow>, whole: seq<CaseRow>)
    requires Labelled(f) && UniqueCases(whole) && Quiet(f, whole) && multiset(rows) == multiset(whole)
    ensures |ResultsFor(f, rows)| + |UnsupportedFor(f, rows)| == |whole|
    ensures NoDup(CaseIds(ResultsFor(f, rows)))
  {
    OutcomesPermute(f, rows, whole);
    ResultIdsUnique(f, whole);
    OutcomesAccount(f, whole);
    SameMembers(ResultsFor(f, whole), ResultsFor(f, rows));
    SameMembers(UnsupportedFor(f, whole), UnsupportedFor(f, rows));
    IdsPermute(ResultsFor(f, whole), ResultsFor(f, rows));
    MultisetNoDup(CaseIds(ResultsFor(f, whole)), CaseIds(ResultsFor(f, rows)));
  }

  /** The cases of a complete shard set of quiet runs on distinct cases: nothing missing, nothing twice. */
  lemma {:induction false} ShardCasesAccount(s: Setup, digest: Digest, cases: seq<CaseRow>, one: bool, k: nat,
                                             order: seq<nat>, parts: seq<seq<CaseRow>>, whole: seq<CaseRow>,
                                             runIds: seq<string>, documents: seq<Document>)
    requires GoodSetup(s) && UniqueCases(whole) && Quiet(OutcomesUnder(s), whole)
    requires k >= 1 && ShardedSelections(digest, cases, one, k, order, parts, whole)
    requires AreRuns(s, k, parts, runIds, documents)
    ensures |ConcatCases(documents)| + |ConcatUnsupported(documents)| == |whole|
    ensures NoDup(CaseIds(ConcatCases(documents)))
  {
    SelectionsPartition(digest, cases, one, k, order, parts, whole);
    OutcomesUnderLabelled(s);
    ReorderedRunAccounts(OutcomesUnder(s), Flatten(parts), whole);
    MergedCasesAreRunCases(s, k, parts, runIds, documents);
  }

  /** Merging a complete shard set of runs on distinct cases validates, and accounts for the whole selection. */
  lemma MergedShardsAreAcceptable(s: Setup, digest: Digest, cases: seq<CaseRow>, one: bool, k: nat, order: seq<nat>,
                                  parts: seq<seq<CaseRow>>, whole: seq<CaseRow>,
                                  runIds: seq<string>, documents: seq<Document>, runId: string)
    requires GoodSetup(s) && UniqueCases(whole) && Quiet(OutcomesUnder(s), whole)
    requires k >= 1 && ShardedSelections(digest, cases, one, k, order, parts, whole)
    requires AreRuns(s, k, parts, runIds, documents)
    ensures documents != []
    ensures var merged := Merged(s.cfg, s.math, documents, LevelsOf(s.contracts), runId);
            Acceptable(merged) && merged.selection.value.requested == Some(|whole|)
  {
    ShardsCoverRun(s, digest, cases, one, k, order, parts, whole, runIds, documents);
    ShardCasesAccount(s, digest, cases, one, k, order, parts, whole, runIds, documents);
    RunsHaveSchema(s, k, parts, runIds, documents);
    MergedAcceptable(s.cfg, s.math, documents, LevelsOf(s.contracts), runId);
  }

  lemma RunsHaveSchema(s: Setup, k: nat, parts: seq<seq<CaseRow>>, runIds: seq<string>, documents: seq<Document>)
    requires GoodSetup(s) && AreRuns(s, k, parts, runIds, documents) && documents != []
    ensures documents[0].schemaVersion == Some(RESULT_SCHEMA) && documents[0].benchmarkVersion.Some?
  {
    assert documents[0] == RunDocument(s, runIds[0], k, parts[0]);
  }

  lemma IdsPermute(a: seq<CaseResult>, b: seq<CaseResult>)
    requires multiset(a) == multiset(b)
    ensures multiset(CaseIds(a)) == multiset(CaseIds(b))
  {
    var ids := (s: seq<CaseResult>) => multiset(CaseIds(s));
    forall x, y ensures Adds(ids, x, y) { assert CaseIds(x + y) == CaseIds(x) + CaseIds(y); }
    AdditivePermutes(ids, a, b);
  }

  /** With an empty profile name and `local` the only official one, merging a single whole run already changes its
      scores. */
  lemma EmptyProfileChangesScores(s: Setup, runId: string, rows: seq<CaseRow>, single: Document)
    requires GoodSetup(s) && s.profile == "" && s.cfg.officialProfiles == {"local"} && s.cfg.nativeThresholds == [0.9]
    requires single == RunDocument(s, runId, 1, rows)
    ensures Merged(s.cfg, s.math, [single], LevelsOf(s.contracts), runId).scores != single.scores
  {
    RunDocumentReports(s, runId, 1, rows);
    ConcatOfOne(single);
    MergeAgrees(s.cfg, s.math, [single], LevelsOf(s.contracts), runId, single, s.profile);
  }

  /** Merging runs of one setup raises nothing: one version, and only known Contracts. */
  lemma {:induction false} RunsMerge(s: Setup, k: nat, parts: seq<seq<CaseRow>>, runIds: seq<string>,
                                     documents: seq<Document>)
    requires GoodSetup(s) && AreRuns(s, k, parts, runIds, documents)
    ensures OneVersion(documents) && Evaluated(ConcatCases(documents)) <= LevelsOf(s.contracts).Keys
  {
    MergedCasesAreRunCases(s, k, parts, runIds, documents);
    ResultsAreKnown(s, Flatten(parts));
    forall d | d in documents ensures d.benchmarkVersion == Some(s.benchmarkVersion) {
      var j :| 0 <= j < |documents| && documents[j] == d;
      assert documents[j] == RunDocument(s, runIds[j], k, parts[j]);
    }
  }
}
