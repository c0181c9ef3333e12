/** Result documents: per-Contract aggregates, validation and merging. */
module Results {
  import opened Sequences
  import opened Orders
  import opened Contracts
  import opened Scoring
  import opened ScoringLaws
  import opened ScoreComputation

  datatype Unsupported = Unsupported(caseId: Id, reason: string)

  datatype Aggregate = Aggregate(passed: bool, passRate: real, caseCount: nat, failedCases: seq<Id>)

  datatype SelectionDoc = SelectionDoc(requested: Option<int>, evaluated: int, unsupported: int, completeShardSet: bool)

  /** A result file; `None` marks a key that is absent. */
  datatype Document = Document(
    schemaVersion: Option<string>,
    benchmarkVersion: Option<string>,
    runId: Option<string>,
    profile: Option<string>,
    scores: Option<Scores>,
    contracts: Option<map<Id, Aggregate>>,
    selection: Option<SelectionDoc>,
    cases: Option<seq<CaseResult>>,
    unsupported: Option<seq<Unsupported>>)

  const RESULT_SCHEMA := "osbench.results.v1"

  // ----- aggregates -----

  /** A Contract's results, in order. */
  function ResultsOf(results: seq<CaseResult>, c: Id): (r: seq<CaseResult>)
    ensures |r| == Total(results, c)
  {
    if results == [] then []
    else
      var last := results[|results| - 1];
      ResultsOf(results[..|results| - 1], c) + if last.contract == c then [last] else []
  }

  function PassCount(results: seq<CaseResult>): nat {
    if results == [] then 0 else PassCount(results[..|results| - 1]) + if results[|results| - 1].passed then 1 else 0
  }

  function FailedIds(results: seq<CaseResult>): seq<Id> {
    if results == [] then []
    else
      var last := results[|results| - 1];
      FailedIds(results[..|results| - 1]) + if last.passed then [] else [last.caseId]
  }

  function AggregateOf(results: seq<CaseResult>, c: Id): Aggregate
    requires c in Evaluated(results)
  {
    EvaluatedHaveCases(results, c);
    Aggregate(Passed(results, c) == Total(results, c), Ratio(Passed(results, c), Total(results, c)),
              Total(results, c), FailedIds(ResultsOf(results, c)))
  }

  function Aggregates(results: seq<CaseResult>): map<Id, Aggregate> {
    map c | c in Evaluated(results) :: AggregateOf(results, c)
  }

  lemma {:induction false} PassCountOfContract(results: seq<CaseResult>, c: Id)
    ensures PassCount(ResultsOf(results, c)) == Passed(results, c)
  {
    if results != [] {
      var rest, last := results[..|results| - 1], results[|results| - 1];
      PassCountOfContract(rest, c);
      if last.contract == c {
        assert (ResultsOf(rest, c) + [last])[..|ResultsOf(rest, c)|] == ResultsOf(rest, c);
      } else {
        assert ResultsOf(rest, c) + [] == ResultsOf(rest, c);
      }
    }
  }

  method GroupResults(results: seq<CaseResult>) returns (grouped: map<Id, seq<CaseResult>>)
    ensures grouped.Keys == Evaluated(results)
    ensures forall c :: c in grouped ==> grouped[c] == ResultsOf(results, c)
  {
    grouped := map[];
    for i := 0 to |results|
      invariant grouped.Keys == Evaluated(results[..i])
      invariant forall c :: c in grouped ==> grouped[c] == ResultsOf(results[..i], c)
    {
      var r := results[i];
      assert results[..i + 1] == results[..i] + [r] && results[..i + 1][..i] == results[..i];
      EvaluatedHaveCases(results[..i], r.contract);
      grouped := grouped[r.contract := (if r.contract in grouped then grouped[r.contract] else []) + [r]];
    }
    assert results[..|results|] == results;
  }

  function AggregateOfGroup(group: seq<CaseResult>): Aggregate
    requires group != []
  {
    Aggregate(PassCount(group) == |group|, Ratio(PassCount(group), |group|), |group|, FailedIds(group))
  }

  /** Aggregating a Contract's own results is aggregating the Contract. */
  lemma {:induction false} GroupAggregate(results: seq<CaseResult>, c: Id)
    requires c in Evaluated(results)
    ensures ResultsOf(results, c) != [] && AggregateOfGroup(ResultsOf(results, c)) == AggregateOf(results, c)
  {
    EvaluatedHaveCases(results, c);
    PassCountOfContract(results, c);
  }

  // ----- what an aggregate says, by positions in the result list -----

  /** Where those of one case are. */
  ghost function PositionsOf(results: seq<CaseResult>, c: Id, passed: bool, id: Id): set<nat> {
    set i | 0 <= i < |results| && IsAt(results, c, passed, id, i)
  }

  ghost predicate IsAt(results: seq<CaseResult>, c: Id, passed: bool, id: Id, i: nat)
    requires i < |results|
  {
    results[i].contract == c && results[i].passed == passed && results[i].caseId == id
  }

  /** `ids` are the case ids at the positions of the failed results, in ascending order. */
  ghost predicate ListsFailed(results: seq<CaseResult>, c: Id, ids: seq<Id>) {
    exists ps: seq<nat> :: FailedAt(results, c, ids, ps)
  }

  ghost predicate FailedAt(results: seq<CaseResult>, c: Id, ids: seq<Id>, ps: seq<nat>) {
    && |ps| == |ids| && (forall j, k :: 0 <= j < k < |ps| ==> ps[j] < ps[k])
    && (forall i :: i in ps <==> i in Positions(results, c, false))
    && forall j :: 0 <= j < |ps| ==> ps[j] < |results| && ids[j] == results[ps[j]].caseId
  }

  /** The failed cases are those of the failed results, as often and in the order they occur; with the passing results
      they make up the count; the rate is the share of passing results; and a Contract passes when nothing failed. */
  ghost predicate Describes(results: seq<CaseResult>, c: Id, a: Aggregate) {
    && ListsFailed(results, c, a.failedCases)
    && (forall id :: multiset(a.failedCases)[id] == |PositionsOf(results, c, false, id)|)
    && |a.failedCases| + |Positions(results, c, true)| == a.caseCount
    && a.passRate * a.caseCount as real == |Positions(results, c, true)| as real
    && (a.passed <==> a.failedCases == [])
  }

  lemma PositionsOfNext(results: seq<CaseResult>, last: CaseResult, c: Id, passed: bool, id: Id)
    ensures |PositionsOf(results + [last], c, passed, id)|
            == |PositionsOf(results, c, passed, id)|
               + if last.contract == c && last.passed == passed && last.caseId == id then 1 else 0
  {
    var longer, n := results + [last], |results|;
    var before, after := PositionsOf(results, c, passed, id), PositionsOf(longer, c, passed, id);
    assert n !in before && longer[n] == last;
    forall i: nat | i < n ensures IsAt(longer, c, passed, id, i) <==> IsAt(results, c, passed, id, i) {}
    assert after == before + if IsAt(longer, c, passed, id, n) then {n} else {};
  }

  lemma {:induction false} FailedIdsNext(results: seq<CaseResult>, last: CaseResult, c: Id)
    ensures FailedIds(ResultsOf(results + [last], c))
            == FailedIds(ResultsOf(results, c)) + if last.contract == c && !last.passed then [last.caseId] else []
  {
    assert (results + [last])[..|results|] == results;
    var before := ResultsOf(results, c);
    if last.contract == c {
      assert (before + [last])[..|before|] == before;
    } else {
      assert before + [] == before;
    }
  }

  lemma {:induction false} FailedByPosition(results: seq<CaseResult>, c: Id)
    ensures |FailedIds(ResultsOf(results, c))| == |Positions(results, c, false)|
  {
    if results != [] {
      var rest, last := results[..|results| - 1], results[|results| - 1];
      assert results == rest + [last];
      FailedByPosition(rest, c);
      PositionsNext(rest, last, c, false);
      FailedIdsNext(rest, last, c);
    }
  }

  lemma {:induction false} FailedMultiplicity(results: seq<CaseResult>, c: Id, id: Id)
    ensures multiset(FailedIds(ResultsOf(results, c)))[id] == |PositionsOf(results, c, false, id)|
  {
    if results != [] {
      var rest, last := results[..|results| - 1], results[|results| - 1];
      assert results == rest + [last];
      FailedMultiplicity(rest, c, id);
      PositionsOfNext(rest, last, c, false, id);
      FailedIdsNext(rest, last, c);
    }
  }

  lemma {:induction false} FailedAtNext(results: seq<CaseResult>, last: CaseResult, c: Id, ids: seq<Id>, ps: seq<nat>)
    requires FailedAt(results, c, ids, ps)
    ensures if last.contract == c && !last.passed
            then FailedAt(results + [last], c, ids + [last.caseId], ps + [|results|])
            else FailedAt(results + [last], c, ids, ps)
  {
    var longer := results + [last];
    PositionsNext(results, last, c, false);
    forall j | 0 <= j < |ps| ensures ps[j] < |results| && longer[ps[j]] == results[ps[j]] { assert ps[j] in ps; }
    if last.contract == c && !last.passed {
      var more := ps + [|results|];
      forall i
        ensures i in more <==> i in Positions(longer, c, false)
      {
        assert i in more <==> i in ps || i == |results|;
      }
    }
  }

  lemma {:induction false} FailedAreListed(results: seq<CaseResult>, c: Id) returns (ps: seq<nat>)
    ensures FailedAt(results, c, FailedIds(ResultsOf(results, c)), ps)
  {
    if results == [] {
      ps := [];
    } else {
      var rest, last := results[..|results| - 1], results[|results| - 1];
      assert results == rest + [last];
      ps := FailedAreListed(rest, c);
      FailedIdsNext(rest, last, c);
      FailedAtNext(rest, last, c, FailedIds(ResultsOf(rest, c)), ps);
      if last.contract == c && !last.passed { ps := ps + [|rest|]; }
    }
  }

  lemma {:induction false} DescribesFrom(results: seq<CaseResult>, c: Id, passed: nat, total: nat, failed: seq<Id>)
    requires total > 0 && passed + |failed| == total && passed == |Positions(results, c, true)|
    requires ListsFailed(results, c, failed)
    requires forall id :: multiset(failed)[id] == |PositionsOf(results, c, false, id)|
    ensures Describes(results, c, Aggregate(passed == total, Ratio(passed, total), total, failed))
  {
    RatioTimes(passed, total);
  }

  lemma {:induction false} AggregateDescribes(results: seq<CaseResult>, c: Id)
    requires c in Evaluated(results)
    ensures Describes(results, c, AggregateOf(results, c))
  {
    var failed := FailedIds(ResultsOf(results, c));
    EvaluatedHaveCases(results, c);
    CountsByPosition(results, c);
    FailedByPosition(results, c);
    var ps := FailedAreListed(results, c);
    forall id
      ensures multiset(failed)[id] == |PositionsOf(results, c, false, id)|
    {
      FailedMultiplicity(results, c, id);
    }
    DescribesFrom(results, c, Passed(results, c), Total(results, c), failed);
  }

  method AggregateContractResults(results: seq<CaseResult>) returns (aggregates: map<Id, Aggregate>)
    ensures aggregates == Aggregates(results)
    ensures forall c :: c in aggregates <==> exists i :: 0 <= i < |results| && results[i].contract == c
    ensures forall c :: c in aggregates ==> Describes(results, c, aggregates[c])
  {
    forall c | c in Evaluated(results) ensures Describes(results, c, AggregateOf(results, c)) {
      AggregateDescribes(results, c);
    }
    var grouped := GroupResults(results);
    forall c | c in grouped
      ensures grouped[c] != [] && AggregateOfGroup(grouped[c]) == AggregateOf(results, c)
    {
      GroupAggregate(results, c);
    }
    aggregates := map c | c in grouped :: AggregateOfGroup(grouped[c]);
  }

  // ----- validation -----

  datatype DocumentIssue = Missing(key: string) | UnsupportedSchema | AccountingMismatch | DuplicateCase

  function CasesOf(d: Document): seq<CaseResult> {
    if d.cases.Some? then d.cases.value else []
  }

  function UnsupportedOf(d: Document): seq<Unsupported> {
    if d.unsupported.Some? then d.unsupported.value else []
  }

  function CaseIds(cases: seq<CaseResult>): (ids: seq<Id>)
    ensures |ids| == |cases|
    ensures forall i :: 0 <= i < |cases| ==> ids[i] == cases[i].caseId
  {
    seq(|cases|, i requires 0 <= i < |cases| => cases[i].caseId)
  }

  function SkippedIds(unsupported: seq<Unsupported>): (ids: seq<Id>)
    ensures |ids| == |unsupported|
  {
    seq(|unsupported|, i requires 0 <= i < |unsupported| => unsupported[i].caseId)
  }

  /** The case ids a document holds, evaluated or not, as often as it holds them. */
  ghost function HeldIds(d: Document): multiset<Id> {
    multiset(CaseIds(CasesOf(d))) + multiset(SkippedIds(UnsupportedOf(d)))
  }

  ghost predicate AllKeysPresent(d: Document) {
    && d.schemaVersion.Some? && d.benchmarkVersion.Some? && d.runId.Some? && d.scores.Some?
    && d.selection.Some? && d.cases.Some? && d.unsupported.Some?
  }

  /** The declared request, if any, equals what is accounted for. */
  ghost predicate Accounted(d: Document) {
    d.selection.Some? && d.selection.value.requested.Some? ==>
      d.selection.value.requested.value == |CasesOf(d)| + |UnsupportedOf(d)|
  }

  ghost predicate Acceptable(d: Document) {
    && AllKeysPresent(d)
    && d.schemaVersion == Some(RESULT_SCHEMA)
    && Accounted(d)
    && NoDup(CaseIds(CasesOf(d)))
  }

  lemma DistinctMeansSameSize(ids: seq<Id>)
    ensures |Members(ids)| == |ids| <==> NoDup(ids)
  {
    if NoDup(ids) {
      NoDupSetSize(ids);
    } else {
      var i, j :| 0 <= i < j < |ids| && ids[i] == ids[j];
      var rest := ids[..j] + ids[j + 1..];
      assert ids == ids[..j] + [ids[j]] + ids[j + 1..];
      assert rest[i] == ids[j];
      assert Members(ids) == Members(rest);
      SetNoLarger(rest);
    }
  }

  lemma {:induction false} SetNoLarger(s: seq<Id>)
    ensures |Members(s)| <= |s|
  {
    if s == [] {
      assert Members(s) == {};
    } else {
      SetNoLarger(s[1..]);
      assert Members(s) == {s[0]} + Members(s[1..]);
    }
  }

  /** A document is valid exactly when it is complete, of the known schema, accounts for every request and repeats no
      case. */
  method ValidateResults(d: Document) returns (issues: seq<DocumentIssue>)
    ensures issues == [] <==> Acceptable(d)
    ensures issues == [] ==> d.schemaVersion == Some("osbench.results.v1")
    ensures AccountingMismatch in issues <==> !Accounted(d)
    ensures DuplicateCase in issues <==> !NoDup(CaseIds(CasesOf(d)))
    ensures UnsupportedSchema in issues <==> d.schemaVersion != Some(RESULT_SCHEMA)
  {
    var present := [
      ("schema_version", d.schemaVersion.Some?), ("benchmark_version", d.benchmarkVersion.Some?),
      ("run_id", d.runId.Some?), ("scores", d.scores.Some?), ("selection", d.selection.Some?),
      ("cases", d.cases.Some?), ("unsupported", d.unsupported.Some?)];
    issues := [];
    for i := 0 to |present|
      invariant forall x :: x in issues ==> x.Missing?
      invariant issues == [] <==> forall j :: 0 <= j < i ==> present[j].1
    {
      if !present[i].1 { issues := issues + [Missing(present[i].0)]; }
    }
    assert issues == [] <==> AllKeysPresent(d) by {
      assert present[0].1 == d.schemaVersion.Some? && present[1].1 == d.benchmarkVersion.Some?
          && present[2].1 == d.runId.Some?;
      assert present[3].1 == d.scores.Some? && present[4].1 == d.selection.Some?;
      assert present[5].1 == d.cases.Some? && present[6].1 == d.unsupported.Some?;
    }
    if d.schemaVersion != Some(RESULT_SCHEMA) { issues := issues + [UnsupportedSchema]; }
    if d.selection.Some? && d.selection.value.requested.Some?
       && d.selection.value.requested.value != |CasesOf(d)| + |UnsupportedOf(d)| {
      issues := issues + [AccountingMismatch];
    }
    var ids := CaseIds(CasesOf(d));
    DistinctMeansSameSize(ids);
    if |ids| != |set x | x in ids| { issues := issues + [DuplicateCase]; }
  }

  // ----- merging -----

  datatype MergeError = NoFiles | IncompatibleVersions | UnknownContract(id: Id)

  function ConcatCases(documents: seq<Document>): seq<CaseResult> {
    if documents == [] then [] else ConcatCases(documents[..|documents| - 1]) + CasesOf(documents[|documents| - 1])
  }

  function ConcatUnsupported(documents: seq<Document>): seq<Unsupported> {
    if documents == [] then []
    else ConcatUnsupported(documents[..|documents| - 1]) + UnsupportedOf(documents[|documents| - 1])
  }

  /** `host.profile`, where an absent or empty value means `local`. */
  function ProfileOf(d: Document): string {
    if d.profile.None? || d.profile.value == "" then "local" else d.profile.value
  }

  /** The first document with its results, selection, scores and aggregates replaced. */
  function Replaced(documents: seq<Document>, runId: string, scores: Scores, aggregates: map<Id, Aggregate>): Document
    requires documents != []
  {
    var cases, unsupported := ConcatCases(documents), ConcatUnsupported(documents);
    documents[0].(
      cases := Some(cases),
      unsupported := Some(unsupported),
      runId := Some(runId),
      selection := Some(MergedSelection(documents)),
      scores := Some(scores),
      contracts := Some(aggregates))
  }

  /** The merged document. */
  function Merged(cfg: Config, m: LogExp, documents: seq<Document>, levels: map<Id, Level>, runId: string): Document
    requires documents != [] && |cfg.weights| == LEVEL_COUNT
  {
    var cases := ConcatCases(documents);
    Replaced(documents, runId, ScoreOf(cfg, m, cases, levels, ProfileOf(documents[0])), Aggregates(cases))
  }

  method Concat(documents: seq<Document>) returns (cases: seq<CaseResult>, unsupported: seq<Unsupported>)
    ensures cases == ConcatCases(documents) && unsupported == ConcatUnsupported(documents)
  {
    cases, unsupported := [], [];
    for i := 0 to |documents|
      invariant cases == ConcatCases(documents[..i])
      invariant unsupported == ConcatUnsupported(documents[..i])
    {
      assert documents[..i + 1][..i] == documents[..i];
      cases := cases + CasesOf(documents[i]);
      unsupported := unsupported + UnsupportedOf(documents[i]);
    }
    assert documents[..|documents|] == documents;
  }

  /** Every document has the same version. */
  ghost predicate OneVersion(documents: seq<Document>) {
    forall d :: d in documents ==> d.benchmarkVersion == documents[0].benchmarkVersion
  }

  method VersionsAgree(documents: seq<Document>) returns (agree: bool)
    requires documents != []
    ensures agree <==> OneVersion(documents)
  {
    var versions := set d | d in documents :: d.benchmarkVersion;
    assert documents[0] in documents;
    assert forall d :: d in documents ==> d.benchmarkVersion in versions;
    SingletonVersions(versions, documents[0].benchmarkVersion);
    agree := |versions| == 1;
  }

  /** The contents of a merge, with the scores and aggregates left to fill in. */
  method MergeContents(documents: seq<Document>, runId: string) returns (base: Document)
    requires documents != []
    ensures CasesOf(base) == ConcatCases(documents) && base.profile == documents[0].profile
    ensures forall scores, aggregates ::
              base.(scores := Some(scores), contracts := Some(aggregates))
                == Replaced(documents, runId, scores, aggregates)
  {
    base := documents[0];
    var cases, unsupported := Concat(documents);
    base := base.(cases := Some(cases), unsupported := Some(unsupported), runId := Some(runId));
    base := base.(selection := Some(SelectionDoc(Some(|cases| + |unsupported|), |cases|, |unsupported|, true)));
  }

  lemma {:induction false} ReplacedIsMerged(cfg: Config, m: LogExp, documents: seq<Document>, levels: map<Id, Level>,
                                            runId: string, scores: Scores, aggregates: map<Id, Aggregate>)
    requires documents != [] && |cfg.weights| == LEVEL_COUNT
    requires scores == ScoreOf(cfg, m, ConcatCases(documents), levels, ProfileOf(documents[0]))
    requires aggregates == Aggregates(ConcatCases(documents))
    ensures Replaced(documents, runId, scores, aggregates) == Merged(cfg, m, documents, levels, runId)
  {
  }

  method MergeResults(cfg: Config, m: LogExp, documents: seq<Document>, levels: map<Id, Level>, runId: string)
    returns (r: Result<Document, MergeError>)
    requires |cfg.weights| == LEVEL_COUNT
    ensures r == Err(NoFiles) <==> documents == []
    ensures r == Err(IncompatibleVersions) <==> documents != [] && !OneVersion(documents)
    ensures r.Ok? <==> documents != [] && OneVersion(documents) && Evaluated(ConcatCases(documents)) <= levels.Keys
    ensures r.Ok? ==> r.value == Merged(cfg, m, documents, levels, runId)
  {
    if documents == [] { return Err(NoFiles); }
    var agree := VersionsAgree(documents);
    if !agree { return Err(IncompatibleVersions); }
    var base := MergeContents(documents, runId);
    var scores := ScoreResults(cfg, m, CasesOf(base), levels, ProfileOf(base));
    if scores.Err? { return Err(UnknownContract(scores.error)); }
    var aggregates := AggregateContractResults(CasesOf(base));
    ReplacedIsMerged(cfg, m, documents, levels, runId, scores.value, aggregates);
    return Ok(base.(scores := Some(scores.value), contracts := Some(aggregates)));
  }

  lemma SingletonVersions(versions: set<Option<string>>, v: Option<string>)
    requires v in versions
    ensures |versions| == 1 <==> forall w :: w in versions ==> w == v
  {
    if |versions| == 1 {
      SubsetSize({v}, versions);
    }
    if forall w :: w in versions ==> w == v { assert versions == {v}; }
  }

  /** The labels that a merge takes over from its first document. */
  ghost predicate Stamped(d: Document) {
    d.schemaVersion == Some(RESULT_SCHEMA) && d.benchmarkVersion.Some?
  }

  lemma {:induction false} ReplacedAcceptable(documents: seq<Document>, runId: string, scores: Scores,
                                              aggregates: map<Id, Aggregate>)
    requires documents != []
    ensures var d := Replaced(documents, runId, scores, aggregates);
            && (Acceptable(d) <==> Stamped(documents[0]) && NoDup(CaseIds(ConcatCases(documents))))
            && d.selection.value.requested == Some(|ConcatCases(documents)| + |ConcatUnsupported(documents)|)
            && d.selection.value.completeShardSet
  {
    var d := Replaced(documents, runId, scores, aggregates);
    assert CasesOf(d) == ConcatCases(documents) && UnsupportedOf(d) == ConcatUnsupported(documents);
    assert Accounted(d) && (AllKeysPresent(d) <==> d.schemaVersion.Some? && d.benchmarkVersion.Some?);
  }

  /** A merge is acceptable exactly when its first document is labelled and no evaluated case repeats, within a
      document or across; it always claims a complete shard set. */
  lemma {:induction false} MergedAcceptable(cfg: Config, m: LogExp, documents: seq<Document>, levels: map<Id, Level>,
                                            runId: string)
    requires documents != [] && |cfg.weights| == LEVEL_COUNT
    ensures var d := Merged(cfg, m, documents, levels, runId);
            && (Acceptable(d) <==> Stamped(documents[0]) && NoDup(CaseIds(ConcatCases(documents))))
            && d.selection.value.requested == Some(|ConcatCases(documents)| + |ConcatUnsupported(documents)|)
            && d.selection.value.completeShardSet
  {
    var cases := ConcatCases(documents);
    ReplacedAcceptable(documents, runId, ScoreOf(cfg, m, cases, levels, ProfileOf(documents[0])), Aggregates(cases));
  }

  /** The selection of a merge: what its documents hold, and a claim that nothing is missing. */
  function MergedSelection(documents: seq<Document>): SelectionDoc {
    var cases, unsupported := |ConcatCases(documents)|, |ConcatUnsupported(documents)|;
    SelectionDoc(Some(cases + unsupported), cases, unsupported, true)
  }

  lemma MergedIsReplaced(cfg: Config, m: LogExp, documents: seq<Document>, levels: map<Id, Level>, runId: string)
    returns (scores: Scores, aggregates: map<Id, Aggregate>)
    requires documents != [] && |cfg.weights| == LEVEL_COUNT
    ensures Merged(cfg, m, documents, levels, runId) == Replaced(documents, runId, scores, aggregates)
  {
    var cases := ConcatCases(documents);
    scores, aggregates := ScoreOf(cfg, m, cases, levels, ProfileOf(documents[0])), Aggregates(cases);
  }

  lemma {:induction false} ConcatOfOne(d: Document)
    ensures ConcatCases([d]) == CasesOf(d) && ConcatUnsupported([d]) == UnsupportedOf(d)
  {
    assert [d][..0] == [];
    assert ConcatCases([]) == [] && ConcatUnsupported([]) == [];
  }

  // ----- order does not matter -----

  lemma {:induction false} ResultsOfAppend(a: seq<CaseResult>, b: seq<CaseResult>, c: Id)
    ensures ResultsOf(a + b, c) == ResultsOf(a, c) + ResultsOf(b, c)
  {
    if b == [] {
      assert a + b == a;
    } else {
      ResultsOfAppend(a, b[..|b| - 1], c);
      assert (a + b)[..|a + b| - 1] == a + b[..|b| - 1];
    }
  }

  lemma {:induction false} FailedAppend(a: seq<CaseResult>, b: seq<CaseResult>)
    ensures FailedIds(a + b) == FailedIds(a) + FailedIds(b)
  {
    if b == [] {
      assert a + b == a;
    } else {
      FailedAppend(a, b[..|b| - 1]);
      assert (a + b)[..|a + b| - 1] == a + b[..|b| - 1];
    }
  }

  /** The failed cases of one Contract, without their order. */
  ghost function FailedBag(s: seq<CaseResult>, c: Id): multiset<Id> {
    multiset(FailedIds(ResultsOf(s, c)))
  }

  lemma FailedBagAppend(a: seq<CaseResult>, b: seq<CaseResult>, c: Id)
    ensures FailedBag(a + b, c) == FailedBag(a, c) + FailedBag(b, c)
  {
    ResultsOfAppend(a, b, c);
    FailedAppend(ResultsOf(a, c), ResultsOf(b, c));
  }

  /** What a list contributes to one Contract, as numbers and a bag. */
  ghost predicate SameTally(a: seq<CaseResult>, b: seq<CaseResult>, c: Id) {
    Total(a, c) == Total(b, c) && Passed(a, c) == Passed(b, c) && FailedBag(a, c) == FailedBag(b, c)
  }

  lemma TallyCongruence(a: seq<CaseResult>, b: seq<CaseResult>, x: seq<CaseResult>, y: seq<CaseResult>, c: Id)
    requires SameTally(a, b, c) && SameTally(x, y, c)
    ensures SameTally(a + x, b + y, c)
  {
    CountsAppend(a, x, c);
    CountsAppend(b, y, c);
    FailedBagAppend(a, x, c);
    FailedBagAppend(b, y, c);
  }

  lemma TallySwap(a: seq<CaseResult>, b: seq<CaseResult>, c: Id)
    ensures SameTally(a + b, b + a, c)
  {
    CountsAppend(a, b, c);
    CountsAppend(b, a, c);
    FailedBagAppend(a, b, c);
    FailedBagAppend(b, a, c);
  }

  /** Moving a stretch to the front changes no tally. */
  lemma MoveToFront(x: seq<CaseResult>, e: seq<CaseResult>, y: seq<CaseResult>, c: Id)
    ensures SameTally(e + (x + y), (x + e) + y, c)
  {
    ConcatAssociates(e, x, y);
    TallySwap(e, x, c);
    TallyCongruence(e + x, x + e, y, y, c);
  }

  lemma ConcatAssociates<T>(a: seq<T>, b: seq<T>, c: seq<T>)
    ensures a + (b + c) == (a + b) + c
  {
  }

  lemma TallyTrans(a: seq<CaseResult>, b: seq<CaseResult>, d: seq<CaseResult>, c: Id)
    requires SameTally(a, b, c) && SameTally(b, d, c)
    ensures SameTally(a, d, c)
  {
  }

  lemma HeadAgainst(head: CaseResult, tail: seq<CaseResult>, x: seq<CaseResult>, y: seq<CaseResult>, c: Id)
    requires SameTally(tail, x + y, c)
    ensures SameTally([head] + tail, (x + [head]) + y, c)
  {
    TallyCongruence([head], [head], tail, x + y, c);
    MoveToFront(x, [head], y, c);
    TallyTrans([head] + tail, [head] + (x + y), (x + [head]) + y, c);
  }

  /** Counts, and failed cases up to order, depend on the multiset of results alone. */
  lemma {:induction false} CountsPermute(a: seq<CaseResult>, b: seq<CaseResult>, c: Id)
    requires multiset(a) == multiset(b)
    ensures SameTally(a, b, c)
    decreases |a|
  {
    SameMembers(a, b);
    if a == [] {
      assert b == [];
    } else {
      var i := MatchHead(a, b);
      CountsPermute(a[1..], b[..i] + b[i + 1..], c);
      HeadAgainst(a[0], a[1..], b[..i], b[i + 1..], c);
      SplitAt(b, i);
      assert [a[0]] + a[1..] == a;
    }
  }

  /** Two aggregates agree up to the order in which failed cases are listed. */
  ghost predicate SameAggregate(a: Aggregate, b: Aggregate) {
    && a.passed == b.passed && a.passRate == b.passRate && a.caseCount == b.caseCount
    && multiset(a.failedCases) == multiset(b.failedCases)
  }

  lemma AggregatesPermute(a: seq<CaseResult>, b: seq<CaseResult>)
    requires multiset(a) == multiset(b)
    ensures Aggregates(a).Keys == Aggregates(b).Keys
    ensures forall c :: c in Aggregates(a) ==> SameAggregate(Aggregates(a)[c], Aggregates(b)[c])
  {
    SameMembers(a, b);
    assert Evaluated(a) == Evaluated(b);
    forall c | c in Evaluated(a)
      ensures SameAggregate(AggregateOf(a, c), AggregateOf(b, c))
    {
      CountsPermute(a, b, c);
    }
  }

  /** The scores depend on the multiset of results alone. */
  lemma ScoresPermute(cfg: Config, m: LogExp, a: seq<CaseResult>, b: seq<CaseResult>, levels: map<Id, Level>,
                      profile: string)
    requires |cfg.weights| == LEVEL_COUNT && multiset(a) == multiset(b)
    ensures ScoreOf(cfg, m, a, levels, profile) == ScoreOf(cfg, m, b, levels, profile)
  {
    SameMembers(a, b);
    assert Evaluated(a) == Evaluated(b);
    forall c | c in Evaluated(a)
      ensures ContractScores(a)[c] == ContractScores(b)[c]
    {
      CountsPermute(a, b, c);
    }
    assert ContractScores(a) == ContractScores(b);
    forall t: real
      ensures Native(a, levels, profile in cfg.officialProfiles, t)
              == Native(b, levels, profile in cfg.officialProfiles, t)
    {
      NativePermutes(a, b, levels, profile in cfg.officialProfiles, t);
    }
    assert ScoreOf(cfg, m, a, levels, profile).native == ScoreOf(cfg, m, b, levels, profile).native;
  }

  lemma NativePermutes(a: seq<CaseResult>, b: seq<CaseResult>, levels: map<Id, Level>, official: bool, t: real)
    requires forall r :: r in a <==> r in b
    ensures Native(a, levels, official, t) == Native(b, levels, official, t)
  {
    assert Evaluated(a) == Evaluated(b);
    assert forall c :: Qualifies(a, c, t) == Qualifies(b, c, t);
    assert (set c | c in WorkloadIds(levels) && Qualifies(a, c, t))
        == set c | c in WorkloadIds(levels) && Qualifies(b, c, t);
  }
}
