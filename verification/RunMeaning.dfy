/** What the document of a run says about the answers of its targets. */
module RunMeaning {
  import opened Orders
  import opened Contracts
  import opened Normalization
  import opened Scoring
  import opened ReportFields
  import opened Selection
  import opened Outcomes

  /** The case was supported, known and answered on both sides. */
  ghost predicate IsEvaluated(s: Setup, row: CaseRow) {
    && s.targets.referenceSupports(row) == Value(true) && s.targets.candidateSupports(row) == Value(true)
    && row.contract in s.contracts
    && s.targets.referenceExecute(row).Value?
    && (s.opening == Value(true) || s.targets.candidateExecute(row).Value?)
  }

  function ReferenceOf(s: Setup, row: CaseRow): Observation
    requires s.targets.referenceExecute(row).Value?
  {
    s.targets.referenceExecute(row).value
  }

  /** The candidate's own observation, or the reference's where that is reused. */
  ghost function CandidateOf(s: Setup, row: CaseRow): Observation
    requires IsEvaluated(s, row)
  {
    if s.opening == Value(true) then ReferenceOf(s, row) else s.targets.candidateExecute(row).value
  }

  /** The two observations compare as equal. */
  ghost predicate CasePasses(s: Setup, row: CaseRow)
    requires GoodSetup(s) && IsEvaluated(s, row)
  {
    Passes(s.lib, ReferenceOf(s, row), CandidateOf(s, row), s.contracts[row.contract])
  }

  lemma EvaluatedMeansDone(s: Setup, row: CaseRow)
    requires GoodSetup(s)
    ensures CaseOutcomeOf(s, row).Done? <==> IsEvaluated(s, row)
    ensures IsEvaluated(s, row) ==>
              var result := CaseOutcomeOf(s, row).result;
              && result.caseId == row.caseId && result.contract == row.contract
              && (result.passed <==> CasePasses(s, row))
              && result.performanceRatio == PerformanceRatio(ReferenceOf(s, row), CandidateOf(s, row))
  {
  }

  lemma {:induction false} RowHasResult(f: OutcomeFn, rows: seq<CaseRow>, i: nat)
    requires i < |rows| && f(rows[i]).Done?
    ensures f(rows[i]).result in ResultsFor(f, rows)
  {
    if i > 0 { RowHasResult(f, rows[1..], i - 1); }
  }

  /** An evaluated case of the Contract. */
  ghost predicate IsCaseOf(s: Setup, rows: seq<CaseRow>, c: Id, i: int) {
    0 <= i < |rows| && rows[i].contract == c && IsEvaluated(s, rows[i])
  }

  /** The Contract has evaluated cases; all of them pass, and none takes more than `t` times as long as the reference,
      which takes some time. */
  ghost predicate RunsFastEnough(s: Setup, rows: seq<CaseRow>, c: Id, t: real)
    requires GoodSetup(s)
  {
    && (exists i :: IsCaseOf(s, rows, c, i))
    && forall i :: IsCaseOf(s, rows, c, i) ==>
         CasePasses(s, rows[i]) && WithinTimes(ReferenceOf(s, rows[i]), CandidateOf(s, rows[i]), t)
  }

  ghost predicate ResultFastEnough(r: CaseResult, t: real) {
    r.passed && r.performanceRatio.Some? && r.performanceRatio.value <= t
  }

  lemma {:induction false} FastEnoughByResult(results: seq<CaseResult>, c: Id, t: real)
    ensures FastEnough(results, c, t) <==>
            (exists r :: r in results && r.contract == c)
            && forall r :: r in results && r.contract == c ==> ResultFastEnough(r, t)
  {
    if FastEnough(results, c, t) {
      var i :| 0 <= i < |results| && results[i].contract == c;
      assert results[i] in results;
    }
    if r :| r in results && r.contract == c { var i :| 0 <= i < |results| && results[i] == r; }
  }

  lemma CaseFastEnough(s: Setup, row: CaseRow, t: real)
    requires GoodSetup(s) && IsEvaluated(s, row)
    ensures CaseOutcomeOf(s, row).Done?
    ensures ResultFastEnough(CaseOutcomeOf(s, row).result, t) <==>
            CasePasses(s, row) && WithinTimes(ReferenceOf(s, row), CandidateOf(s, row), t)
  {
    EvaluatedMeansDone(s, row);
    WithinIsAtMost(ReferenceOf(s, row), CandidateOf(s, row), t);
  }

  /** An evaluated case has its result in the list, which is fast enough exactly when the case is. */
  lemma {:induction false} CaseInRun(s: Setup, rows: seq<CaseRow>, c: Id, t: real, i: nat) returns (r: CaseResult)
    requires GoodSetup(s) && IsCaseOf(s, rows, c, i)
    ensures r in ResultsFor(OutcomesUnder(s), rows) && r.contract == c
    ensures ResultFastEnough(r, t) <==>
            CasePasses(s, rows[i]) && WithinTimes(ReferenceOf(s, rows[i]), CandidateOf(s, rows[i]), t)
  {
    r := CaseOutcomeOf(s, rows[i]).result;
    EvaluatedMeansDone(s, rows[i]);
    CaseFastEnough(s, rows[i], t);
    RowHasResult(OutcomesUnder(s), rows, i);
  }

  lemma {:induction false} ResultInRun(s: Setup, rows: seq<CaseRow>, r: CaseResult, t: real) returns (i: nat)
    requires GoodSetup(s) && r in ResultsFor(OutcomesUnder(s), rows)
    ensures IsCaseOf(s, rows, r.contract, i)
    ensures ResultFastEnough(r, t) <==>
            CasePasses(s, rows[i]) && WithinTimes(ReferenceOf(s, rows[i]), CandidateOf(s, rows[i]), t)
  {
    ResultsComeFromRows(OutcomesUnder(s), rows, r);
    i :| 0 <= i < |rows| && OutcomesUnder(s)(rows[i]) == Done(r);
    EvaluatedMeansDone(s, rows[i]);
    CaseFastEnough(s, rows[i], t);
  }

  /** A Contract of a run is fast enough by its results exactly when its cases are by the answers of the targets. */
  lemma {:induction false} FastEnoughInRun(s: Setup, rows: seq<CaseRow>, c: Id, t: real)
    requires GoodSetup(s)
    ensures FastEnough(ResultsFor(OutcomesUnder(s), rows), c, t) <==> RunsFastEnough(s, rows, c, t)
  {
    var results := ResultsFor(OutcomesUnder(s), rows);
    FastEnoughByResult(results, c, t);
    if FastEnough(results, c, t) {
      var r :| r in results && r.contract == c;
      var k := ResultInRun(s, rows, r, t);
      forall i | IsCaseOf(s, rows, c, i)
        ensures CasePasses(s, rows[i]) && WithinTimes(ReferenceOf(s, rows[i]), CandidateOf(s, rows[i]), t)
      {
        var q := CaseInRun(s, rows, c, t, i);
      }
    }
    if RunsFastEnough(s, rows, c, t) {
      var i :| IsCaseOf(s, rows, c, i);
      var q := CaseInRun(s, rows, c, t, i);
      forall r | r in results && r.contract == c
        ensures ResultFastEnough(r, t)
      {
        var k := ResultInRun(s, rows, r, t);
      }
    }
  }

  /** The Contracts of the last two levels. */
  ghost function WorkloadContracts(contracts: map<Id, Contract>): set<Id> {
    set c | c in contracts && (contracts[c].level == 9 || contracts[c].level == 10)
  }

  /** The native score of a run at each threshold: the share of the workload Contracts that ran fast enough. */
  lemma {:induction false} NativeOfRun(s: Setup, runId: string, shardCount: int, rows: seq<CaseRow>, k: nat)
    requires GoodSetup(s) && k < |s.cfg.nativeThresholds|
    ensures var d := RunDocument(s, runId, shardCount, rows);
            && d.scores.Some? && k < |d.scores.value.native|
            && (d.scores.value.native[k].Some? <==> s.profile in s.cfg.officialProfiles)
            && (s.profile in s.cfg.officialProfiles ==>
                  var W := WorkloadContracts(s.contracts);
                  Shared(d.scores.value.native[k].value,
                         |set c | c in W && RunsFastEnough(s, rows, c, s.cfg.nativeThresholds[k])| as real, |W|))
  {
    var results, t := ResultsFor(OutcomesUnder(s), rows), s.cfg.nativeThresholds[k];
    var W := Workloads(LevelsOf(s.contracts));
    assert W == WorkloadContracts(s.contracts);
    NativeIsReported(results, LevelsOf(s.contracts), s.profile in s.cfg.officialProfiles, t);
    forall c ensures FastEnough(results, c, t) <==> RunsFastEnough(s, rows, c, t) { FastEnoughInRun(s, rows, c, t); }
    assert (set c | c in W && FastEnough(results, c, t)) == set c | c in W && RunsFastEnough(s, rows, c, t);
  }
}
