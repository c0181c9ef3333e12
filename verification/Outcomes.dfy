/** What a run computes for each selected case, and the result document it writes. */
module Outcomes {
  import opened Sequences
  import opened Orders
  import opened Contracts
  import opened Normalization
  import opened Scoring
  import opened Results
  import opened Selection

  /** A call into a target: a value, or an exception. */
  datatype Answer<+T> = Value(value: T) | Raise(error: string)

  datatype Targets = Targets(
    referenceSupports: CaseRow -> Answer<bool>,
    candidateSupports: CaseRow -> Answer<bool>,
    referenceExecute: CaseRow -> Answer<Observation>,
    candidateExecute: CaseRow -> Answer<Observation>)

  /** Everything a run depends on besides its selection. `opening` says whether identical observations are reused. */
  datatype Setup = Setup(
    lib: Library,
    targets: Targets,
    opening: Answer<bool>,
    contracts: map<Id, Contract>,
    cfg: Config,
    math: LogExp,
    profile: string,
    benchmarkVersion: string,
    checkpointEvery: int)

  ghost predicate GoodSetup(s: Setup) {
    GoodLibrary(s.lib) && |s.cfg.weights| == LEVEL_COUNT
  }

  datatype CaseOutcome = Skipped(unsupported: Unsupported) | Done(result: CaseResult) | Raised(error: string)

  /** `duration_ns` as a number; Python counts a bool as one. */
  function DurationOf(o: Observation): Option<real> {
    if "duration_ns" !in o then None
    else
      match o["duration_ns"]
      case Number(n) => Some(n)
      case Bool(b) => Some(if b then 1.0 else 0.0)
      case _ => None
  }

  function PerformanceRatio(reference: Observation, candidate: Observation): Option<real> {
    var r, c := DurationOf(reference), DurationOf(candidate);
    if r.Some? && c.Some? && r.value > 0.0 then Some(c.value / r.value) else None
  }

  /** The observation has a duration, and it is `d`. */
  ghost predicate Lasted(o: Observation, d: real) {
    && "duration_ns" in o
    && (o["duration_ns"] == Number(d) || (d == 1.0 && o["duration_ns"] == Bool(true))
        || (d == 0.0 && o["duration_ns"] == Bool(false)))
  }

  /** The candidate took `q` times as long as the reference, which took some time. */
  ghost predicate TookTimes(reference: Observation, candidate: Observation, q: real) {
    exists r, c :: Lasted(reference, r) && Lasted(candidate, c) && r > 0.0 && q * r == c
  }

  /** The reference took some time, and the candidate at most `t` times as long. */
  ghost predicate WithinTimes(reference: Observation, candidate: Observation, t: real) {
    exists r, c :: Lasted(reference, r) && Lasted(candidate, c) && r > 0.0 && c <= t * r
  }

  /** Without a duration on either side, or with none that is positive on the reference's, there is no ratio. */
  ghost predicate RatioReported(reference: Observation, candidate: Observation, ratio: Option<real>) {
    match ratio
    case Some(q) => TookTimes(reference, candidate, q)
    case None => forall q :: !TookTimes(reference, candidate, q)
  }

  lemma DurationIs(o: Observation)
    ensures forall d :: Lasted(o, d) <==> DurationOf(o) == Some(d)
  {
  }

  lemma OnlyQuotient(r: real, c: real, q: real)
    requires r > 0.0
    ensures q * r == c <==> q == c / r
  {
    assert (c / r) * r == c;
    if q * r == c { assert (q - c / r) * r == 0.0; }
  }

  lemma TookIs(reference: Observation, candidate: Observation, q: real)
    ensures PerformanceRatio(reference, candidate) == Some(q) <==> TookTimes(reference, candidate, q)
  {
    DurationIs(reference);
    DurationIs(candidate);
    var r, c := DurationOf(reference), DurationOf(candidate);
    if r.Some? && c.Some? && r.value > 0.0 {
      OnlyQuotient(r.value, c.value, q);
      assert q * r.value == c.value ==> Lasted(reference, r.value) && Lasted(candidate, c.value);
    }
  }

  /** The ratio is candidate over reference, there exactly when both durations are and the reference's is positive. */
  lemma RatioIs(reference: Observation, candidate: Observation)
    ensures forall q :: PerformanceRatio(reference, candidate) == Some(q) <==> TookTimes(reference, candidate, q)
    ensures RatioReported(reference, candidate, PerformanceRatio(reference, candidate))
  {
    forall q ensures PerformanceRatio(reference, candidate) == Some(q) <==> TookTimes(reference, candidate, q) {
      TookIs(reference, candidate, q);
    }
  }

  lemma QuotientAtMost(r: real, c: real, t: real)
    requires r > 0.0
    ensures c / r <= t <==> c <= t * r
  {
    var q := c / r;
    assert q * r == c;
    if q > t { assert (q - t) * r > 0.0; } else { assert (t - q) * r >= 0.0; }
  }

  /** A reported ratio is at most `t` exactly when the candidate took at most `t` times as long. */
  lemma WithinIsAtMost(reference: Observation, candidate: Observation, t: real)
    ensures WithinTimes(reference, candidate, t) <==>
            PerformanceRatio(reference, candidate).Some? && PerformanceRatio(reference, candidate).value <= t
  {
    DurationIs(reference);
    DurationIs(candidate);
    var r, c := DurationOf(reference), DurationOf(candidate);
    if r.Some? && c.Some? && r.value > 0.0 {
      QuotientAtMost(r.value, c.value, t);
      assert c.value <= t * r.value ==> Lasted(reference, r.value) && Lasted(candidate, c.value);
    }
  }

  function CandidateAnswer(s: Setup, row: CaseRow, reference: Observation): Answer<Observation> {
    if s.opening == Value(true) then Value(reference) else s.targets.candidateExecute(row)
  }

  function CaseOutcomeOf(s: Setup, row: CaseRow): (o: CaseOutcome)
    requires GoodSetup(s)
    ensures o.Done? ==>
              o.result.caseId == row.caseId && o.result.contract == row.contract && row.contract in s.contracts
    ensures o.Skipped? ==> o.unsupported.caseId == row.caseId
  {
    match s.targets.referenceSupports(row)
    case Raise(e) => Raised(e)
    case Value(r) =>
      if !r then Skipped(Unsupported(row.caseId, "reference transport unsupported"))
      else
        match s.targets.candidateSupports(row)
        case Raise(e) => Raised(e)
        case Value(c) =>
          if !c then Skipped(Unsupported(row.caseId, "candidate transport unsupported"))
          else if row.contract !in s.contracts then Raised("KeyError")
          else Observe(s, row)
  }

  function Observe(s: Setup, row: CaseRow): (o: CaseOutcome)
    requires GoodSetup(s) && row.contract in s.contracts
    ensures o.Done? ==> o.result.caseId == row.caseId && o.result.contract == row.contract
    ensures !o.Skipped?
  {
    match s.targets.referenceExecute(row)
    case Raise(e) => Raised(e)
    case Value(reference) =>
      match CandidateAnswer(s, row, reference)
      case Raise(e) => Raised(e)
      case Value(candidate) =>
        Done(CaseResult(row.caseId, row.contract, Passes(s.lib, reference, candidate, s.contracts[row.contract]),
                        PerformanceRatio(reference, candidate)))
  }

  /** A finished case was supported and answered on both sides; its verdict and its ratio are those of the two
      answers. */
  lemma DoneMeans(s: Setup, row: CaseRow)
    requires GoodSetup(s) && CaseOutcomeOf(s, row).Done?
    ensures s.targets.referenceSupports(row) == Value(true) && s.targets.candidateSupports(row) == Value(true)
    ensures row.contract in s.contracts && s.targets.referenceExecute(row).Value?
    ensures CandidateAnswer(s, row, s.targets.referenceExecute(row).value).Value?
    ensures var reference := s.targets.referenceExecute(row).value;
            var candidate := CandidateAnswer(s, row, reference).value;
            var result := CaseOutcomeOf(s, row).result;
            && result.caseId == row.caseId && result.contract == row.contract
            && (result.passed <==> Passes(s.lib, reference, candidate, s.contracts[row.contract]))
            && RatioReported(reference, candidate, result.performanceRatio)
  {
    var reference := s.targets.referenceExecute(row).value;
    RatioIs(reference, CandidateAnswer(s, row, reference).value);
  }

  function DoneOf(o: CaseOutcome): seq<CaseResult> {
    if o.Done? then [o.result] else []
  }

  function SkippedOf(o: CaseOutcome): seq<Unsupported> {
    if o.Skipped? then [o.unsupported] else []
  }

  /** The outcome of each case, as a function of the case alone. */
  type OutcomeFn = CaseRow -> CaseOutcome

  function OutcomesUnder(s: Setup): (f: OutcomeFn)
    requires GoodSetup(s)
    ensures forall x :: f(x) == CaseOutcomeOf(s, x)
  {
    (x: CaseRow) => CaseOutcomeOf(s, x)
  }

  /** Results carry the id and Contract of their case. */
  ghost predicate Labelled(f: OutcomeFn) {
    forall x :: f(x).Done? ==> f(x).result.caseId == x.caseId && f(x).result.contract == x.contract
  }

  /** Skipped cases carry the id of their case. */
  ghost predicate SkipsLabelled(f: OutcomeFn) {
    forall x :: f(x).Skipped? ==> f(x).unsupported.caseId == x.caseId
  }

  /** The case results of a list of cases, in order. */
  function ResultsFor(f: OutcomeFn, rows: seq<CaseRow>): seq<CaseResult> {
    if rows == [] then [] else DoneOf(f(rows[0])) + ResultsFor(f, rows[1..])
  }

  function UnsupportedFor(f: OutcomeFn, rows: seq<CaseRow>): seq<Unsupported> {
    if rows == [] then [] else SkippedOf(f(rows[0])) + UnsupportedFor(f, rows[1..])
  }

  /** No target call for these cases raises. */
  ghost predicate Quiet(f: OutcomeFn, rows: seq<CaseRow>) {
    forall x :: x in rows ==> !f(x).Raised?
  }

  function LevelsOf(contracts: map<Id, Contract>): (levels: map<Id, Level>)
    ensures forall c :: c in levels <==> c in contracts
    ensures forall c :: c in levels ==> levels[c] == contracts[c].level
  {
    map c | c in contracts :: contracts[c].level
  }

  /** The result file of a completed run. */
  function RunDocument(s: Setup, runId: string, shardCount: int, rows: seq<CaseRow>): Document
    requires GoodSetup(s)
  {
    var f := OutcomesUnder(s);
    var results, unsupported := ResultsFor(f, rows), UnsupportedFor(f, rows);
    Document(
      Some(RESULT_SCHEMA), Some(s.benchmarkVersion), Some(runId), Some(s.profile),
      Some(ScoreOf(s.cfg, s.math, results, LevelsOf(s.contracts), s.profile)),
      Some(Aggregates(results)),
      Some(SelectionDoc(Some(|rows|), |results|, |unsupported|, shardCount == 1)),
      Some(results), Some(unsupported))
  }

  // ----- laws -----

  lemma ConsAppend<T>(a: seq<T>, b: seq<T>)
    requires a != []
    ensures (a + b)[0] == a[0] && (a + b)[1..] == a[1..] + b
  {
  }

  lemma {:induction false} ResultsAppend(f: OutcomeFn, a: seq<CaseRow>, b: seq<CaseRow>)
    ensures ResultsFor(f, a + b) == ResultsFor(f, a) + ResultsFor(f, b)
  {
    if a == [] {
      assert a + b == b;
    } else {
      ResultsAppend(f, a[1..], b);
      ConsAppend(a, b);
    }
  }

  lemma {:induction false} UnsupportedAppend(f: OutcomeFn, a: seq<CaseRow>, b: seq<CaseRow>)
    ensures UnsupportedFor(f, a + b) == UnsupportedFor(f, a) + UnsupportedFor(f, b)
  {
    if a == [] {
      assert a + b == b;
    } else {
      UnsupportedAppend(f, a[1..], b);
      ConsAppend(a, b);
    }
  }

  lemma {:induction false} OutcomesSnoc(f: OutcomeFn, a: seq<CaseRow>, x: CaseRow)
    ensures ResultsFor(f, a + [x]) == ResultsFor(f, a) + DoneOf(f(x))
    ensures UnsupportedFor(f, a + [x]) == UnsupportedFor(f, a) + SkippedOf(f(x))
  {
    ResultsAppend(f, a, [x]);
    UnsupportedAppend(f, a, [x]);
    assert [x][1..] == [];
  }

  /** Outcomes that agree on the listed cases give the same results. */
  lemma {:induction false} OutcomesAgree(f: OutcomeFn, g: OutcomeFn, rows: seq<CaseRow>)
    requires forall i :: 0 <= i < |rows| ==> f(rows[i]) == g(rows[i])
    ensures ResultsFor(f, rows) == ResultsFor(g, rows) && UnsupportedFor(f, rows) == UnsupportedFor(g, rows)
  {
    if rows != [] {
      forall i | 0 <= i < |rows[1..]| ensures f(rows[1..][i]) == g(rows[1..][i]) { assert rows[1..][i] == rows[i + 1]; }
      OutcomesAgree(f, g, rows[1..]);
    }
  }

  /** Evaluated and unsupported cases account for the whole selection. */
  lemma {:induction false} OutcomesAccount(f: OutcomeFn, rows: seq<CaseRow>)
    requires Quiet(f, rows)
    ensures |ResultsFor(f, rows)| + |UnsupportedFor(f, rows)| == |rows|
  {
    if rows != [] {
      assert rows[0] in rows;
      OutcomesAccount(f, rows[1..]);
    }
  }

  /** And they carry exactly the ids of the selection. */
  lemma {:induction false} OutcomeIds(f: OutcomeFn, rows: seq<CaseRow>)
    requires Quiet(f, rows) && Labelled(f) && SkipsLabelled(f)
    ensures multiset(CaseIds(ResultsFor(f, rows))) + multiset(SkippedIds(UnsupportedFor(f, rows)))
            == multiset(IdsOf(rows))
  {
    if rows != [] {
      var x, rest := rows[0], rows[1..];
      assert x in rows;
      OutcomeIds(f, rest);
      assert IdsOf(rows) == [x.caseId] + IdsOf(rest);
      AddOutcomeId(f(x), x.caseId, ResultsFor(f, rest), UnsupportedFor(f, rest), IdsOf(rest));
    }
  }

  lemma AddOutcomeId(o: CaseOutcome, id: Id, results: seq<CaseResult>, unsupported: seq<Unsupported>, ids: seq<Id>)
    requires !o.Raised? && (o.Done? ==> o.result.caseId == id) && (o.Skipped? ==> o.unsupported.caseId == id)
    requires multiset(CaseIds(results)) + multiset(SkippedIds(unsupported)) == multiset(ids)
    ensures multiset(CaseIds(DoneOf(o) + results)) + multiset(SkippedIds(SkippedOf(o) + unsupported))
            == multiset([id] + ids)
  {
    CaseIdsAppend(DoneOf(o), results);
    SkippedIdsAppend(SkippedOf(o), unsupported);
    if o.Done? {
      assert CaseIds(DoneOf(o)) == [id];
    } else {
      assert SkippedIds(SkippedOf(o)) == [id];
    }
  }

  lemma CaseIdsAppend(a: seq<CaseResult>, b: seq<CaseResult>)
    ensures CaseIds(a + b) == CaseIds(a) + CaseIds(b)
  {
  }

  lemma SkippedIdsAppend(a: seq<Unsupported>, b: seq<Unsupported>)
    ensures SkippedIds(a + b) == SkippedIds(a) + SkippedIds(b)
  {
  }

  ghost predicate UniqueCases(rows: seq<CaseRow>) {
    forall i, j :: 0 <= i < j < |rows| ==> rows[i].caseId != rows[j].caseId
  }

  lemma {:induction false} ResultsComeFromRows(f: OutcomeFn, rows: seq<CaseRow>, r: CaseResult)
    requires r in ResultsFor(f, rows)
    ensures exists i :: 0 <= i < |rows| && f(rows[i]) == Done(r)
  {
    if r !in DoneOf(f(rows[0])) {
      ResultsComeFromRows(f, rows[1..], r);
      var k :| 0 <= k < |rows[1..]| && f(rows[1..][k]) == Done(r);
      assert rows[k + 1] == rows[1..][k];
    }
  }

  lemma {:induction false} ResultIdsUnique(f: OutcomeFn, rows: seq<CaseRow>)
    requires Labelled(f) && UniqueCases(rows)
    ensures NoDup(CaseIds(ResultsFor(f, rows)))
  {
    if rows != [] {
      ResultIdsUnique(f, rows[1..]);
      var rest := ResultsFor(f, rows[1..]);
      if f(rows[0]).Done? {
        forall j | 0 <= j < |rest|
          ensures rest[j].caseId != rows[0].caseId
        {
          ResultsComeFromRows(f, rows[1..], rest[j]);
          var k :| 0 <= k < |rows[1..]| && f(rows[1..][k]) == Done(rest[j]);
          assert rows[k + 1] == rows[1..][k];
        }
        assert CaseIds(ResultsFor(f, rows)) == [rows[0].caseId] + CaseIds(rest);
      } else {
        assert ResultsFor(f, rows) == rest;
      }
    }
  }

  lemma OutcomesUnderLabelled(s: Setup)
    requires GoodSetup(s)
    ensures Labelled(OutcomesUnder(s)) && SkipsLabelled(OutcomesUnder(s))
    ensures forall x :: OutcomesUnder(s)(x).Done? ==> x.contract in s.contracts
  {
  }

  /** Every completed run on distinct cases writes a document that validates. */
  lemma RunDocumentAcceptable(s: Setup, runId: string, shardCount: int, rows: seq<CaseRow>)
    requires GoodSetup(s) && Quiet(OutcomesUnder(s), rows) && UniqueCases(rows)
    ensures Acceptable(RunDocument(s, runId, shardCount, rows))
  {
    var f := OutcomesUnder(s);
    OutcomesUnderLabelled(s);
    OutcomesAccount(f, rows);
    ResultIdsUnique(f, rows);
    var d := RunDocument(s, runId, shardCount, rows);
    assert CasesOf(d) == ResultsFor(f, rows) && UnsupportedOf(d) == UnsupportedFor(f, rows);
  }

  /** Scoring a run's cases cannot meet an unknown Contract. */
  lemma {:induction false} ResultsAreKnown(s: Setup, rows: seq<CaseRow>)
    requires GoodSetup(s)
    ensures Evaluated(ResultsFor(OutcomesUnder(s), rows)) <= LevelsOf(s.contracts).Keys
  {
    var f := OutcomesUnder(s);
    OutcomesUnderLabelled(s);
    forall c | c in Evaluated(ResultsFor(f, rows))
      ensures c in s.contracts
    {
      var r :| r in ResultsFor(f, rows) && r.contract == c;
      ResultsComeFromRows(f, rows, r);
    }
  }
}
