/** What the parts of a score report say about the result list: every count and every share by its own definition. */
module ReportFields {
  import opened Sequences
  import opened Orders
  import opened Contracts
  import opened Scoring
  import opened ScoringLaws
  import opened ScoreMeaning
  import opened ReportMeaning

  // ----- Contract scores -----

  /** The Contract has results. */
  ghost predicate HasResults(results: seq<CaseResult>, c: Id) {
    exists i :: 0 <= i < |results| && results[i].contract == c
  }

  /** It has, and all of them passed. */
  ghost predicate AllPass(results: seq<CaseResult>, c: Id) {
    HasResults(results, c) && forall i :: 0 <= i < |results| && results[i].contract == c ==> results[i].passed
  }

  ghost predicate IsShare(score: real, part: int, whole: int) {
    score * whole as real == part as real
  }

  /** The score of a Contract is the share of its results that passed. */
  ghost predicate ShareOf(results: seq<CaseResult>, c: Id, score: real) {
    IsShare(score, |Positions(results, c, true)|, |Positions(results, c, true)| + |Positions(results, c, false)|)
  }

  ghost predicate SharesReported(results: seq<CaseResult>, scores: map<Id, real>) {
    forall c :: (c in scores <==> HasResults(results, c)) && (c in scores ==> ShareOf(results, c, scores[c]))
  }

  lemma EvaluatedIs(results: seq<CaseResult>, c: Id)
    ensures c in Evaluated(results) <==> HasResults(results, c)
  {
    if i :| 0 <= i < |results| && results[i].contract == c { assert results[i] in results; }
  }

  lemma RatioIsShare(part: int, whole: int)
    requires whole > 0
    ensures IsShare(Ratio(part, whole), part, whole)
  {
    RatioTimes(part, whole);
  }

  lemma {:induction false} ScoreIsShare(results: seq<CaseResult>, c: Id)
    ensures c in ContractScores(results) <==> HasResults(results, c)
    ensures c in ContractScores(results) ==> ShareOf(results, c, ContractScores(results)[c])
  {
    EvaluatedIs(results, c);
    EvaluatedHaveCases(results, c);
    CountsByPosition(results, c);
    if c in Evaluated(results) {
      RatioIsShare(Passed(results, c), Total(results, c));
    }
  }

  lemma {:induction false} ContractScoresAreShares(results: seq<CaseResult>)
    ensures SharesReported(results, ContractScores(results))
  {
    var scores := ContractScores(results);
    forall c
      ensures c in scores <==> HasResults(results, c)
      ensures c in scores ==> ShareOf(results, c, scores[c])
    {
      ScoreIsShare(results, c);
    }
  }

  /** A Contract scores one exactly when all of its results passed. */
  lemma {:induction false} FullScoreIs(results: seq<CaseResult>, c: Id)
    ensures c in ContractScores(results) && ContractScores(results)[c] >= 1.0 <==> AllPass(results, c)
  {
    EvaluatedIs(results, c);
    EvaluatedHaveCases(results, c);
    CountsByPosition(results, c);
    assert |Positions(results, c, false)| == 0 <==> Positions(results, c, false) == {};
    assert Positions(results, c, false) == {} <==>
           forall i :: 0 <= i < |results| && results[i].contract == c ==> results[i].passed by {
      if Positions(results, c, false) == {} {
        forall i | 0 <= i < |results| && results[i].contract == c ensures results[i].passed {
          assert i !in Positions(results, c, false);
        }
      }
    }
  }

  // ----- levels -----

  ghost function AtLevel(levels: map<Id, Level>, l: Level): set<Id> {
    set c | c in levels && levels[c] == l
  }

  /** The scores along a list of Contracts, zero for one without results. */
  ghost function ScoreAt(scores: map<Id, real>, ids: seq<Id>): nat -> real {
    (k: nat) => if k < |ids| && ids[k] in scores then scores[ids[k]] else 0.0
  }

  lemma {:induction false} SumOr0Is(scores: map<Id, real>, ids: seq<Id>)
    ensures SumOr0(scores, ids) == SumTo(ScoreAt(scores, ids), |ids|)
  {
    if ids != [] {
      SumOr0Is(scores, ids[1..]);
      SumShift(ScoreAt(scores, ids), ScoreAt(scores, ids[1..]), |ids| - 1);
    }
  }

  lemma {:induction false} ObservedCount(scores: map<Id, real>, ids: seq<Id>)
    requires NoDup(ids)
    ensures |ObservedScores(scores, ids)| == |set c | c in ids && c in scores|
  {
    if ids == [] {
      assert (set c | c in ids && c in scores) == {};
    } else {
      var rest := ids[1..];
      ObservedCount(scores, rest);
      assert ids == [ids[0]] + rest && ids[0] !in rest;
      var some := set c | c in rest && c in scores;
      if ids[0] in scores {
        assert (set c | c in ids && c in scores) == some + {ids[0]};
      } else {
        assert (set c | c in ids && c in scores) == some;
      }
    }
  }

  /** `part` is the share of `sum` that falls on each of `n`; nothing, if there is none. */
  ghost predicate Shared(part: real, sum: real, n: nat) {
    part * n as real == sum && (n == 0 ==> part == 0.0)
  }

  /** A level's score and its observed score are the sum over its Contracts, shared among all of them or among those
      with results; its coverage is the share of the latter. */
  ghost predicate LevelReported(levels: map<Id, Level>, scores: map<Id, real>, l: Level, score: real,
                                seen: Option<real>, coverage: real)
  {
    var all := AtLevel(levels, l);
    var some := set c | c in all && c in scores;
    var sum := SumTo(ScoreAt(scores, SortedIds(all)), |all|);
    && Shared(score, sum, |all|) && Shared(coverage, |some| as real, |all|)
    && (seen.None? <==> some == {}) && (seen.Some? ==> Shared(seen.value, sum, |some|))
  }

  lemma QuotientShares(s: real, n: nat)
    ensures n > 0 ==> Shared(s / n as real, s, n)
  {
    if n > 0 { Quotient(s, n as real); }
  }

  lemma {:induction false} LevelScoreShares(scores: map<Id, real>, ids: seq<Id>)
    ensures Shared(LevelScore(scores, ids), SumTo(ScoreAt(scores, ids), |ids|), |ids|)
  {
    SumOr0Is(scores, ids);
    QuotientShares(SumOr0(scores, ids), |ids|);
  }

  lemma {:induction false} ObservedScoreShares(scores: map<Id, real>, ids: seq<Id>, some: set<Id>)
    requires NoDup(ids) && some == set c | c in ids && c in scores
    ensures ObservedLevelScore(scores, ids).None? <==> some == {}
    ensures ObservedLevelScore(scores, ids).Some? ==>
              Shared(ObservedLevelScore(scores, ids).value, SumTo(ScoreAt(scores, ids), |ids|), |some|)
  {
    ObservedCount(scores, ids);
    ObservedSum(scores, ids);
    SumOr0Is(scores, ids);
    assert |some| == 0 <==> some == {};
    QuotientShares(SumOr0(scores, ids), |some|);
  }

  lemma {:induction false} CoverageShares(scores: map<Id, real>, ids: seq<Id>, some: set<Id>)
    requires NoDup(ids) && some == set c | c in ids && c in scores
    ensures Shared(Coverage(scores, ids), |some| as real, |ids|)
  {
    ObservedCount(scores, ids);
    if ids != [] { RatioTimes(|some|, |ids|); }
  }

  lemma {:induction false} LevelIsReported(levels: map<Id, Level>, scores: map<Id, real>, l: Level)
    ensures var ids := LevelIds(levels, l);
            LevelReported(levels, scores, l, LevelScore(scores, ids), ObservedLevelScore(scores, ids),
                          Coverage(scores, ids))
  {
    var ids, all := LevelIds(levels, l), AtLevel(levels, l);
    var some := set c | c in all && c in scores;
    assert ids == SortedIds(all) && |ids| == |all|;
    assert some == set c | c in ids && c in scores;
    LevelScoreShares(scores, ids);
    ObservedScoreShares(scores, ids, some);
    CoverageShares(scores, ids, some);
  }

  /** Every level of the report is. */
  ghost predicate LevelsReported(levels: map<Id, Level>, d: Scores) {
    && |d.levelScores| == |d.observedLevelScores| == |d.levelCoverage| == 11
    && forall l: Level ::
         LevelReported(levels, d.contractScores, l, d.levelScores[l], d.observedLevelScores[l], d.levelCoverage[l])
  }

  // ----- gates -----

  /** The boot level has Contracts, and all of them pass; or those of them with results do, and there are some. */
  ghost predicate GatesReported(results: seq<CaseResult>, levels: map<Id, Level>, gate: real, observedGate: real) {
    var boot := AtLevel(levels, 0);
    && (gate == 1.0 || gate == 0.0) && (observedGate == 1.0 || observedGate == 0.0)
    && (gate == 1.0 <==> boot != {} && forall c :: c in boot ==> AllPass(results, c))
    && (observedGate == 1.0 <==>
          && (exists c :: c in boot && HasResults(results, c))
          && forall c :: c in boot && HasResults(results, c) ==> AllPass(results, c))
  }

  lemma {:induction false} GatesAreReported(results: seq<CaseResult>, levels: map<Id, Level>)
    ensures var scores, ids := ContractScores(results), LevelIds(levels, BOOT);
            GatesReported(results, levels, BootGate(scores, ids), ObservedBootGate(scores, ids))
  {
    var scores, ids, boot := ContractScores(results), LevelIds(levels, BOOT), AtLevel(levels, 0);
    assert forall c :: c in ids <==> c in boot;
    assert ids == [] <==> boot == {} by { if ids != [] { assert ids[0] in boot; } }
    forall c
      ensures c in scores && scores[c] >= 1.0 <==> AllPass(results, c)
      ensures c in scores <==> HasResults(results, c)
    {
      FullScoreIs(results, c);
      EvaluatedIs(results, c);
    }
  }

  // ----- depth -----

  /** The Contracts that count up to a level, and those of them that score one. */
  ghost function UpTo(levels: map<Id, Level>, scores: map<Id, real>, observedOnly: bool, l: int): set<Id> {
    set c | c in levels && levels[c] <= l && (!observedOnly || c in scores)
  }

  ghost function FullUpTo(levels: map<Id, Level>, scores: map<Id, real>, observedOnly: bool, l: int): set<Id> {
    set c | c in levels && levels[c] <= l && (!observedOnly || c in scores) && c in scores && scores[c] >= 1.0
  }

  /** The level has a Contract that counts, and up to it enough of those that count score one. */
  ghost predicate KeepsUp(levels: map<Id, Level>, scores: map<Id, real>, threshold: real, observedOnly: bool, l: nat) {
    && (exists c :: c in levels && levels[c] == l && (!observedOnly || c in scores))
    && AtLeastShare(|FullUpTo(levels, scores, observedOnly, l)|, threshold, |UpTo(levels, scores, observedOnly, l)|)
  }

  ghost predicate AtLeastShare(part: int, threshold: real, whole: int) {
    part as real >= threshold * whole as real
  }

  /** Every level up to the depth keeps up, and the next one does not. */
  ghost predicate DepthReported(levels: map<Id, Level>, scores: map<Id, real>, threshold: real, observedOnly: bool,
                                depth: Option<Level>) {
    var next := if depth.None? then 0 else depth.value + 1;
    && (forall j :: 0 <= j < next ==> KeepsUp(levels, scores, threshold, observedOnly, j))
    && (next < 11 ==> !KeepsUp(levels, scores, threshold, observedOnly, next))
  }

  lemma UpToNext(levels: map<Id, Level>, scores: map<Id, real>, observedOnly: bool, l: Level)
    ensures |UpTo(levels, scores, observedOnly, l)|
            == |UpTo(levels, scores, observedOnly, l - 1)| + |DepthSet(levels, scores, observedOnly, l)|
  {
    var a, b := UpTo(levels, scores, observedOnly, l - 1), DepthSet(levels, scores, observedOnly, l);
    assert UpTo(levels, scores, observedOnly, l) == a + b;
    DisjointSizes(a, b, a + b);
  }

  lemma FullUpToNext(levels: map<Id, Level>, scores: map<Id, real>, observedOnly: bool, l: Level)
    ensures |FullUpTo(levels, scores, observedOnly, l)|
            == |FullUpTo(levels, scores, observedOnly, l - 1)| + |FullSet(levels, scores, observedOnly, l)|
  {
    var a, b := FullUpTo(levels, scores, observedOnly, l - 1), FullSet(levels, scores, observedOnly, l);
    assert FullUpTo(levels, scores, observedOnly, l) == a + b;
    DisjointSizes(a, b, a + b);
  }

  lemma {:induction false} CumulativeIs(levels: map<Id, Level>, scores: map<Id, real>, observedOnly: bool, l: nat)
    requires l <= LEVEL_COUNT
    ensures CumulativeTotal(levels, scores, observedOnly, l) == |UpTo(levels, scores, observedOnly, l - 1)|
    ensures CumulativeFull(levels, scores, observedOnly, l) == |FullUpTo(levels, scores, observedOnly, l - 1)|
  {
    if l == 0 {
      assert UpTo(levels, scores, observedOnly, -1) == {} && FullUpTo(levels, scores, observedOnly, -1) == {};
    } else {
      CumulativeIs(levels, scores, observedOnly, l - 1);
      UpToNext(levels, scores, observedOnly, l - 1);
      FullUpToNext(levels, scores, observedOnly, l - 1);
    }
  }

  lemma DisjointSizes(a: set<Id>, b: set<Id>, c: set<Id>)
    requires a !! b && c == a + b
    ensures |c| == |a| + |b|
  {
  }

  lemma CountsAtLevel(levels: map<Id, Level>, scores: map<Id, real>, observedOnly: bool, l: Level)
    ensures DepthSet(levels, scores, observedOnly, l) != {}
            <==> exists c :: c in levels && levels[c] == l && (!observedOnly || c in scores)
    ensures DepthSet(levels, scores, observedOnly, l) != {} ==> |UpTo(levels, scores, observedOnly, l)| > 0
  {
    var at := DepthSet(levels, scores, observedOnly, l);
    if c :| c in at { assert c in UpTo(levels, scores, observedOnly, l); }
    if c :| c in levels && levels[c] == l && (!observedOnly || c in scores) { assert c in at; }
  }

  lemma RatioAgainst(part: int, whole: int, threshold: real)
    requires whole > 0
    ensures Ratio(part, whole) >= threshold <==> AtLeastShare(part, threshold, whole)
  {
    QuotientAgainst(part as real, whole as real, threshold);
  }

  lemma {:induction false} MeetsIsKeepingUp(levels: map<Id, Level>, scores: map<Id, real>, threshold: real,
                                            observedOnly: bool, l: Level)
    ensures Meets(levels, scores, threshold, observedOnly, l) <==> KeepsUp(levels, scores, threshold, observedOnly, l)
  {
    CumulativeIs(levels, scores, observedOnly, l + 1);
    CountsAtLevel(levels, scores, observedOnly, l);
    var full := CumulativeFull(levels, scores, observedOnly, l + 1);
    var total := CumulativeTotal(levels, scores, observedOnly, l + 1);
    if total > 0 { RatioAgainst(full, total, threshold); }
  }

  lemma {:induction false} DepthIsReported(levels: map<Id, Level>, scores: map<Id, real>, threshold: real,
                                           observedOnly: bool)
    ensures DepthReported(levels, scores, threshold, observedOnly, DepthOf(levels, scores, threshold, observedOnly))
  {
    forall l: Level
      ensures Meets(levels, scores, threshold, observedOnly, l) <==> KeepsUp(levels, scores, threshold, observedOnly, l)
    {
      MeetsIsKeepingUp(levels, scores, threshold, observedOnly, l);
    }
  }

  // ----- native performance -----

  ghost predicate FastEnough(results: seq<CaseResult>, c: Id, t: real) {
    && AllPass(results, c)
    && forall i :: 0 <= i < |results| && results[i].contract == c ==>
         results[i].performanceRatio.Some? && results[i].performanceRatio.value <= t
  }

  ghost function Workloads(levels: map<Id, Level>): set<Id> {
    set c | c in levels && (levels[c] == 9 || levels[c] == 10)
  }

  /** Nothing for an unofficial profile; otherwise the share of the workload Contracts that are fast enough. */
  ghost predicate NativeReported(results: seq<CaseResult>, levels: map<Id, Level>, official: bool, t: real,
                                 share: Option<real>) {
    && (share.Some? <==> official)
    && (share.Some? ==>
          var fast := (set c | c in Workloads(levels) && FastEnough(results, c, t));
          Shared(share.value, |fast| as real, |Workloads(levels)|))
  }

  lemma {:induction false} QualifiesIs(results: seq<CaseResult>, c: Id, t: real)
    ensures Qualifies(results, c, t) <==> FastEnough(results, c, t)
  {
    EvaluatedIs(results, c);
    if Qualifies(results, c, t) {
      forall i | 0 <= i < |results| && results[i].contract == c ensures WithinRatio(results[i], t) {
        assert results[i] in results;
      }
    }
  }

  lemma {:induction false} NativeIsReported(results: seq<CaseResult>, levels: map<Id, Level>, official: bool, t: real)
    ensures NativeReported(results, levels, official, t, Native(results, levels, official, t))
  {
    forall c ensures Qualifies(results, c, t) <==> FastEnough(results, c, t) { QualifiesIs(results, c, t); }
    var W := Workloads(levels);
    assert W == WorkloadIds(levels);
    var fast := set c | c in W && FastEnough(results, c, t);
    assert fast == set c | c in W && Qualifies(results, c, t);
    if W != {} { RatioTimes(|fast|, |W|); } else { assert fast == {}; }
  }

  // ----- the report -----

  /** Everything the report says but for the two means. */
  ghost predicate FieldsReported(cfg: Config, results: seq<CaseResult>, levels: map<Id, Level>, profile: string,
                                 d: Scores)
  {
    && SharesReported(results, d.contractScores)
    && LevelsReported(levels, d)
    && GatesReported(results, levels, d.bootGate, d.observedBootGate)
    && DepthReported(levels, d.contractScores, cfg.threshold, false, d.depth90)
    && DepthReported(levels, d.contractScores, cfg.threshold, true, d.observedDepth90)
    && |d.native| == |cfg.nativeThresholds|
    && (forall k :: 0 <= k < |d.native| ==>
          NativeReported(results, levels, profile in cfg.officialProfiles, cfg.nativeThresholds[k], d.native[k]))
    && d.passedContracts == |set c | c in d.contractScores && AllPass(results, c)|
    && d.corpusContracts == |levels| && d.evaluatedCases == |results|
  }

  lemma {:induction false} LevelsAreReported(cfg: Config, m: LogExp, results: seq<CaseResult>, levels: map<Id, Level>,
                                             profile: string)
    requires |cfg.weights| == LEVEL_COUNT
    ensures LevelsReported(levels, ScoreOf(cfg, m, results, levels, profile))
  {
    forall l: Level
      ensures var ids := LevelIds(levels, l);
              LevelReported(levels, ContractScores(results), l, LevelScore(ContractScores(results), ids),
                            ObservedLevelScore(ContractScores(results), ids), Coverage(ContractScores(results), ids))
    {
      LevelIsReported(levels, ContractScores(results), l);
    }
  }

  lemma {:induction false} PassedContractsIs(results: seq<CaseResult>)
    ensures var scores := ContractScores(results);
            (set c | c in scores && scores[c] >= 1.0) == set c | c in scores && AllPass(results, c)
  {
    forall c ensures c in ContractScores(results) && ContractScores(results)[c] >= 1.0 <==> AllPass(results, c) {
      FullScoreIs(results, c);
    }
  }

  lemma {:induction false} ReportHasFields(cfg: Config, m: LogExp, results: seq<CaseResult>, levels: map<Id, Level>,
                                           profile: string)
    requires |cfg.weights| == LEVEL_COUNT
    ensures FieldsReported(cfg, results, levels, profile, ScoreOf(cfg, m, results, levels, profile))
  {
    var scores := ContractScores(results);
    ContractScoresAreShares(results);
    LevelsAreReported(cfg, m, results, levels, profile);
    GatesAreReported(results, levels);
    DepthIsReported(levels, scores, cfg.threshold, false);
    DepthIsReported(levels, scores, cfg.threshold, true);
    forall k | 0 <= k < |cfg.nativeThresholds|
      ensures NativeReported(results, levels, profile in cfg.officialProfiles, cfg.nativeThresholds[k],
                             Native(results, levels, profile in cfg.officialProfiles, cfg.nativeThresholds[k]))
    {
      NativeIsReported(results, levels, profile in cfg.officialProfiles, cfg.nativeThresholds[k]);
    }
    PassedContractsIs(results);
  }

  // ----- a perfect run -----

  lemma {:induction false} SumOfOnes(f: nat -> real, n: nat)
    requires forall k :: 0 <= k < n ==> f(k) == 1.0
    ensures SumTo(f, n) == n as real
  {
    if n > 0 { SumOfOnes(f, n - 1); }
  }

  lemma OnlyOne(part: real, n: nat)
    requires n > 0 && Shared(part, n as real, n)
    ensures part == 1.0
  {
    assert (part - 1.0) * n as real == 0.0;
  }

  lemma {:induction false} PerfectLevel(levels: map<Id, Level>, scores: map<Id, real>, l: Level, score: real,
                                        seen: Option<real>, coverage: real)
    requires LevelReported(levels, scores, l, score, seen, coverage) && AtLevel(levels, l) != {}
    requires forall c :: c in AtLevel(levels, l) ==> c in scores && scores[c] == 1.0
    ensures score == 1.0 && seen == Some(1.0)
  {
    var all := AtLevel(levels, l);
    var ids := SortedIds(all);
    assert (set c | c in all && c in scores) == all;
    forall k | 0 <= k < |all| ensures ScoreAt(scores, ids)(k) == 1.0 { assert ids[k] in ids; }
    SumOfOnes(ScoreAt(scores, ids), |all|);
    OnlyOne(score, |all|);
    OnlyOne(seen.value, |all|);
  }

  lemma {:induction false} FullShare(results: seq<CaseResult>, c: Id, score: real)
    requires AllPass(results, c) && ShareOf(results, c, score)
    ensures score == 1.0
  {
    var n := |Positions(results, c, true)|;
    assert Positions(results, c, false) == {};
    var i :| 0 <= i < |results| && results[i].contract == c;
    assert i in Positions(results, c, true);
    WholeShare(score, n);
  }

  lemma WholeShare(score: real, n: nat)
    requires n > 0 && IsShare(score, n, n)
    ensures score == 1.0
  {
    assert (score - 1.0) * n as real == 0.0;
  }

  /** Every level has Contracts and all of them pass: all level scores are one, and so are both scores. */
  lemma {:induction false} PerfectRun(cfg: Config, m: LogExp, results: seq<CaseResult>, levels: map<Id, Level>,
                                      profile: string, d: Scores)
    requires FieldsReported(cfg, results, levels, profile, d) && MeansReported(cfg, m, d) && GoodMath(m)
    requires forall l: Level :: AtLevel(levels, l) != {}
    requires forall c :: c in levels ==> AllPass(results, c)
    ensures d.osCorrect == 1.0 && d.observedCorrect == 1.0
  {
    forall c | c in levels ensures c in d.contractScores && d.contractScores[c] == 1.0 {
      assert AllPass(results, c);
      FullShare(results, c, d.contractScores[c]);
    }
    forall l: Level ensures d.levelScores[l] == 1.0 && d.observedLevelScores[l] == Some(1.0) {
      PerfectLevel(levels, d.contractScores, l, d.levelScores[l], d.observedLevelScores[l], d.levelCoverage[l]);
    }
    var boot :| boot in AtLevel(levels, 0);
    EvenLevels(cfg, m, d, 1.0);
    EvenObservedLevels(cfg, m, d, 1.0);
  }
}
