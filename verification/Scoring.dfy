/** Scores of a result list: definitions that do not depend on order, and the loops that compute them. */
module Scoring {
  import opened Sequences
  import opened Orders
  import opened Contracts

  datatype CaseResult = CaseResult(caseId: Id, contract: Id, passed: bool, performanceRatio: Option<real>)

  /** `math.log` and `math.exp`. */
  datatype LogExp = LogExp(log: real -> real, exp: real -> real)

  /** What the scores rely on: both are monotone, `exp` is positive, and it undoes `log` on the positive reals. */
  ghost predicate GoodMath(m: LogExp) {
    && (forall y :: m.exp(y) > 0.0)
    && (forall x :: x > 0.0 ==> m.exp(m.log(x)) == x)
    && (forall x, y :: 0.0 < x <= y ==> m.log(x) <= m.log(y))
    && (forall x, y :: x <= y ==> m.exp(x) <= m.exp(y))
  }

  datatype Config = Config(
    epsilon: real,
    threshold: real,
    weights: seq<real>,
    nativeThresholds: seq<real>,
    officialProfiles: set<string>)

  ghost predicate GoodConfig(cfg: Config) {
    && 0.0 < cfg.epsilon <= 1.0
    && |cfg.weights| == LEVEL_COUNT
    && forall l :: 0 <= l < LEVEL_COUNT ==> cfg.weights[l] > 0.0
  }

  // ----- per-Contract rates -----

  function Total(results: seq<CaseResult>, c: Id): nat {
    if results == [] then 0
    else
      var r := results[|results| - 1];
      Total(results[..|results| - 1], c) + if r.contract == c then 1 else 0
  }

  function Passed(results: seq<CaseResult>, c: Id): (n: nat)
    ensures n <= Total(results, c)
  {
    if results == [] then 0
    else
      var r := results[|results| - 1];
      Passed(results[..|results| - 1], c) + if r.contract == c && r.passed then 1 else 0
  }

  function Evaluated(results: seq<CaseResult>): set<Id> {
    set r | r in results :: r.contract
  }

  lemma {:induction false} EvaluatedHaveCases(results: seq<CaseResult>, c: Id)
    ensures c in Evaluated(results) <==> Total(results, c) > 0
  {
    if results != [] {
      var rest, last := results[..|results| - 1], results[|results| - 1];
      EvaluatedHaveCases(rest, c);
      assert results == rest + [last];
      assert Evaluated(results) == Evaluated(rest) + {last.contract};
    }
  }

  lemma QuotientAgainst(p: real, w: real, b: real)
    requires w > 0.0
    ensures p / w >= b <==> p >= b * w
  {
    var q := p / w;
    assert q * w == p;
    if q >= b { assert (q - b) * w >= 0.0; } else { assert (b - q) * w > 0.0; }
  }

  function Ratio(part: int, whole: int): (r: real)
    requires whole > 0
    ensures 0 <= part <= whole ==> 0.0 <= r <= 1.0
    ensures r >= 1.0 <==> part >= whole
  {
    QuotientAgainst(part as real, whole as real, 0.0);
    QuotientAgainst(part as real, whole as real, 1.0);
    part as real / whole as real
  }

  /** The share of a Contract's cases that passed, for every evaluated Contract. */
  function ContractScores(results: seq<CaseResult>): (scores: map<Id, real>)
    ensures scores.Keys == Evaluated(results)
    ensures forall c :: c in scores ==> 0.0 <= scores[c] <= 1.0
  {
    map c | c in Evaluated(results) ::
      EvaluatedHaveCases(results, c);
      Ratio(Passed(results, c), Total(results, c))
  }

  // ----- positions in the result list -----

  /** Where the results of a Contract are that passed, or those that failed. */
  ghost function Positions(results: seq<CaseResult>, c: Id, passed: bool): set<nat> {
    set i | 0 <= i < |results| && results[i].contract == c && results[i].passed == passed
  }

  lemma PositionsNext(results: seq<CaseResult>, last: CaseResult, c: Id, passed: bool)
    ensures Positions(results + [last], c, passed)
            == Positions(results, c, passed)
               + if last.contract == c && last.passed == passed then {|results|} else {}
    ensures |Positions(results + [last], c, passed)|
            == |Positions(results, c, passed)| + if last.contract == c && last.passed == passed then 1 else 0
  {
    assert |results| !in Positions(results, c, passed);
  }

  lemma {:induction false} CountsByPosition(results: seq<CaseResult>, c: Id)
    ensures Passed(results, c) == |Positions(results, c, true)|
    ensures Total(results, c) == |Positions(results, c, true)| + |Positions(results, c, false)|
  {
    if results != [] {
      var rest, last := results[..|results| - 1], results[|results| - 1];
      assert results == rest + [last];
      CountsByPosition(rest, c);
      PositionsNext(rest, last, c, true);
      PositionsNext(rest, last, c, false);
    }
  }

  lemma RatioTimes(part: int, whole: int)
    requires whole > 0
    ensures Ratio(part, whole) * whole as real == part as real
  {
  }

  // ----- level scores -----

  function ScoreOr0(scores: map<Id, real>, c: Id): real {
    if c in scores then scores[c] else 0.0
  }

  function SumOr0(scores: map<Id, real>, ids: seq<Id>): real {
    if ids == [] then 0.0 else ScoreOr0(scores, ids[0]) + SumOr0(scores, ids[1..])
  }

  function Sum(values: seq<real>): real {
    if values == [] then 0.0 else values[0] + Sum(values[1..])
  }

  /** The scores of the listed Contracts that were evaluated. */
  function ObservedScores(scores: map<Id, real>, ids: seq<Id>): (r: seq<real>)
    ensures |r| <= |ids|
  {
    if ids == [] then []
    else (if ids[0] in scores then [scores[ids[0]]] else []) + ObservedScores(scores, ids[1..])
  }

  function LevelIds(levels: map<Id, Level>, l: Level): seq<Id> {
    SortedIds(set c | c in levels && levels[c] == l)
  }

  function LevelScore(scores: map<Id, real>, ids: seq<Id>): real {
    if ids == [] then 0.0 else SumOr0(scores, ids) / |ids| as real
  }

  function ObservedLevelScore(scores: map<Id, real>, ids: seq<Id>): Option<real> {
    var observed := ObservedScores(scores, ids);
    if observed == [] then None else Some(Sum(observed) / |observed| as real)
  }

  function Coverage(scores: map<Id, real>, ids: seq<Id>): real {
    if ids == [] then 0.0 else Ratio(|ObservedScores(scores, ids)|, |ids|)
  }

  function LevelCoverage(levels: map<Id, Level>, scores: map<Id, real>): seq<real> {
    seq(LEVEL_COUNT, l requires 0 <= l < LEVEL_COUNT => Coverage(scores, LevelIds(levels, l)))
  }

  // ----- gates -----

  predicate AllPassed(scores: map<Id, real>, ids: seq<Id>) {
    forall c :: c in ids ==> c in scores && scores[c] >= 1.0
  }

  function BootGate(scores: map<Id, real>, ids: seq<Id>): real {
    if ids != [] && AllPassed(scores, ids) then 1.0 else 0.0
  }

  function ObservedBootGate(scores: map<Id, real>, ids: seq<Id>): real {
    if (exists c :: c in ids && c in scores) && forall c :: c in ids && c in scores ==> scores[c] >= 1.0 then 1.0
    else 0.0
  }

  // ----- the weighted geometric mean -----

  function Max(a: real, b: real): real { if a >= b then a else b }

  function WeightSum(values: seq<(real, real)>): real {
    if values == [] then 0.0 else values[0].1 + WeightSum(values[1..])
  }

  function LogSum(values: seq<(real, real)>, epsilon: real, m: LogExp): real {
    if values == [] then 0.0
    else values[0].1 * m.log(Max(values[0].0, epsilon)) + LogSum(values[1..], epsilon, m)
  }

  /** A weighted geometric mean of values floored at `epsilon`; zero without values or weight. */
  function Geometric(values: seq<(real, real)>, epsilon: real, m: LogExp): real {
    if values == [] || WeightSum(values) <= 0.0 then 0.0
    else m.exp(LogSum(values, epsilon, m) / WeightSum(values))
  }

  function LevelScores(levels: map<Id, Level>, scores: map<Id, real>): seq<real> {
    seq(LEVEL_COUNT, l requires 0 <= l < LEVEL_COUNT => LevelScore(scores, LevelIds(levels, l)))
  }

  function ObservedLevelScores(levels: map<Id, Level>, scores: map<Id, real>): seq<Option<real>> {
    seq(LEVEL_COUNT, l requires 0 <= l < LEVEL_COUNT => ObservedLevelScore(scores, LevelIds(levels, l)))
  }

  /** Pair each level's score with its weight. */
  function Weighted(values: seq<real>, weights: seq<real>): seq<(real, real)>
    requires |values| == |weights|
  {
    if values == [] then [] else [(values[0], weights[0])] + Weighted(values[1..], weights[1..])
  }

  /** The same for the levels that have an observation. */
  function ObservedWeighted(values: seq<Option<real>>, weights: seq<real>): seq<(real, real)>
    requires |values| == |weights|
  {
    if values == [] then []
    else
      var rest := ObservedWeighted(values[1..], weights[1..]);
      match values[0]
      case None => rest
      case Some(v) => [(v, weights[0])] + rest
  }

  function Gated(gate: real, values: seq<(real, real)>, epsilon: real, m: LogExp): real {
    gate * Geometric(values, epsilon, m)
  }

  function OSCorrect(cfg: Config, m: LogExp, levels: map<Id, Level>, scores: map<Id, real>): real
    requires |cfg.weights| == LEVEL_COUNT
  {
    Gated(BootGate(scores, LevelIds(levels, BOOT)), Weighted(LevelScores(levels, scores), cfg.weights), cfg.epsilon, m)
  }

  function ObservedCorrect(cfg: Config, m: LogExp, levels: map<Id, Level>, scores: map<Id, real>): real
    requires |cfg.weights| == LEVEL_COUNT
  {
    Gated(ObservedBootGate(scores, LevelIds(levels, BOOT)),
          ObservedWeighted(ObservedLevelScores(levels, scores), cfg.weights), cfg.epsilon, m)
  }

  // ----- depth -----

  function DepthSet(levels: map<Id, Level>, scores: map<Id, real>, observedOnly: bool, l: Level): set<Id> {
    set c | c in levels && levels[c] == l && (!observedOnly || c in scores)
  }

  function FullSet(levels: map<Id, Level>, scores: map<Id, real>, observedOnly: bool, l: Level): set<Id> {
    set c | c in DepthSet(levels, scores, observedOnly, l) && ScoreOr0(scores, c) >= 1.0
  }

  function DepthCount(levels: map<Id, Level>, scores: map<Id, real>, observedOnly: bool, l: Level): nat {
    |DepthSet(levels, scores, observedOnly, l)|
  }

  function FullCount(levels: map<Id, Level>, scores: map<Id, real>, observedOnly: bool, l: Level): nat {
    |FullSet(levels, scores, observedOnly, l)|
  }

  /** How many Contracts the levels below `l` have. */
  function CumulativeTotal(levels: map<Id, Level>, scores: map<Id, real>, observedOnly: bool, l: nat): nat
    requires l <= LEVEL_COUNT
  {
    if l == 0 then 0
    else CumulativeTotal(levels, scores, observedOnly, l - 1) + DepthCount(levels, scores, observedOnly, l - 1)
  }

  /** How many of them pass in full. */
  function CumulativeFull(levels: map<Id, Level>, scores: map<Id, real>, observedOnly: bool, l: nat): nat
    requires l <= LEVEL_COUNT
  {
    if l == 0 then 0
    else CumulativeFull(levels, scores, observedOnly, l - 1) + FullCount(levels, scores, observedOnly, l - 1)
  }

  /** Level `l` is populated, and it and the levels below it meet the threshold together. */
  predicate Meets(levels: map<Id, Level>, scores: map<Id, real>, threshold: real, observedOnly: bool, l: Level) {
    && DepthSet(levels, scores, observedOnly, l) != {}
    && CumulativeTotal(levels, scores, observedOnly, l + 1) > 0
    && Ratio(CumulativeFull(levels, scores, observedOnly, l + 1), CumulativeTotal(levels, scores, observedOnly, l + 1))
       >= threshold
  }

  /** The first level from `l` on that does not meet the threshold; `LEVEL_COUNT` if none. */
  function FirstStop(levels: map<Id, Level>, scores: map<Id, real>, threshold: real, observedOnly: bool,
                     l: nat): (k: nat)
    requires l <= LEVEL_COUNT
    ensures l <= k <= LEVEL_COUNT
    ensures forall j :: l <= j < k ==> Meets(levels, scores, threshold, observedOnly, j)
    ensures k < LEVEL_COUNT ==> !Meets(levels, scores, threshold, observedOnly, k)
    decreases LEVEL_COUNT - l
  {
    if l < LEVEL_COUNT && Meets(levels, scores, threshold, observedOnly, l)
    then FirstStop(levels, scores, threshold, observedOnly, l + 1)
    else l
  }

  function DepthOf(levels: map<Id, Level>, scores: map<Id, real>, threshold: real, observedOnly: bool): Option<Level> {
    var k := FirstStop(levels, scores, threshold, observedOnly, 0);
    if k == 0 then None else Some(k - 1)
  }

  // ----- native performance -----

  function WorkloadIds(levels: map<Id, Level>): set<Id> {
    set c | c in levels && (levels[c] == REAL_WORKLOADS || levels[c] == FULL_RECONSTRUCTION)
  }

  predicate WithinRatio(r: CaseResult, threshold: real) {
    r.passed && r.performanceRatio.Some? && r.performanceRatio.value <= threshold
  }

  /** Every case of the Contract passed within the threshold, and there is one. */
  predicate Qualifies(results: seq<CaseResult>, c: Id, threshold: real) {
    c in Evaluated(results) && forall r :: r in results && r.contract == c ==> WithinRatio(r, threshold)
  }

  function Native(results: seq<CaseResult>, levels: map<Id, Level>, official: bool, threshold: real): Option<real> {
    var workloads := WorkloadIds(levels);
    if !official then None
    else if workloads == {} then Some(0.0)
    else Some(Ratio(|set c | c in workloads && Qualifies(results, c, threshold)|, |workloads|))
  }

  // ----- the whole report -----

  datatype Scores = Scores(
    osCorrect: real,
    observedCorrect: real,
    depth90: Option<Level>,
    observedDepth90: Option<Level>,
    native: seq<Option<real>>,
    bootGate: real,
    observedBootGate: real,
    levelScores: seq<real>,
    observedLevelScores: seq<Option<real>>,
    levelCoverage: seq<real>,
    contractScores: map<Id, real>,
    passedContracts: nat,
    corpusContracts: nat,
    evaluatedCases: nat)

  function ScoreOf(cfg: Config, m: LogExp, results: seq<CaseResult>, levels: map<Id, Level>, profile: string): Scores
    requires |cfg.weights| == LEVEL_COUNT
  {
    var scores := ContractScores(results);
    Scores(
      OSCorrect(cfg, m, levels, scores),
      ObservedCorrect(cfg, m, levels, scores),
      DepthOf(levels, scores, cfg.threshold, false),
      DepthOf(levels, scores, cfg.threshold, true),
      seq(|cfg.nativeThresholds|, i requires 0 <= i < |cfg.nativeThresholds| =>
        Native(results, levels, profile in cfg.officialProfiles, cfg.nativeThresholds[i])),
      BootGate(scores, LevelIds(levels, BOOT)),
      ObservedBootGate(scores, LevelIds(levels, BOOT)),
      LevelScores(levels, scores),
      ObservedLevelScores(levels, scores),
      LevelCoverage(levels, scores),
      scores,
      |set c | c in scores && scores[c] >= 1.0|,
      |levels|,
      |results|)
  }
}
