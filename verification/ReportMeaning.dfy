/** What the two scores of a report say, in terms of its level scores and gates and of the configured weights. */
module ReportMeaning {
  import opened Sequences
  import opened Orders
  import opened Contracts
  import opened Scoring
  import opened ScoringLaws
  import opened ScoreMeaning

  /** Eleven levels, and gates that are open or shut. */
  ghost predicate Shaped(d: Scores) {
    && |d.levelScores| == 11 && |d.observedLevelScores| == 11
    && (d.bootGate == 1.0 || d.bootGate == 0.0)
    && (d.observedBootGate == 1.0 || d.observedBootGate == 0.0)
    && (d.observedBootGate == 1.0 ==> d.observedLevelScores[0].Some?)
  }

  /** Each score is the mean of its levels, if its gate is open: of all levels, or of those with an observation. */
  ghost predicate MeansReported(cfg: Config, m: LogExp, d: Scores) {
    && GoodConfig(cfg) && Shaped(d)
    && MeanReported(cfg, m, AllSome(d.levelScores), d.bootGate == 1.0, d.osCorrect)
    && MeanReported(cfg, m, d.observedLevelScores, d.observedBootGate == 1.0, d.observedCorrect)
  }

  ghost predicate MeanReported(cfg: Config, m: LogExp, scores: seq<Option<real>>, open: bool, score: real) {
    && |scores| == |cfg.weights| && Positive(cfg.weights)
    && (open ==> AnyObserved(scores))
    && (!open ==> score == 0.0)
    && (open ==> SumTo(WeightAt(scores, cfg.weights), |scores|) > 0.0)
    && (open ==> score == Mean(scores, cfg.weights, cfg.epsilon, m))
  }

  lemma {:induction false} GatedMean(cfg: Config, m: LogExp, scores: seq<Option<real>>, gate: real)
    requires |scores| == |cfg.weights| && Positive(cfg.weights) && (gate == 1.0 || gate == 0.0)
    requires gate == 1.0 ==> AnyObserved(scores)
    ensures MeanReported(cfg, m, scores, gate == 1.0,
                         Gated(gate, ObservedWeighted(scores, cfg.weights), cfg.epsilon, m))
  {
    if gate == 1.0 { GeometricIsMean(scores, cfg.weights, cfg.epsilon, m); }
  }

  lemma OpenGateIsObserved(levels: map<Id, Level>, scores: map<Id, real>)
    ensures ObservedBootGate(scores, LevelIds(levels, BOOT)) == 1.0 ==> ObservedLevelScores(levels, scores)[0].Some?
  {
    ObservedEmpty(scores, LevelIds(levels, BOOT));
  }

  lemma {:induction false} GatedFullMean(cfg: Config, m: LogExp, values: seq<real>, gate: real)
    requires |values| == |cfg.weights| > 0 && Positive(cfg.weights) && (gate == 1.0 || gate == 0.0)
    ensures MeanReported(cfg, m, AllSome(values), gate == 1.0,
                         Gated(gate, Weighted(values, cfg.weights), cfg.epsilon, m))
  {
    WeightedIsObserved(values, cfg.weights);
    assert Observed(AllSome(values), 0);
    GatedMean(cfg, m, AllSome(values), gate);
  }

  lemma OSCorrectReported(cfg: Config, m: LogExp, levels: map<Id, Level>, scores: map<Id, real>)
    requires GoodConfig(cfg)
    ensures MeanReported(cfg, m, AllSome(LevelScores(levels, scores)), BootGate(scores, LevelIds(levels, BOOT)) == 1.0,
                         OSCorrect(cfg, m, levels, scores))
  {
    GatedFullMean(cfg, m, LevelScores(levels, scores), BootGate(scores, LevelIds(levels, BOOT)));
  }

  lemma ObservedCorrectReported(cfg: Config, m: LogExp, levels: map<Id, Level>, scores: map<Id, real>)
    requires GoodConfig(cfg)
    ensures MeanReported(cfg, m, ObservedLevelScores(levels, scores),
                         ObservedBootGate(scores, LevelIds(levels, BOOT)) == 1.0,
                         ObservedCorrect(cfg, m, levels, scores))
  {
    var seen := ObservedLevelScores(levels, scores);
    OpenGateIsObserved(levels, scores);
    if ObservedBootGate(scores, LevelIds(levels, BOOT)) == 1.0 { assert Observed(seen, 0); }
    GatedMean(cfg, m, seen, ObservedBootGate(scores, LevelIds(levels, BOOT)));
  }

  /** Of every result list. */
  lemma ReportHasMeans(cfg: Config, m: LogExp, results: seq<CaseResult>, levels: map<Id, Level>, profile: string)
    requires GoodConfig(cfg)
    ensures MeansReported(cfg, m, ScoreOf(cfg, m, results, levels, profile))
  {
    var scores := ContractScores(results);
    OSCorrectReported(cfg, m, levels, scores);
    ObservedCorrectReported(cfg, m, levels, scores);
    OpenGateIsObserved(levels, scores);
  }

  // ----- bounds -----

  /** The score lies between any positive bounds of the floored scores of its levels. */
  lemma ScoreBetween(cfg: Config, m: LogExp, scores: seq<Option<real>>, score: real, low: real, high: real)
    requires GoodMath(m) && 0.0 < low <= high && MeanReported(cfg, m, scores, true, score)
    requires Between(scores, cfg.epsilon, low, high)
    ensures low <= score <= high
  {
    MeanBetween(scores, cfg.weights, cfg.epsilon, m, low, high);
  }

  /** Where all levels score alike, that is the score; where all are at `epsilon` or below, it is `epsilon`. */
  lemma EvenScore(cfg: Config, m: LogExp, scores: seq<Option<real>>, score: real, v: real)
    requires GoodMath(m) && cfg.epsilon > 0.0 && MeanReported(cfg, m, scores, true, score)
    ensures v >= cfg.epsilon && (forall l :: 0 <= l < |scores| && scores[l].Some? ==> scores[l].value == v) ==>
              score == v
    ensures (forall l :: 0 <= l < |scores| && scores[l].Some? ==> scores[l].value <= cfg.epsilon) ==>
              score == cfg.epsilon
  {
    if v >= cfg.epsilon && forall l :: 0 <= l < |scores| && scores[l].Some? ==> scores[l].value == v {
      ScoreBetween(cfg, m, scores, score, v, v);
    }
    if forall l :: 0 <= l < |scores| && scores[l].Some? ==> scores[l].value <= cfg.epsilon {
      ScoreBetween(cfg, m, scores, score, cfg.epsilon, cfg.epsilon);
    }
  }

  /** OSCorrect lies between any positive bounds of the floored level scores. */
  lemma OSCorrectBetween(cfg: Config, m: LogExp, d: Scores, low: real, high: real)
    requires MeansReported(cfg, m, d) && GoodMath(m) && 0.0 < low <= high && d.bootGate == 1.0
    requires forall l :: 0 <= l < 11 ==> low <= Floored(d.levelScores[l], cfg.epsilon) <= high
    ensures low <= d.osCorrect <= high
  {
    ScoreBetween(cfg, m, AllSome(d.levelScores), d.osCorrect, low, high);
  }

  lemma ObservedCorrectBetween(cfg: Config, m: LogExp, d: Scores, low: real, high: real)
    requires MeansReported(cfg, m, d) && GoodMath(m) && 0.0 < low <= high && d.observedBootGate == 1.0
    requires forall l :: 0 <= l < 11 && d.observedLevelScores[l].Some? ==>
               low <= Floored(d.observedLevelScores[l].value, cfg.epsilon) <= high
    ensures low <= d.observedCorrect <= high
  {
    ScoreBetween(cfg, m, d.observedLevelScores, d.observedCorrect, low, high);
  }

  lemma EvenLevels(cfg: Config, m: LogExp, d: Scores, v: real)
    requires MeansReported(cfg, m, d) && GoodMath(m) && d.bootGate == 1.0
    ensures v >= cfg.epsilon && (forall l :: 0 <= l < 11 ==> d.levelScores[l] == v) ==> d.osCorrect == v
    ensures (forall l :: 0 <= l < 11 ==> d.levelScores[l] <= cfg.epsilon) ==> d.osCorrect == cfg.epsilon
  {
    EvenScore(cfg, m, AllSome(d.levelScores), d.osCorrect, v);
  }

  lemma EvenObservedLevels(cfg: Config, m: LogExp, d: Scores, v: real)
    requires MeansReported(cfg, m, d) && GoodMath(m) && d.observedBootGate == 1.0
    ensures v >= cfg.epsilon
            && (forall l :: 0 <= l < 11 && d.observedLevelScores[l].Some? ==> d.observedLevelScores[l].value == v) ==>
              d.observedCorrect == v
    ensures (forall l :: 0 <= l < 11 && d.observedLevelScores[l].Some? ==>
               d.observedLevelScores[l].value <= cfg.epsilon) ==>
              d.observedCorrect == cfg.epsilon
  {
    EvenScore(cfg, m, d.observedLevelScores, d.observedCorrect, v);
  }

  // ----- weights -----

  lemma ScoreIgnoresScale(cfg: Config, m: LogExp, scores: seq<Option<real>>, open: bool, a: real, b: real, k: real)
    requires k > 0.0 && MeanReported(cfg, m, scores, open, a)
    requires MeanReported(cfg.(weights := Scaled(cfg.weights, k)), m, scores, open, b)
    ensures a == b
  {
    if open { MeanIgnoresScale(scores, cfg.weights, k, cfg.epsilon, m); }
  }

  /** Multiplying all weights by one factor changes neither score. */
  lemma WeightsAreProportions(cfg: Config, m: LogExp, d: Scores, e: Scores, k: real)
    requires k > 0.0 && MeansReported(cfg, m, d) && MeansReported(cfg.(weights := Scaled(cfg.weights, k)), m, e)
    requires d.levelScores == e.levelScores && d.observedLevelScores == e.observedLevelScores
    requires d.bootGate == e.bootGate && d.observedBootGate == e.observedBootGate
    ensures d.osCorrect == e.osCorrect && d.observedCorrect == e.observedCorrect
  {
    ScoreIgnoresScale(cfg, m, AllSome(d.levelScores), d.bootGate == 1.0, d.osCorrect, e.osCorrect, k);
    ScoreIgnoresScale(cfg, m, d.observedLevelScores, d.observedBootGate == 1.0,
                      d.observedCorrect, e.observedCorrect, k);
  }

  lemma {:induction false} Eleven(f: nat -> real)
    ensures SumTo(f, 11) == f(0) + f(1) + f(2) + f(3) + f(4) + f(5) + f(6) + f(7) + f(8) + f(9) + f(10)
  {
    assert SumTo(f, 3) == f(0) + f(1) + f(2);
    assert SumTo(f, 6) == SumTo(f, 3) + f(3) + f(4) + f(5);
    assert SumTo(f, 9) == SumTo(f, 6) + f(6) + f(7) + f(8);
    assert SumTo(f, 11) == SumTo(f, 9) + f(9) + f(10);
  }

  ghost function If(chosen: bool, weight: real): real {
    if chosen then weight else 0.0
  }

  /** What the chosen of the eleven levels weigh together. */
  ghost function Together(w: seq<real>, chosen: set<nat>): real
    requires |w| == 11
  {
    If(0 in chosen, w[0]) + If(1 in chosen, w[1]) + If(2 in chosen, w[2]) + If(3 in chosen, w[3])
    + If(4 in chosen, w[4]) + If(5 in chosen, w[5]) + If(6 in chosen, w[6]) + If(7 in chosen, w[7])
    + If(8 in chosen, w[8]) + If(9 in chosen, w[9]) + If(10 in chosen, w[10])
  }

  /** The levels with an observation. */
  ghost function Seen(scores: seq<Option<real>>): set<nat> {
    set l | 0 <= l < |scores| && scores[l].Some?
  }

  lemma {:induction false} ChosenAt(scores: seq<Option<real>>, w: seq<real>, group: set<nat>, l: nat)
    requires l < |scores| == |w|
    ensures ClassWeight(scores, w, group)(l) == If(l in group * Seen(scores), w[l])
    ensures OtherWeight(scores, w, group)(l) == If(l in Seen(scores) - group, w[l])
  {
    assert l in Seen(scores) <==> scores[l].Some?;
    assert WeightAt(scores, w)(l) == If(scores[l].Some?, w[l]);
  }

  lemma {:induction false} ChosenWeights(scores: seq<Option<real>>, w: seq<real>, group: set<nat>)
    requires |scores| == |w| == 11
    ensures SumTo(ClassWeight(scores, w, group), 11) == Together(w, group * Seen(scores))
    ensures SumTo(OtherWeight(scores, w, group), 11) == Together(w, Seen(scores) - group)
  {
    var f, g := ClassWeight(scores, w, group), OtherWeight(scores, w, group);
    Eleven(f);
    Eleven(g);
    forall l: nat | l < 11
      ensures f(l) == If(l in group * Seen(scores), w[l]) && g(l) == If(l in Seen(scores) - group, w[l])
    {
      ChosenAt(scores, w, group, l);
    }
  }

  /** Some observed levels at `a` and all others at `b`: the score is the mean of the two, each with its levels'
      weights. */
  lemma {:induction false} ScoreOfTwo(cfg: Config, m: LogExp, scores: seq<Option<real>>, score: real, group: set<nat>,
                                      a: real, b: real)
    requires |scores| == 11 && MeanReported(cfg, m, scores, true, score)
    requires TwoClasses(scores, cfg.epsilon, group, a, b)
    ensures var A, B := Together(cfg.weights, group * Seen(scores)), Together(cfg.weights, Seen(scores) - group);
            A + B > 0.0 && score == MeanOfTwo(m, a, A, b, B)
  {
    MeanOfTwoClasses(scores, cfg.weights, group, a, b, cfg.epsilon, m);
    ChosenWeights(scores, cfg.weights, group);
  }

  const ALL_LEVELS: set<nat> := {0, 1, 2, 3, 4, 5, 6, 7, 8, 9, 10}

  lemma SeenAll(values: seq<real>)
    requires |values| == 11
    ensures Seen(AllSome(values)) == ALL_LEVELS
  {
  }

  lemma OSCorrectOfTwo(cfg: Config, m: LogExp, d: Scores, group: set<nat>, a: real, b: real)
    requires MeansReported(cfg, m, d) && d.bootGate == 1.0 && group <= ALL_LEVELS
    requires forall l :: 0 <= l < 11 ==> Floored(d.levelScores[l], cfg.epsilon) == if l in group then a else b
    ensures var A, B := Together(cfg.weights, group), Together(cfg.weights, ALL_LEVELS - group);
            A + B > 0.0 && d.osCorrect == m.exp(Blend(m.log(a), A, m.log(b), B) / (A + B))
  {
    var scores := AllSome(d.levelScores);
    SeenAll(d.levelScores);
    assert group * Seen(scores) == group;
    ScoreOfTwo(cfg, m, scores, d.osCorrect, group, a, b);
  }

  lemma ObservedCorrectOfTwo(cfg: Config, m: LogExp, d: Scores, group: set<nat>, a: real, b: real)
    requires MeansReported(cfg, m, d) && d.observedBootGate == 1.0
    requires forall l :: 0 <= l < 11 && d.observedLevelScores[l].Some? ==>
               Floored(d.observedLevelScores[l].value, cfg.epsilon) == if l in group then a else b
    ensures var A := Together(cfg.weights, group * Seen(d.observedLevelScores));
            var B := Together(cfg.weights, Seen(d.observedLevelScores) - group);
            A + B > 0.0 && d.observedCorrect == m.exp(Blend(m.log(a), A, m.log(b), B) / (A + B))
  {
    ScoreOfTwo(cfg, m, d.observedLevelScores, d.observedCorrect, group, a, b);
  }

  ghost predicate ArePublished(w: seq<real>) {
    w == [1.5, 1.3, 1.4, 2.0, 1.3, 1.0, 1.2, 1.1, 1.0, 1.4, 1.6]
  }

  lemma LowerNine(group: set<nat>)
    requires group == set l | l in ALL_LEVELS && l < 9
    ensures group == {0, 1, 2, 3, 4, 5, 6, 7, 8} && ALL_LEVELS - group == {9, 10}
  {
  }

  lemma PublishedSums(w: seq<real>, group: set<nat>)
    requires ArePublished(w) && group == set l | l in ALL_LEVELS && l < 9
    ensures Together(w, group) == 11.8 && Together(w, ALL_LEVELS - group) == 3.0
  {
    LowerNine(group);
  }

  lemma SomeAtOne(cfg: Config, m: LogExp, d: Scores, group: set<nat>, A: real, B: real)
    requires MeansReported(cfg, m, d) && d.bootGate == 1.0 && group <= ALL_LEVELS
    requires A == Together(cfg.weights, group) && B == Together(cfg.weights, ALL_LEVELS - group)
    requires forall l :: 0 <= l < 11 ==> d.levelScores[l] == if l in group then 1.0 else 0.0
    ensures A + B > 0.0 && d.osCorrect == MeanOfTwo(m, 1.0, A, cfg.epsilon, B)
  {
    OSCorrectOfTwo(cfg, m, d, group, 1.0, cfg.epsilon);
  }

  /** The published weights, with the nine lower levels at one and the two workload levels at zero. */
  lemma PublishedWeights(cfg: Config, m: LogExp, d: Scores)
    requires MeansReported(cfg, m, d) && d.bootGate == 1.0 && ArePublished(cfg.weights)
    requires forall l :: 0 <= l < 11 ==> d.levelScores[l] == if l < 9 then 1.0 else 0.0
    ensures d.osCorrect == MeanOfTwo(m, 1.0, 11.8, cfg.epsilon, 3.0)
  {
    var group := set l | l in ALL_LEVELS && l < 9;
    PublishedSums(cfg.weights, group);
    SomeAtOne(cfg, m, d, group, 11.8, 3.0);
  }
}
