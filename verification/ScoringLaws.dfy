/** What the scores guarantee: bounds, the order of authoritative and observed scores, monotonicity, depth as a
    prefix. */
module ScoringLaws {
  import opened Sequences
  import opened Orders
  import opened Contracts
  import opened Scoring

  ghost predicate UnitScores(scores: map<Id, real>) {
    forall c :: c in scores ==> 0.0 <= scores[c] <= 1.0
  }

  // ----- level scores -----

  lemma {:induction false} ObservedSum(scores: map<Id, real>, ids: seq<Id>)
    ensures Sum(ObservedScores(scores, ids)) == SumOr0(scores, ids)
  {
    if ids != [] {
      ObservedSum(scores, ids[1..]);
      var rest := ObservedScores(scores, ids[1..]);
      if ids[0] in scores {
        assert ([scores[ids[0]]] + rest)[1..] == rest;
      } else {
        assert [] + rest == rest;
      }
    }
  }

  lemma {:induction false} SumBounds(scores: map<Id, real>, ids: seq<Id>)
    requires UnitScores(scores)
    ensures 0.0 <= SumOr0(scores, ids) <= |ObservedScores(scores, ids)| as real
  {
    if ids != [] { SumBounds(scores, ids[1..]); }
  }

  lemma {:induction false} ObservedEmpty(scores: map<Id, real>, ids: seq<Id>)
    ensures ObservedScores(scores, ids) == [] <==> forall c :: c in ids ==> c !in scores
  {
    if ids != [] {
      ObservedEmpty(scores, ids[1..]);
      assert ids == [ids[0]] + ids[1..];
    }
  }

  lemma MulCancel(a: real, b: real, d: real)
    requires d > 0.0 && a * d <= b * d
    ensures a <= b
  {
  }

  lemma QuotientOrder(s: real, n: real, k: real)
    requires 0.0 <= s <= k && 0.0 < k <= n
    ensures 0.0 <= s / n <= s / k <= 1.0
  {
    assert s / n * n == s && s / k * k == s;
    assert s / k >= 0.0 && s / n >= 0.0;
    assert s / k * n >= s / k * k;
    MulCancel(s / n, s / k, n);
    MulCancel(s / k, 1.0, k);
  }

  /** An unobserved level counts zero; an observed one scores at least as high among its observed Contracts. */
  lemma LevelScoreOrder(scores: map<Id, real>, ids: seq<Id>)
    requires UnitScores(scores)
    ensures 0.0 <= LevelScore(scores, ids) <= 1.0
    ensures match ObservedLevelScore(scores, ids)
            case None => LevelScore(scores, ids) == 0.0
            case Some(v) => LevelScore(scores, ids) <= v <= 1.0
  {
    SumBounds(scores, ids);
    ObservedSum(scores, ids);
    var observed := ObservedScores(scores, ids);
    if observed != [] {
      QuotientOrder(SumOr0(scores, ids), |ids| as real, |observed| as real);
    }
  }

  // ----- the order of the two means -----

  lemma Distribute(a: real, b: real, c: real)
    ensures (a + b) * c == a * c + b * c
  {
  }

  lemma MulOrder(w: real, a: real, b: real)
    requires w >= 0.0 && a <= b
    ensures w * a <= w * b
  {
  }

  lemma Quotient(s: real, w: real)
    requires w > 0.0
    ensures w * (s / w) == s
  {
  }

  /** Weights `some` with mean at least `base`, and further weights that contribute `base` at most: leaving the latter
      out raises the mean. */
  lemma MeanRises(sumAll: real, sumSome: real, all: real, some: real, base: real)
    requires 0.0 < some <= all
    requires sumAll + some * base <= sumSome + all * base
    requires some * base <= sumSome
    ensures sumAll / all <= sumSome / some
  {
    var mean, more := sumSome / some, all - some;
    Quotient(sumSome, some);
    QuotientAtLeast(sumSome, some, base);
    var allBase, someBase, moreBase := all * base, some * base, more * base;
    var allMean, someMean, moreMean := all * mean, some * mean, more * mean;
    MulOrder(more, base, mean);
    Distribute(some, more, base);
    Distribute(some, more, mean);
    assert some + more == all;
    assert allBase == someBase + moreBase && allMean == someMean + moreMean && someMean == sumSome;
    assert sumAll <= allMean;
    QuotientAtMost(sumAll, all, mean);
  }

  lemma QuotientAtLeast(s: real, w: real, low: real)
    requires w > 0.0 && w * low <= s
    ensures low <= s / w
  {
    Quotient(s, w);
    if low > s / w { StrictOrder(w, s / w, low); }
  }

  lemma QuotientAtMost(s: real, w: real, top: real)
    requires w > 0.0 && s <= w * top
    ensures s / w <= top
  {
    Quotient(s, w);
    if s / w > top { StrictOrder(w, top, s / w); }
  }

  lemma StrictOrder(w: real, a: real, b: real)
    requires w > 0.0 && a < b
    ensures w * a < w * b
  {
  }

  /** How the sums over all levels relate to the sums over the observed ones. */
  ghost predicate SumsOrdered(all: real, some: real, sumAll: real, sumSome: real, base: real, top: real) {
    && 0.0 <= some <= all
    && sumAll + some * base <= sumSome + all * base
    && some * base <= sumSome <= some * top
  }

  lemma SkipLevel(all: real, some: real, sumAll: real, sumSome: real, base: real, top: real, w: real)
    requires SumsOrdered(all, some, sumAll, sumSome, base, top) && w > 0.0
    ensures SumsOrdered(w + all, some, w * base + sumAll, sumSome, base, top)
  {
    var wBase, allBase, someBase := w * base, all * base, some * base;
    var newBase := (w + all) * base;
    Distribute(w, all, base);
    assert newBase == wBase + allBase;
    assert wBase + sumAll + someBase <= sumSome + newBase;
  }

  lemma AddLevel(all: real, some: real, sumAll: real, sumSome: real, base: real, top: real, w: real, a: real, b: real)
    requires SumsOrdered(all, some, sumAll, sumSome, base, top)
    requires w > 0.0 && a <= b && base <= b <= top
    ensures SumsOrdered(w + all, w + some, w * a + sumAll, w * b + sumSome, base, top)
  {
    var wA, wB, wBase, wTop := w * a, w * b, w * base, w * top;
    var allBase, someBase, someTop := all * base, some * base, some * top;
    var newAll, newSome, newTop := (w + all) * base, (w + some) * base, (w + some) * top;
    MulOrder(w, a, b);
    MulOrder(w, base, b);
    MulOrder(w, b, top);
    Distribute(w, all, base);
    Distribute(w, some, base);
    Distribute(w, some, top);
    assert newAll == wBase + allBase && newSome == wBase + someBase && newTop == wTop + someTop;
    assert wA + sumAll + newSome <= wB + sumSome + newAll;
    assert newSome <= wB + sumSome <= newTop;
  }

  lemma LogBounds(m: LogExp, epsilon: real, x: real, y: real)
    requires GoodMath(m) && 0.0 < epsilon <= 1.0 && x <= y <= 1.0
    ensures m.log(epsilon) <= m.log(Max(x, epsilon)) <= m.log(Max(y, epsilon)) <= m.log(1.0)
  {
  }

  /** Observed values are at least the plain ones, which are zero where nothing was observed. */
  ghost predicate Dominates(values: seq<real>, observed: seq<Option<real>>) {
    && |values| == |observed|
    && forall l :: 0 <= l < |values| ==> DominatesAt(values[l], observed[l])
  }

  ghost predicate DominatesAt(value: real, observed: Option<real>) {
    && 0.0 <= value <= 1.0
    && (observed.None? ==> value == 0.0)
    && (observed.Some? ==> value <= observed.value <= 1.0)
  }

  ghost predicate Positive(weights: seq<real>) {
    forall l :: 0 <= l < |weights| ==> weights[l] > 0.0
  }

  lemma {:induction false} ConsSums(v: real, w: real, rest: seq<(real, real)>, epsilon: real, m: LogExp)
    ensures WeightSum([(v, w)] + rest) == w + WeightSum(rest)
    ensures LogSum([(v, w)] + rest, epsilon, m) == w * m.log(Max(v, epsilon)) + LogSum(rest, epsilon, m)
  {
    assert ([(v, w)] + rest)[1..] == rest;
  }

  /** `SumsOrdered` for the sums of two lists of weighted values. */
  ghost predicate ListsOrdered(W: seq<(real, real)>, O: seq<(real, real)>, epsilon: real, m: LogExp) {
    && SumsOrdered(WeightSum(W), WeightSum(O), LogSum(W, epsilon, m), LogSum(O, epsilon, m), m.log(epsilon), m.log(1.0))
    && (O != [] ==> WeightSum(O) > 0.0)
  }

  lemma SkipOne(W: seq<(real, real)>, O: seq<(real, real)>, w: real, epsilon: real, m: LogExp)
    requires epsilon > 0.0 && w > 0.0 && ListsOrdered(W, O, epsilon, m)
    ensures ListsOrdered([(0.0, w)] + W, O, epsilon, m)
  {
    ConsSums(0.0, w, W, epsilon, m);
    SkipLevel(WeightSum(W), WeightSum(O), LogSum(W, epsilon, m), LogSum(O, epsilon, m), m.log(epsilon), m.log(1.0), w);
  }

  lemma AddOne(W: seq<(real, real)>, O: seq<(real, real)>, v: real, u: real, w: real, epsilon: real, m: LogExp)
    requires w > 0.0 && ListsOrdered(W, O, epsilon, m)
    requires m.log(epsilon) <= m.log(Max(v, epsilon)) <= m.log(Max(u, epsilon)) <= m.log(1.0)
    ensures ListsOrdered([(v, w)] + W, [(u, w)] + O, epsilon, m)
  {
    ConsSums(v, w, W, epsilon, m);
    ConsSums(u, w, O, epsilon, m);
    AddLevel(WeightSum(W), WeightSum(O), LogSum(W, epsilon, m), LogSum(O, epsilon, m), m.log(epsilon), m.log(1.0),
             w, m.log(Max(v, epsilon)), m.log(Max(u, epsilon)));
  }

  /** Leaving unobserved levels out drops terms that are as small as terms get. */
  lemma {:induction false} LevelSums(values: seq<real>, observed: seq<Option<real>>, weights: seq<real>,
                                     epsilon: real, m: LogExp)
    requires GoodMath(m) && 0.0 < epsilon <= 1.0
    requires Dominates(values, observed) && |weights| == |values| && Positive(weights)
    ensures ListsOrdered(Weighted(values, weights), ObservedWeighted(observed, weights), epsilon, m)
  {
    if values != [] {
      assert DominatesAt(values[0], observed[0]);
      LevelSums(values[1..], observed[1..], weights[1..], epsilon, m);
      var W, O := Weighted(values[1..], weights[1..]), ObservedWeighted(observed[1..], weights[1..]);
      if observed[0].None? {
        SkipOne(W, O, weights[0], epsilon, m);
      } else {
        LogBounds(m, epsilon, values[0], observed[0].value);
        AddOne(W, O, values[0], observed[0].value, weights[0], epsilon, m);
      }
    }
  }

  lemma LevelScoresDominate(levels: map<Id, Level>, scores: map<Id, real>)
    requires UnitScores(scores)
    ensures Dominates(LevelScores(levels, scores), ObservedLevelScores(levels, scores))
  {
    forall l | 0 <= l < LEVEL_COUNT
      ensures DominatesAt(LevelScores(levels, scores)[l], ObservedLevelScores(levels, scores)[l])
    {
      LevelScoreOrder(scores, LevelIds(levels, l));
    }
  }

  lemma ExpAtMostOne(m: LogExp, x: real)
    requires GoodMath(m) && x <= m.log(1.0)
    ensures 0.0 <= m.exp(x) <= 1.0
  {
    assert m.exp(x) <= m.exp(m.log(1.0));
  }

  lemma {:induction false} ObservedSums(W: seq<(real, real)>, O: seq<(real, real)>, epsilon: real, m: LogExp)
    requires O != [] && ListsOrdered(W, O, epsilon, m)
    ensures WeightSum(O) > 0.0 && LogSum(O, epsilon, m) <= WeightSum(O) * m.log(1.0)
  {
  }

  lemma GeometricAtMostOne(W: seq<(real, real)>, O: seq<(real, real)>, epsilon: real, m: LogExp)
    requires GoodMath(m) && ListsOrdered(W, O, epsilon, m)
    ensures 0.0 <= Geometric(O, epsilon, m) <= 1.0
  {
    if O != [] {
      ObservedSums(W, O, epsilon, m);
      QuotientAtMost(LogSum(O, epsilon, m), WeightSum(O), m.log(1.0));
      ExpAtMostOne(m, LogSum(O, epsilon, m) / WeightSum(O));
    }
  }

  lemma {:induction false} ListsMeanRises(W: seq<(real, real)>, O: seq<(real, real)>, epsilon: real, m: LogExp)
    requires O != [] && ListsOrdered(W, O, epsilon, m)
    ensures WeightSum(W) >= WeightSum(O) > 0.0
    ensures LogSum(W, epsilon, m) / WeightSum(W) <= LogSum(O, epsilon, m) / WeightSum(O)
  {
    MeanRises(LogSum(W, epsilon, m), LogSum(O, epsilon, m), WeightSum(W), WeightSum(O), m.log(epsilon));
  }

  lemma GeometricOrder(W: seq<(real, real)>, O: seq<(real, real)>, epsilon: real, m: LogExp)
    requires GoodMath(m) && O != [] && W != [] && ListsOrdered(W, O, epsilon, m)
    ensures 0.0 <= Geometric(W, epsilon, m) <= Geometric(O, epsilon, m)
  {
    ListsMeanRises(W, O, epsilon, m);
    ExpOrder(m, LogSum(W, epsilon, m) / WeightSum(W), LogSum(O, epsilon, m) / WeightSum(O));
  }

  lemma ExpOrder(m: LogExp, x: real, y: real)
    requires GoodMath(m) && x <= y
    ensures 0.0 < m.exp(x) <= m.exp(y)
  {
  }

  /** The observed mean lies between zero and one, and above the plain one where the boot level has observations. */
  ghost predicate MeansInOrder(cfg: Config, m: LogExp, levels: map<Id, Level>, scores: map<Id, real>)
    requires |cfg.weights| == LEVEL_COUNT
  {
    var G := Geometric(Weighted(LevelScores(levels, scores), cfg.weights), cfg.epsilon, m);
    var H := Geometric(ObservedWeighted(ObservedLevelScores(levels, scores), cfg.weights), cfg.epsilon, m);
    0.0 <= H <= 1.0 && (ObservedLevelScores(levels, scores)[BOOT].Some? ==> 0.0 <= G <= H)
  }

  lemma MeansOrdered(cfg: Config, m: LogExp, levels: map<Id, Level>, scores: map<Id, real>)
    requires GoodConfig(cfg) && GoodMath(m) && UnitScores(scores)
    ensures MeansInOrder(cfg, m, levels, scores)
  {
    var values, observed := LevelScores(levels, scores), ObservedLevelScores(levels, scores);
    var W, O := Weighted(values, cfg.weights), ObservedWeighted(observed, cfg.weights);
    LevelScoresDominate(levels, scores);
    LevelSums(values, observed, cfg.weights, cfg.epsilon, m);
    GeometricAtMostOne(W, O, cfg.epsilon, m);
    if observed[BOOT].Some? {
      assert O != [] && W != [];
      GeometricOrder(W, O, cfg.epsilon, m);
    }
  }

  lemma GatedOrder(gate: real, observedGate: real, mean: real, observedMean: real)
    requires (gate == 0.0 || gate == 1.0) && (observedGate == 0.0 || observedGate == 1.0)
    requires 0.0 <= observedMean <= 1.0
    requires gate == 1.0 ==> observedGate == 1.0 && 0.0 <= mean <= observedMean
    ensures 0.0 <= gate * mean <= observedGate * observedMean <= 1.0
  {
  }

  lemma GatedMeansOrdered(cfg: Config, m: LogExp, levels: map<Id, Level>, scores: map<Id, real>)
    requires |cfg.weights| == LEVEL_COUNT && MeansInOrder(cfg, m, levels, scores)
    ensures 0.0 <= OSCorrect(cfg, m, levels, scores) <= ObservedCorrect(cfg, m, levels, scores) <= 1.0
  {
    var ids := LevelIds(levels, BOOT);
    var gate, observedGate := BootGate(scores, ids), ObservedBootGate(scores, ids);
    var mean := Geometric(Weighted(LevelScores(levels, scores), cfg.weights), cfg.epsilon, m);
    var observedMean := Geometric(ObservedWeighted(ObservedLevelScores(levels, scores), cfg.weights), cfg.epsilon, m);
    BootGatesOrdered(levels, scores);
    assert gate == 1.0 ==> observedGate == 1.0 && 0.0 <= mean <= observedMean;
    GatedOrder(gate, observedGate, mean, observedMean);
    var low, high := gate * mean, observedGate * observedMean;
    assert low == OSCorrect(cfg, m, levels, scores) && high == ObservedCorrect(cfg, m, levels, scores);
  }

  /** 0 <= OSCorrect <= ObservedCorrect <= 1. */
  lemma ScoreOrder(cfg: Config, m: LogExp, levels: map<Id, Level>, scores: map<Id, real>)
    requires GoodConfig(cfg) && GoodMath(m) && UnitScores(scores)
    ensures 0.0 <= OSCorrect(cfg, m, levels, scores) <= ObservedCorrect(cfg, m, levels, scores) <= 1.0
  {
    MeansOrdered(cfg, m, levels, scores);
    GatedMeansOrdered(cfg, m, levels, scores);
  }

  /** A passing boot gate is a passing observed gate, over a level with observations. */
  lemma BootGatesOrdered(levels: map<Id, Level>, scores: map<Id, real>)
    ensures var ids := LevelIds(levels, BOOT);
            BootGate(scores, ids) == 1.0 ==>
              ObservedBootGate(scores, ids) == 1.0 && ObservedLevelScores(levels, scores)[BOOT].Some?
  {
    var ids := LevelIds(levels, BOOT);
    if BootGate(scores, ids) == 1.0 {
      assert ids[0] in ids;
      ObservedEmpty(scores, ids);
    }
  }

  // ----- monotonicity -----

  /** No Contract of the corpus scores lower; an unevaluated Contract scores zero. */
  ghost predicate NoLower(levels: map<Id, Level>, before: map<Id, real>, after: map<Id, real>) {
    forall c :: c in levels ==> ScoreOr0(before, c) <= ScoreOr0(after, c)
  }

  lemma {:induction false} SumMonotone(before: map<Id, real>, after: map<Id, real>, ids: seq<Id>)
    requires forall c :: c in ids ==> ScoreOr0(before, c) <= ScoreOr0(after, c)
    ensures SumOr0(before, ids) <= SumOr0(after, ids)
  {
    if ids != [] {
      assert ids[0] in ids && forall c :: c in ids[1..] ==> c in ids;
      SumMonotone(before, after, ids[1..]);
    }
  }

  lemma LevelScoreMonotone(levels: map<Id, Level>, before: map<Id, real>, after: map<Id, real>, l: Level)
    requires NoLower(levels, before, after)
    ensures LevelScore(before, LevelIds(levels, l)) <= LevelScore(after, LevelIds(levels, l))
  {
    var ids := LevelIds(levels, l);
    SumMonotone(before, after, ids);
    if ids != [] { DivideMonotone(SumOr0(before, ids), SumOr0(after, ids), |ids| as real); }
  }

  lemma DivideMonotone(a: real, b: real, d: real)
    requires a <= b && d > 0.0
    ensures a / d <= b / d
  {
    assert a / d * d == a && b / d * d == b;
    MulCancel(a / d, b / d, d);
  }

  lemma {:induction false} RaiseOne(W: seq<(real, real)>, V: seq<(real, real)>, a: real, b: real, w: real,
                                    epsilon: real, m: LogExp)
    requires w > 0.0 && m.log(Max(a, epsilon)) <= m.log(Max(b, epsilon))
    requires WeightSum(W) == WeightSum(V) >= 0.0 && LogSum(W, epsilon, m) <= LogSum(V, epsilon, m)
    ensures WeightSum([(a, w)] + W) == WeightSum([(b, w)] + V) > 0.0
    ensures LogSum([(a, w)] + W, epsilon, m) <= LogSum([(b, w)] + V, epsilon, m)
  {
    ConsSums(a, w, W, epsilon, m);
    ConsSums(b, w, V, epsilon, m);
    WeightedStep(w, m.log(Max(a, epsilon)), m.log(Max(b, epsilon)), LogSum(W, epsilon, m), LogSum(V, epsilon, m));
  }

  lemma WeightedStep(w: real, a: real, b: real, c: real, d: real)
    requires w >= 0.0 && a <= b && c <= d
    ensures w * a + c <= w * b + d
  {
    var x, y := w * a, w * b;
    MulOrder(w, a, b);
    AddOrder(x, y, c, d);
  }

  lemma AddOrder(a: real, b: real, c: real, d: real)
    requires a <= b && c <= d
    ensures a + c <= b + d
  {
  }

  lemma {:induction false} LogSumMonotone(before: seq<real>, after: seq<real>, weights: seq<real>, epsilon: real,
                                          m: LogExp)
    requires GoodMath(m) && 0.0 < epsilon <= 1.0 && Positive(weights)
    requires |before| == |after| == |weights|
    requires forall l :: 0 <= l < |before| ==> before[l] <= after[l] <= 1.0
    ensures WeightSum(Weighted(before, weights)) == WeightSum(Weighted(after, weights)) >= 0.0
    ensures before != [] ==> WeightSum(Weighted(before, weights)) > 0.0
    ensures LogSum(Weighted(before, weights), epsilon, m) <= LogSum(Weighted(after, weights), epsilon, m)
  {
    if before != [] {
      LogSumMonotone(before[1..], after[1..], weights[1..], epsilon, m);
      LogBounds(m, epsilon, before[0], after[0]);
      RaiseOne(Weighted(before[1..], weights[1..]), Weighted(after[1..], weights[1..]),
               before[0], after[0], weights[0], epsilon, m);
    }
  }

  lemma GateMonotone(levels: map<Id, Level>, before: map<Id, real>, after: map<Id, real>)
    requires NoLower(levels, before, after)
    ensures BootGate(before, LevelIds(levels, BOOT)) <= BootGate(after, LevelIds(levels, BOOT))
  {
    var ids := LevelIds(levels, BOOT);
    forall c | c in ids && c in before && before[c] >= 1.0
      ensures c in after && after[c] >= 1.0
    {
      assert ScoreOr0(before, c) <= ScoreOr0(after, c);
    }
  }

  lemma {:induction false} GeometricMonotone(W: seq<(real, real)>, V: seq<(real, real)>, epsilon: real, m: LogExp)
    requires GoodMath(m) && W != [] && V != [] && WeightSum(W) == WeightSum(V) > 0.0
    requires LogSum(W, epsilon, m) <= LogSum(V, epsilon, m)
    ensures 0.0 <= Geometric(W, epsilon, m) <= Geometric(V, epsilon, m)
  {
    DivideMonotone(LogSum(W, epsilon, m), LogSum(V, epsilon, m), WeightSum(W));
  }

  lemma MeanMonotone(cfg: Config, m: LogExp, levels: map<Id, Level>, before: map<Id, real>, after: map<Id, real>)
    requires GoodConfig(cfg) && GoodMath(m) && UnitScores(after) && NoLower(levels, before, after)
    ensures 0.0 <= Geometric(Weighted(LevelScores(levels, before), cfg.weights), cfg.epsilon, m)
                <= Geometric(Weighted(LevelScores(levels, after), cfg.weights), cfg.epsilon, m)
  {
    var a, b := LevelScores(levels, before), LevelScores(levels, after);
    forall l | 0 <= l < LEVEL_COUNT
      ensures a[l] <= b[l] <= 1.0
    {
      LevelScoreMonotone(levels, before, after, l);
      LevelScoreOrder(after, LevelIds(levels, l));
    }
    LogSumMonotone(a, b, cfg.weights, cfg.epsilon, m);
    GeometricMonotone(Weighted(a, cfg.weights), Weighted(b, cfg.weights), cfg.epsilon, m);
  }

  /** Raising Contract scores never lowers OSCorrect. */
  lemma OSCorrectMonotone(cfg: Config, m: LogExp, levels: map<Id, Level>, before: map<Id, real>, after: map<Id, real>)
    requires GoodConfig(cfg) && GoodMath(m) && UnitScores(after) && NoLower(levels, before, after)
    ensures OSCorrect(cfg, m, levels, before) <= OSCorrect(cfg, m, levels, after)
  {
    MeanMonotone(cfg, m, levels, before, after);
    GateMonotone(levels, before, after);
  }

  // ----- depth -----

  /** More stops later: whatever meets the threshold in one reading but not in the other decides the order. */
  lemma {:induction false} StopOrder(levels: map<Id, Level>, a: map<Id, real>, b: map<Id, real>, threshold: real,
                                     oa: bool, ob: bool)
    requires forall l: Level :: l < FirstStop(levels, a, threshold, oa, 0) && Meets(levels, a, threshold, oa, l) ==>
               Meets(levels, b, threshold, ob, l)
    ensures FirstStop(levels, a, threshold, oa, 0) <= FirstStop(levels, b, threshold, ob, 0)
  {
    var j, k := FirstStop(levels, a, threshold, oa, 0), FirstStop(levels, b, threshold, ob, 0);
    assert forall l: Level :: l < j ==> Meets(levels, a, threshold, oa, l);
  }

  ghost predicate NoDeeper(a: Option<Level>, b: Option<Level>) {
    a.Some? ==> b.Some? && a.value <= b.value
  }

  lemma RatioOrder(p: nat, n: nat, q: nat, k: nat)
    requires p <= q && 0 < k <= n && q <= k
    ensures Ratio(p, n) <= Ratio(q, k)
  {
    DivideMonotone(p as real, q as real, n as real);
    QuotientOrder(q as real, n as real, k as real);
  }

  lemma {:induction false} FullWithinTotal(levels: map<Id, Level>, scores: map<Id, real>, o: bool, l: nat)
    requires l <= LEVEL_COUNT
    ensures CumulativeFull(levels, scores, o, l) <= CumulativeTotal(levels, scores, o, l)
  {
    if l > 0 {
      FullWithinTotal(levels, scores, o, l - 1);
      SubsetSize(FullSet(levels, scores, o, l - 1), DepthSet(levels, scores, o, l - 1));
    }
  }

  lemma {:induction false} CumulativeMonotone(levels: map<Id, Level>, before: map<Id, real>, after: map<Id, real>,
                                              l: nat)
    requires NoLower(levels, before, after) && l <= LEVEL_COUNT
    ensures CumulativeTotal(levels, before, false, l) == CumulativeTotal(levels, after, false, l)
    ensures CumulativeFull(levels, before, false, l) <= CumulativeFull(levels, after, false, l)
  {
    if l > 0 {
      CumulativeMonotone(levels, before, after, l - 1);
      assert DepthSet(levels, before, false, l - 1) == DepthSet(levels, after, false, l - 1);
      SubsetSize(FullSet(levels, before, false, l - 1), FullSet(levels, after, false, l - 1));
    }
  }

  /** Raising Contract scores never lowers Depth90. */
  lemma DepthMonotone(levels: map<Id, Level>, before: map<Id, real>, after: map<Id, real>, threshold: real)
    requires NoLower(levels, before, after)
    ensures NoDeeper(DepthOf(levels, before, threshold, false), DepthOf(levels, after, threshold, false))
  {
    forall l: Level | Meets(levels, before, threshold, false, l)
      ensures Meets(levels, after, threshold, false, l)
    {
      CumulativeMonotone(levels, before, after, l + 1);
      FullWithinTotal(levels, after, false, l + 1);
      assert DepthSet(levels, before, false, l) == DepthSet(levels, after, false, l);
      RatioOrder(CumulativeFull(levels, before, false, l + 1), CumulativeTotal(levels, before, false, l + 1),
                 CumulativeFull(levels, after, false, l + 1), CumulativeTotal(levels, after, false, l + 1));
    }
    StopOrder(levels, before, after, threshold, false, false);
  }

  lemma {:induction false} ObservedCumulative(levels: map<Id, Level>, scores: map<Id, real>, l: nat)
    requires l <= LEVEL_COUNT
    ensures CumulativeTotal(levels, scores, true, l) <= CumulativeTotal(levels, scores, false, l)
    ensures CumulativeFull(levels, scores, true, l) == CumulativeFull(levels, scores, false, l)
  {
    if l > 0 {
      ObservedCumulative(levels, scores, l - 1);
      SubsetSize(DepthSet(levels, scores, true, l - 1), DepthSet(levels, scores, false, l - 1));
      assert FullSet(levels, scores, true, l - 1) == FullSet(levels, scores, false, l - 1);
    }
  }

  lemma MeetsObserved(levels: map<Id, Level>, scores: map<Id, real>, threshold: real, l: Level)
    requires Meets(levels, scores, threshold, false, l) && DepthSet(levels, scores, true, l) != {}
    ensures Meets(levels, scores, threshold, true, l)
  {
    ObservedCumulative(levels, scores, l + 1);
    FullWithinTotal(levels, scores, true, l + 1);
    var c :| c in DepthSet(levels, scores, true, l);
    SubsetSize({c}, DepthSet(levels, scores, true, l));
    RatioOrder(CumulativeFull(levels, scores, false, l + 1), CumulativeTotal(levels, scores, false, l + 1),
               CumulativeFull(levels, scores, true, l + 1), CumulativeTotal(levels, scores, true, l + 1));
  }

  /** Every level of the authoritative prefix has an evaluated Contract. */
  ghost predicate PrefixObserved(levels: map<Id, Level>, scores: map<Id, real>, threshold: real) {
    forall l: Level :: l < FirstStop(levels, scores, threshold, false, 0) ==> DepthSet(levels, scores, true, l) != {}
  }

  lemma {:induction false} ObservedPrefixGoesOn(levels: map<Id, Level>, scores: map<Id, real>, threshold: real)
    requires PrefixObserved(levels, scores, threshold)
    ensures FirstStop(levels, scores, threshold, false, 0) <= FirstStop(levels, scores, threshold, true, 0)
  {
    forall l: Level | l < FirstStop(levels, scores, threshold, false, 0) && Meets(levels, scores, threshold, false, l)
      ensures Meets(levels, scores, threshold, true, l)
    {
      MeetsObserved(levels, scores, threshold, l);
    }
    StopOrder(levels, scores, scores, threshold, false, true);
  }

  lemma {:induction false} LongerPrefixIsObserved(levels: map<Id, Level>, scores: map<Id, real>, threshold: real)
    requires FirstStop(levels, scores, threshold, false, 0) <= FirstStop(levels, scores, threshold, true, 0)
    ensures PrefixObserved(levels, scores, threshold)
  {
    forall l: Level | l < FirstStop(levels, scores, threshold, false, 0)
      ensures DepthSet(levels, scores, true, l) != {}
    {
      assert Meets(levels, scores, threshold, true, l);
    }
  }

  /** Depth90 is at most ObservedDepth90 exactly when every level of its prefix has an observed Contract. */
  lemma {:induction false} DepthAgainstObserved(levels: map<Id, Level>, scores: map<Id, real>, threshold: real)
    ensures NoDeeper(DepthOf(levels, scores, threshold, false), DepthOf(levels, scores, threshold, true))
            <==> PrefixObserved(levels, scores, threshold)
  {
    if PrefixObserved(levels, scores, threshold) {
      ObservedPrefixGoesOn(levels, scores, threshold);
    }
    if FirstStop(levels, scores, threshold, false, 0) <= FirstStop(levels, scores, threshold, true, 0) {
      LongerPrefixIsObserved(levels, scores, threshold);
    }
  }

  function ExampleLevels(nine: set<Id>, extra: Id): map<Id, Level> {
    map c | c in nine + {extra} :: if c == extra then 1 else 0
  }

  function ExampleScores(nine: set<Id>): map<Id, real> {
    map c | c in nine :: 1.0
  }

  lemma ExampleSets(nine: set<Id>, extra: Id, o: bool)
    requires extra !in nine
    ensures var levels, scores := ExampleLevels(nine, extra), ExampleScores(nine);
            && DepthSet(levels, scores, o, 0) == nine && FullSet(levels, scores, o, 0) == nine
            && DepthSet(levels, scores, o, 1) == (if o then {} else {extra}) && FullSet(levels, scores, o, 1) == {}
            && DepthSet(levels, scores, o, 2) == {}
  {
    var levels, scores := ExampleLevels(nine, extra), ExampleScores(nine);
    assert DepthSet(levels, scores, o, 0) == nine;
    assert FullSet(levels, scores, o, 0) == nine;
    assert DepthSet(levels, scores, o, 1) == if o then {} else {extra};
    assert FullSet(levels, scores, o, 1) == {};
    assert DepthSet(levels, scores, o, 2) == {};
  }

  /** Nine passing boot Contracts and an unevaluated one at the next level: at 90% the observed depth stops first. */
  lemma ObservedDepthCanBeLower(nine: set<Id>, extra: Id)
    requires |nine| == 9 && extra !in nine
    ensures var levels, scores := ExampleLevels(nine, extra), ExampleScores(nine);
            DepthOf(levels, scores, 0.9, false) == Some(1) && DepthOf(levels, scores, 0.9, true) == Some(0)
  {
    var levels, scores := ExampleLevels(nine, extra), ExampleScores(nine);
    ExampleSets(nine, extra, false);
    ExampleSets(nine, extra, true);
    FirstTwoLevels(levels, scores, false);
    FirstTwoLevels(levels, scores, true);
    StopAt(levels, scores, 0.9, false, 2);
    StopAt(levels, scores, 0.9, true, 1);
  }

  lemma {:induction false} FirstTwoLevels(levels: map<Id, Level>, scores: map<Id, real>, o: bool)
    ensures CumulativeTotal(levels, scores, o, 1) == |DepthSet(levels, scores, o, 0)|
    ensures CumulativeFull(levels, scores, o, 1) == |FullSet(levels, scores, o, 0)|
    ensures CumulativeTotal(levels, scores, o, 2) == |DepthSet(levels, scores, o, 0)| + |DepthSet(levels, scores, o, 1)|
    ensures CumulativeFull(levels, scores, o, 2) == |FullSet(levels, scores, o, 0)| + |FullSet(levels, scores, o, 1)|
  {
    assert CumulativeTotal(levels, scores, o, 0) == 0 && CumulativeFull(levels, scores, o, 0) == 0;
  }

  /** The reported depth is the last level of the longest prefix of levels that meet the threshold. */
  lemma StopAt(levels: map<Id, Level>, scores: map<Id, real>, threshold: real, o: bool, k: nat)
    requires k <= LEVEL_COUNT
    requires forall j :: 0 <= j < k ==> Meets(levels, scores, threshold, o, j)
    requires k < LEVEL_COUNT ==> !Meets(levels, scores, threshold, o, k)
    ensures DepthOf(levels, scores, threshold, o) == if k == 0 then None else Some(k - 1)
  {
    assert FirstStop(levels, scores, threshold, o, 0) == k;
  }

  /** Two corpora with scores have the same Contracts, and the same full passes, at level `j`. */
  ghost predicate AgreeAt(levels: map<Id, Level>, a: map<Id, real>, levels': map<Id, Level>, b: map<Id, real>,
                          o: bool, j: Level)
  {
    && DepthSet(levels, a, o, j) == DepthSet(levels', b, o, j)
    && FullSet(levels, a, o, j) == FullSet(levels', b, o, j)
  }

  ghost predicate AgreeBelow(levels: map<Id, Level>, a: map<Id, real>, levels': map<Id, Level>, b: map<Id, real>,
                             o: bool, l: nat)
    requires l <= LEVEL_COUNT
    decreases l
  {
    l == 0 || (AgreeAt(levels, a, levels', b, o, l - 1) && AgreeBelow(levels, a, levels', b, o, l - 1))
  }

  lemma CountsAgree(levels: map<Id, Level>, a: map<Id, real>, levels': map<Id, Level>, b: map<Id, real>, o: bool,
                    j: Level)
    requires AgreeAt(levels, a, levels', b, o, j)
    ensures DepthCount(levels, a, o, j) == DepthCount(levels', b, o, j)
    ensures FullCount(levels, a, o, j) == FullCount(levels', b, o, j)
  {
  }

  lemma {:induction false} CumulativeAgree(levels: map<Id, Level>, a: map<Id, real>, levels': map<Id, Level>,
                                           b: map<Id, real>, o: bool, l: nat)
    requires l <= LEVEL_COUNT && AgreeBelow(levels, a, levels', b, o, l)
    ensures CumulativeTotal(levels, a, o, l) == CumulativeTotal(levels', b, o, l)
    ensures CumulativeFull(levels, a, o, l) == CumulativeFull(levels', b, o, l)
    decreases l
  {
    if l > 0 {
      CountsAgree(levels, a, levels', b, o, l - 1);
      CumulativeAgree(levels, a, levels', b, o, l - 1);
    }
  }

  lemma {:induction false} AgreeUpTo(levels: map<Id, Level>, a: map<Id, real>, levels': map<Id, Level>,
                                     b: map<Id, real>, o: bool, l: nat)
    requires l <= LEVEL_COUNT && forall j: Level :: j < l ==> AgreeAt(levels, a, levels', b, o, j)
    ensures AgreeBelow(levels, a, levels', b, o, l)
    decreases l
  {
    if l > 0 { AgreeUpTo(levels, a, levels', b, o, l - 1); }
  }

  lemma MeetsAgree(levels: map<Id, Level>, a: map<Id, real>, levels': map<Id, Level>, b: map<Id, real>,
                   threshold: real, o: bool, l: Level)
    requires forall j: Level :: j <= l ==> AgreeAt(levels, a, levels', b, o, j)
    ensures Meets(levels, a, threshold, o, l) == Meets(levels', b, threshold, o, l)
  {
    AgreeUpTo(levels, a, levels', b, o, l + 1);
    CumulativeAgree(levels, a, levels', b, o, l + 1);
    assert AgreeAt(levels, a, levels', b, o, l);
  }

  /** Levels past the first stop have no influence on depth. */
  lemma {:induction false} DepthIgnoresLaterLevels(levels: map<Id, Level>, a: map<Id, real>, levels': map<Id, Level>,
                                                   b: map<Id, real>, threshold: real, o: bool)
    requires forall j: Level :: j <= FirstStop(levels, a, threshold, o, 0) ==> AgreeAt(levels, a, levels', b, o, j)
    ensures DepthOf(levels, a, threshold, o) == DepthOf(levels', b, threshold, o)
  {
    var k := FirstStop(levels, a, threshold, o, 0);
    forall j: Level | j <= k
      ensures Meets(levels, a, threshold, o, j) == Meets(levels', b, threshold, o, j)
    {
      MeetsAgree(levels, a, levels', b, threshold, o, j);
    }
    StopAt(levels', b, threshold, o, k);
  }

  // ----- from results to scores -----

  lemma {:induction false} CountsAppend(a: seq<CaseResult>, b: seq<CaseResult>, c: Id)
    ensures Total(a + b, c) == Total(a, c) + Total(b, c)
    ensures Passed(a + b, c) == Passed(a, c) + Passed(b, c)
  {
    if b == [] {
      assert a + b == a;
    } else {
      CountsAppend(a, b[..|b| - 1], c);
      assert (a + b)[..|a + b| - 1] == a + b[..|b| - 1];
    }
  }

  /** Turning a failing case into a pass lowers no Contract's score. */
  lemma FixingACaseHelps(levels: map<Id, Level>, results: seq<CaseResult>, i: nat)
    requires i < |results|
    ensures NoLower(levels, ContractScores(results), ContractScores(results[i := results[i].(passed := true)]))
  {
    var after := results[i := results[i].(passed := true)];
    var x, y := results[..i], results[i + 1..];
    forall c
      ensures Total(after, c) == Total(results, c) && Passed(after, c) >= Passed(results, c)
    {
      assert results == x + [results[i]] + y && after == x + [after[i]] + y;
      CountsAppend(x + [results[i]], y, c);
      CountsAppend(x + [after[i]], y, c);
      CountsAppend(x, [results[i]], c);
      CountsAppend(x, [after[i]], c);
    }
    forall c | c in levels
      ensures ScoreOr0(ContractScores(results), c) <= ScoreOr0(ContractScores(after), c)
    {
      EvaluatedHaveCases(results, c);
      EvaluatedHaveCases(after, c);
      if Total(results, c) > 0 {
        DivideMonotone(Passed(results, c) as real, Passed(after, c) as real, Total(results, c) as real);
      }
    }
  }

  /** Adding results for Contracts that had none lowers no Contract's score. */
  lemma NewContractsHelp(levels: map<Id, Level>, results: seq<CaseResult>, more: seq<CaseResult>)
    requires Evaluated(results) !! Evaluated(more)
    ensures NoLower(levels, ContractScores(results), ContractScores(results + more))
  {
    forall c | c in levels
      ensures ScoreOr0(ContractScores(results), c) <= ScoreOr0(ContractScores(results + more), c)
    {
      CountsAppend(results, more, c);
      EvaluatedHaveCases(results, c);
      EvaluatedHaveCases(more, c);
      EvaluatedHaveCases(results + more, c);
      assert c in Evaluated(results) ==> Total(more, c) == 0;
    }
  }

  /** So neither step lowers the authoritative score or depth. */
  lemma ProgressNeverLowersScores(cfg: Config, m: LogExp, levels: map<Id, Level>, profile: string,
                                  before: seq<CaseResult>, after: seq<CaseResult>)
    requires GoodConfig(cfg) && GoodMath(m)
    requires || (exists i :: 0 <= i < |before| && after == before[i := before[i].(passed := true)])
             || (exists more :: Evaluated(before) !! Evaluated(more) && after == before + more)
    ensures ScoreOf(cfg, m, before, levels, profile).osCorrect <= ScoreOf(cfg, m, after, levels, profile).osCorrect
    ensures NoDeeper(ScoreOf(cfg, m, before, levels, profile).depth90, ScoreOf(cfg, m, after, levels, profile).depth90)
  {
    if i :| 0 <= i < |before| && after == before[i := before[i].(passed := true)] {
      FixingACaseHelps(levels, before, i);
    } else {
      var more :| Evaluated(before) !! Evaluated(more) && after == before + more;
      NewContractsHelp(levels, before, more);
    }
    OSCorrectMonotone(cfg, m, levels, ContractScores(before), ContractScores(after));
    DepthMonotone(levels, ContractScores(before), ContractScores(after), cfg.threshold);
  }

  /** The reported scores are ordered and bounded for every result list. */
  lemma ReportedScoresOrdered(cfg: Config, m: LogExp, levels: map<Id, Level>, profile: string, results: seq<CaseResult>)
    requires GoodConfig(cfg) && GoodMath(m)
    ensures var s := ScoreOf(cfg, m, results, levels, profile);
            0.0 <= s.osCorrect <= s.observedCorrect <= 1.0
  {
    ScoreOrder(cfg, m, levels, ContractScores(results));
  }
}
