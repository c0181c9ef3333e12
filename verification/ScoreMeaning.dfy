/** What the reported means say, in terms of the reported level scores and gates and of the weights. */
module ScoreMeaning {
  import opened Sequences
  import opened Scoring
  import opened ScoringLaws

  ghost function SumTo(f: nat -> real, n: nat): real {
    if n == 0 then 0.0 else SumTo(f, n - 1) + f(n - 1)
  }

  ghost function Times(c: real, f: nat -> real): nat -> real {
    (k: nat) => c * f(k)
  }

  ghost function Plus(f: nat -> real, g: nat -> real): nat -> real {
    (k: nat) => f(k) + g(k)
  }

  lemma {:induction false} SumShift(f: nat -> real, g: nat -> real, n: nat)
    requires forall k :: 0 <= k < n ==> g(k) == f(k + 1)
    ensures SumTo(f, n + 1) == f(0) + SumTo(g, n)
  {
    if n > 0 { SumShift(f, g, n - 1); }
  }

  lemma {:induction false} SumOrder(f: nat -> real, g: nat -> real, n: nat)
    requires forall k :: 0 <= k < n ==> f(k) <= g(k)
    ensures SumTo(f, n) <= SumTo(g, n)
  {
    if n > 0 { SumOrder(f, g, n - 1); }
  }

  lemma {:induction false} SumSame(f: nat -> real, g: nat -> real, n: nat)
    requires forall k :: 0 <= k < n ==> f(k) == g(k)
    ensures SumTo(f, n) == SumTo(g, n)
  {
    if n > 0 { SumSame(f, g, n - 1); }
  }

  lemma DistributeLeft(a: real, b: real, c: real)
    ensures a * (b + c) == a * b + a * c
  {
  }

  lemma {:induction false} SumTimes(c: real, f: nat -> real, n: nat)
    ensures SumTo(Times(c, f), n) == c * SumTo(f, n)
  {
    if n > 0 {
      SumTimes(c, f, n - 1);
      DistributeLeft(c, SumTo(f, n - 1), f(n - 1));
    }
  }

  lemma {:induction false} SumPlus(f: nat -> real, g: nat -> real, n: nat)
    ensures SumTo(Plus(f, g), n) == SumTo(f, n) + SumTo(g, n)
  {
    if n > 0 { SumPlus(f, g, n - 1); }
  }

  lemma {:induction false} SumScales(c: real, f: nat -> real, g: nat -> real, n: nat)
    requires forall k :: 0 <= k < n ==> g(k) == Times(c, f)(k)
    ensures SumTo(g, n) == c * SumTo(f, n)
  {
    SumSame(g, Times(c, f), n);
    SumTimes(c, f, n);
  }

  lemma {:induction false} SumsBetween(w: nat -> real, t: nat -> real, n: nat, a: real, b: real)
    requires forall k :: 0 <= k < n ==> Times(a, w)(k) <= t(k) <= Times(b, w)(k)
    requires SumTo(w, n) > 0.0
    ensures a <= SumTo(t, n) / SumTo(w, n) <= b
  {
    SumOrder(Times(a, w), t, n);
    SumOrder(t, Times(b, w), n);
    SumTimes(a, w, n);
    SumTimes(b, w, n);
    QuotientAtLeast(SumTo(t, n), SumTo(w, n), a);
    QuotientAtMost(SumTo(t, n), SumTo(w, n), b);
  }

  lemma {:induction false} SumOfTwo(t: nat -> real, f: nat -> real, g: nat -> real, n: nat, a: real, b: real)
    requires forall k :: 0 <= k < n ==> t(k) == Times(a, f)(k) + Times(b, g)(k)
    ensures SumTo(t, n) == a * SumTo(f, n) + b * SumTo(g, n)
  {
    SumSame(t, Plus(Times(a, f), Times(b, g)), n);
    SumPlus(Times(a, f), Times(b, g), n);
    SumTimes(a, f, n);
    SumTimes(b, g, n);
  }

  /** A score, or `epsilon` where that is more. */
  ghost function Floored(score: real, epsilon: real): real {
    if score < epsilon then epsilon else score
  }

  /** What a level weighs: nothing without a score. */
  ghost function WeightAt(scores: seq<Option<real>>, weights: seq<real>): nat -> real {
    (l: nat) => if l < |scores| && l < |weights| && scores[l].Some? then weights[l] else 0.0
  }

  /** What it contributes to the sum of logarithms. */
  ghost function TermAt(scores: seq<Option<real>>, weights: seq<real>, epsilon: real, m: LogExp): nat -> real {
    (l: nat) => if l < |scores| && l < |weights| && scores[l].Some?
                then weights[l] * m.log(Floored(scores[l].value, epsilon)) else 0.0
  }

  /** The exponential of the weighted mean of the logarithms of the floored scores. */
  ghost function Mean(scores: seq<Option<real>>, weights: seq<real>, epsilon: real, m: LogExp): real
    requires SumTo(WeightAt(scores, weights), |scores|) != 0.0
  {
    m.exp(SumTo(TermAt(scores, weights, epsilon, m), |scores|) / SumTo(WeightAt(scores, weights), |scores|))
  }

  lemma {:induction false} ConsWeight(values: seq<(real, real)>, v: real, w: real, epsilon: real, m: LogExp)
    ensures WeightSum([(v, w)] + values) == w + WeightSum(values)
    ensures LogSum([(v, w)] + values, epsilon, m) == w * m.log(Floored(v, epsilon)) + LogSum(values, epsilon, m)
  {
    ConsSums(v, w, values, epsilon, m);
  }

  lemma {:induction false} ListWeights(scores: seq<Option<real>>, weights: seq<real>)
    requires |scores| == |weights|
    ensures WeightSum(ObservedWeighted(scores, weights)) == SumTo(WeightAt(scores, weights), |scores|)
  {
    if scores != [] {
      var rest := ObservedWeighted(scores[1..], weights[1..]);
      ListWeights(scores[1..], weights[1..]);
      SumShift(WeightAt(scores, weights), WeightAt(scores[1..], weights[1..]), |scores| - 1);
      if scores[0].Some? { assert ([(scores[0].value, weights[0])] + rest)[1..] == rest; }
    }
  }

  lemma {:induction false} ListTerms(scores: seq<Option<real>>, weights: seq<real>, epsilon: real, m: LogExp)
    requires |scores| == |weights|
    ensures LogSum(ObservedWeighted(scores, weights), epsilon, m)
            == SumTo(TermAt(scores, weights, epsilon, m), |scores|)
  {
    if scores != [] {
      var rest := ObservedWeighted(scores[1..], weights[1..]);
      var f, g := TermAt(scores, weights, epsilon, m), TermAt(scores[1..], weights[1..], epsilon, m);
      ListTerms(scores[1..], weights[1..], epsilon, m);
      TermShift(scores, weights, epsilon, m);
      SumShift(f, g, |scores| - 1);
      if scores[0].Some? { ConsWeight(rest, scores[0].value, weights[0], epsilon, m); }
    }
  }

  lemma TermShift(scores: seq<Option<real>>, weights: seq<real>, epsilon: real, m: LogExp)
    requires |scores| == |weights| > 0
    ensures forall k :: 0 <= k < |scores| - 1 ==>
              TermAt(scores[1..], weights[1..], epsilon, m)(k) == TermAt(scores, weights, epsilon, m)(k + 1)
  {
  }

  ghost function AllSome(values: seq<real>): (r: seq<Option<real>>)
    ensures |r| == |values| && forall l :: 0 <= l < |values| ==> r[l] == Some(values[l])
  {
    seq(|values|, l requires 0 <= l < |values| => Some(values[l]))
  }

  lemma {:induction false} WeightedIsObserved(values: seq<real>, weights: seq<real>)
    requires |values| == |weights|
    ensures Weighted(values, weights) == ObservedWeighted(AllSome(values), weights)
  {
    if values != [] {
      WeightedIsObserved(values[1..], weights[1..]);
      assert AllSome(values)[1..] == AllSome(values[1..]);
    }
  }

  // ----- the sums -----

  ghost predicate Observed(scores: seq<Option<real>>, l: nat) {
    l < |scores| && scores[l].Some?
  }

  ghost predicate AnyObserved(scores: seq<Option<real>>) {
    exists l :: 0 <= l < |scores| && Observed(scores, l)
  }

  lemma {:induction false} WeightIsPositive(scores: seq<Option<real>>, weights: seq<real>, n: nat)
    requires n <= |scores| == |weights| && Positive(weights)
    ensures SumTo(WeightAt(scores, weights), n) >= 0.0
    ensures (exists l :: 0 <= l < n && Observed(scores, l)) ==> SumTo(WeightAt(scores, weights), n) > 0.0
  {
    if n > 0 { WeightIsPositive(scores, weights, n - 1); }
  }

  lemma TermBetween(scores: seq<Option<real>>, weights: seq<real>, epsilon: real, m: LogExp, low: real, high: real,
                    l: nat)
    requires l < |scores| == |weights| && Positive(weights) && GoodMath(m) && 0.0 < low
    requires Observed(scores, l) ==> low <= Floored(scores[l].value, epsilon) <= high
    ensures Times(m.log(low), WeightAt(scores, weights))(l) <= TermAt(scores, weights, epsilon, m)(l)
    ensures TermAt(scores, weights, epsilon, m)(l) <= Times(m.log(high), WeightAt(scores, weights))(l)
  {
    if Observed(scores, l) {
      var log := m.log(Floored(scores[l].value, epsilon));
      MulOrder(weights[l], m.log(low), log);
      MulOrder(weights[l], log, m.log(high));
    }
  }

  /** Every observed level's floored score is between the bounds. */
  ghost predicate Between(scores: seq<Option<real>>, epsilon: real, low: real, high: real) {
    forall l :: 0 <= l < |scores| && Observed(scores, l) ==> low <= Floored(scores[l].value, epsilon) <= high
  }

  /** The mean is between any bounds of the floored scores. */
  lemma {:induction false} MeanBetween(scores: seq<Option<real>>, weights: seq<real>, epsilon: real, m: LogExp,
                                       low: real, high: real)
    requires |scores| == |weights| && Positive(weights) && GoodMath(m) && 0.0 < low <= high
    requires AnyObserved(scores) && Between(scores, epsilon, low, high)
    ensures SumTo(WeightAt(scores, weights), |scores|) > 0.0
    ensures low <= Mean(scores, weights, epsilon, m) <= high
  {
    var w, t := WeightAt(scores, weights), TermAt(scores, weights, epsilon, m);
    WeightIsPositive(scores, weights, |scores|);
    forall l | 0 <= l < |scores| ensures Times(m.log(low), w)(l) <= t(l) <= Times(m.log(high), w)(l) {
      TermBetween(scores, weights, epsilon, m, low, high, l);
    }
    SumsBetween(w, t, |scores|, m.log(low), m.log(high));
    ExpBetween(m, SumTo(t, |scores|) / SumTo(w, |scores|), low, high);
  }

  lemma ExpBetween(m: LogExp, x: real, low: real, high: real)
    requires GoodMath(m) && 0.0 < low && 0.0 < high && m.log(low) <= x <= m.log(high)
    ensures low <= m.exp(x) <= high
  {
    ExpOrder(m, m.log(low), x);
    ExpOrder(m, x, m.log(high));
  }

  ghost function Scaled(weights: seq<real>, k: real): (r: seq<real>)
    ensures |r| == |weights| && forall l :: 0 <= l < |weights| ==> r[l] == k * weights[l]
  {
    seq(|weights|, l requires 0 <= l < |weights| => k * weights[l])
  }

  lemma Associate(a: real, b: real, c: real)
    ensures (a * b) * c == a * (b * c)
  {
  }

  lemma TermScales(scores: seq<Option<real>>, weights: seq<real>, k: real, epsilon: real, m: LogExp, l: nat)
    requires l < |scores| == |weights|
    ensures WeightAt(scores, Scaled(weights, k))(l) == Times(k, WeightAt(scores, weights))(l)
    ensures TermAt(scores, Scaled(weights, k), epsilon, m)(l) == Times(k, TermAt(scores, weights, epsilon, m))(l)
  {
    if Observed(scores, l) { Associate(k, weights[l], m.log(Floored(scores[l].value, epsilon))); }
  }

  lemma ScaledQuotient(k: real, t: real, w: real)
    requires k > 0.0 && w > 0.0
    ensures k * w > 0.0 && (k * t) / (k * w) == t / w
  {
    var q, kw, kt := t / w, k * w, k * t;
    assert q * w == t;
    assert q * kw == kt by { Associate(q, w, k); Associate(k, w, q); assert q * kw == k * (q * w); }
    SameQuotient(kt, kw, q);
  }

  lemma SameQuotient(t: real, w: real, q: real)
    requires w > 0.0 && q * w == t
    ensures t / w == q
  {
    var p := t / w;
    assert p * w == t;
    assert (p - q) * w == p * w - q * w;
  }

  lemma {:induction false} SumsIgnoreScale(k: real, w: nat -> real, t: nat -> real, v: nat -> real, u: nat -> real,
                                           n: nat)
    requires k > 0.0 && SumTo(w, n) > 0.0
    requires forall l :: 0 <= l < n ==> v(l) == Times(k, w)(l) && u(l) == Times(k, t)(l)
    ensures SumTo(v, n) > 0.0 && SumTo(u, n) / SumTo(v, n) == SumTo(t, n) / SumTo(w, n)
  {
    SumScales(k, w, v, n);
    SumScales(k, t, u, n);
    ScaledQuotient(k, SumTo(t, n), SumTo(w, n));
  }

  /** Only the proportions of the weights count. */
  lemma {:induction false} MeanIgnoresScale(scores: seq<Option<real>>, weights: seq<real>, k: real, epsilon: real,
                                            m: LogExp)
    requires |scores| == |weights| && Positive(weights) && k > 0.0 && AnyObserved(scores)
    ensures SumTo(WeightAt(scores, weights), |scores|) > 0.0
            && SumTo(WeightAt(scores, Scaled(weights, k)), |scores|) > 0.0
    ensures Mean(scores, Scaled(weights, k), epsilon, m) == Mean(scores, weights, epsilon, m)
  {
    var w, t := WeightAt(scores, weights), TermAt(scores, weights, epsilon, m);
    var v, u := WeightAt(scores, Scaled(weights, k)), TermAt(scores, Scaled(weights, k), epsilon, m);
    WeightIsPositive(scores, weights, |scores|);
    forall l | 0 <= l < |scores| ensures v(l) == Times(k, w)(l) && u(l) == Times(k, t)(l) {
      TermScales(scores, weights, k, epsilon, m, l);
    }
    SumsIgnoreScale(k, w, t, v, u, |scores|);
  }

  /** What the levels of a class weigh. */
  ghost function ClassWeight(scores: seq<Option<real>>, weights: seq<real>, group: set<nat>): nat -> real {
    (l: nat) => if l in group then WeightAt(scores, weights)(l) else 0.0
  }

  ghost function OtherWeight(scores: seq<Option<real>>, weights: seq<real>, group: set<nat>): nat -> real {
    (l: nat) => if l in group then 0.0 else WeightAt(scores, weights)(l)
  }

  /** The observed levels of the group are at `a`, the others at `b`. */
  ghost predicate TwoClasses(scores: seq<Option<real>>, epsilon: real, group: set<nat>, a: real, b: real) {
    forall l :: 0 <= l < |scores| && Observed(scores, l) ==>
      Floored(scores[l].value, epsilon) == if l in group then a else b
  }

  lemma TermOfClass(scores: seq<Option<real>>, weights: seq<real>, group: set<nat>, a: real, b: real,
                    epsilon: real, m: LogExp, l: nat)
    requires l < |scores| == |weights| && TwoClasses(scores, epsilon, group, a, b)
    ensures TermAt(scores, weights, epsilon, m)(l)
            == Times(m.log(a), ClassWeight(scores, weights, group))(l)
              + Times(m.log(b), OtherWeight(scores, weights, group))(l)
  {
    var w := WeightAt(scores, weights)(l);
    if Observed(scores, l) { assert Floored(scores[l].value, epsilon) == if l in group then a else b; }
  }

  lemma {:induction false} SumsOfTwo(w: nat -> real, t: nat -> real, f: nat -> real, g: nat -> real, n: nat, a: real,
                                     b: real)
    requires forall l :: 0 <= l < n ==> w(l) == Plus(f, g)(l) && t(l) == Times(a, f)(l) + Times(b, g)(l)
    ensures SumTo(w, n) == SumTo(f, n) + SumTo(g, n)
    ensures SumTo(t, n) == Blend(a, SumTo(f, n), b, SumTo(g, n))
  {
    SumPlus(f, g, n);
    SumSame(w, Plus(f, g), n);
    SumOfTwo(t, f, g, n, a, b);
  }

  ghost function Blend(x: real, A: real, y: real, B: real): real {
    x * A + y * B
  }

  /** The weighted geometric mean of two values. */
  ghost function MeanOfTwo(m: LogExp, a: real, A: real, b: real, B: real): real
    requires A + B > 0.0
  {
    m.exp(Blend(m.log(a), A, m.log(b), B) / (A + B))
  }

  lemma {:induction false} MeanOfSums(m: LogExp, w: nat -> real, t: nat -> real, f: nat -> real, g: nat -> real, n: nat,
                                      a: real, b: real)
    requires forall l :: 0 <= l < n ==>
               w(l) == Plus(f, g)(l) && t(l) == Times(m.log(a), f)(l) + Times(m.log(b), g)(l)
    requires SumTo(w, n) > 0.0
    ensures SumTo(f, n) + SumTo(g, n) > 0.0
    ensures m.exp(SumTo(t, n) / SumTo(w, n)) == MeanOfTwo(m, a, SumTo(f, n), b, SumTo(g, n))
  {
    SumsOfTwo(w, t, f, g, n, m.log(a), m.log(b));
    MeanOfTwoIs(m, SumTo(t, n), SumTo(w, n), a, SumTo(f, n), b, SumTo(g, n));
  }

  lemma MeanOfTwoIs(m: LogExp, t: real, w: real, a: real, A: real, b: real, B: real)
    requires w > 0.0 && w == A + B && t == Blend(m.log(a), A, m.log(b), B)
    ensures m.exp(t / w) == MeanOfTwo(m, a, A, b, B)
  {
  }

  /** Two classes of levels, one at `a` and the others at `b`: each counts with its weight. */
  lemma {:induction false} MeanOfTwoClasses(scores: seq<Option<real>>, weights: seq<real>, group: set<nat>, a: real,
                                            b: real, epsilon: real, m: LogExp)
    requires |scores| == |weights| && Positive(weights) && AnyObserved(scores)
    requires TwoClasses(scores, epsilon, group, a, b)
    ensures SumTo(WeightAt(scores, weights), |scores|) > 0.0
    ensures var A := SumTo(ClassWeight(scores, weights, group), |scores|);
            var B := SumTo(OtherWeight(scores, weights, group), |scores|);
            A + B > 0.0 && Mean(scores, weights, epsilon, m) == MeanOfTwo(m, a, A, b, B)
  {
    var w, t := WeightAt(scores, weights), TermAt(scores, weights, epsilon, m);
    var f, g := ClassWeight(scores, weights, group), OtherWeight(scores, weights, group);
    WeightIsPositive(scores, weights, |scores|);
    forall l | 0 <= l < |scores|
      ensures w(l) == Plus(f, g)(l) && t(l) == Times(m.log(a), f)(l) + Times(m.log(b), g)(l)
    {
      TermOfClass(scores, weights, group, a, b, epsilon, m, l);
    }
    MeanOfSums(m, w, t, f, g, |scores|, a, b);
  }

  // ----- the computed mean -----

  lemma {:induction false} GeometricIsMean(scores: seq<Option<real>>, weights: seq<real>, epsilon: real, m: LogExp)
    requires |scores| == |weights| && Positive(weights) && AnyObserved(scores)
    ensures SumTo(WeightAt(scores, weights), |scores|) > 0.0
    ensures Geometric(ObservedWeighted(scores, weights), epsilon, m) == Mean(scores, weights, epsilon, m)
  {
    WeightIsPositive(scores, weights, |scores|);
    ListWeights(scores, weights);
    ListTerms(scores, weights, epsilon, m);
  }
}
