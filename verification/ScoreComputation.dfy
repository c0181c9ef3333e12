/** The scoring loops, each proved to compute its definition. */
module ScoreComputation {
  import opened Sequences
  import opened Orders
  import opened Contracts
  import opened Scoring
  import ScoringLaws
  import opened ReportMeaning
  import opened ReportFields

  // ----- depth -----

  /** How many of the flags are set. */
  function CountTrue(flags: seq<bool>): (n: nat)
    ensures n <= |flags|
  {
    if flags == [] then 0 else CountTrue(flags[..|flags| - 1]) + if flags[|flags| - 1] then 1 else 0
  }

  lemma {:induction false} CountTrueAppend(a: seq<bool>, b: seq<bool>)
    ensures CountTrue(a + b) == CountTrue(a) + CountTrue(b)
  {
    if b == [] {
      assert a + b == a;
    } else {
      CountTrueAppend(a, b[..|b| - 1]);
      assert (a + b)[..|a + b| - 1] == a + b[..|b| - 1];
    }
  }

  function FullFlags(scores: map<Id, real>, ids: seq<Id>): (flags: seq<bool>)
    ensures |flags| == |ids|
  {
    seq(|ids|, i requires 0 <= i < |ids| => ScoreOr0(scores, ids[i]) >= 1.0)
  }

  ghost function FullAmong(scores: map<Id, real>, ids: seq<Id>): set<Id> {
    set c | c in ids && ScoreOr0(scores, c) >= 1.0
  }

  lemma FullAmongNext(scores: map<Id, real>, ids: seq<Id>, last: Id)
    requires last !in ids
    ensures |FullAmong(scores, ids + [last])|
            == |FullAmong(scores, ids)| + if ScoreOr0(scores, last) >= 1.0 then 1 else 0
  {
    var F, R := FullAmong(scores, ids + [last]), FullAmong(scores, ids);
    if ScoreOr0(scores, last) >= 1.0 { assert F == R + {last}; } else { assert F == R; }
  }

  lemma {:induction false} FlagsCountFull(scores: map<Id, real>, ids: seq<Id>)
    requires NoDup(ids)
    ensures CountTrue(FullFlags(scores, ids)) == |FullAmong(scores, ids)|
  {
    if ids == [] {
      assert FullAmong(scores, ids) == {};
    } else {
      var rest, last := ids[..|ids| - 1], ids[|ids| - 1];
      assert ids == rest + [last];
      FlagsCountFull(scores, rest);
      FullAmongNext(scores, rest, last);
      assert FullFlags(scores, ids)[..|ids| - 1] == FullFlags(scores, rest);
    }
  }

  lemma LevelFlags(levels: map<Id, Level>, scores: map<Id, real>, observedOnly: bool, l: Level, ids: seq<Id>)
    requires NoDup(ids) && forall c :: c in ids <==> c in DepthSet(levels, scores, observedOnly, l)
    ensures |ids| == DepthCount(levels, scores, observedOnly, l)
    ensures CountTrue(FullFlags(scores, ids)) == FullCount(levels, scores, observedOnly, l)
  {
    NoDupSetSize(ids);
    assert (set c | c in ids) == DepthSet(levels, scores, observedOnly, l);
    FlagsCountFull(scores, ids);
    assert FullAmong(scores, ids) == FullSet(levels, scores, observedOnly, l);
  }

  /** One flag per Contract that counts at level `l`, in the order of the ids. */
  function LevelRow(levels: map<Id, Level>, scores: map<Id, real>, observedOnly: bool, l: Level): (flags: seq<bool>)
    ensures |flags| == DepthCount(levels, scores, observedOnly, l)
    ensures CountTrue(flags) == FullCount(levels, scores, observedOnly, l)
  {
    var ids := SortedIds(DepthSet(levels, scores, observedOnly, l));
    LevelFlags(levels, scores, observedOnly, l, ids);
    FullFlags(scores, ids)
  }

  /** `cumulative` holds the flags of the levels below `l`. */
  ghost predicate Holds(levels: map<Id, Level>, scores: map<Id, real>, observedOnly: bool, l: nat,
                        cumulative: seq<bool>)
    requires l <= LEVEL_COUNT
  {
    && |cumulative| == CumulativeTotal(levels, scores, observedOnly, l)
    && CountTrue(cumulative) == CumulativeFull(levels, scores, observedOnly, l)
  }

  /** One round: `None` when the level is empty or pulls the share below the threshold. */
  method Extend(levels: map<Id, Level>, scores: map<Id, real>, threshold: real, observedOnly: bool, l: Level,
                before: seq<bool>)
    returns (cumulative: Option<seq<bool>>)
    requires Holds(levels, scores, observedOnly, l, before)
    ensures cumulative.Some? <==> Meets(levels, scores, threshold, observedOnly, l)
    ensures cumulative.Some? ==> Holds(levels, scores, observedOnly, l + 1, cumulative.value)
  {
    var row := LevelRow(levels, scores, observedOnly, l);
    assert row == [] <==> DepthSet(levels, scores, observedOnly, l) == {};
    if row == [] { return None; }
    CountTrueAppend(before, row);
    var longer := before + row;
    assert |longer| == CumulativeTotal(levels, scores, observedOnly, l + 1);
    assert CountTrue(longer) == CumulativeFull(levels, scores, observedOnly, l + 1);
    if Ratio(CountTrue(longer), |longer|) < threshold { return None; }
    return Some(longer);
  }

  /** Extend level by level, and stop at the first level that fails. */
  method Depth(levels: map<Id, Level>, scores: map<Id, real>, threshold: real, observedOnly: bool)
    returns (depth: Option<Level>)
    ensures depth == DepthOf(levels, scores, threshold, observedOnly)
    ensures DepthReported(levels, scores, threshold, observedOnly, depth)
  {
    DepthIsReported(levels, scores, threshold, observedOnly);
    depth := None;
    var cumulative: seq<bool> := [];
    for l := 0 to LEVEL_COUNT
      invariant depth == if l == 0 then None else Some(l - 1)
      invariant Holds(levels, scores, observedOnly, l, cumulative)
      invariant forall j :: 0 <= j < l ==> Meets(levels, scores, threshold, observedOnly, j)
    {
      var extended := Extend(levels, scores, threshold, observedOnly, l, cumulative);
      if extended.None? {
        ScoringLaws.StopAt(levels, scores, threshold, observedOnly, l);
        return;
      }
      cumulative := extended.value;
      depth := Some(l);
    }
    ScoringLaws.StopAt(levels, scores, threshold, observedOnly, LEVEL_COUNT);
  }

  // ----- grouping -----

  /** `by_contract`: the outcomes of each Contract in order; `None` for a result of an unknown Contract. */
  method GroupByContract(results: seq<CaseResult>, levels: map<Id, Level>) returns (r: Result<map<Id, seq<bool>>, Id>)
    ensures r.Ok? <==> Evaluated(results) <= levels.Keys
    ensures r.Err? ==> r.error !in levels && r.error in Evaluated(results)
    ensures r.Ok? ==> r.value.Keys == Evaluated(results)
    ensures r.Ok? ==> forall c :: c in r.value ==>
              |r.value[c]| == Total(results, c) && CountTrue(r.value[c]) == Passed(results, c)
  {
    var byContract: map<Id, seq<bool>> := map[];
    for i := 0 to |results|
      invariant Evaluated(results[..i]) <= levels.Keys
      invariant byContract.Keys == Evaluated(results[..i])
      invariant forall c :: c in byContract ==>
                  |byContract[c]| == Total(results[..i], c) && CountTrue(byContract[c]) == Passed(results[..i], c)
    {
      var c := results[i].contract;
      GroupNext(results, i);
      if c !in levels {
        assert results[i] in results;
        return Err(c);
      }
      var earlier := if c in byContract then byContract[c] else [];
      CountTrueAppend(earlier, [results[i].passed]);
      byContract := byContract[c := earlier + [results[i].passed]];
    }
    assert results[..|results|] == results;
    return Ok(byContract);
  }

  lemma GroupNext(results: seq<CaseResult>, i: nat)
    requires i < |results|
    ensures Evaluated(results[..i + 1]) == Evaluated(results[..i]) + {results[i].contract}
    ensures forall c :: Total(results[..i + 1], c) == Total(results[..i], c) + if results[i].contract == c then 1 else 0
    ensures forall c :: Passed(results[..i + 1], c)
                        == Passed(results[..i], c) + if results[i].contract == c && results[i].passed then 1 else 0
    ensures results[i].contract !in Evaluated(results[..i]) ==> Total(results[..i], results[i].contract) == 0
    ensures Evaluated(results[..i + 1]) <= Evaluated(results)
  {
    var longer := results[..i + 1];
    assert longer == results[..i] + [results[i]] && longer[..|longer| - 1] == results[..i];
    EvaluatedHaveCases(results[..i], results[i].contract);
    assert forall r :: r in longer ==> r in results;
  }

  // ----- native performance -----

  /** The threshold test over one Contract's cases, in order. */
  method MeetsNative(results: seq<CaseResult>, c: Id, threshold: real) returns (ok: bool)
    ensures ok <==> Qualifies(results, c, threshold)
  {
    var seen := false;
    for i := 0 to |results|
      invariant seen <==> exists j :: 0 <= j < i && results[j].contract == c
      invariant forall j :: 0 <= j < i && results[j].contract == c ==> WithinRatio(results[j], threshold)
    {
      if results[i].contract == c {
        seen := true;
        if !WithinRatio(results[i], threshold) {
          assert results[i] in results;
          return false;
        }
      }
    }
    assert seen <==> c in Evaluated(results);
    return seen;
  }

  ghost function QualifyingIn(results: seq<CaseResult>, ids: seq<Id>, threshold: real): set<Id> {
    set c | c in ids && Qualifies(results, c, threshold)
  }

  lemma QualifyingNext(results: seq<CaseResult>, ids: seq<Id>, c: Id, threshold: real)
    requires c !in ids
    ensures |QualifyingIn(results, ids + [c], threshold)|
            == |QualifyingIn(results, ids, threshold)| + if Qualifies(results, c, threshold) then 1 else 0
  {
    var A, B := QualifyingIn(results, ids, threshold), QualifyingIn(results, ids + [c], threshold);
    if Qualifies(results, c, threshold) { assert B == A + {c}; } else { assert B == A; }
  }

  method CountQualifying(results: seq<CaseResult>, ids: seq<Id>, threshold: real) returns (qualifying: nat)
    requires NoDup(ids)
    ensures qualifying == |QualifyingIn(results, ids, threshold)|
  {
    qualifying := 0;
    assert QualifyingIn(results, [], threshold) == {};
    for i := 0 to |ids|
      invariant qualifying == |QualifyingIn(results, ids[..i], threshold)|
    {
      assert ids[..i + 1] == ids[..i] + [ids[i]] && ids[i] !in ids[..i];
      QualifyingNext(results, ids[..i], ids[i], threshold);
      var ok := MeetsNative(results, ids[i], threshold);
      if ok {
        qualifying := qualifying + 1;
      }
    }
    assert ids[..|ids|] == ids;
  }

  method NativeShare(results: seq<CaseResult>, levels: map<Id, Level>, official: bool, threshold: real)
    returns (share: Option<real>)
    ensures share == Native(results, levels, official, threshold)
  {
    if !official { return None; }
    var workloads := WorkloadIds(levels);
    if workloads == {} { return Some(0.0); }
    var ids := SortedIds(workloads);
    var qualifying := CountQualifying(results, ids, threshold);
    assert QualifyingIn(results, ids, threshold) == set c | c in workloads && Qualifies(results, c, threshold);
    return Some(Ratio(qualifying, |workloads|));
  }

  method NativeShares(results: seq<CaseResult>, levels: map<Id, Level>, official: bool, thresholds: seq<real>)
    returns (native: seq<Option<real>>)
    ensures |native| == |thresholds|
    ensures forall k :: 0 <= k < |thresholds| ==> native[k] == Native(results, levels, official, thresholds[k])
  {
    native := [];
    for i := 0 to |thresholds|
      invariant |native| == i
      invariant forall k :: 0 <= k < i ==> native[k] == Native(results, levels, official, thresholds[k])
    {
      var share := NativeShare(results, levels, official, thresholds[i]);
      native := native + [share];
    }
  }

  // ----- the report -----

  method Rates(results: seq<CaseResult>, levels: map<Id, Level>) returns (r: Result<map<Id, real>, Id>)
    ensures r.Ok? <==> Evaluated(results) <= levels.Keys
    ensures r.Ok? ==> r.value == ContractScores(results)
    ensures r.Err? ==> r.error !in levels && r.error in Evaluated(results)
  {
    var grouped := GroupByContract(results, levels);
    if grouped.Err? { return Err(grouped.error); }
    var byContract := grouped.value;
    forall c | c in byContract ensures |byContract[c]| > 0 { EvaluatedHaveCases(results, c); }
    return Ok(map c | c in byContract :: Ratio(CountTrue(byContract[c]), |byContract[c]|));
  }

  /** `Err` carries the first unknown Contract, for the `KeyError`. */
  method ScoreResults(cfg: Config, m: LogExp, results: seq<CaseResult>, levels: map<Id, Level>, profile: string)
    returns (r: Result<Scores, Id>)
    requires |cfg.weights| == LEVEL_COUNT
    ensures r.Ok? <==> Evaluated(results) <= levels.Keys
    ensures r.Ok? ==> r.value == ScoreOf(cfg, m, results, levels, profile)
    ensures r.Ok? ==> FieldsReported(cfg, results, levels, profile, r.value)
    ensures r.Ok? && GoodConfig(cfg) ==> MeansReported(cfg, m, r.value)
    ensures r.Err? ==> r.error !in levels && r.error in Evaluated(results)
  {
    var rates := Rates(results, levels);
    if rates.Err? { return Err(rates.error); }
    var scores := rates.value;
    var osCorrect, observedCorrect := OSCorrect(cfg, m, levels, scores), ObservedCorrect(cfg, m, levels, scores);
    var depth90 := Depth(levels, scores, cfg.threshold, false);
    var observedDepth90 := Depth(levels, scores, cfg.threshold, true);
    var native := NativeShares(results, levels, profile in cfg.officialProfiles, cfg.nativeThresholds);
    var bootIds := LevelIds(levels, BOOT);
    r := Ok(Scores(osCorrect, observedCorrect, depth90, observedDepth90, native,
                   BootGate(scores, bootIds), ObservedBootGate(scores, bootIds),
                   LevelScores(levels, scores), ObservedLevelScores(levels, scores), LevelCoverage(levels, scores),
                   scores, |set c | c in scores && scores[c] >= 1.0|, |levels|, |results|));
    assert native == ScoreOf(cfg, m, results, levels, profile).native;
    ReportHasFields(cfg, m, results, levels, profile);
    if GoodConfig(cfg) { ReportHasMeans(cfg, m, results, levels, profile); }
  }
}
