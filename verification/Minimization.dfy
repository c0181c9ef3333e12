/** Delta debugging: three loops, one specification, and their cost in predicate calls. */
module Minimization {
  import opened Arithmetic
  import opened Sequences

  /** No nonempty result of deleting a single element fails. */
  ghost predicate OneMinimal<T>(r: seq<T>, fails: seq<T> -> bool) {
    forall i :: 0 <= i < |r| && |r| >= 2 ==> !fails(Without(r, i))
  }

  function Without<T>(r: seq<T>, i: nat): seq<T>
    requires i < |r|
  {
    r[..i] + r[i + 1..]
  }

  /** What every minimizer promises, for any pure predicate. */
  ghost predicate Minimized<T>(items: seq<T>, result: seq<T>, fails: seq<T> -> bool) {
    && Subsequence(result, items)
    && (result == items || fails(result))
    && OneMinimal(result, fails)
  }

  ghost predicate Monotone<T(!new)>(fails: seq<T> -> bool) {
    forall a, b :: Subsequence(a, b) && fails(a) ==> fails(b)
  }

  lemma {:induction false} ProperSubsequenceMissesOne<T>(sub: seq<T>, r: seq<T>) returns (i: nat)
    requires Subsequence(sub, r) && sub != r
    ensures i < |r| && Subsequence(sub, Without(r, i))
  {
    if sub == [] {
      i := 0;
    } else if sub[0] == r[0] && Subsequence(sub[1..], r[1..]) {
      assert sub == [sub[0]] + sub[1..] && r == [r[0]] + r[1..];
      var j := ProperSubsequenceMissesOne(sub[1..], r[1..]);
      i := j + 1;
      assert Without(r, i)[1..] == Without(r[1..], j);
    } else {
      i := 0;
      assert Without(r, 0) == r[1..];
    }
  }

  /** For a monotone predicate the result is minimal outright: no proper nonempty subsequence fails. */
  lemma {:induction false} MonotoneMeansMinimal<T(!new)>(items: seq<T>, result: seq<T>, fails: seq<T> -> bool,
                                                         sub: seq<T>)
    requires Minimized(items, result, fails) && Monotone(fails)
    requires Subsequence(sub, result) && sub != result && sub != []
    ensures !fails(sub)
  {
    var i := ProperSubsequenceMissesOne(sub, result);
    SubsequenceLength(sub, Without(result, i));
    assert |result| >= 2;
  }

  // ----- one pass over the chunks -----

  /** What is left after deleting the chunk at `lo`. */
  function Complement<T>(s: seq<T>, lo: nat, chunk: nat): seq<T>
    requires lo <= |s|
  {
    s[..lo] + Drop(s, lo + chunk)
  }

  /** The first nonempty complement that fails, trying the chunks from `start` on. */
  function FirstFailure<T(==)>(s: seq<T>, start: nat, chunk: nat, fails: seq<T> -> bool): (r: Option<seq<T>>)
    requires chunk >= 1
    ensures r.Some? ==> r.value != [] && fails(r.value) && |s| - chunk <= |r.value| < |s|
    decreases |s| - start
  {
    if start >= |s| then None
    else if Complement(s, start, chunk) != [] && fails(Complement(s, start, chunk))
    then Some(Complement(s, start, chunk))
    else FirstFailure(s, start + chunk, chunk, fails)
  }

  /** How often the predicate is asked on the way there: once for each nonempty complement up to the first that fails.
      */
  ghost function Asked<T>(s: seq<T>, start: nat, chunk: nat, fails: seq<T> -> bool): (n: nat)
    requires chunk >= 1
    ensures start <= |s| ==> n <= |s| - start
    decreases |s| - start
  {
    if start >= |s| then 0
    else if Complement(s, start, chunk) == [] then Asked(s, start + chunk, chunk, fails)
    else if fails(Complement(s, start, chunk)) then 1
    else 1 + Asked(s, start + chunk, chunk, fails)
  }

  /** The inner loop: the first failing complement of a chunk, if any. Costs at most one call per element. */
  method TryChunks<T(==)>(s: seq<T>, chunk: nat, fails: seq<T> -> bool)
    returns (reduced: Option<seq<T>>, ghost calls: nat)
    requires chunk >= 1
    ensures reduced == FirstFailure(s, 0, chunk, fails)
    ensures calls == Asked(s, 0, chunk, fails) <= |s|
    ensures reduced.Some? ==>
              var c := reduced.value;
              c != [] && fails(c) && Subsequence(c, s) && |s| - chunk <= |c| < |s|
  {
    calls := 0;
    var start := 0;
    while start < |s|
      invariant Asked(s, 0, chunk, fails) == calls + Asked(s, start, chunk, fails)
      invariant FirstFailure(s, start, chunk, fails) == FirstFailure(s, 0, chunk, fails)
    {
      var candidate := s[..start] + Drop(s, start + chunk);
      if candidate != [] {
        calls := calls + 1;
        if fails(candidate) {
          CutIsSubsequence(s, start, chunk);
          return Some(candidate), calls;
        }
      }
      start := start + chunk;
    }
    return None, calls;
  }

  lemma {:induction false} UnitChunkKept<T>(s: seq<T>, start: nat, i: nat, fails: seq<T> -> bool)
    requires FirstFailure(s, start, 1, fails).None? && start <= i < |s|
    ensures Complement(s, i, 1) == [] || !fails(Complement(s, i, 1))
    decreases i - start
  {
    if start < i { UnitChunkKept(s, start + 1, i, fails); }
  }

  lemma {:induction false} UnitChunksMeanOneMinimal<T>(s: seq<T>, fails: seq<T> -> bool)
    requires FirstFailure(s, 0, 1, fails).None?
    ensures OneMinimal(s, fails)
  {
    forall i | 0 <= i < |s| && |s| >= 2
      ensures !fails(Without(s, i))
    {
      UnitChunkKept(s, 0, i, fails);
      assert Complement(s, i, 1) == Without(s, i);
    }
  }

  // ----- granularity against length -----

  function Max(a: int, b: int): (r: int)
    ensures r >= a && r >= b && (r == a || r == b)
  {
    if a >= b then a else b
  }

  function Min(a: int, b: int): (r: int)
    ensures r <= a && r <= b && (r == a || r == b)
  {
    if a <= b then a else b
  }

  /** `max(1, len // n)` */
  function FloorChunk(length: nat, granularity: nat): nat
    requires granularity >= 1
  {
    Max(1, length / granularity)
  }

  /** `(len + n - 1) // n` */
  function CeilingChunk(length: nat, granularity: nat): (r: nat)
    requires length >= 1 && granularity >= 1
    ensures r >= 1
  {
    assert (length + granularity - 1) / granularity >= granularity / granularity;
    (length + granularity - 1) / granularity
  }

  /** The rounded-down size is the most that fits `granularity` times, or one; the rounded-up size the least that
      covers. */
  lemma ChunkIs(length: nat, granularity: nat)
    requires length >= 1 && granularity >= 1
    ensures var c := FloorChunk(length, granularity);
            if length < granularity then c == 1 else c * granularity <= length < c * granularity + granularity
    ensures var c := CeilingChunk(length, granularity); length <= c * granularity < length + granularity
  {
    var q, r := length / granularity, length % granularity;
    var p, s := (length + granularity - 1) / granularity, (length + granularity - 1) % granularity;
    assert length == q * granularity + r && length + granularity - 1 == p * granularity + s;
    assert 0 * granularity == 0;
    if length < granularity {
      QuotientIs(length, 0, granularity, length);
    }
  }

  /** Either chunk size leaves at least `granularity - 1` elements, and is a single element once granularity meets
      length. */
  lemma ChunkLeavesEnough(length: nat, granularity: nat)
    requires 2 <= granularity <= length
    ensures 1 <= FloorChunk(length, granularity) <= CeilingChunk(length, granularity)
    ensures length - CeilingChunk(length, granularity) >= granularity - 1
    ensures granularity == length ==> CeilingChunk(length, granularity) == 1
  {
    var q, r := length / granularity, length % granularity;
    assert length == q * granularity + r;
    assert q >= 1;
    AtLeastOnce(q, granularity - 1);
    assert q * granularity == q * (granularity - 1) + q;
    if r == 0 {
      QuotientIs(length + granularity - 1, q, granularity, granularity - 1);
    } else {
      assert length + granularity - 1 == (q + 1) * granularity + (r - 1);
      QuotientIs(length + granularity - 1, q + 1, granularity, r - 1);
    }
    if granularity == length {
      QuotientIs(length + granularity - 1, 1, granularity, granularity - 1);
    }
  }

  /** What a minimizer makes of its input, and how often it asks the predicate. */
  datatype Outcome<T> = Outcome(result: seq<T>, calls: nat)

  ghost function After<T>(calls: nat, rest: Outcome<T>): Outcome<T> {
    rest.(calls := calls + rest.calls)
  }

  /** The source's two chunk sizes. */
  function Chunk(roundUp: bool, length: nat, granularity: nat): (r: nat)
    requires length >= 1 && granularity >= 1
    ensures r >= 1
  {
    if roundUp then CeilingChunk(length, granularity) else FloorChunk(length, granularity)
  }

  /** Round after round: a failing complement is taken and the granularity lowered; otherwise it is doubled, up to
      single elements. */
  ghost function Reduce<T>(roundUp: bool, s: seq<T>, granularity: nat, fails: seq<T> -> bool): Outcome<T>
    requires granularity >= 2
    decreases |s|, |s| - granularity
  {
    if |s| < 2 then Outcome(s, 0)
    else
      var chunk := Chunk(roundUp, |s|, granularity);
      var calls := Asked(s, 0, chunk, fails);
      match FirstFailure(s, 0, chunk, fails)
      case Some(reduced) => After(calls, Reduce(roundUp, reduced, Max(2, granularity - 1), fails))
      case None =>
        if granularity >= |s| then Outcome(s, calls)
        else After(calls, Reduce(roundUp, s, Min(|s|, granularity * 2), fails))
  }

  /** Row after row: the first row that can go is deleted, and the search starts over. */
  ghost function ReduceRows<T>(s: seq<T>, fails: seq<T> -> bool): Outcome<T>
    decreases |s|
  {
    if |s| < 2 then Outcome(s, 0)
    else
      var calls := Asked(s, 0, 1, fails);
      match FirstFailure(s, 0, 1, fails)
      case Some(reduced) => After(calls, ReduceRows(reduced, fails))
      case None => Outcome(s, calls)
  }

  // ----- what the reduction leaves, and what it costs -----

  /** Granularity fits the length, as it does at the head of every round. */
  predicate Fits(length: nat, granularity: nat) {
    granularity >= 2 && (length >= 2 ==> granularity <= length)
  }

  lemma FitsAfterReduction(roundUp: bool, length: nat, granularity: nat, shorter: nat)
    requires length >= 2 && Fits(length, granularity)
    requires shorter >= length - Chunk(roundUp, length, granularity)
    ensures Fits(shorter, Max(2, granularity - 1))
  {
    ChunkLeavesEnough(length, granularity);
  }

  /** The result is a failing subsequence or the input, and no single element can go. */
  lemma {:induction false} ReduceMinimizes<T>(roundUp: bool, s: seq<T>, granularity: nat, fails: seq<T> -> bool)
    requires Fits(|s|, granularity)
    ensures Minimized(s, Reduce(roundUp, s, granularity, fails).result, fails)
    decreases |s|, |s| - granularity
  {
    SubsequenceRefl(s);
    if |s| >= 2 {
      var chunk := Chunk(roundUp, |s|, granularity);
      match FirstFailure(s, 0, chunk, fails)
      case Some(reduced) =>
        FitsAfterReduction(roundUp, |s|, granularity, |reduced|);
        ReduceMinimizes(roundUp, reduced, Max(2, granularity - 1), fails);
        FailureIsSubsequence(s, 0, chunk, fails);
        SubsequenceTrans(Reduce(roundUp, reduced, Max(2, granularity - 1), fails).result, reduced, s);
      case None =>
        if granularity >= |s| {
          ChunkLeavesEnough(|s|, granularity);
          UnitChunksMeanOneMinimal(s, fails);
        } else {
          ReduceMinimizes(roundUp, s, Min(|s|, granularity * 2), fails);
        }
    }
  }

  lemma {:induction false} FailureIsSubsequence<T>(s: seq<T>, start: nat, chunk: nat, fails: seq<T> -> bool)
    requires chunk >= 1 && FirstFailure(s, start, chunk, fails).Some?
    ensures Subsequence(FirstFailure(s, start, chunk, fails).value, s)
    decreases |s| - start
  {
    if Complement(s, start, chunk) != [] && fails(Complement(s, start, chunk)) {
      CutIsSubsequence(s, start, chunk);
    } else {
      FailureIsSubsequence(s, start + chunk, chunk, fails);
    }
  }

  /** Every round asks at most `n` times, and uses up one unit of twice the length less the granularity. */
  lemma {:induction false} ReduceCost<T>(roundUp: bool, s: seq<T>, granularity: nat, fails: seq<T> -> bool, n: nat)
    requires Fits(|s|, granularity) && 2 <= |s| <= n
    ensures Reduce(roundUp, s, granularity, fails).calls <= n * (2 * |s| - granularity)
    decreases |s|, |s| - granularity
  {
    var chunk := Chunk(roundUp, |s|, granularity);
    var calls := Asked(s, 0, chunk, fails);
    match FirstFailure(s, 0, chunk, fails)
    case Some(reduced) =>
      var lower := Max(2, granularity - 1);
      FitsAfterReduction(roundUp, |s|, granularity, |reduced|);
      if |reduced| >= 2 {
        ReduceCost(roundUp, reduced, lower, fails, n);
        RoundCost(n, calls, Reduce(roundUp, reduced, lower, fails).calls, 2 * |reduced| - lower, 2 * |s| - granularity);
      } else {
        RoundCost(n, calls, 0, 0, 2 * |s| - granularity);
      }
    case None =>
      if granularity >= |s| {
        RoundCost(n, calls, 0, 0, 2 * |s| - granularity);
      } else {
        var finer := Min(|s|, granularity * 2);
        ReduceCost(roundUp, s, finer, fails, n);
        RoundCost(n, calls, Reduce(roundUp, s, finer, fails).calls, 2 * |s| - finer, 2 * |s| - granularity);
      }
  }

  lemma RoundCost(n: nat, calls: nat, rest: nat, after: nat, before: nat)
    requires calls <= n && rest <= n * after && after < before
    ensures calls + rest <= n * before
  {
    Scale(n, after + 1, before);
    assert n * (after + 1) == n * after + n;
  }

  lemma {:induction false} ReduceRowsMinimizes<T>(s: seq<T>, fails: seq<T> -> bool)
    ensures Minimized(s, ReduceRows(s, fails).result, fails)
    decreases |s|
  {
    SubsequenceRefl(s);
    if |s| >= 2 {
      match FirstFailure(s, 0, 1, fails)
      case Some(reduced) =>
        ReduceRowsMinimizes(reduced, fails);
        FailureIsSubsequence(s, 0, 1, fails);
        SubsequenceTrans(ReduceRows(reduced, fails).result, reduced, s);
      case None => UnitChunksMeanOneMinimal(s, fails);
    }
  }

  lemma {:induction false} ReduceRowsCost<T>(s: seq<T>, fails: seq<T> -> bool)
    ensures 2 * ReduceRows(s, fails).calls <= |s| * (|s| + 1)
    decreases |s|
  {
    var m := |s|;
    if m >= 2 {
      assert m * (m + 1) == (m - 1) * m + 2 * m;
      assert (m - 1) * m >= 0;
      match FirstFailure(s, 0, 1, fails)
      case Some(reduced) => ReduceRowsCost(reduced, fails);
      case None =>
    }
  }

  // ----- the three minimizers -----

  /** The library minimizer, with floor-sized chunks. */
  method MinimizeSequence<T(==)>(items: seq<T>, fails: seq<T> -> bool) returns (result: seq<T>, ghost calls: nat)
    ensures Minimized(items, result, fails)
    ensures Outcome(result, calls) == Reduce(false, items, 2, fails)
    ensures |items| < 2 ==> calls == 0
    ensures |items| >= 2 ==> calls <= |items| * (2 * |items| - 2)
  {
    result, calls := items, 0;
    var granularity := 2;
    while |result| >= 2
      invariant granularity >= 2
      invariant Reduce(false, items, 2, fails) == After(calls, Reduce(false, result, granularity, fails))
      decreases |result|, |result| - granularity
    {
      var chunk := FloorChunk(|result|, granularity);
      ghost var more;
      var reduced;
      reduced, more := TryChunks(result, chunk, fails);
      calls := calls + more;
      if reduced.Some? {
        result := reduced.value;
        granularity := Max(2, granularity - 1);
      } else {
        if granularity >= |result| { break; }
        granularity := Min(|result|, granularity * 2);
      }
    }
    ReduceMinimizes(false, items, 2, fails);
    if |items| >= 2 { ReduceCost(false, items, 2, fails, |items|); }
  }

  /** The command-line variant, with ceiling-sized chunks. */
  method Ddmin<T(==)>(input: seq<T>, fails: seq<T> -> bool) returns (sequence: seq<T>, ghost calls: nat)
    ensures Minimized(input, sequence, fails)
    ensures Outcome(sequence, calls) == Reduce(true, input, 2, fails)
    ensures |input| < 2 ==> calls == 0
    ensures |input| >= 2 ==> calls <= |input| * (2 * |input| - 2)
  {
    sequence, calls := input, 0;
    var n := 2;
    while |sequence| >= 2
      invariant n >= 2
      invariant Reduce(true, input, 2, fails) == After(calls, Reduce(true, sequence, n, fails))
      decreases |sequence|, |sequence| - n
    {
      var size := CeilingChunk(|sequence|, n);
      ghost var more;
      var reduced;
      reduced, more := TryChunks(sequence, size, fails);
      calls := calls + more;
      if reduced.Some? {
        sequence := reduced.value;
        n := Max(2, n - 1);
      } else {
        if n >= |sequence| { break; }
        n := Min(|sequence|, n * 2);
      }
    }
    ReduceMinimizes(true, input, 2, fails);
    if |input| >= 2 { ReduceCost(true, input, 2, fails, |input|); }
  }

  /** The JSON-lines variant: delete one row, start over. At most `n * (n + 1) / 2` calls. */
  method MinimizeRows<T(==)>(input: seq<T>, fails: seq<T> -> bool) returns (rows: seq<T>, ghost calls: nat)
    ensures Minimized(input, rows, fails)
    ensures Outcome(rows, calls) == ReduceRows(input, fails)
    ensures 2 * calls <= |input| * (|input| + 1)
  {
    rows, calls := input, 0;
    var changed := true;
    while changed && |rows| > 1
      invariant ReduceRows(input, fails)
                == if changed then After(calls, ReduceRows(rows, fails)) else Outcome(rows, calls)
      decreases |rows|, changed
    {
      changed := false;
      ghost var before, spent := rows, calls;
      for i := 0 to |rows|
        invariant rows == before && !changed && calls == spent + i
        invariant FirstFailure(before, 0, 1, fails) == FirstFailure(before, i, 1, fails)
        invariant Asked(before, 0, 1, fails) == i + Asked(before, i, 1, fails)
      {
        var c := rows[..i] + rows[i + 1..];
        assert c == Complement(before, i, 1);
        calls := calls + 1;
        if fails(c) {
          rows, changed := c, true;
          break;
        }
      }
    }
    ReduceRowsMinimizes(input, fails);
    ReduceRowsCost(input, fails);
  }
}
