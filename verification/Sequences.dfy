/** Facts about sequences that several components share. */
module Sequences {

  datatype Option<+T> = None | Some(value: T)

  datatype Result<+T, +E> = Ok(value: T) | Err(error: E)

  ghost predicate NoDup<T>(s: seq<T>) {
    forall i, j :: 0 <= i < j < |s| ==> s[i] != s[j]
  }

  /** Python's `s[n:]` for `n >= 0`: empty once `n` is past the end. */
  function Drop<T>(s: seq<T>, n: nat): seq<T> {
    if n <= |s| then s[n..] else []
  }

  /** The position of the first occurrence of `x`. */
  function Pos<T(==)>(s: seq<T>, x: T): (i: nat)
    requires x in s
    ensures i < |s| && s[i] == x && x !in s[..i]
  {
    if s[0] == x then 0
    else
      var i := Pos(s[1..], x);
      assert s[..i + 1] == [s[0]] + s[1..][..i];
      i + 1
  }

  /** `a` can be obtained from `b` by deleting elements; the order is kept. */
  ghost predicate Subsequence<T>(a: seq<T>, b: seq<T>) {
    if a == [] then true
    else if b == [] then false
    else (a[0] == b[0] && Subsequence(a[1..], b[1..])) || Subsequence(a, b[1..])
  }

  lemma {:induction false} SubsequenceRefl<T>(a: seq<T>)
    ensures Subsequence(a, a)
  {
    if a != [] { SubsequenceRefl(a[1..]); }
  }

  lemma {:induction false} SubsequenceTrans<T>(a: seq<T>, b: seq<T>, c: seq<T>)
    requires Subsequence(a, b) && Subsequence(b, c)
    ensures Subsequence(a, c)
    decreases |c|
  {
    if a != [] {
      if b[0] == c[0] && Subsequence(b[1..], c[1..]) {
        if a[0] == b[0] && Subsequence(a[1..], b[1..]) {
          SubsequenceTrans(a[1..], b[1..], c[1..]);
        } else {
          SubsequenceTrans(a, b[1..], c[1..]);
        }
      } else {
        SubsequenceTrans(a, b, c[1..]);
      }
    }
  }

  lemma {:induction false} SubsequenceLength<T>(a: seq<T>, b: seq<T>)
    requires Subsequence(a, b)
    ensures |a| <= |b|
    ensures |a| == |b| ==> a == b
  {
    if a != [] {
      if a[0] == b[0] && Subsequence(a[1..], b[1..]) {
        SubsequenceLength(a[1..], b[1..]);
      } else {
        SubsequenceLength(a, b[1..]);
      }
    }
  }

  /** Prefixing both sides keeps the relation. */
  lemma {:induction false} SubsequencePrefix<T>(p: seq<T>, a: seq<T>, b: seq<T>)
    requires Subsequence(a, b)
    ensures Subsequence(p + a, p + b)
  {
    if p == [] {
      assert p + a == a && p + b == b;
    } else {
      SubsequencePrefix(p[1..], a, b);
      assert (p + a)[1..] == p[1..] + a && (p + b)[1..] == p[1..] + b;
    }
  }

  lemma {:induction false} SubsequenceOfSuffix<T>(s: seq<T>, n: nat)
    requires n <= |s|
    ensures Subsequence(s[n..], s)
  {
    if n == 0 {
      SubsequenceRefl(s);
      assert s[0..] == s;
    } else {
      SubsequenceOfSuffix(s[1..], n - 1);
      assert s[1..][n - 1..] == s[n..];
    }
  }

  /** Cutting out the segment `[lo, hi)` leaves a subsequence. */
  lemma {:induction false} CutIsSubsequence<T>(s: seq<T>, lo: nat, n: nat)
    requires lo <= |s|
    ensures Subsequence(s[..lo] + Drop(s, lo + n), s)
  {
    var rest := s[lo..];
    if lo + n <= |s| {
      SubsequenceOfSuffix(rest, n);
      assert rest[n..] == Drop(s, lo + n);
    }
    SubsequencePrefix(s[..lo], Drop(s, lo + n), rest);
    assert s[..lo] + rest == s;
  }

  ghost function Flatten<T>(parts: seq<seq<T>>): seq<T> {
    if parts == [] then [] else Flatten(parts[..|parts| - 1]) + parts[|parts| - 1]
  }

  ghost function Members<T>(s: seq<T>): set<T> {
    set x | x in s
  }

  lemma {:induction false} SubsetSize<T>(A: set<T>, B: set<T>)
    requires A <= B
    ensures |A| <= |B|
    ensures |A| == |B| ==> A == B
    decreases |A|
  {
    if A != {} {
      var x :| x in A;
      SubsetSize(A - {x}, B - {x});
      assert A == (A - {x}) + {x} && B == (B - {x}) + {x};
    }
  }

  lemma {:induction false} NoDupSetSize<T>(s: seq<T>)
    requires NoDup(s)
    ensures |Members(s)| == |s|
  {
    if s == [] {
      assert Members(s) == {};
    } else {
      var rest := s[1..];
      NoDupSetSize(rest);
      assert Members(s) == {s[0]} + Members(rest);
      assert s[0] !in rest;
    }
  }

  /** Drop one occurrence: what is left has one element fewer in the multiset. */
  lemma RemoveAt<T>(s: seq<T>, i: nat)
    requires i < |s|
    ensures multiset(s[..i] + s[i + 1..]) == multiset(s) - multiset{s[i]}
  {
    assert s == s[..i] + [s[i]] + s[i + 1..];
  }

  lemma MultisetNoDup<T>(a: seq<T>, b: seq<T>)
    requires multiset(a) == multiset(b) && NoDup(a)
    ensures NoDup(b)
  {
    forall i, j | 0 <= i < j < |b|
      ensures b[i] != b[j]
    {
      if b[i] == b[j] {
        assert b == b[..i] + [b[i]] + b[i + 1..j] + [b[j]] + b[j + 1..];
        assert multiset(b)[b[i]] >= 2;
        NoDupMultiplicity(a, b[i]);
      }
    }
  }

  lemma {:induction false} NoDupMultiplicity<T>(a: seq<T>, x: T)
    requires NoDup(a)
    ensures multiset(a)[x] <= 1
  {
    if a != [] {
      assert a == [a[0]] + a[1..];
      assert a[0] !in a[1..];
      NoDupMultiplicity(a[1..], x);
    }
  }

  lemma SameMembers<T>(a: seq<T>, b: seq<T>)
    requires multiset(a) == multiset(b)
    ensures forall x :: x in a <==> x in b
    ensures |a| == |b|
  {
    assert forall x :: x in a <==> x in multiset(a);
    assert forall x :: x in b <==> x in multiset(b);
    assert |multiset(a)| == |a| && |multiset(b)| == |b|;
  }

  // ----- what depends on the multiset alone -----

  /** `g` turns concatenation into multiset sum. */
  ghost predicate Additive<T(!new), U(!new)>(g: seq<T> -> multiset<U>) {
    forall a, b :: Adds(g, a, b)
  }

  ghost predicate Adds<T, U>(g: seq<T> -> multiset<U>, a: seq<T>, b: seq<T>) {
    g(a + b) == g(a) + g(b)
  }

  lemma AdditiveStep<T(!new), U(!new)>(g: seq<T> -> multiset<U>, head: T, tail: seq<T>, x: seq<T>, y: seq<T>)
    requires Additive(g) && g(tail) == g(x + y)
    ensures g([head] + tail) == g((x + [head]) + y)
  {
    assert Adds(g, x + [head], y) && Adds(g, x, [head]) && Adds(g, x, y) && Adds(g, [head], tail);
  }

  /** The head of `a` occurs in `b`, and taking it out of both leaves equal multisets. */
  lemma MatchHead<T>(a: seq<T>, b: seq<T>) returns (i: nat)
    requires a != [] && multiset(a) == multiset(b)
    ensures i < |b| && b[i] == a[0] && multiset(a[1..]) == multiset(b[..i] + b[i + 1..])
  {
    SameMembers(a, b);
    assert a[0] in b;
    i :| 0 <= i < |b| && b[i] == a[0];
    RemoveAt(a, 0);
    RemoveAt(b, i);
    assert a[..0] + a[1..] == a[1..];
  }

  lemma SplitAt<T>(s: seq<T>, i: nat)
    requires i < |s|
    ensures s == (s[..i] + [s[i]]) + s[i + 1..]
  {
  }

  /** Anything additive is unchanged by reordering. */
  lemma {:induction false} AdditivePermutes<T(!new), U(!new)>(g: seq<T> -> multiset<U>, a: seq<T>, b: seq<T>)
    requires Additive(g) && multiset(a) == multiset(b)
    ensures g(a) == g(b)
    decreases |a|
  {
    if a == [] {
      SameMembers(a, b);
      assert b == [];
    } else {
      var i := MatchHead(a, b);
      AdditivePermutes(g, a[1..], b[..i] + b[i + 1..]);
      AdditiveStep(g, a[0], a[1..], b[..i], b[i + 1..]);
      SplitAt(b, i);
      assert [a[0]] + a[1..] == a;
    }
  }
}
