/** Orders and sorting: Python's `sorted` on strings, on lists with a key, and on sets. */
module Orders {
  import opened Sequences

  /** Contract, workload and case identifiers. Python compares `str` by code point. */
  type Id = string

  ghost predicate TotalPreorder<T(!new)>(le: (T, T) -> bool) {
    && (forall x, y :: le(x, y) || le(y, x))
    && (forall x, y, z :: le(x, y) && le(y, z) ==> le(x, z))
  }

  ghost predicate TotalOrder<T(!new)>(le: (T, T) -> bool) {
    && TotalPreorder(le)
    && (forall x, y :: le(x, y) && le(y, x) ==> x == y)
  }

  ghost predicate Sorted<T>(s: seq<T>, le: (T, T) -> bool) {
    forall i, j :: 0 <= i < j < |s| ==> le(s[i], s[j])
  }

  /** A stable insertion sort: Python's `sorted` for a comparison `le`. */
  function Sort<T(!new)>(s: seq<T>, le: (T, T) -> bool): (r: seq<T>)
    requires TotalPreorder(le)
    ensures Sorted(r, le)
    ensures multiset(r) == multiset(s)
  {
    if s == [] then []
    else
      assert s == [s[0]] + s[1..];
      Insert(s[0], Sort(s[1..], le), le)
  }

  function Insert<T(!new)>(x: T, s: seq<T>, le: (T, T) -> bool): (r: seq<T>)
    requires TotalPreorder(le) && Sorted(s, le)
    ensures Sorted(r, le)
    ensures multiset(r) == multiset{x} + multiset(s)
    ensures forall y :: y in r <==> y == x || y in s
  {
    if s == [] then [x]
    else if le(x, s[0]) then
      LeastInFront(x, s, le);
      [x] + s
    else
      var r := Insert(x, s[1..], le);
      assert s == [s[0]] + s[1..];
      assert forall y :: y in s[1..] ==> le(s[0], y);
      SortedCons(s[0], r, le);
      [s[0]] + r
  }

  lemma LeastInFront<T(!new)>(x: T, s: seq<T>, le: (T, T) -> bool)
    requires TotalPreorder(le) && Sorted(s, le) && s != [] && le(x, s[0])
    ensures Sorted([x] + s, le)
  {
    forall y | y in s ensures le(x, y) { HeadIsLeast(s, y, le); }
    SortedCons(x, s, le);
  }

  lemma SortedCons<T>(x: T, s: seq<T>, le: (T, T) -> bool)
    requires Sorted(s, le) && forall y :: y in s ==> le(x, y)
    ensures Sorted([x] + s, le)
  {
  }

  lemma HeadIsLeast<T(!new)>(a: seq<T>, x: T, le: (T, T) -> bool)
    requires TotalPreorder(le) && Sorted(a, le) && x in a
    ensures le(a[0], x)
  {
    var i :| 0 <= i < |a| && a[i] == x;
    if i == 0 { assert le(x, x); }
  }

  /** Sorting by a total order depends on the multiset alone. */
  lemma {:induction false} SortedUnique<T(!new)>(a: seq<T>, b: seq<T>, le: (T, T) -> bool)
    requires TotalOrder(le)
    requires Sorted(a, le) && Sorted(b, le) && multiset(a) == multiset(b)
    ensures a == b
  {
    SameMembers(a, b);
    if a != [] {
      assert a[0] in b && b[0] in a;
      HeadIsLeast(a, b[0], le);
      HeadIsLeast(b, a[0], le);
      TailMultisets(a, b);
      SortedUnique(a[1..], b[1..], le);
    }
  }

  lemma TailMultisets<T>(a: seq<T>, b: seq<T>)
    requires a != [] && b != [] && a[0] == b[0] && multiset(a) == multiset(b)
    ensures multiset(a[1..]) == multiset(b[1..])
  {
    assert a == [a[0]] + a[1..] && b == [b[0]] + b[1..];
    assert multiset(a[1..]) == multiset(a) - multiset{a[0]};
    assert multiset(b[1..]) == multiset(b) - multiset{b[0]};
  }

  // ----- strings -----

  predicate StrLe(a: string, b: string) {
    a == "" || (b != "" && (a[0] < b[0] || (a[0] == b[0] && StrLe(a[1..], b[1..]))))
  }

  lemma {:induction false} SmallerAt(a: string, b: string, i: nat)
    requires i < |a| && i < |b| && a[..i] == b[..i] && a[i] < b[i]
    ensures StrLe(a, b)
  {
    if i > 0 {
      assert a[0] == a[..i][0] == b[..i][0] == b[0];
      assert a[1..][..i - 1] == a[..i][1..] == b[..i][1..] == b[1..][..i - 1];
      SmallerAt(a[1..], b[1..], i - 1);
    }
  }

  lemma {:induction false} PrefixIsSmaller(a: string, b: string)
    requires a <= b
    ensures StrLe(a, b)
  {
    if a != "" {
      assert a[0] == b[0] && a[1..] <= b[1..];
      PrefixIsSmaller(a[1..], b[1..]);
    }
  }

  lemma {:induction false} FirstDifference(a: string, b: string) returns (i: nat)
    requires StrLe(a, b) && !(a <= b)
    ensures i < |a| && i < |b| && a[..i] == b[..i] && a[i] < b[i]
  {
    assert a == [a[0]] + a[1..] && b == [b[0]] + b[1..];
    if a[0] < b[0] {
      i := 0;
    } else {
      var k := FirstDifference(a[1..], b[1..]);
      i := k + 1;
      assert a[..i] == [a[0]] + a[1..][..k] && b[..i] == [b[0]] + b[1..][..k];
    }
  }

  /** At the first index where two strings differ, the smaller character decides; a prefix comes first. */
  lemma {:induction false} StrLeIsLexicographic(a: string, b: string)
    ensures StrLe(a, b)
            <==> a <= b || exists i :: 0 <= i < |a| && i < |b| && a[..i] == b[..i] && a[i] < b[i]
  {
    if a <= b {
      PrefixIsSmaller(a, b);
    } else if StrLe(a, b) {
      var i := FirstDifference(a, b);
    }
    if i :| 0 <= i < |a| && i < |b| && a[..i] == b[..i] && a[i] < b[i] { SmallerAt(a, b, i); }
  }

  lemma {:induction false} StrLeTotal(a: string, b: string)
    ensures StrLe(a, b) || StrLe(b, a)
  {
    if a != "" && b != "" && a[0] == b[0] { StrLeTotal(a[1..], b[1..]); }
  }

  lemma {:induction false} StrLeTrans(a: string, b: string, c: string)
    requires StrLe(a, b) && StrLe(b, c)
    ensures StrLe(a, c)
  {
    if a != "" && a[0] == b[0] == c[0] { StrLeTrans(a[1..], b[1..], c[1..]); }
  }

  lemma {:induction false} StrLeAntisym(a: string, b: string)
    requires StrLe(a, b) && StrLe(b, a)
    ensures a == b
  {
    if a != "" && b != "" {
      StrLeAntisym(a[1..], b[1..]);
      assert a == [a[0]] + a[1..] && b == [b[0]] + b[1..];
    }
  }

  /** String comparison is a total order, so `sorted` on identifiers is determined by the multiset. */
  lemma StrLeTotalOrder()
    ensures TotalOrder(StrLe)
  {
    forall x, y ensures StrLe(x, y) || StrLe(y, x) { StrLeTotal(x, y); }
    forall x, y, z | StrLe(x, y) && StrLe(y, z) ensures StrLe(x, z) { StrLeTrans(x, y, z); }
    forall x, y | StrLe(x, y) && StrLe(y, x) ensures x == y { StrLeAntisym(x, y); }
  }

  /** `sorted` on a list of identifiers. */
  function SortIds(s: seq<Id>): (r: seq<Id>)
    ensures Sorted(r, StrLe) && multiset(r) == multiset(s)
  {
    StrLeTotalOrder();
    Sort(s, StrLe)
  }

  // ----- `sorted` on a set -----

  /** `r` lists the set `s`: every member once, in ascending order. */
  ghost predicate Lists(r: seq<Id>, s: set<Id>) {
    Sorted(r, StrLe) && NoDup(r) && forall x :: x in r <==> x in s
  }

  lemma {:induction false} LeastExists(s: set<Id>)
    requires s != {}
    ensures exists m :: m in s && forall y :: y in s ==> StrLe(m, y)
    decreases |s|
  {
    StrLeTotalOrder();
    var m :| m in s;
    if s == {m} {
      assert forall y :: y in s ==> StrLe(m, y);
    } else {
      LeastExists(s - {m});
      var n :| n in s - {m} && forall y :: y in s - {m} ==> StrLe(n, y);
      var k := if StrLe(m, n) then m else n;
      assert forall y :: y in s ==> y == m || y in s - {m};
      assert k in s && forall y :: y in s ==> StrLe(k, y);
    }
  }

  lemma {:induction false} ListsCons(m: Id, rest: seq<Id>, s: set<Id>)
    requires m in s && (forall y :: y in s ==> StrLe(m, y)) && Lists(rest, s - {m})
    ensures Lists([m] + rest, s)
  {
    assert forall y :: y in rest ==> y in s - {m};
    assert forall x :: x in s <==> x == m || x in s - {m};
  }

  function SortedIds(s: set<Id>): (r: seq<Id>)
    ensures Lists(r, s)
    ensures |r| == |s|
  {
    if s == {} then []
    else
      LeastExists(s);
      StrLeTotalOrder();
      var m :| m in s && forall y :: y in s ==> StrLe(m, y);
      var rest := SortedIds(s - {m});
      ListsCons(m, rest, s);
      [m] + rest
  }

  /** A listing of a set is unique. */
  lemma ListsUnique(a: seq<Id>, b: seq<Id>, s: set<Id>)
    requires Lists(a, s) && Lists(b, s)
    ensures a == b
  {
    StrLeTotalOrder();
    forall x ensures multiset(a)[x] == multiset(b)[x] {
      NoDupMultiplicity(a, x);
      NoDupMultiplicity(b, x);
      assert x in a <==> x in multiset(a);
      assert x in b <==> x in multiset(b);
    }
    assert multiset(a) == multiset(b);
    SortedUnique(a, b, StrLe);
  }
}
