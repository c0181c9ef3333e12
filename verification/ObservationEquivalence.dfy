/** Which observations have one normal form: exactly those that differ only in what the declared rules forgive. */
module ObservationEquivalence {
  import opened Sequences
  import opened Orders
  import opened PathPieces
  import opened Contracts
  import opened Normalization

  // ----- the differences that are forgiven -----

  /** Equal but for what `rules` forgive: temporary paths, masked keys, and the order of order-free lists, at any
      depth. */
  ghost predicate Same(lib: Library, rules: set<Rule>, a: Json, b: Json)
    decreases a, 0
  {
    match a
    case Obj(m) =>
      b.Obj? && b.fields.Keys == m.Keys && forall k :: k in m ==> SameField(lib, rules, k, m[k], b.fields[k])
    case Arr(items) => b.Arr? && SameAll(lib, rules, items, b.items)
    case Str(s) => b.Str? && SameText(rules, s, b.s)
    case _ => a == b
  }

  ghost predicate SameText(rules: set<Rule>, s: string, t: string) {
    if TemporaryPaths in rules then SamePieces(s, t) else s == t
  }

  /** Anything goes under a masked key; lists under an order-free key may be reordered. */
  ghost predicate SameField(lib: Library, rules: set<Rule>, key: string, u: Json, v: Json)
    decreases u, 1
  {
    || MaskFor(lib.lower(key), rules).Some?
    || (if OrderFree(key, rules) && u.Arr? && v.Arr? then SameUpToOrder(lib, rules, u.items, v.items)
        else Same(lib, rules, u, v))
  }

  ghost predicate SameAll(lib: Library, rules: set<Rule>, xs: seq<Json>, ys: seq<Json>)
    decreases xs, 0
  {
    |xs| == |ys| && forall i :: 0 <= i < |xs| ==> Same(lib, rules, xs[i], ys[i])
  }

  ghost predicate SameUpToOrder(lib: Library, rules: set<Rule>, xs: seq<Json>, ys: seq<Json>)
    decreases xs, 1
  {
    exists zs: seq<Json> :: multiset(zs) == multiset(ys) && SameAll(lib, rules, xs, zs)
  }

  // ----- forgiven differences do not reach the normal form -----

  lemma {:induction false} SameTextWalks(lib: Library, rules: set<Rule>, s: string, t: string)
    requires GoodLibrary(lib)
    ensures SameText(rules, s, t) <==> Walk(lib, rules, Str(s)) == Walk(lib, rules, Str(t))
  {
    RewriteIdentifies(s, t);
  }

  lemma {:induction false} SameWalks(lib: Library, rules: set<Rule>, a: Json, b: Json)
    requires GoodLibrary(lib) && Same(lib, rules, a, b)
    ensures Walk(lib, rules, a) == Walk(lib, rules, b)
    decreases a, 0
  {
    match a
    case Obj(m) =>
      forall k | k in m ensures WalkField(lib, rules, k, m[k]) == WalkField(lib, rules, k, b.fields[k]) {
        SameFieldsWalk(lib, rules, k, m[k], b.fields[k]);
      }
      assert Walk(lib, rules, a).fields == Walk(lib, rules, b).fields;
    case Arr(items) => SameAllWalk(lib, rules, items, b.items);
    case Str(s) => SameTextWalks(lib, rules, s, b.s);
    case _ =>
  }

  lemma {:induction false} SameAllWalk(lib: Library, rules: set<Rule>, xs: seq<Json>, ys: seq<Json>)
    requires GoodLibrary(lib) && SameAll(lib, rules, xs, ys)
    ensures WalkAll(lib, rules, xs) == WalkAll(lib, rules, ys)
    decreases xs, 0
  {
    forall i | 0 <= i < |xs| ensures Walk(lib, rules, xs[i]) == Walk(lib, rules, ys[i]) {
      SameWalks(lib, rules, xs[i], ys[i]);
    }
  }

  lemma {:induction false} SameFieldsWalk(lib: Library, rules: set<Rule>, key: string, u: Json, v: Json)
    requires GoodLibrary(lib) && SameField(lib, rules, key, u, v)
    ensures WalkField(lib, rules, key, u) == WalkField(lib, rules, key, v)
    decreases u, 1
  {
    if MaskFor(lib.lower(key), rules).None? {
      if OrderFree(key, rules) && u.Arr? && v.Arr? {
        SameUpToOrderWalks(lib, rules, u.items, v.items);
      } else {
        SameWalks(lib, rules, u, v);
      }
    }
  }

  lemma {:induction false} SameUpToOrderWalks(lib: Library, rules: set<Rule>, xs: seq<Json>, ys: seq<Json>)
    requires GoodLibrary(lib) && SameUpToOrder(lib, rules, xs, ys)
    ensures Sort(WalkAll(lib, rules, xs), lib.reprLe) == Sort(WalkAll(lib, rules, ys), lib.reprLe)
    decreases xs, 1
  {
    var zs :| multiset(zs) == multiset(ys) && SameAll(lib, rules, xs, zs);
    SameAllWalk(lib, rules, xs, zs);
    SortedWalkPermutes(lib, rules, zs, ys);
  }

  // ----- nothing else is forgiven -----

  lemma {:induction false} MatchImages(f: Json -> Json, xs: seq<Json>, ys: seq<Json>) returns (zs: seq<Json>)
    requires multiset(MapAll(f, xs)) == multiset(MapAll(f, ys))
    ensures multiset(zs) == multiset(ys) && MapAll(f, xs) == MapAll(f, zs)
    decreases |xs|
  {
    SameMembers(MapAll(f, xs), MapAll(f, ys));
    if xs == [] {
      assert MapAll(f, ys) == [];
      zs := ys;
    } else {
      var j := ImageOf(f, xs[0], xs, ys);
      var rest := ys[..j] + ys[j + 1..];
      SplitAt(ys, j);
      DropImages(f, xs, ys, j);
      var tail := MatchImages(f, xs[1..], rest);
      zs := [ys[j]] + tail;
      assert MapAll(f, zs) == [f(ys[j])] + MapAll(f, tail);
      assert MapAll(f, xs) == [f(xs[0])] + MapAll(f, xs[1..]);
    }
  }

  lemma ImageOf(f: Json -> Json, x: Json, xs: seq<Json>, ys: seq<Json>) returns (j: nat)
    requires xs != [] && x == xs[0] && forall y :: y in MapAll(f, xs) <==> y in MapAll(f, ys)
    ensures j < |ys| && f(ys[j]) == f(x)
  {
    assert MapAll(f, xs)[0] == f(x);
    assert f(x) in MapAll(f, ys);
    j :| 0 <= j < |ys| && MapAll(f, ys)[j] == f(x);
  }

  /** Taking one matched pair away leaves the same images. */
  lemma {:induction false} DropImages(f: Json -> Json, xs: seq<Json>, ys: seq<Json>, j: nat)
    requires xs != [] && j < |ys| && f(ys[j]) == f(xs[0]) && multiset(MapAll(f, xs)) == multiset(MapAll(f, ys))
    ensures multiset(MapAll(f, xs[1..])) == multiset(MapAll(f, ys[..j] + ys[j + 1..]))
  {
    var A, B := MapAll(f, ys[..j]), MapAll(f, ys[j + 1..]);
    assert MapAll(f, xs) == [f(xs[0])] + MapAll(f, xs[1..]);
    assert MapAll(f, ys) == A + [f(ys[j])] + B;
    MapAllAppend(f, ys[..j], ys[j + 1..]);
    assert multiset(MapAll(f, xs[1..])) == multiset(MapAll(f, xs)) - multiset{f(xs[0])};
    assert multiset(A + B) == multiset(MapAll(f, ys)) - multiset{f(ys[j])};
  }

  lemma {:induction false} WalksSame(lib: Library, rules: set<Rule>, a: Json, b: Json)
    requires GoodLibrary(lib) && Walk(lib, rules, a) == Walk(lib, rules, b)
    ensures Same(lib, rules, a, b)
    decreases a, 0
  {
    match a
    case Obj(m) =>
      assert Walk(lib, rules, a).fields.Keys == m.Keys;
      assert Walk(lib, rules, b).fields.Keys == b.fields.Keys;
      forall k | k in m ensures SameField(lib, rules, k, m[k], b.fields[k]) {
        assert Walk(lib, rules, a).fields[k] == Walk(lib, rules, b).fields[k];
        WalkFieldsSame(lib, rules, k, m[k], b.fields[k]);
      }
    case Arr(items) => WalkAllSame(lib, rules, items, b.items);
    case Str(s) => SameTextWalks(lib, rules, s, b.s);
    case _ =>
  }

  lemma {:induction false} WalkAllSame(lib: Library, rules: set<Rule>, xs: seq<Json>, ys: seq<Json>)
    requires GoodLibrary(lib) && WalkAll(lib, rules, xs) == WalkAll(lib, rules, ys)
    ensures SameAll(lib, rules, xs, ys)
    decreases xs, 0
  {
    forall i | 0 <= i < |xs| ensures Same(lib, rules, xs[i], ys[i]) {
      assert WalkAll(lib, rules, xs)[i] == WalkAll(lib, rules, ys)[i];
      WalksSame(lib, rules, xs[i], ys[i]);
    }
  }

  lemma {:induction false} WalkFieldsSame(lib: Library, rules: set<Rule>, key: string, u: Json, v: Json)
    requires GoodLibrary(lib) && WalkField(lib, rules, key, u) == WalkField(lib, rules, key, v)
    ensures SameField(lib, rules, key, u, v)
    decreases u, 1
  {
    if MaskFor(lib.lower(key), rules).None? {
      KindsKept(lib, rules, u);
      KindsKept(lib, rules, v);
      if OrderFree(key, rules) && u.Arr? && v.Arr? {
        SortedWalksSame(lib, rules, u.items, v.items);
      } else {
        WalksSame(lib, rules, u, v);
      }
    }
  }

  lemma {:induction false} KindsKept(lib: Library, rules: set<Rule>, a: Json)
    requires GoodLibrary(lib)
    ensures Walk(lib, rules, a).Arr? <==> a.Arr?
  {
  }

  lemma {:induction false} SortedWalksSame(lib: Library, rules: set<Rule>, xs: seq<Json>, ys: seq<Json>)
    requires GoodLibrary(lib)
    requires Sort(WalkAll(lib, rules, xs), lib.reprLe) == Sort(WalkAll(lib, rules, ys), lib.reprLe)
    ensures SameUpToOrder(lib, rules, xs, ys)
    decreases xs, 1
  {
    WalkAllIsMap(lib, rules, xs);
    WalkAllIsMap(lib, rules, ys);
    var zs := MatchImages(Walker(lib, rules), xs, ys);
    WalkAllIsMap(lib, rules, zs);
    WalkAllSame(lib, rules, xs, zs);
  }

  // ----- changes inside a value -----

  lemma {:induction false} SameRefl(lib: Library, rules: set<Rule>, a: Json)
    requires GoodLibrary(lib)
    ensures Same(lib, rules, a, a)
  {
    WalksSame(lib, rules, a, a);
  }

  /** A forgiven change of a value is a forgiven change under any key. */
  lemma {:induction false} SameUnderKey(lib: Library, rules: set<Rule>, key: string, u: Json, v: Json)
    requires Same(lib, rules, u, v)
    ensures SameField(lib, rules, key, u, v)
  {
    if OrderFree(key, rules) && u.Arr? && v.Arr? {
      assert SameAll(lib, rules, u.items, v.items) && multiset(v.items) == multiset(v.items);
    }
  }

  /** Replacing one field by one that differs forgivably. */
  lemma {:induction false} SameWithField(lib: Library, rules: set<Rule>, m: map<string, Json>, key: string, v: Json)
    requires GoodLibrary(lib) && key in m && SameField(lib, rules, key, m[key], v)
    ensures Same(lib, rules, Obj(m), Obj(m[key := v]))
  {
    forall k | k in m ensures SameField(lib, rules, k, m[k], m[key := v][k]) {
      if k != key {
        SameRefl(lib, rules, m[k]);
        SameUnderKey(lib, rules, k, m[k], m[k]);
      }
    }
  }

  /** Replacing one element of a list by one that differs forgivably. */
  lemma {:induction false} SameWithItem(lib: Library, rules: set<Rule>, items: seq<Json>, i: nat, v: Json)
    requires GoodLibrary(lib) && i < |items| && Same(lib, rules, items[i], v)
    ensures Same(lib, rules, Arr(items), Arr(items[i := v]))
  {
    forall j | 0 <= j < |items| ensures Same(lib, rules, items[j], items[i := v][j]) {
      SameRefl(lib, rules, items[j]);
    }
    assert SameAll(lib, rules, items, items[i := v]);
  }

  datatype Step = Key(key: string) | Index(i: nat)

  /** The value at the end of a path. */
  function Sub(item: Json, path: seq<Step>): Option<Json> {
    if path == [] then Some(item)
    else
      match path[0]
      case Key(k) => if item.Obj? && k in item.fields then Sub(item.fields[k], path[1..]) else None
      case Index(i) => if item.Arr? && i < |item.items| then Sub(item.items[i], path[1..]) else None
  }

  /** The same value with another one at the end of the path. */
  function Put(item: Json, path: seq<Step>, v: Json): Json
    requires Sub(item, path).Some?
  {
    if path == [] then v
    else
      match path[0]
      case Key(k) => Obj(item.fields[k := Put(item.fields[k], path[1..], v)])
      case Index(i) => Arr(item.items[i := Put(item.items[i], path[1..], v)])
  }

  /** A list that is declared order-free may be reordered however deep it lies. */
  lemma {:induction false} ReorderedInside(lib: Library, rules: set<Rule>, item: Json, path: seq<Step>, key: string,
                                           a: seq<Json>, b: seq<Json>)
    requires GoodLibrary(lib) && OrderFree(key, rules) && multiset(a) == multiset(b)
    requires Sub(item, path + [Key(key)]) == Some(Arr(a))
    ensures Same(lib, rules, item, Put(item, path + [Key(key)], Arr(b)))
    decreases |path|
  {
    var whole := path + [Key(key)];
    if path == [] {
      assert whole[1..] == [];
      assert item.fields[key] == Arr(a);
      forall i | 0 <= i < |a| ensures Same(lib, rules, a[i], a[i]) { SameRefl(lib, rules, a[i]); }
      assert SameAll(lib, rules, a, a);
      SameWithField(lib, rules, item.fields, key, Arr(b));
    } else {
      assert whole[1..] == path[1..] + [Key(key)];
      match path[0]
      case Key(k) =>
        ReorderedInside(lib, rules, item.fields[k], path[1..], key, a, b);
        SameUnderKey(lib, rules, k, item.fields[k], Put(item.fields[k], whole[1..], Arr(b)));
        SameWithField(lib, rules, item.fields, k, Put(item.fields[k], whole[1..], Arr(b)));
      case Index(i) =>
        ReorderedInside(lib, rules, item.items[i], path[1..], key, a, b);
        SameWithItem(lib, rules, item.items, i, Put(item.items[i], whole[1..], Arr(b)));
    }
  }

  // ----- observations -----

  ghost predicate SameObservation(lib: Library, x: Observation, y: Observation, c: Contract) {
    Same(lib, RulesOf(c), Obj(WithoutDuration(x, c)), Obj(WithoutDuration(y, c)))
  }

  /** Two observations have one normal form exactly when they differ only in what the Contract's rules forgive. */
  lemma NormalFormsCharacterised(lib: Library, x: Observation, y: Observation, c: Contract)
    requires GoodLibrary(lib)
    ensures NormalForm(lib, x, c) == NormalForm(lib, y, c) <==> SameObservation(lib, x, y, c)
  {
    var a, b := Obj(WithoutDuration(x, c)), Obj(WithoutDuration(y, c));
    if NormalForm(lib, x, c) == NormalForm(lib, y, c) {
      assert Walk(lib, RulesOf(c), a) == Obj(NormalForm(lib, x, c))
          && Walk(lib, RulesOf(c), b) == Obj(NormalForm(lib, y, c));
      WalksSame(lib, RulesOf(c), a, b);
    }
    if SameObservation(lib, x, y, c) {
      SameWalks(lib, RulesOf(c), a, b);
    }
  }

  /** An order-free list at any depth of an observation: reordering it does not change the normal form. */
  lemma {:induction false} NestedListsPermute(lib: Library, x: Observation, c: Contract, path: seq<Step>, key: string,
                                              a: seq<Json>, b: seq<Json>)
    requires GoodLibrary(lib) && OrderFree(key, RulesOf(c)) && multiset(a) == multiset(b)
    requires Sub(Obj(WithoutDuration(x, c)), path + [Key(key)]) == Some(Arr(a))
    ensures Put(Obj(WithoutDuration(x, c)), path + [Key(key)], Arr(b)).Obj?
    ensures var y := Put(Obj(WithoutDuration(x, c)), path + [Key(key)], Arr(b)).fields;
            WithoutDuration(y, c) == y && NormalForm(lib, x, c) == NormalForm(lib, y, c)
  {
    var v := Obj(WithoutDuration(x, c));
    var y := Put(v, path + [Key(key)], Arr(b)).fields;
    ReorderedInside(lib, RulesOf(c), v, path, key, a, b);
    assert y.Keys == WithoutDuration(x, c).Keys;
    assert WithoutDuration(y, c) == y;
    NormalFormsCharacterised(lib, x, y, c);
  }

  /** So a comparison passes, for the kinds that compare values, exactly when both succeeded and differ forgivably. */
  lemma PassesCharacterised(lib: Library, reference: Observation, candidate: Observation, c: Contract)
    requires GoodLibrary(lib) && !c.equivalence.SetOf? && !c.equivalence.MultisetOf? && !c.equivalence.Range?
    ensures Passes(lib, reference, candidate, c) <==>
            && Status(reference) == Some(Str("ok")) && Status(candidate) == Some(Str("ok"))
            && SameObservation(lib, reference, candidate, c)
  {
    NormalFormsCharacterised(lib, reference, candidate, c);
  }

  /** For the set kinds it passes whatever the values are, once both succeeded and have the same keys. */
  lemma SetKindsCompareKeys(lib: Library, reference: Observation, candidate: Observation, c: Contract)
    requires GoodLibrary(lib) && (c.equivalence.SetOf? || c.equivalence.MultisetOf?)
    ensures Passes(lib, reference, candidate, c) <==>
            && Status(reference) == Some(Str("ok")) && Status(candidate) == Some(Str("ok"))
            && WithoutDuration(reference, c).Keys == WithoutDuration(candidate, c).Keys
  {
    NormalFormKeys(lib, reference, c);
    NormalFormKeys(lib, candidate, c);
  }

  lemma {:induction false} NormalFormKeys(lib: Library, x: Observation, c: Contract)
    requires GoodLibrary(lib)
    ensures NormalForm(lib, x, c).Keys == WithoutDuration(x, c).Keys
  {
  }
}
