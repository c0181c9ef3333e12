/** Observation normalization: masks, path rewrites and order-insensitive lists, and the comparison built on them. */
module Normalization {
  import opened Sequences
  import opened Orders
  import opened PathRewriting
  import opened Contracts
  import opened MaskNames

  datatype Json =
    | Null
    | Bool(b: bool)
    | Number(n: real)
    | Str(s: string)
    | Arr(items: seq<Json>)
    | Obj(fields: map<string, Json>)

  type Observation = map<string, Json>

  /** Library behaviour the model does not define: `str.lower`, and the order of values by their `repr`. */
  datatype Library = Library(lower: string -> string, reprLe: (Json, Json) -> bool)

  ghost predicate GoodLibrary(lib: Library) {
    TotalOrder(lib.reprLe)
  }

  // ----- key masks -----

  const PID_KEYS := {"pid", "process_id", "child_pid", "parent_pid", "child", "parent", "creator_pid", "target_pid"}
  const PPID_KEYS := {"ppid", "parent_process_id"}
  const TID_KEYS := {"tid", "thread_id", "thread"}
  const INODE_KEYS := {"inode", "ino", "st_ino", "inode_number"}
  const TIME_KEYS := {"atime", "mtime", "ctime", "btime"}
  const PORT_KEYS := {"port", "local_port", "remote_port", "ephemeral_port"}
  const ADDRESS_KEYS := {"addr", "pointer", "ptr"}
  const HOST_KEYS := {"hostname", "kernel", "kernel_release", "platform", "machine", "nodename"}

  predicate EndsWith(s: string, suffix: string) {
    |s| >= |suffix| && s[|s| - |suffix|..] == suffix
  }

  predicate Contains(s: string, part: string) {
    part <= s || (s != "" && Contains(s[1..], part))
  }

  /** Whether a rule masks the value under a (lower-cased) key. */
  predicate Claims(rule: Rule, lower: string) {
    match rule
    case Pid => lower in PID_KEYS || EndsWith(lower, "_pid")
    case Ppid => lower in PPID_KEYS
    case Tid => lower in TID_KEYS || EndsWith(lower, "_tid")
    case Inode => lower in INODE_KEYS
    case Timestamps =>
      Contains(lower, "timestamp") || EndsWith(lower, "_time") || EndsWith(lower, "_time_ns") || lower in TIME_KEYS
    case EphemeralPort => lower in PORT_KEYS
    case Addresses => Contains(lower, "address") || lower in ADDRESS_KEYS
    case HostMetadata => lower in HOST_KEYS
    case _ => false
  }

  function Token(rule: Rule): string {
    match rule
    case Pid => "<PID>"
    case Ppid => "<PPID>"
    case Tid => "<TID>"
    case Inode => "<INODE>"
    case Timestamps => "<TIME>"
    case EphemeralPort => "<PORT>"
    case Addresses => "<ADDRESS>"
    case HostMetadata => "<HOST>"
    case _ => ""
  }

  /** The order in which the source tests the masking rules. */
  const MASK_ORDER := [Pid, Ppid, Tid, Inode, Timestamps, EphemeralPort, Addresses, HostMetadata]

  /** The token of the first declared rule that claims a key. */
  function FirstMask(lower: string, rules: set<Rule>, order: seq<Rule>): Option<string> {
    if order == [] then None
    else if order[0] in rules && Claims(order[0], lower) then Some(Token(order[0]))
    else FirstMask(lower, rules, order[1..])
  }

  function MaskFor(lower: string, rules: set<Rule>): Option<string> {
    FirstMask(lower, rules, MASK_ORDER)
  }

  lemma EndsWithIs(s: string, suffix: string)
    ensures EndsWith(s, suffix) <==> EndsIn(s, suffix)
  {
    if |s| >= |suffix| {
      var tail := s[|s| - |suffix|..];
      assert tail == suffix <==> forall i :: 0 <= i < |suffix| ==> tail[i] == suffix[i];
      assert forall i :: 0 <= i < |suffix| ==> tail[i] == s[|s| - |suffix| + i];
    }
  }

  lemma PrefixIs(s: string, part: string)
    ensures part <= s <==> PartAt(s, part, 0)
  {
    if |part| <= |s| { assert part == s[..|part|] <==> forall i :: 0 <= i < |part| ==> part[i] == s[..|part|][i]; }
  }

  lemma PartInTail(s: string, part: string, j: nat)
    requires s != ""
    ensures PartAt(s, part, j + 1) <==> PartAt(s[1..], part, j)
  {
  }

  lemma {:induction false} ContainsIs(s: string, part: string)
    ensures Contains(s, part) <==> HasPart(s, part)
  {
    PrefixIs(s, part);
    if s != "" {
      ContainsIs(s[1..], part);
      if HasPart(s[1..], part) {
        var j :| 0 <= j <= |s[1..]| && PartAt(s[1..], part, j);
        PartInTail(s, part, j);
      }
      if HasPart(s, part) && !PartAt(s, part, 0) {
        var j :| 0 <= j <= |s| && PartAt(s, part, j);
        PartInTail(s, part, j - 1);
      }
    }
  }

  lemma SuffixClaims(lower: string)
    ensures Claims(Pid, lower) <==> NamesPid(lower)
    ensures Claims(Tid, lower) <==> NamesTid(lower)
  {
    EndsWithIs(lower, "_pid");
    EndsWithIs(lower, "_tid");
  }

  lemma TimeClaims(lower: string)
    ensures Claims(Timestamps, lower) <==> NamesTime(lower)
  {
    EndsWithIs(lower, "_time");
    EndsWithIs(lower, "_time_ns");
    ContainsIs(lower, "timestamp");
  }

  lemma AddressClaims(lower: string)
    ensures Claims(Addresses, lower) <==> NamesAddress(lower)
  {
    ContainsIs(lower, "address");
  }

  lemma ListedClaims(lower: string)
    ensures Claims(Ppid, lower) <==> NamesPpid(lower)
    ensures Claims(Inode, lower) <==> NamesInode(lower)
    ensures Claims(EphemeralPort, lower) <==> NamesPort(lower)
    ensures Claims(HostMetadata, lower) <==> NamesHost(lower)
  {
  }

  lemma ClaimsIs(rule: Rule, lower: string)
    ensures Claims(rule, lower) <==> Names(rule, lower)
  {
    match rule
    case Pid => SuffixClaims(lower);
    case Tid => SuffixClaims(lower);
    case Timestamps => TimeClaims(lower);
    case Addresses => AddressClaims(lower);
    case _ => ListedClaims(lower);
  }

  lemma {:induction false} MaskStep(lower: string, rules: set<Rule>, first: Rule, rest: seq<Rule>)
    ensures FirstMask(lower, rules, [first] + rest)
            == if first in rules && Names(first, lower) then Some(Token(first)) else FirstMask(lower, rules, rest)
  {
    ClaimsIs(first, lower);
    assert ([first] + rest)[1..] == rest;
  }

  lemma {:induction false} LateMaskIs(lower: string, rules: set<Rule>)
    ensures FirstMask(lower, rules, [Timestamps, EphemeralPort, Addresses, HostMetadata]) == LateMask(rules, lower)
  {
    MaskStep(lower, rules, HostMetadata, []);
    MaskStep(lower, rules, Addresses, [HostMetadata]);
    MaskStep(lower, rules, EphemeralPort, [Addresses, HostMetadata]);
    MaskStep(lower, rules, Timestamps, [EphemeralPort, Addresses, HostMetadata]);
  }

  lemma {:induction false} MiddleMaskIs(lower: string, rules: set<Rule>)
    ensures FirstMask(lower, rules, [Tid, Inode, Timestamps, EphemeralPort, Addresses, HostMetadata])
            == MiddleMask(rules, lower)
  {
    var late := [Timestamps, EphemeralPort, Addresses, HostMetadata];
    LateMaskIs(lower, rules);
    MaskStep(lower, rules, Inode, late);
    MaskStep(lower, rules, Tid, [Inode] + late);
    assert [Tid] + ([Inode] + late) == [Tid, Inode, Timestamps, EphemeralPort, Addresses, HostMetadata];
  }

  /** The masks are those that the rules name, the first declared rule deciding. */
  lemma MaskIs(lower: string, rules: set<Rule>)
    ensures MaskFor(lower, rules) == MaskOf(rules, lower)
  {
    var middle := [Tid, Inode, Timestamps, EphemeralPort, Addresses, HostMetadata];
    MiddleMaskIs(lower, rules);
    OrderIs(middle);
    EarlyMaskIs(lower, rules, middle);
  }

  lemma OrderIs(middle: seq<Rule>)
    requires middle == [Tid, Inode, Timestamps, EphemeralPort, Addresses, HostMetadata]
    ensures MASK_ORDER == [Pid] + ([Ppid] + middle)
  {
  }

  lemma {:induction false} EarlyMaskIs(lower: string, rules: set<Rule>, middle: seq<Rule>)
    requires FirstMask(lower, rules, middle) == MiddleMask(rules, lower)
    ensures FirstMask(lower, rules, [Pid] + ([Ppid] + middle)) == MaskOf(rules, lower)
  {
    MaskStep(lower, rules, Ppid, middle);
    MaskStep(lower, rules, Pid, [Ppid] + middle);
  }

  // ----- order-insensitive lists -----

  const DIRECTORY_KEYS := {"entries", "directory_entries"}
  const SCHEDULE_KEYS := {"events", "schedule", "thread_order"}

  predicate OrderFree(key: string, rules: set<Rule>) {
    (DirectoryOrder in rules && key in DIRECTORY_KEYS) || (SchedulerOrder in rules && key in SCHEDULE_KEYS)
  }

  function SortIfFree(lib: Library, rules: set<Rule>, key: string, value: Json): Json
    requires GoodLibrary(lib)
  {
    if OrderFree(key, rules) && value.Arr? then Arr(Sort(value.items, lib.reprLe)) else value
  }

  // ----- the recursive rewrite -----

  function Walk(lib: Library, rules: set<Rule>, item: Json): (r: Json)
    requires GoodLibrary(lib)
    decreases item, 0
  {
    match item
    case Obj(m) => Obj(map k | k in m :: WalkField(lib, rules, k, m[k]))
    case Arr(items) => Arr(WalkAll(lib, rules, items))
    case Str(s) => if TemporaryPaths in rules then Str(RewritePaths(s)) else item
    case _ => item
  }

  function WalkField(lib: Library, rules: set<Rule>, key: string, raw: Json): Json
    requires GoodLibrary(lib)
    decreases raw, 1
  {
    match MaskFor(lib.lower(key), rules)
    case Some(token) => Str(token)
    case None => SortIfFree(lib, rules, key, Walk(lib, rules, raw))
  }

  function WalkAll(lib: Library, rules: set<Rule>, items: seq<Json>): (r: seq<Json>)
    requires GoodLibrary(lib)
    ensures |r| == |items|
    decreases items, 0
  {
    seq(|items|, i requires 0 <= i < |items| => Walk(lib, rules, items[i]))
  }

  /** The same rewrite as the source runs it. */
  method Rewrite(lib: Library, rules: set<Rule>, item: Json) returns (r: Json)
    requires GoodLibrary(lib)
    ensures r == Walk(lib, rules, item)
    decreases item, 1
  {
    match item
    case Obj(m) =>
      var out := RewriteFields(lib, rules, m);
      SortingPasses(lib, rules, m, out);
      if DirectoryOrder in rules {
        out := SortUnder(lib, out, DIRECTORY_KEYS);
      }
      if SchedulerOrder in rules {
        out := SortUnder(lib, out, SCHEDULE_KEYS);
      }
      r := Obj(out);
    case Arr(items) =>
      var walked := RewriteItems(lib, rules, items);
      r := Arr(walked);
    case Str(text) =>
      r := if TemporaryPaths in rules then Str(RewritePaths(text)) else item;
    case _ =>
      r := item;
  }

  /** A fresh dictionary, filled key by key in no particular order. */
  method RewriteFields(lib: Library, rules: set<Rule>, m: map<string, Json>) returns (out: map<string, Json>)
    requires GoodLibrary(lib)
    ensures out == map k | k in m :: Filled(lib, rules, k, m[k])
    decreases Obj(m), 0
  {
    out := map[];
    var keys := m.Keys;
    while keys != {}
      invariant keys <= m.Keys && out.Keys == m.Keys - keys
      invariant forall k :: k in out ==> out[k] == Filled(lib, rules, k, m[k])
      decreases keys
    {
      var key :| key in keys;
      var mask := MaskFor(lib.lower(key), rules);
      if mask.Some? {
        out := out[key := Str(mask.value)];
      } else {
        var walked := Rewrite(lib, rules, m[key]);
        out := out[key := walked];
      }
      keys := keys - {key};
    }
  }

  method RewriteItems(lib: Library, rules: set<Rule>, items: seq<Json>) returns (walked: seq<Json>)
    requires GoodLibrary(lib)
    ensures walked == WalkAll(lib, rules, items)
    decreases Arr(items), 0
  {
    walked := [];
    for i := 0 to |items|
      invariant walked == WalkAll(lib, rules, items[..i])
    {
      var w := Rewrite(lib, rules, items[i]);
      WalkAllAppend(lib, rules, items[..i], [items[i]]);
      assert items[..i + 1] == items[..i] + [items[i]];
      walked := walked + [w];
    }
    assert items[..|items|] == items;
  }

  /** The two passes sort what one test per key would sort: their keys are disjoint. */
  lemma PassesSortFree(lib: Library, rules: set<Rule>, key: string, value: Json)
    requires GoodLibrary(lib)
    ensures var d := if DirectoryOrder in rules then SortAt(lib, DIRECTORY_KEYS, key, value) else value;
            (if SchedulerOrder in rules then SortAt(lib, SCHEDULE_KEYS, key, d) else d)
              == SortIfFree(lib, rules, key, value)
  {
    if key in DIRECTORY_KEYS { assert key !in SCHEDULE_KEYS; }
  }

  /** The definition of a field is its filled value, sorted where its key is order-free. */
  lemma {:induction false} FieldIsSortedFill(lib: Library, rules: set<Rule>, key: string, raw: Json)
    requires GoodLibrary(lib)
    ensures WalkField(lib, rules, key, raw) == SortIfFree(lib, rules, key, Filled(lib, rules, key, raw))
  {
  }

  /** The passes sort under disjoint keys, so their order does not matter. */
  lemma PassesCommute(lib: Library, fields: map<string, Json>)
    requires GoodLibrary(lib)
    ensures SortUnder(lib, SortUnder(lib, fields, DIRECTORY_KEYS), SCHEDULE_KEYS)
            == SortUnder(lib, SortUnder(lib, fields, SCHEDULE_KEYS), DIRECTORY_KEYS)
  {
    assert DIRECTORY_KEYS !! SCHEDULE_KEYS;
  }

  lemma {:induction false} SortingPasses(lib: Library, rules: set<Rule>, m: map<string, Json>, out: map<string, Json>)
    requires GoodLibrary(lib)
    requires out == map k | k in m :: Filled(lib, rules, k, m[k])
    ensures var d := if DirectoryOrder in rules then SortUnder(lib, out, DIRECTORY_KEYS) else out;
            var e := if SchedulerOrder in rules then SortUnder(lib, d, SCHEDULE_KEYS) else d;
            Obj(e) == Walk(lib, rules, Obj(m))
  {
    var d := if DirectoryOrder in rules then SortUnder(lib, out, DIRECTORY_KEYS) else out;
    var e := if SchedulerOrder in rules then SortUnder(lib, d, SCHEDULE_KEYS) else d;
    forall k | k in m
      ensures e[k] == WalkField(lib, rules, k, m[k])
    {
      PassesSortFree(lib, rules, k, out[k]);
      FieldIsSortedFill(lib, rules, k, m[k]);
    }
    var w := Walk(lib, rules, Obj(m)).fields;
    assert e.Keys == w.Keys;
    assert e == w;
  }

  /** A dictionary entry before the sorting passes. */
  function Filled(lib: Library, rules: set<Rule>, key: string, raw: Json): Json
    requires GoodLibrary(lib)
  {
    match MaskFor(lib.lower(key), rules)
    case Some(token) => Str(token)
    case None => Walk(lib, rules, raw)
  }

  /** One sorting pass over the listed keys. */
  function SortUnder(lib: Library, fields: map<string, Json>, keys: set<string>): (r: map<string, Json>)
    requires GoodLibrary(lib)
    ensures r.Keys == fields.Keys
  {
    map k | k in fields :: SortAt(lib, keys, k, fields[k])
  }

  function SortAt(lib: Library, keys: set<string>, key: string, value: Json): Json
    requires GoodLibrary(lib)
  {
    if key in keys && value.Arr? then Arr(Sort(value.items, lib.reprLe)) else value
  }

  ghost function MapAll(f: Json -> Json, items: seq<Json>): (r: seq<Json>)
    ensures |r| == |items|
  {
    seq(|items|, i requires 0 <= i < |items| => f(items[i]))
  }

  lemma MapAllAppend(f: Json -> Json, a: seq<Json>, b: seq<Json>)
    ensures MapAll(f, a + b) == MapAll(f, a) + MapAll(f, b)
  {
  }

  ghost function Walker(lib: Library, rules: set<Rule>): Json -> Json
    requires GoodLibrary(lib)
  {
    x => Walk(lib, rules, x)
  }

  lemma {:induction false} WalkAllIsMap(lib: Library, rules: set<Rule>, items: seq<Json>)
    requires GoodLibrary(lib)
    ensures WalkAll(lib, rules, items) == MapAll(Walker(lib, rules), items)
  {
  }

  lemma {:induction false} WalkAllAppend(lib: Library, rules: set<Rule>, a: seq<Json>, b: seq<Json>)
    requires GoodLibrary(lib)
    ensures WalkAll(lib, rules, a + b) == WalkAll(lib, rules, a) + WalkAll(lib, rules, b)
  {
    WalkAllIsMap(lib, rules, a);
    WalkAllIsMap(lib, rules, b);
    WalkAllIsMap(lib, rules, a + b);
    MapAllAppend(Walker(lib, rules), a, b);
  }

  /** Rewriting elements commutes with reordering them. */
  lemma {:induction false} WalkAllPermutes(lib: Library, rules: set<Rule>, a: seq<Json>, b: seq<Json>)
    requires GoodLibrary(lib) && multiset(a) == multiset(b)
    ensures multiset(WalkAll(lib, rules, a)) == multiset(WalkAll(lib, rules, b))
  {
    var walked := (s: seq<Json>) => multiset(WalkAll(lib, rules, s));
    forall x, y ensures Adds(walked, x, y) { WalkAllAppend(lib, rules, x, y); }
    AdditivePermutes(walked, a, b);
  }

  lemma {:induction false} SortPermutes(lib: Library, a: seq<Json>, b: seq<Json>)
    requires GoodLibrary(lib) && multiset(a) == multiset(b)
    ensures Sort(a, lib.reprLe) == Sort(b, lib.reprLe)
  {
    SortedUnique(Sort(a, lib.reprLe), Sort(b, lib.reprLe), lib.reprLe);
  }

  lemma {:induction false} SortedWalkPermutes(lib: Library, rules: set<Rule>, a: seq<Json>, b: seq<Json>)
    requires GoodLibrary(lib) && multiset(a) == multiset(b)
    ensures Sort(WalkAll(lib, rules, a), lib.reprLe) == Sort(WalkAll(lib, rules, b), lib.reprLe)
  {
    WalkAllPermutes(lib, rules, a, b);
    SortPermutes(lib, WalkAll(lib, rules, a), WalkAll(lib, rules, b));
  }

  // ----- more rules see less -----

  /** A key masked under some rules stays masked under more, though perhaps by another rule. */
  lemma {:induction false} MaskGrows(lower: string, rules: set<Rule>, more: set<Rule>, order: seq<Rule>)
    requires rules <= more && FirstMask(lower, rules, order).Some?
    ensures FirstMask(lower, more, order).Some?
  {
    if !(order[0] in rules && Claims(order[0], lower)) {
      MaskGrows(lower, rules, more, order[1..]);
    }
  }

  /** Rewriting with more rules afterwards forgets that fewer were applied first. */
  lemma {:induction false} WalkAbsorbs(lib: Library, rules: set<Rule>, more: set<Rule>, item: Json)
    requires GoodLibrary(lib) && rules <= more
    ensures Walk(lib, more, Walk(lib, rules, item)) == Walk(lib, more, item)
    decreases item, 0
  {
    match item
    case Obj(m) =>
      forall k | k in m
        ensures WalkField(lib, more, k, WalkField(lib, rules, k, m[k])) == WalkField(lib, more, k, m[k])
      {
        FieldAbsorbs(lib, rules, more, k, m[k]);
      }
    case Arr(items) =>
      AllAbsorb(lib, rules, more, items);
    case Str(s) =>
      RewriteIdempotent(s);
    case _ =>
  }

  /** Sorting under fewer rules does not show after rewriting and sorting under more. */
  lemma {:induction false} SortThenWalk(lib: Library, rules: set<Rule>, more: set<Rule>, key: string, v: Json)
    requires GoodLibrary(lib) && rules <= more
    ensures SortIfFree(lib, more, key, Walk(lib, more, SortIfFree(lib, rules, key, v)))
            == SortIfFree(lib, more, key, Walk(lib, more, v))
  {
    if OrderFree(key, rules) && v.Arr? {
      SortedWalkPermutes(lib, more, Sort(v.items, lib.reprLe), v.items);
    }
  }

  lemma {:induction false} FieldAbsorbs(lib: Library, rules: set<Rule>, more: set<Rule>, key: string, raw: Json)
    requires GoodLibrary(lib) && rules <= more
    ensures WalkField(lib, more, key, WalkField(lib, rules, key, raw)) == WalkField(lib, more, key, raw)
    decreases raw, 1
  {
    if MaskFor(lib.lower(key), more).None? {
      if MaskFor(lib.lower(key), rules).Some? { MaskGrows(lib.lower(key), rules, more, MASK_ORDER); }
      WalkAbsorbs(lib, rules, more, raw);
      SortThenWalk(lib, rules, more, key, Walk(lib, rules, raw));
    }
  }

  lemma {:induction false} AllAbsorb(lib: Library, rules: set<Rule>, more: set<Rule>, items: seq<Json>)
    requires GoodLibrary(lib) && rules <= more
    ensures WalkAll(lib, more, WalkAll(lib, rules, items)) == WalkAll(lib, more, items)
    decreases items, 0
  {
    forall i | 0 <= i < |items|
      ensures Walk(lib, more, Walk(lib, rules, items[i])) == Walk(lib, more, items[i])
    {
      WalkAbsorbs(lib, rules, more, items[i]);
    }
  }

  lemma {:induction false} NoRulesNoMask(lower: string, order: seq<Rule>)
    ensures FirstMask(lower, {}, order) == None
  {
    if order != [] { NoRulesNoMask(lower, order[1..]); }
  }

  lemma {:induction false} NoRulesChangeNothing(lib: Library, item: Json)
    requires GoodLibrary(lib)
    ensures Walk(lib, {}, item) == item
    decreases item
  {
    match item
    case Obj(m) =>
      forall k | k in m ensures WalkField(lib, {}, k, m[k]) == m[k] {
        NoRulesNoMask(lib.lower(k), MASK_ORDER);
        NoRulesChangeNothing(lib, m[k]);
      }
      assert Walk(lib, {}, item).fields == m;
    case Arr(items) => NoRulesChangeItems(lib, items);
    case _ =>
  }

  lemma {:induction false} NoRulesChangeItems(lib: Library, items: seq<Json>)
    requires GoodLibrary(lib)
    ensures WalkAll(lib, {}, items) == items
    decreases items
  {
    forall i | 0 <= i < |items| ensures Walk(lib, {}, items[i]) == items[i] { NoRulesChangeNothing(lib, items[i]); }
  }

  // ----- the normal form of an observation -----

  function RulesOf(c: Contract): set<Rule> {
    set r | r in c.normalization && r != NoRule
  }

  function WithoutDuration(observation: Observation, c: Contract): Observation {
    if "timing" !in c.observables && "resource_usage" !in c.observables then observation - {"duration_ns"}
    else observation
  }

  function NormalForm(lib: Library, observation: Observation, c: Contract): Observation
    requires GoodLibrary(lib)
  {
    Walk(lib, RulesOf(c), Obj(WithoutDuration(observation, c))).fields
  }

  /** What becomes of one entry: the token of the rule that names its key, or its rewritten value, in order if it is a
      list that may come in any. */
  ghost predicate EntryBecomes(lib: Library, rules: set<Rule>, key: string, raw: Json, out: Json)
    requires GoodLibrary(lib)
  {
    match MaskOf(rules, lib.lower(key))
    case Some(token) => out == Str(token)
    case None =>
      var value := Walk(lib, rules, raw);
      if NamesUnordered(rules, key) && value.Arr?
      then out.Arr? && multiset(out.items) == multiset(value.items) && Sorted(out.items, lib.reprLe)
      else out == value
  }

  /** Every entry of a dictionary becomes what its key says, at any depth. */
  lemma {:induction false} DictionaryBecomes(lib: Library, rules: set<Rule>, m: map<string, Json>)
    requires GoodLibrary(lib)
    ensures Walk(lib, rules, Obj(m)).Obj? && Walk(lib, rules, Obj(m)).fields.Keys == m.Keys
    ensures forall k :: k in m ==> EntryBecomes(lib, rules, k, m[k], Walk(lib, rules, Obj(m)).fields[k])
  {
    forall k | k in m
      ensures EntryBecomes(lib, rules, k, m[k], WalkField(lib, rules, k, m[k]))
    {
      MaskIs(lib.lower(k), rules);
    }
  }

  ghost predicate TimesCount(c: Contract) {
    "timing" in c.observables || "resource_usage" in c.observables
  }

  /** The entries of the result: those of the observation, less a duration that neither observable asks for. */
  ghost predicate NormalizedEntries(lib: Library, observation: Observation, c: Contract, r: Observation)
    requires GoodLibrary(lib)
  {
    && (forall k :: k in r <==> k in observation && (k == "duration_ns" ==> TimesCount(c)))
    && var rules := (set rule | rule in c.normalization && rule != NoRule);
       forall k :: k in r ==> EntryBecomes(lib, rules, k, observation[k], r[k])
  }

  lemma {:induction false} NormalFormEntries(lib: Library, observation: Observation, c: Contract)
    requires GoodLibrary(lib)
    ensures NormalizedEntries(lib, observation, c, NormalForm(lib, observation, c))
  {
    DictionaryBecomes(lib, RulesOf(c), WithoutDuration(observation, c));
  }

  /** One rule alone: a field that does not hold its token already gets it exactly when the rule names the key. */
  lemma {:induction false} RuleAlone(lib: Library, rule: Rule, m: map<string, Json>, key: string, token: string)
    requires GoodLibrary(lib) && key in m && m[key] != Str(token) && IsToken(rule, token)
    ensures key in Walk(lib, {rule}, Obj(m)).fields
    ensures Walk(lib, {rule}, Obj(m)).fields[key] == Str(token) <==> Names(rule, lib.lower(key))
  {
    DictionaryBecomes(lib, {rule}, m);
    AloneMask(rule, token, lib.lower(key));
    assert EntryBecomes(lib, {rule}, key, m[key], Walk(lib, {rule}, Obj(m)).fields[key]);
  }

  method NormalizeObservation(lib: Library, observation: Observation, c: Contract) returns (r: Observation)
    requires GoodLibrary(lib)
    ensures r == NormalForm(lib, observation, c)
    ensures NormalizedEntries(lib, observation, c, r)
  {
    NormalFormEntries(lib, observation, c);
    var value := WithoutDuration(observation, c);
    var rules := RulesOf(c);
    if rules == {} {
      NoRulesChangeNothing(lib, Obj(value));
      return value;
    }
    var walked := Rewrite(lib, rules, Obj(value));
    return walked.fields;
  }

  /** Two Contracts that observe alike, the second declaring at least the first one's nondeterminism. */
  ghost predicate DeclaresMore(c: Contract, d: Contract) {
    c.observables == d.observables && RulesOf(c) <= RulesOf(d)
  }

  lemma NormalFormAbsorbs(lib: Library, x: Observation, c: Contract, d: Contract)
    requires GoodLibrary(lib) && DeclaresMore(c, d)
    ensures NormalForm(lib, NormalForm(lib, x, c), d) == NormalForm(lib, x, d)
  {
    var v := WithoutDuration(x, c);
    var w := NormalForm(lib, x, c);
    assert w.Keys == v.Keys;
    assert WithoutDuration(w, d) == w;
    WalkAbsorbs(lib, RulesOf(c), RulesOf(d), Obj(v));
  }

  /** Normalizing again changes nothing. */
  lemma NormalFormIdempotent(lib: Library, x: Observation, c: Contract)
    requires GoodLibrary(lib)
    ensures NormalForm(lib, NormalForm(lib, x, c), c) == NormalForm(lib, x, c)
  {
    NormalFormAbsorbs(lib, x, c, c);
  }

  /** Declaring more nondeterminism only identifies more observations. */
  lemma NormalizationCoarsens(lib: Library, x: Observation, y: Observation, c: Contract, d: Contract)
    requires GoodLibrary(lib) && DeclaresMore(c, d)
    requires NormalForm(lib, x, c) == NormalForm(lib, y, c)
    ensures NormalForm(lib, x, d) == NormalForm(lib, y, d)
  {
    NormalFormAbsorbs(lib, x, c, d);
    NormalFormAbsorbs(lib, y, c, d);
  }

  /** Without rules only an unobserved top-level `duration_ns` goes. */
  lemma NoRulesNormalForm(lib: Library, x: Observation, c: Contract)
    requires GoodLibrary(lib) && RulesOf(c) == {}
    ensures NormalForm(lib, x, c) == WithoutDuration(x, c)
  {
    NoRulesChangeNothing(lib, Obj(WithoutDuration(x, c)));
  }

  /** In a list under an order-free key, order does not reach the rewritten dictionary. */
  lemma {:induction false} OrderFreeListsPermute(lib: Library, rules: set<Rule>, m: map<string, Json>, key: string,
                                                 a: seq<Json>, b: seq<Json>)
    requires GoodLibrary(lib) && OrderFree(key, rules) && multiset(a) == multiset(b)
    ensures Walk(lib, rules, Obj(m[key := Arr(a)])) == Walk(lib, rules, Obj(m[key := Arr(b)]))
  {
    FieldPermutes(lib, rules, key, a, b);
    var x, y := m[key := Arr(a)], m[key := Arr(b)];
    assert forall k :: k in x ==> WalkField(lib, rules, k, x[k]) == WalkField(lib, rules, k, y[k]);
    assert Walk(lib, rules, Obj(x)).fields == Walk(lib, rules, Obj(y)).fields;
  }

  lemma {:induction false} FieldPermutes(lib: Library, rules: set<Rule>, key: string, a: seq<Json>, b: seq<Json>)
    requires GoodLibrary(lib) && OrderFree(key, rules) && multiset(a) == multiset(b)
    ensures WalkField(lib, rules, key, Arr(a)) == WalkField(lib, rules, key, Arr(b))
  {
    SortedWalkPermutes(lib, rules, a, b);
  }

  // ----- comparison -----

  datatype Difference =
    | InvalidReference(status: Option<Json>)
    | InvalidCandidate(status: Option<Json>)
    | Mismatch(reference: Observation, candidate: Observation)

  function Status(o: Observation): Option<Json> {
    if "status" in o then Some(o["status"]) else None
  }

  /** Observations are dictionaries: set and multiset kinds iterate over their keys, and `float` of one always fails. */
  predicate Equivalent(reference: Observation, candidate: Observation, kind: Equivalence) {
    match kind
    case SetOf => reference.Keys == candidate.Keys
    case MultisetOf => reference.Keys == candidate.Keys
    case Range(_) => false
    case _ => reference == candidate
  }

  /** The observation says that it succeeded. */
  ghost predicate SaysOk(o: Observation) {
    "status" in o && o["status"] == Str("ok")
  }

  /** Fail closed on a bad status, then compare normal forms: by their keys for the set kinds, never for a range, and as
      they are for every other kind. */
  method CompareObservations(lib: Library, reference: Observation, candidate: Observation, c: Contract)
    returns (passed: bool, difference: Option<Difference>)
    requires GoodLibrary(lib)
    ensures passed <==> Passes(lib, reference, candidate, c)
    ensures passed <==> difference.None?
    ensures passed <==>
              && SaysOk(reference) && SaysOk(candidate) && !c.equivalence.Range?
              && var r, k := NormalForm(lib, reference, c), NormalForm(lib, candidate, c);
                 if c.equivalence.SetOf? || c.equivalence.MultisetOf? then r.Keys == k.Keys else r == k
    ensures difference.Some? && difference.value.InvalidReference? <==> Status(reference) != Some(Str("ok"))
    ensures difference.Some? && difference.value.InvalidCandidate? <==>
              Status(reference) == Some(Str("ok")) && Status(candidate) != Some(Str("ok"))
    ensures difference.Some? && difference.value.Mismatch? ==>
              difference.value == Mismatch(NormalForm(lib, reference, c), NormalForm(lib, candidate, c))
  {
    if Status(reference) != Some(Str("ok")) { return false, Some(InvalidReference(Status(reference))); }
    if Status(candidate) != Some(Str("ok")) { return false, Some(InvalidCandidate(Status(candidate))); }
    var r := NormalizeObservation(lib, reference, c);
    var k := NormalizeObservation(lib, candidate, c);
    passed := Equivalent(r, k, c.equivalence);
    difference := if passed then None else Some(Mismatch(r, k));
  }

  predicate Passes(lib: Library, reference: Observation, candidate: Observation, c: Contract)
    requires GoodLibrary(lib)
  {
    && Status(reference) == Some(Str("ok")) && Status(candidate) == Some(Str("ok"))
    && Equivalent(NormalForm(lib, reference, c), NormalForm(lib, candidate, c), c.equivalence)
  }

  /** Declaring more nondeterminism never turns a pass into a fail, whatever the kind of equivalence. */
  lemma PassesCoarsen(lib: Library, reference: Observation, candidate: Observation, c: Contract, d: Contract)
    requires GoodLibrary(lib) && DeclaresMore(c, d) && c.equivalence == d.equivalence
    requires Passes(lib, reference, candidate, c)
    ensures Passes(lib, reference, candidate, d)
  {
    if c.equivalence.SetOf? || c.equivalence.MultisetOf? {
      assert forall x: Observation, e: Contract :: NormalForm(lib, x, e).Keys == WithoutDuration(x, e).Keys;
    } else {
      NormalizationCoarsens(lib, reference, candidate, c, d);
    }
  }

  /** Comparing a run with itself passes exactly when it succeeded and the kind is not `range`. */
  lemma SelfComparison(lib: Library, observation: Observation, c: Contract)
    requires GoodLibrary(lib)
    ensures Passes(lib, observation, observation, c)
            <==> Status(observation) == Some(Str("ok")) && !c.equivalence.Range?
  {
  }
}
