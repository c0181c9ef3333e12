/** The two rewrites of temporary paths in one pass, and which texts they identify. */
module PathPieces {
  import opened Sequences
  import opened PathRewriting

  datatype Kind = Osbench | Tmp

  function PrefixOf(kind: Kind): string {
    if kind == Osbench then OSBENCH_PREFIX else TMP_PREFIX
  }

  function TokenOf(kind: Kind): string {
    if kind == Osbench then OSBENCH_TOKEN else TMP_TOKEN
  }

  /** A temporary path of this kind, or the token that stands for one, begins the text. */
  predicate Begins(kind: Kind, s: string) {
    Matches(PrefixOf(kind), s) || TokenOf(kind) <= s
  }

  function PathAt(s: string): (r: Option<Kind>)
    ensures r.Some? ==> Begins(r.value, s)
    ensures r.None? ==> !Begins(Osbench, s) && !Begins(Tmp, s)
  {
    if Begins(Osbench, s) then Some(Osbench) else if Begins(Tmp, s) then Some(Tmp) else None
  }

  /** What follows the path or the token. */
  function Rest(kind: Kind, s: string): (r: string)
    requires Begins(kind, s)
    ensures |r| < |s|
  {
    if Matches(PrefixOf(kind), s) then SkipRun(s[|PrefixOf(kind)| + 1..]) else s[|TokenOf(kind)|..]
  }

  /** The same characters at the same places, but for temporary paths of one kind, or their tokens, at matching ones. */
  predicate SamePieces(s: string, t: string)
    decreases |s|
  {
    match (PathAt(s), PathAt(t))
    case (Some(k), Some(l)) => k == l && SamePieces(Rest(k, s), Rest(l, t))
    case (None, None) => if s == "" || t == "" then s == t else s[0] == t[0] && SamePieces(s[1..], t[1..])
    case _ => false
  }

  // ----- both rewrites in one pass -----

  function OnePass(s: string): string
    decreases |s|
  {
    match PathAt(s)
    case Some(k) => TokenOf(k) + OnePass(Rest(k, s))
    case None => if s == "" then "" else [s[0]] + OnePass(s[1..])
  }

  /** A substitution runs through any stretch in which no match begins. */
  lemma {:induction false} StretchPasses(prefix: string, token: string, s: string, n: nat)
    requires n <= |s| && forall i :: 0 <= i < n ==> !Matches(prefix, s[i..])
    ensures Substitute(prefix, token, s) == s[..n] + Substitute(prefix, token, s[n..])
  {
    assert s[0..] == s;
    if n > 0 {
      var tail := s[1..];
      assert !Matches(prefix, s[0..]);
      forall i | 0 <= i < n - 1
        ensures !Matches(prefix, tail[i..])
      {
        assert tail[i..] == s[i + 1..];
      }
      StretchPasses(prefix, token, tail, n - 1);
      Rejoin(s, n, Substitute(prefix, token, s[n..]));
    }
  }

  lemma Rejoin(s: string, n: nat, rest: string)
    requires 1 <= n <= |s|
    ensures [s[0]] + (s[1..][..n - 1] + rest) == s[..n] + rest
    ensures s[1..][n - 1..] == s[n..]
  {
  }

  lemma {:induction false} NoMatchInToken(prefix: string, r: string, rest: string, i: nat)
    requires PrefixLike(prefix) && TokenLike(r) && i < |r|
    ensures !Matches(prefix, (r + rest)[i..])
  {
    var t := (r + rest)[i..];
    assert BracketFollows(r, i) && t[0] == r[i];
    assert i + 1 < |r| ==> t[1] == r[i + 1];
    assert i + 5 < |r| ==> t[5] == r[i + 5];
  }

  /** In particular through a token. */
  lemma {:induction false} TokenPasses(prefix: string, token: string, r: string, rest: string)
    requires PrefixLike(prefix) && TokenLike(r)
    ensures Substitute(prefix, token, r + rest) == r + Substitute(prefix, token, rest)
  {
    forall i | 0 <= i < |r| ensures !Matches(prefix, (r + rest)[i..]) { NoMatchInToken(prefix, r, rest, i); }
    StretchPasses(prefix, token, r + rest, |r|);
    assert (r + rest)[..|r|] == r && (r + rest)[|r|..] == rest;
  }

  lemma {:induction false} RunOfPathChars(s: string, i: nat)
    requires i < |s| - |SkipRun(s)|
    ensures PathChar(s[i])
  {
    if i > 0 { RunOfPathChars(s[1..], i - 1); }
  }

  lemma {:induction false} RunStops(s: string)
    ensures SkipRun(s) == "" || !PathChar(SkipRun(s)[0])
  {
    if s != "" && PathChar(s[0]) { RunStops(s[1..]); }
  }

  lemma HeadAndTail(a: string, b: string)
    requires a != ""
    ensures a + b != "" && (a + b)[0] == a[0] && (a + b)[1..] == a[1..] + b
  {
  }

  predicate AllPathChars(run: string) {
    run == "" || (PathChar(run[0]) && AllPathChars(run[1..]))
  }

  lemma {:induction false} RunEnds(run: string, rest: string)
    requires AllPathChars(run) && (rest == "" || !PathChar(rest[0]))
    ensures SkipRun(run + rest) == rest
  {
    if run == "" {
      assert run + rest == rest;
    } else {
      RunEnds(run[1..], rest);
      HeadAndTail(run, rest);
    }
  }

  lemma {:induction false} RunIsAll(s: string)
    ensures AllPathChars(s[..|s| - |SkipRun(s)|])
  {
    if s != "" && PathChar(s[0]) {
      RunIsAll(s[1..]);
      var n := |s| - |SkipRun(s)|;
      assert s[..n][1..] == s[1..][..n - 1];
    }
  }

  lemma OsbenchShape(t: string)
    requires Matches(OSBENCH_PREFIX, t)
    ensures |t| > 5 && t[0] == '/' && t[4] == '/' && t[5] == 'o'
  {
    assert OSBENCH_PREFIX == ['/', 't', 'm', 'p', '/', 'o', 's', 'b', 'e', 'n', 'c', 'h', '-'];
    assert t[0] == OSBENCH_PREFIX[0] && t[4] == OSBENCH_PREFIX[4] && t[5] == OSBENCH_PREFIX[5];
  }

  lemma TmpShape(s: string)
    requires Matches(TMP_PREFIX, s)
    ensures |s| > 8 && s[5] == 't' && PathChar(s[8])
    ensures forall i :: 0 <= i < 8 && s[i] == '/' ==> i == 0 || i == 4
  {
    assert TMP_PREFIX == ['/', 't', 'm', 'p', '/', 't', 'm', 'p'];
    assert forall i :: 0 <= i < 8 ==> s[i] == TMP_PREFIX[i];
  }

  /** No path of the first kind begins inside one of the second. */
  lemma {:induction false} NoneInside(s: string, i: nat)
    requires Matches(TMP_PREFIX, s) && i < |s| - |SkipRun(s[|TMP_PREFIX| + 1..])|
    ensures !Matches(OSBENCH_PREFIX, s[i..])
  {
    TmpShape(s);
    var tail := s[|TMP_PREFIX| + 1..];
    if i > |TMP_PREFIX| {
      RunOfPathChars(tail, i - |TMP_PREFIX| - 1);
      assert s[i] == tail[i - |TMP_PREFIX| - 1];
    }
    if Matches(OSBENCH_PREFIX, s[i..]) { OsbenchShape(s[i..]); }
  }

  lemma {:induction false} HeadStays(s: string)
    requires s == "" || !PathChar(s[0])
    ensures var u := Substitute(OSBENCH_PREFIX, OSBENCH_TOKEN, s); u == "" || !PathChar(u[0])
  {
  }

  lemma ReplaceEnd(s: string, u: string, m: nat, n: nat)
    requires m < n <= |s|
    ensures var out := s[..n] + u; |out| > m && out[..m] == s[..m] && out[m] == s[m] && out[m + 1..] == s[m + 1..n] + u
  {
  }

  lemma {:induction false} MatchesPrefix(prefix: string, s: string, t: string)
    requires Matches(prefix, s) && |t| > |prefix|
    requires t[..|prefix|] == s[..|prefix|] && t[|prefix|] == s[|prefix|]
    ensures Matches(prefix, t)
  {
    assert t[..|prefix|] == prefix;
  }

  /** The match of a path depends on the path alone, whatever follows it. */
  lemma {:induction false} SamePathInFront(s: string, rest: string, u: string)
    requires Matches(TMP_PREFIX, s) && rest == SkipRun(s[|TMP_PREFIX| + 1..])
    requires u == "" || !PathChar(u[0])
    ensures |s| - |rest| > |TMP_PREFIX|
    ensures var out := s[..|s| - |rest|] + u; Matches(TMP_PREFIX, out) && SkipRun(out[|TMP_PREFIX| + 1..]) == u
  {
    var m, n := |TMP_PREFIX|, |s| - |rest|;
    var run := s[m + 1..n];
    ReplaceEnd(s, u, m, n);
    MatchesPrefix(TMP_PREFIX, s, s[..n] + u);
    RunIsAll(s[m + 1..]);
    assert run == s[m + 1..][..|run|];
    RunEnds(run, u);
  }

  /** The first rewrite leaves such a path as it is. */
  lemma {:induction false} TmpPasses(s: string, rest: string)
    requires Matches(TMP_PREFIX, s) && rest == SkipRun(s[|TMP_PREFIX| + 1..])
    ensures Substitute(OSBENCH_PREFIX, OSBENCH_TOKEN, s)
            == s[..|s| - |rest|] + Substitute(OSBENCH_PREFIX, OSBENCH_TOKEN, rest)
  {
    var n := |s| - |rest|;
    forall i | 0 <= i < n ensures !Matches(OSBENCH_PREFIX, s[i..]) { NoneInside(s, i); }
    StretchPasses(OSBENCH_PREFIX, OSBENCH_TOKEN, s, n);
    assert s[n..] == rest;
  }

  lemma {:induction false} MatchIsReplaced(prefix: string, token: string, s: string)
    requires Matches(prefix, s)
    ensures Substitute(prefix, token, s) == token + Substitute(prefix, token, SkipRun(s[|prefix| + 1..]))
  {
  }

  /** And the second turns it into its token. */
  lemma {:induction false} TmpBecomesToken(s: string, rest: string)
    requires Matches(TMP_PREFIX, s) && rest == SkipRun(s[|TMP_PREFIX| + 1..])
    ensures RewritePaths(s) == TMP_TOKEN + RewritePaths(rest)
  {
    var u := Substitute(OSBENCH_PREFIX, OSBENCH_TOKEN, rest);
    RunStops(s[|TMP_PREFIX| + 1..]);
    HeadStays(rest);
    TmpPasses(s, rest);
    SamePathInFront(s, rest, u);
    MatchIsReplaced(TMP_PREFIX, TMP_TOKEN, s[..|s| - |rest|] + u);
  }

  lemma {:induction false} TokenStays(kind: Kind, rest: string)
    ensures RewritePaths(TokenOf(kind) + rest) == TokenOf(kind) + RewritePaths(rest)
  {
    Shapes();
    TokenPasses(OSBENCH_PREFIX, OSBENCH_TOKEN, TokenOf(kind), rest);
    TokenPasses(TMP_PREFIX, TMP_TOKEN, TokenOf(kind), Substitute(OSBENCH_PREFIX, OSBENCH_TOKEN, rest));
  }

  lemma {:induction false} OsbenchBecomesToken(s: string)
    requires Matches(OSBENCH_PREFIX, s)
    ensures RewritePaths(s) == OSBENCH_TOKEN + RewritePaths(SkipRun(s[|OSBENCH_PREFIX| + 1..]))
  {
    var rest := SkipRun(s[|OSBENCH_PREFIX| + 1..]);
    Shapes();
    TokenPasses(TMP_PREFIX, TMP_TOKEN, OSBENCH_TOKEN, Substitute(OSBENCH_PREFIX, OSBENCH_TOKEN, rest));
  }

  lemma {:induction false} LiteralStays(s: string)
    requires s != "" && !Matches(OSBENCH_PREFIX, s) && !Matches(TMP_PREFIX, s)
    ensures RewritePaths(s) == [s[0]] + RewritePaths(s[1..])
  {
    Shapes();
    NoNewMatchAtFront(TMP_PREFIX, OSBENCH_PREFIX, OSBENCH_TOKEN, s);
    var u := Substitute(OSBENCH_PREFIX, OSBENCH_TOKEN, s[1..]);
    assert Substitute(OSBENCH_PREFIX, OSBENCH_TOKEN, s) == [s[0]] + u;
    assert ([s[0]] + u)[1..] == u;
  }

  lemma {:induction false} PathBecomesToken(kind: Kind, s: string)
    requires Begins(kind, s)
    ensures RewritePaths(s) == TokenOf(kind) + RewritePaths(Rest(kind, s))
  {
    if !Matches(PrefixOf(kind), s) {
      assert s == TokenOf(kind) + Rest(kind, s);
      TokenStays(kind, Rest(kind, s));
    } else if kind == Osbench {
      OsbenchBecomesToken(s);
    } else {
      TmpBecomesToken(s, Rest(kind, s));
    }
  }

  /** The second rewrite neither misses nor adds a path because of the first. */
  lemma {:induction false} RewriteIsOnePass(s: string)
    ensures RewritePaths(s) == OnePass(s)
    decreases |s|
  {
    if PathAt(s).Some? {
      RewriteIsOnePass(Rest(PathAt(s).value, s));
      PathBecomesToken(PathAt(s).value, s);
    } else if s != "" {
      RewriteIsOnePass(s[1..]);
      LiteralStays(s);
    }
  }

  // ----- the rewrite by literal text -----

  /** A letter, a digit, or one of `_`, `.` and `-`. */
  ghost predicate InPath(c: char) {
    'A' <= c <= 'Z' || 'a' <= c <= 'z' || '0' <= c <= '9' || c == '_' || c == '.' || c == '-'
  }

  ghost predicate AllInPath(run: string) {
    forall i :: 0 <= i < |run| ==> InPath(run[i])
  }

  /** `run` is as long a stretch of path characters as there is. */
  ghost predicate IsRun(run: string, rest: string) {
    run != "" && AllInPath(run) && (rest == "" || !InPath(rest[0]))
  }

  lemma {:induction false} AllInPathIs(run: string)
    requires AllInPath(run)
    ensures AllPathChars(run)
  {
    if run != "" {
      assert InPath(run[0]);
      assert forall i :: 0 <= i < |run[1..]| ==> run[1..][i] == run[i + 1];
      AllInPathIs(run[1..]);
    }
  }

  lemma {:induction false} PathMatches(prefix: string, run: string, rest: string)
    requires IsRun(run, rest)
    ensures var s := prefix + run + rest; Matches(prefix, s) && SkipRun(s[|prefix| + 1..]) == rest
  {
    var s := prefix + run + rest;
    assert s[..|prefix|] == prefix && s[|prefix|] == run[0] && InPath(run[0]);
    assert s[|prefix| + 1..] == run[1..] + rest;
    AllInPathIs(run);
    RunEnds(run[1..], rest);
  }

  /** A path of the first kind becomes its token. */
  lemma {:induction false} OsbenchPath(run: string, rest: string)
    requires IsRun(run, rest)
    ensures RewritePaths("/tmp/osbench-" + run + rest) == "/tmp/<OSBENCH>" + RewritePaths(rest)
  {
    PathMatches("/tmp/osbench-", run, rest);
    OsbenchBecomesToken("/tmp/osbench-" + run + rest);
  }

  /** So does one of the second. */
  lemma {:induction false} TmpPath(run: string, rest: string)
    requires IsRun(run, rest)
    ensures RewritePaths("/tmp/tmp" + run + rest) == "/tmp/<TMP>" + RewritePaths(rest)
  {
    PathMatches("/tmp/tmp", run, rest);
    TmpBecomesToken("/tmp/tmp" + run + rest, rest);
  }

  ghost predicate StartsPath(start: string, s: string) {
    start <= s && |s| > |start| && InPath(s[|start|])
  }

  /** And any other character stays. */
  lemma {:induction false} OtherText(s: string)
    requires !StartsPath("/tmp/osbench-", s) && !StartsPath("/tmp/tmp", s)
    ensures RewritePaths(s) == if s == "" then "" else [s[0]] + RewritePaths(s[1..])
  {
    if s != "" { LiteralStays(s); }
  }

  // ----- which texts one pass identifies -----

  lemma TokenShape(kind: Kind)
    ensures var w := TokenOf(kind)[1..]; forall i :: 0 <= i < |w| && w[i] == '/' ==> i + 1 < |w| && w[i + 1] != 't'
    ensures |TokenOf(kind)| > 6 && TokenOf(kind)[0] == '/' && TokenOf(kind)[1] == 't'
    ensures TokenOf(kind)[6] == if kind == Osbench then 'O' else 'T'
  {
    assert OSBENCH_TOKEN == ['/', 't', 'm', 'p', '/', '<', 'O', 'S', 'B', 'E', 'N', 'C', 'H', '>'];
    assert TMP_TOKEN == ['/', 't', 'm', 'p', '/', '<', 'T', 'M', 'P', '>'];
  }

  lemma {:induction false} FrontOfPath(s: string)
    requires PathAt(s).Some?
    ensures |OnePass(s)| > 6 && OnePass(s)[0] == '/' && OnePass(s)[1] == 't'
    ensures OnePass(s)[6] == if PathAt(s).value == Osbench then 'O' else 'T'
  {
    var kind := PathAt(s).value;
    TokenShape(kind);
    assert OnePass(s) == TokenOf(kind) + OnePass(Rest(kind, s));
  }

  lemma GluePrefix(w: string, s: string)
    requires w != "" && s != "" && w[0] == s[0] && w[1..] <= s[1..]
    ensures w <= s
  {
    assert w == [w[0]] + w[1..] && s == [s[0]] + s[1..];
  }

  /** A text that cannot meet a token is there before the pass if it is there after it. */
  lemma {:induction false} CameFromInput(w: string, s: string)
    requires w <= OnePass(s) && forall i :: 0 <= i < |w| && w[i] == '/' ==> i + 1 < |w| && w[i + 1] != 't'
    ensures w <= s
    decreases |w|
  {
    if w != "" {
      assert OnePass(s)[0] == w[0] && (|w| > 1 ==> OnePass(s)[1] == w[1]);
      if PathAt(s).Some? { FrontOfPath(s); }
      LiteralFront(w, s);
      CameFromInput(w[1..], s[1..]);
      GluePrefix(w, s);
    }
  }

  lemma {:induction false} LiteralFront(w: string, s: string)
    requires w != "" && w <= OnePass(s) && PathAt(s).None?
    ensures s != "" && s[0] == w[0] && w[1..] <= OnePass(s[1..])
  {
    var rest := OnePass(s[1..]);
    assert OnePass(s) == [s[0]] + rest;
    assert OnePass(s)[1..] == rest && OnePass(s)[..|w|][1..] == rest[..|w| - 1];
  }

  lemma {:induction false} TokenMeansPath(kind: Kind, s: string)
    requires TokenOf(kind) <= OnePass(s)
    ensures PathAt(s) == Some(kind)
  {
    var token := TokenOf(kind);
    TokenShape(kind);
    assert OnePass(s)[6] == token[6];
    if PathAt(s).Some? {
      FrontOfPath(s);
    } else {
      LiteralFront(token, s);
      CameFromInput(token[1..], s[1..]);
      GluePrefix(token, s);
    }
  }

  lemma Cancel(token: string, a: string, b: string)
    requires token + a == token + b
    ensures a == b
  {
    assert (token + a)[|token|..] == a && (token + b)[|token|..] == b;
  }

  lemma {:induction false} OnePassIdentifies(s: string, t: string)
    ensures OnePass(s) == OnePass(t) <==> SamePieces(s, t)
    decreases |s|
  {
    match (PathAt(s), PathAt(t))
    case (Some(k), Some(l)) =>
      OnePassIdentifies(Rest(k, s), Rest(l, t));
      if OnePass(s) == OnePass(t) {
        TokenMeansPath(k, t);
        Cancel(TokenOf(k), OnePass(Rest(k, s)), OnePass(Rest(l, t)));
      }
    case (Some(k), None) => if OnePass(s) == OnePass(t) { TokenMeansPath(k, t); }
    case (None, Some(l)) => if OnePass(s) == OnePass(t) { TokenMeansPath(l, s); }
    case (None, None) =>
      if s != "" && t != "" {
        OnePassIdentifies(s[1..], t[1..]);
        if OnePass(s) == OnePass(t) {
          assert OnePass(s)[0] == s[0] && OnePass(t)[0] == t[0];
          assert OnePass(s)[1..] == OnePass(s[1..]) && OnePass(t)[1..] == OnePass(t[1..]);
        }
      }
  }

  /** Two texts are rewritten to one exactly when they differ only in temporary paths at matching places. */
  lemma {:induction false} RewriteIdentifies(s: string, t: string)
    ensures RewritePaths(s) == RewritePaths(t) <==> SamePieces(s, t)
  {
    RewriteIsOnePass(s);
    RewriteIsOnePass(t);
    OnePassIdentifies(s, t);
  }
}
