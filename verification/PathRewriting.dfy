/** The two regular-expression rewrites of temporary paths, and why applying them again changes nothing. */
module PathRewriting {

  const OSBENCH_PREFIX := "/tmp/osbench-"
  const OSBENCH_TOKEN := "/tmp/<OSBENCH>"
  const TMP_PREFIX := "/tmp/tmp"
  const TMP_TOKEN := "/tmp/<TMP>"

  /** The character class `[A-Za-z0-9_.-]`. */
  predicate PathChar(c: char) {
    'A' <= c <= 'Z' || 'a' <= c <= 'z' || '0' <= c <= '9' || c == '_' || c == '.' || c == '-'
  }

  /** `prefix` followed by at least one path character, at the start of `s`. */
  predicate Matches(prefix: string, s: string) {
    |s| > |prefix| && prefix <= s && PathChar(s[|prefix|])
  }

  /** The rest of `s` after its longest run of path characters. */
  function SkipRun(s: string): (r: string)
    ensures |r| <= |s| && r == s[|s| - |r|..]
  {
    if s != "" && PathChar(s[0]) then SkipRun(s[1..]) else s
  }

  /** `re.sub(prefix + "[A-Za-z0-9_.-]+", token, s)`: leftmost, greedy, non-overlapping. */
  function Substitute(prefix: string, token: string, s: string): string
    decreases |s|
  {
    if s == "" then ""
    else if Matches(prefix, s) then token + Substitute(prefix, token, SkipRun(s[|prefix| + 1..]))
    else [s[0]] + Substitute(prefix, token, s[1..])
  }

  function RewritePaths(s: string): string {
    Substitute(TMP_PREFIX, TMP_TOKEN, Substitute(OSBENCH_PREFIX, OSBENCH_TOKEN, s))
  }

  // ----- cleanliness -----

  /** The pattern matches nowhere in `s`. */
  ghost predicate Clean(prefix: string, s: string) {
    s == "" || (!Matches(prefix, s) && Clean(prefix, s[1..]))
  }

  lemma {:induction false} CleanIsFixed(prefix: string, token: string, s: string)
    requires Clean(prefix, s)
    ensures Substitute(prefix, token, s) == s
  {
    if s != "" {
      CleanIsFixed(prefix, token, s[1..]);
    }
  }

  lemma {:induction false} CleanSuffix(prefix: string, s: string, i: nat)
    requires Clean(prefix, s) && i <= |s|
    ensures Clean(prefix, s[i..])
  {
    if i > 0 {
      CleanSuffix(prefix, s[1..], i - 1);
      assert s[1..][i - 1..] == s[i..];
    }
  }

  /** Where a token may begin: a slash that is followed by `<` at once or after `/tmp/`. */
  ghost predicate TokenLike(r: string) {
    forall i :: 0 <= i < |r| ==> BracketFollows(r, i)
  }

  ghost predicate BracketFollows(r: string, i: nat)
    requires i < |r|
  {
    r[i] == '/' ==> (i + 1 < |r| && r[i + 1] == '<') || (i + 5 < |r| && r[i + 5] == '<')
  }

  ghost predicate PrefixLike(q: string) {
    |q| >= 6 && q[0] == '/' && q[1] != '<' && q[5] != '<'
  }

  lemma {:induction false} CleanAfterToken(q: string, r: string, rest: string)
    requires PrefixLike(q) && TokenLike(r) && Clean(q, rest)
    ensures Clean(q, r + rest)
  {
    if r == "" {
      assert r + rest == rest;
    } else {
      var tail := r[1..];
      forall i | 0 <= i < |tail|
        ensures BracketFollows(tail, i)
      {
        assert BracketFollows(r, i + 1);
      }
      CleanAfterToken(q, tail, rest);
      assert (r + rest)[1..] == tail + rest;
      assert BracketFollows(r, 0);
    }
  }

  lemma CopyInFront(c: char, out: string, s: string, k: nat)
    requires k <= |out| && k <= |s| && out[..k] == s[..k]
    ensures ([c] + out)[..k + 1] == ([c] + s)[..k + 1]
    ensures ([c] + out)[k + 1..] == out[k..]
  {
    assert ([c] + out)[..k + 1] == [c] + out[..k];
    assert ([c] + s)[..k + 1] == [c] + s[..k];
  }

  /** Up to the first replacement the output repeats the input. */
  lemma {:induction false} FirstReplacement(prefix: string, token: string, s: string) returns (j: nat)
    ensures j <= |s| && j <= |Substitute(prefix, token, s)|
    ensures Substitute(prefix, token, s)[..j] == s[..j]
    ensures Substitute(prefix, token, s) == s || token <= Substitute(prefix, token, s)[j..]
    decreases |s|
  {
    if s == "" || Matches(prefix, s) {
      j := 0;
    } else {
      var k := FirstReplacement(prefix, token, s[1..]);
      j := k + 1;
      CopyInFront(s[0], Substitute(prefix, token, s[1..]), s[1..], k);
      assert s == [s[0]] + s[1..];
    }
  }

  /** A match cannot run into a token: the overlap would have to spell `/tmp/<`. */
  lemma MatchAvoidsToken(q: string, out: string, j: nat)
    requires q == OSBENCH_PREFIX || q == TMP_PREFIX
    requires j <= |out| && "/tmp/<" <= out[j..] && Matches(q, out)
    ensures j > |q|
  {
    var t := out[j..];
    assert t[0] == '/' && t[1] == 't' && t[4] == '/' && t[5] == '<';
    assert out[j] == '/' && out[j + 1] == 't' && out[j + 4] == '/' && out[j + 5] == '<';
    if j < |q| {
      assert q[j] == out[j] == '/';
      SlashPositions(q, j);
    }
  }

  lemma SlashPositions(q: string, j: nat)
    requires q == OSBENCH_PREFIX || q == TMP_PREFIX
    requires j < |q| && q[j] == '/'
    ensures j == 0 || j == 4
  {
    if q == TMP_PREFIX {
      assert q == ['/', 't', 'm', 'p', '/', 't', 'm', 'p'];
    } else {
      assert q == ['/', 't', 'm', 'p', '/', 'o', 's', 'b', 'e', 'n', 'c', 'h', '-'];
    }
  }

  lemma MatchInsidePrefix(q: string, out: string, s: string, j: nat)
    requires j <= |out| && j <= |s| && out[..j] == s[..j]
    requires Matches(q, out) && j > |q|
    ensures Matches(q, s)
  {
    assert out[..j][..|q|] == out[..|q|] && s[..j][..|q|] == s[..|q|];
    assert out[..j][|q|] == out[|q|] && s[..j][|q|] == s[|q|];
    assert q == out[..|q|];
  }

  /** Copying a character does not complete a match that the input did not have. */
  lemma {:induction false} NoNewMatchAtFront(q: string, prefix: string, token: string, s: string)
    requires q == OSBENCH_PREFIX || q == TMP_PREFIX
    requires "/tmp/<" <= token
    requires !Matches(q, s)
    ensures !Matches(q, Substitute(prefix, token, s))
  {
    var out := Substitute(prefix, token, s);
    var j := FirstReplacement(prefix, token, s);
    if Matches(q, out) && out != s {
      MatchAvoidsToken(q, out, j);
      MatchInsidePrefix(q, out, s, j);
    }
  }

  /** What follows a match is a suffix of the text, and as clean. */
  lemma {:induction false} CleanAfterMatch(q: string, prefix: string, s: string)
    requires Matches(prefix, s) && Clean(q, s)
    ensures Clean(q, SkipRun(s[|prefix| + 1..]))
  {
    var rest := SkipRun(s[|prefix| + 1..]);
    assert rest == s[|s| - |rest|..];
    CleanSuffix(q, s, |s| - |rest|);
  }

  /** A substitution leaves its own pattern nowhere, and brings back no other pattern that was absent. */
  lemma {:induction false} SubstituteKeepsClean(q: string, prefix: string, token: string, s: string)
    requires q == OSBENCH_PREFIX || q == TMP_PREFIX
    requires PrefixLike(q) && TokenLike(token) && "/tmp/<" <= token
    requires q == prefix || Clean(q, s)
    ensures Clean(q, Substitute(prefix, token, s))
    decreases |s|
  {
    if s == "" {
    } else if Matches(prefix, s) {
      var rest := SkipRun(s[|prefix| + 1..]);
      if q != prefix { CleanAfterMatch(q, prefix, s); }
      SubstituteKeepsClean(q, prefix, token, rest);
      CleanAfterToken(q, token, Substitute(prefix, token, rest));
    } else {
      SubstituteKeepsClean(q, prefix, token, s[1..]);
      NoNewMatchAtFront(q, prefix, token, s);
      assert Substitute(prefix, token, s) == [s[0]] + Substitute(prefix, token, s[1..]);
      assert Substitute(prefix, token, s)[1..] == Substitute(prefix, token, s[1..]);
    }
  }

  /** What the constants of the source look like. */
  lemma Shapes()
    ensures TokenLike(OSBENCH_TOKEN) && TokenLike(TMP_TOKEN)
    ensures "/tmp/<" <= OSBENCH_TOKEN && "/tmp/<" <= TMP_TOKEN
    ensures PrefixLike(OSBENCH_PREFIX) && PrefixLike(TMP_PREFIX)
  {
    assert OSBENCH_TOKEN == ['/', 't', 'm', 'p', '/', '<', 'O', 'S', 'B', 'E', 'N', 'C', 'H', '>'];
    assert TMP_TOKEN == ['/', 't', 'm', 'p', '/', '<', 'T', 'M', 'P', '>'];
  }

  /** After both rewrites neither pattern is left anywhere. */
  lemma RewriteIsClean(s: string)
    ensures Clean(OSBENCH_PREFIX, RewritePaths(s)) && Clean(TMP_PREFIX, RewritePaths(s))
  {
    Shapes();
    var t := Substitute(OSBENCH_PREFIX, OSBENCH_TOKEN, s);
    SubstituteKeepsClean(OSBENCH_PREFIX, OSBENCH_PREFIX, OSBENCH_TOKEN, s);
    SubstituteKeepsClean(OSBENCH_PREFIX, TMP_PREFIX, TMP_TOKEN, t);
    SubstituteKeepsClean(TMP_PREFIX, TMP_PREFIX, TMP_TOKEN, t);
  }

  /** Both rewrites together are idempotent. */
  lemma RewriteIdempotent(s: string)
    ensures RewritePaths(RewritePaths(s)) == RewritePaths(s)
  {
    var u := RewritePaths(s);
    RewriteIsClean(s);
    CleanIsFixed(OSBENCH_PREFIX, OSBENCH_TOKEN, u);
    CleanIsFixed(TMP_PREFIX, TMP_TOKEN, u);
  }

  /** No position of the result begins a temporary path. */
  lemma NoTemporaryPathLeft(s: string, i: nat)
    requires i <= |RewritePaths(s)|
    ensures !Matches(OSBENCH_PREFIX, RewritePaths(s)[i..]) && !Matches(TMP_PREFIX, RewritePaths(s)[i..])
  {
    RewriteIsClean(s);
    CleanSuffix(OSBENCH_PREFIX, RewritePaths(s), i);
    CleanSuffix(TMP_PREFIX, RewritePaths(s), i);
  }
}
