/** The wildcard matcher behind every doctest filter.

  A C string is a `string` that holds no NUL; reading at its end yields NUL. */
module Wildcard {

  const NUL := '\0'

  ghost predicate CString(s: string) {
    NUL !in s
  }

  /** What `*p` reads when p points at index i of a C string. */
  function Deref(s: string, i: nat): char
    requires i <= |s|
  {
    if i < |s| then s[i] else NUL
  }

  /** `tolower` of the "C" locale. */
  function ToLower(c: char): char {
    if 'A' <= c <= 'Z' then ((c as int) + 32) as char else c
  }

  predicate SameChar(a: char, b: char, caseSensitive: bool) {
    if caseSensitive then a == b else ToLower(a) == ToLower(b)
  }

  /** The declared meaning of a mask: `*` stands for any run of characters, `?` for any one
    character, every other character for itself. */
  ghost predicate Matches(mask: string, str: string, caseSensitive: bool)
    decreases |mask|
  {
    if mask == "" then str == ""
    else if mask[0] == '*' then
      exists k :: 0 <= k <= |str| && Matches(mask[1..], str[k..], caseSensitive)
    else
      && str != ""
      && (mask[0] == '?' || SameChar(mask[0], str[0], caseSensitive))
      && Matches(mask[1..], str[1..], caseSensitive)
  }

  /** A mask without wildcards matches itself only, up to case where that does not matter. */
  lemma {:induction false} PlainMask(mask: string, str: string, caseSensitive: bool)
    requires '*' !in mask && '?' !in mask
    ensures Matches(mask, str, caseSensitive) <==>
      |mask| == |str| && forall i :: 0 <= i < |mask| ==> SameChar(mask[i], str[i], caseSensitive)
    ensures caseSensitive ==> (Matches(mask, str, caseSensitive) <==> mask == str)
  {
    if mask != "" && str != "" {
      PlainMask(mask[1..], str[1..], caseSensitive);
      assert forall i :: 0 < i < |mask| ==> mask[i] == mask[1..][i - 1];
      assert forall i :: 0 < i < |str| ==> str[i] == str[1..][i - 1];
    }
  }

  /** Some suffix of `str` that starts at `from` or later matches `mask`. */
  ghost predicate MatchesFrom(mask: string, str: string, from: nat, caseSensitive: bool) {
    exists k :: from <= k <= |str| && Matches(mask, str[k..], caseSensitive)
  }

  lemma StarStep(mask: string, w: nat, str: string, i: nat, caseSensitive: bool)
    requires w < |mask| && mask[w] == '*' && i <= |str|
    ensures Matches(mask[w..], str[i..], caseSensitive) <==> MatchesFrom(mask[w+1..], str, i, caseSensitive)
  {
    assert mask[w..][1..] == mask[w+1..];
    if Matches(mask[w..], str[i..], caseSensitive) {
      var k :| 0 <= k <= |str[i..]| && Matches(mask[w+1..], str[i..][k..], caseSensitive);
      assert str[i..][k..] == str[i+k..];
    }
    if MatchesFrom(mask[w+1..], str, i, caseSensitive) {
      var k :| i <= k <= |str| && Matches(mask[w+1..], str[k..], caseSensitive);
      assert str[i..][k-i..] == str[k..];
    }
  }

  lemma LiteralStep(mask: string, w: nat, str: string, i: nat, caseSensitive: bool)
    requires CString(str) && w <= |mask| && i < |str| && Deref(mask, w) != '*'
    ensures Matches(mask[w..], str[i..], caseSensitive) <==>
      && w < |mask|
      && (mask[w] == '?' || SameChar(mask[w], str[i], caseSensitive))
      && Matches(mask[w+1..], str[i+1..], caseSensitive)
  {
    if w < |mask| {
      assert mask[w..][1..] == mask[w+1..];
      assert str[i..][1..] == str[i+1..];
    }
  }

  /** A star-free stretch of the mask consumes exactly as many characters as it is long. */
  lemma {:induction false} SegmentConsumes(mask: string, from: nat, to: nat, str: string, k: nat, caseSensitive: bool)
    requires from <= to <= |mask| && k <= |str|
    requires '*' !in mask[from..to]
    requires Matches(mask[from..], str[k..], caseSensitive)
    ensures k + (to - from) <= |str|
    ensures Matches(mask[to..], str[k + (to - from)..], caseSensitive)
    decreases |mask| - from
  {
    if from < to {
      assert mask[from] in mask[from..to];
      assert mask[from..][1..] == mask[from+1..];
      assert str[k..][1..] == str[k+1..];
      SegmentConsumes(mask, from + 1, to, str, k + 1, caseSensitive);
    }
  }

  /** Why going back to the last star only is enough: whatever an earlier restart could still
    match, restarting after the newer star matches too. */
  lemma LaterStarSuffices(mask: string, mp: nat, w: nat, str: string, cp: nat, i: nat, caseSensitive: bool)
    requires mp <= w < |mask| && mask[w] == '*' && '*' !in mask[mp..w]
    requires i <= |str| && i - w == cp - 1 - mp
    requires MatchesFrom(mask[mp..], str, cp, caseSensitive)
    ensures MatchesFrom(mask[w+1..], str, i, caseSensitive)
  {
    var k :| cp <= k <= |str| && Matches(mask[mp..], str[k..], caseSensitive);
    SegmentConsumes(mask, mp, w, str, k, caseSensitive);
    StarStep(mask, w, str, k + (w - mp), caseSensitive);
  }

  /** Once the string is used up, no restart can match any more. */
  lemma NoRestartAtEnd(mask: string, mp: nat, w: nat, str: string, cp: nat, caseSensitive: bool)
    requires mp <= w <= |mask| && '*' !in mask[mp..w]
    requires |str| - w == cp - 1 - mp
    ensures !MatchesFrom(mask[mp..], str, cp, caseSensitive)
  {
    if MatchesFrom(mask[mp..], str, cp, caseSensitive) {
      var k :| cp <= k <= |str| && Matches(mask[mp..], str[k..], caseSensitive);
      SegmentConsumes(mask, mp, w, str, k, caseSensitive);
    }
  }

  /** What the second loop of `wildcmp` keeps about its four pointers: before the first star
    (`mp` is null) the rest of the mask must match the rest of the string; afterwards the mask
    from just behind the last star may also match from `cp` on. */
  ghost predicate Pointers(wild: string, str: string, caseSensitive: bool, w: int, i: int, mp: int, cp: int) {
    && 0 <= i <= |str| && 0 <= w <= |wild|
    && (mp == -1 || (0 <= mp <= w && 1 <= cp <= |str| + 1 && i - w == cp - 1 - mp && '*' !in wild[mp..w]))
    && (mp == -1 && i < |str| ==> Deref(wild, w) == '*')
    && (Matches(wild, str, caseSensitive) <==>
          || Matches(wild[w..], str[i..], caseSensitive)
          || (mp != -1 && MatchesFrom(wild[mp..], str, cp, caseSensitive)))
  }

  lemma OnStar(wild: string, str: string, caseSensitive: bool, w: int, i: int, mp: int, cp: int)
    requires Pointers(wild, str, caseSensitive, w, i, mp, cp)
    requires i < |str| && Deref(wild, w) == '*' && CString(wild)
    ensures w + 1 == |wild| ==> Matches(wild, str, caseSensitive)
    ensures Pointers(wild, str, caseSensitive, w + 1, i, w + 1, i + 1)
  {
    StarStep(wild, w, str, i, caseSensitive);
    if mp != -1 && MatchesFrom(wild[mp..], str, cp, caseSensitive) {
      LaterStarSuffices(wild, mp, w, str, cp, i, caseSensitive);
    }
    SplitFrom(wild[w+1..], str, i, caseSensitive);
    if w + 1 == |wild| {
      assert str[|str|..] == "" && wild[w+1..] == "";
      assert MatchesFrom(wild[w+1..], str, i, caseSensitive);
    }
  }

  lemma OnLiteral(wild: string, str: string, caseSensitive: bool, w: int, i: int, mp: int, cp: int)
    requires Pointers(wild, str, caseSensitive, w, i, mp, cp)
    requires i < |str| && Deref(wild, w) != '*' && CString(str)
    ensures SameChar(Deref(wild, w), str[i], caseSensitive) || Deref(wild, w) == '?' ==>
      w < |wild| && Pointers(wild, str, caseSensitive, w + 1, i + 1, mp, cp)
    ensures !SameChar(Deref(wild, w), str[i], caseSensitive) && Deref(wild, w) != '?' ==>
      cp <= |str| && Pointers(wild, str, caseSensitive, mp, cp, mp, cp + 1)
  {
    LiteralStep(wild, w, str, i, caseSensitive);
    if SameChar(Deref(wild, w), str[i], caseSensitive) || Deref(wild, w) == '?' {
      assert wild[mp..w+1] == wild[mp..w] + [wild[w]];
    } else {
      SplitFrom(wild[mp..], str, cp, caseSensitive);
    }
  }

  /** `wildcmp`: greedy matching that only ever goes back to the last star.
    `mp` and `cp` are the pointers of the same names, -1 while still null. */
  method WildCmp(str: string, wild: string, caseSensitive: bool) returns (r: bool)
    requires CString(str) && CString(wild)
    ensures r <==> Matches(wild, str, caseSensitive)
  {
    hide Matches, MatchesFrom;
    var i, w := 0, 0;
    assert wild[0..] == wild && str[0..] == str;
    while i < |str| && Deref(wild, w) != '*'
      invariant 0 <= i <= |str| && 0 <= w <= |wild|
      invariant Matches(wild, str, caseSensitive) <==> Matches(wild[w..], str[i..], caseSensitive)
    {
      LiteralStep(wild, w, str, i, caseSensitive);
      if !SameChar(Deref(wild, w), str[i], caseSensitive) && Deref(wild, w) != '?' {
        return false;
      }
      w, i := w + 1, i + 1;
    }

    var mp, cp := -1, -1;
    while i < |str|
      invariant Pointers(wild, str, caseSensitive, w, i, mp, cp)
      decreases |wild| - mp, |str| + 1 - cp, |str| - i
    {
      if Deref(wild, w) == '*' {
        OnStar(wild, str, caseSensitive, w, i, mp, cp);
        w := w + 1;
        if w == |wild| {
          return true;
        }
        mp, cp := w, i + 1;
      } else {
        OnLiteral(wild, str, caseSensitive, w, i, mp, cp);
        if SameChar(Deref(wild, w), str[i], caseSensitive) || Deref(wild, w) == '?' {
          w, i := w + 1, i + 1;
        } else {
          w, i, cp := mp, cp, cp + 1;
        }
      }
    }

    if mp != -1 {
      NoRestartAtEnd(wild, mp, w, str, cp, caseSensitive);
    }
    assert str[i..] == "";
    while Deref(wild, w) == '*'
      invariant 0 <= w <= |wild|
      invariant Matches(wild, str, caseSensitive) <==> Matches(wild[w..], "", caseSensitive)
      decreases |wild| - w
    {
      StarAtEnd(wild, w, caseSensitive);
      w := w + 1;
    }
    AtEnd(wild, w, caseSensitive);
    return Deref(wild, w) == NUL;
  }

  lemma StarAtEnd(mask: string, w: nat, caseSensitive: bool)
    requires w < |mask| && mask[w] == '*'
    ensures Matches(mask[w..], "", caseSensitive) <==> Matches(mask[w+1..], "", caseSensitive)
  {
    StarStep(mask, w, "", 0, caseSensitive);
  }

  lemma AtEnd(mask: string, w: nat, caseSensitive: bool)
    requires w <= |mask| && CString(mask) && Deref(mask, w) != '*'
    ensures Matches(mask[w..], "", caseSensitive) <==> Deref(mask, w) == NUL
  {
    assert w < |mask| ==> mask[w] in mask;
  }

  lemma SplitFrom(mask: string, str: string, from: nat, caseSensitive: bool)
    requires from <= |str|
    ensures MatchesFrom(mask, str, from, caseSensitive) <==>
      || Matches(mask, str[from..], caseSensitive)
      || MatchesFrom(mask, str, from + 1, caseSensitive)
  {
  }

  /** The filters' decision: no filter at all, or some filter that matches. */
  ghost predicate AnyMatches(name: string, filters: seq<string>, matchEmpty: bool, caseSensitive: bool) {
    || (filters == [] && matchEmpty)
    || exists i :: 0 <= i < |filters| && Matches(filters[i], name, caseSensitive)
  }

  method MatchesAny(name: string, filters: seq<string>, matchEmpty: bool, caseSensitive: bool) returns (r: bool)
    requires CString(name) && forall f :: f in filters ==> CString(f)
    ensures r <==> AnyMatches(name, filters, matchEmpty, caseSensitive)
  {
    if filters == [] && matchEmpty {
      return true;
    }
    for i := 0 to |filters|
      invariant forall j :: 0 <= j < i ==> !Matches(filters[j], name, caseSensitive)
    {
      var hit := WildCmp(name, filters[i], caseSensitive);
      if hit {
        return true;
      }
    }
    return false;
  }
}
