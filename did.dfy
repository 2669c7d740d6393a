/**
 * The DID string predicates of did.ts (and their copies in
 * document-loader.ts, which use the same regular expressions):
 *   isDidKey                      /^did:key:([^:#]+)$/
 *   isDidWeb                      /^did:web:([^:#]+)/
 *   isDidKeyVerificationMethodId  /did:key:([^:#]+)#([^:#]+)$/
 * Each returns false for a value that is not a string.  Without the `m`
 * flag, `^` and `$` anchor at the ends of the whole string, and the class
 * `[^:#]` matches every other character, line breaks included.
 */
module Did {
  import opened Js
  import opened Strings

  const DidKeyPrefix: string := "did:key:"
  const DidWebPrefix: string := "did:web:"

  /** Every character is matched by `[^:#]`. */
  predicate NoColonOrHash(s: string) {
    forall i | 0 <= i < |s| :: s[i] != ':' && s[i] != '#'
  }

  /** `s` matches /^did:key:([^:#]+)$/. */
  predicate MatchesDidKey(s: string) {
    StartsWith(s, DidKeyPrefix) && |s| > |DidKeyPrefix| && NoColonOrHash(s[|DidKeyPrefix|..])
  }

  /** `s` matches /^did:web:([^:#]+)/: only the first character after the prefix is constrained. */
  predicate MatchesDidWeb(s: string) {
    StartsWith(s, DidWebPrefix) && |s| > |DidWebPrefix|
    && s[|DidWebPrefix|] != ':' && s[|DidWebPrefix|] != '#'
  }

  /**
   * The start of the maximal run of `[^:#]` characters that ends at `end`:
   * the only place where a `[^:#]+` ending at `end` and preceded by `:` or
   * `#` can begin.
   */
  function RunStart(s: string, end: nat): (k: nat)
    requires end <= |s|
    ensures k <= end && NoColonOrHash(s[k..end])
    ensures k == 0 || s[k - 1] == ':' || s[k - 1] == '#'
  {
    if end == 0 || s[end - 1] == ':' || s[end - 1] == '#' then end
    else
      var k := RunStart(s, end - 1);
      assert s[k..end] == s[k..end - 1] + [s[end - 1]];
      k
  }

  /**
   * `s` matches /did:key:([^:#]+)#([^:#]+)$/, decided the way the
   * end-anchored pattern forces: the second group is the trailing run of
   * `[^:#]`, a `#` precedes it, the first group is the run before that `#`,
   * and `did:key:` precedes the first group.
   */
  predicate MatchesDidKeyVerificationMethodId(s: string) {
    var y := RunStart(s, |s|);
    1 <= y < |s| && s[y - 1] == '#'
    && var x := RunStart(s, y - 1);
    |DidKeyPrefix| <= x < y - 1 && s[x - |DidKeyPrefix|..x] == DidKeyPrefix
  }

  /** `isDidKey(s)`. */
  predicate IsDidKey(v: Unknown) {
    v.Str? && MatchesDidKey(v.s)
  }

  /** `isDidWeb(s)`. */
  predicate IsDidWeb(v: Unknown) {
    v.Str? && MatchesDidWeb(v.s)
  }

  /** `isDidKeyVerificationMethodId(s)`. */
  predicate IsDidKeyVerificationMethodId(v: Unknown) {
    v.Str? && MatchesDidKeyVerificationMethodId(v.s)
  }

  /**
   * The regular-expression reading of the verification-method pattern: a
   * match `did:key:X#Y` starts at `i`, its `#` is at `j`, and it runs to
   * the end of `s`, with X and Y non-empty and free of `:` and `#`.
   */
  ghost predicate VerificationMethodMatchAt(s: string, i: int, j: int) {
    0 <= i && i + |DidKeyPrefix| < j && j + 1 < |s|
    && s[i..i + |DidKeyPrefix|] == DidKeyPrefix && s[j] == '#'
    && NoColonOrHash(s[i + |DidKeyPrefix|..j]) && NoColonOrHash(s[j + 1..])
  }

  ghost predicate HasVerificationMethodMatch(s: string) {
    exists i, j :: VerificationMethodMatchAt(s, i, j)
  }

  /** The run before `end` starts right after a `:` or `#` (or at 0): RunStart finds exactly it. */
  lemma {:induction false} RunStartUnique(s: string, k: nat, end: nat)
    requires k <= end <= |s|
    requires NoColonOrHash(s[k..end])
    requires k == 0 || s[k - 1] == ':' || s[k - 1] == '#'
    ensures RunStart(s, end) == k
    decreases end - k
  {
    if end > k {
      assert s[end - 1] == s[k..end][end - 1 - k];
      assert s[k..end - 1] == s[k..end][..end - 1 - k];
      RunStartUnique(s, k, end - 1);
    }
  }

  /** A match found by the scan is a match of the regular expression, starting at `i` with its `#` at `j`. */
  lemma ScanMatchIsMatch(s: string) returns (i: int, j: int)
    requires MatchesDidKeyVerificationMethodId(s)
    ensures VerificationMethodMatchAt(s, i, j)
  {
    var y := RunStart(s, |s|);
    var x := RunStart(s, y - 1);
    assert s[y..] == s[y..|s|];
    i, j := x - |DidKeyPrefix|, y - 1;
  }

  /** A match of the regular expression is found by the scan. */
  lemma MatchIsScanMatch(s: string, i: int, j: int)
    requires VerificationMethodMatchAt(s, i, j)
    ensures MatchesDidKeyVerificationMethodId(s)
  {
    RunStartUnique(s, j + 1, |s|);
    assert s[i + |DidKeyPrefix| - 1] == s[i..i + |DidKeyPrefix|][|DidKeyPrefix| - 1];
    RunStartUnique(s, i + |DidKeyPrefix|, j);
  }

  /** The scanning decision and the regular-expression reading agree, in both directions. */
  lemma VerificationMethodIdMatches(s: string)
    ensures MatchesDidKeyVerificationMethodId(s) <==> HasVerificationMethodMatch(s)
  {
    if MatchesDidKeyVerificationMethodId(s) {
      var i, j := ScanMatchIsMatch(s);
    }
    if HasVerificationMethodMatch(s) {
      var i, j :| VerificationMethodMatchAt(s, i, j);
      MatchIsScanMatch(s, i, j);
    }
  }

  /** Slicing after a prefix is slicing the rest. */
  lemma SliceAfterPrefix(prefix: string, s: string, a: nat, b: nat)
    requires a <= b <= |s|
    ensures (prefix + s)[|prefix| + a..|prefix| + b] == s[a..b]
  {
  }

  /** A match stays a match, shifted, when text is put before the string. */
  lemma MatchAtAfterPrefix(prefix: string, s: string, i: int, j: int)
    requires VerificationMethodMatchAt(s, i, j)
    ensures VerificationMethodMatchAt(prefix + s, |prefix| + i, |prefix| + j)
  {
    var t := prefix + s;
    var p := |prefix|;
    SliceAfterPrefix(prefix, s, i, i + |DidKeyPrefix|);
    SliceAfterPrefix(prefix, s, i + |DidKeyPrefix|, j);
    SliceAfterPrefix(prefix, s, j + 1, |s|);
    assert t[p + j] == s[j];
    assert t[p + j + 1..] == t[p + j + 1..p + |s|];
  }

  /** For a valid X and Y, `did:key:X` is a did:key and `did:key:X#Y` a did:key verification-method id. */
  lemma WellFormedDidKeyIds(x: string, y: string)
    requires x != [] && NoColonOrHash(x) && y != [] && NoColonOrHash(y)
    ensures IsDidKey(Str(DidKeyPrefix + x))
    ensures IsDidKeyVerificationMethodId(Str(DidKeyPrefix + x + "#" + y))
  {
    var s := DidKeyPrefix + x + "#" + y;
    var j := |DidKeyPrefix| + |x|;
    assert s[0..|DidKeyPrefix|] == DidKeyPrefix;
    assert s[|DidKeyPrefix|..j] == x;
    assert s[j + 1..] == y;
    assert VerificationMethodMatchAt(s, 0, j);
    VerificationMethodIdMatches(s);
    assert (DidKeyPrefix + x)[|DidKeyPrefix|..] == x;
  }

  /** The verification-method pattern is anchored only at the end: any prefix may come before a match. */
  lemma VerificationMethodIdAnyPrefix(prefix: string, s: string)
    requires IsDidKeyVerificationMethodId(Str(s))
    ensures IsDidKeyVerificationMethodId(Str(prefix + s))
  {
    var i, j := ScanMatchIsMatch(s);
    MatchAtAfterPrefix(prefix, s, i, j);
    MatchIsScanMatch(prefix + s, |prefix| + i, |prefix| + j);
  }

  /** The did:web pattern is anchored only at the start: `did:web:a:b` is accepted. */
  lemma DidWebAnchoredAtStartOnly(rest: string)
    ensures IsDidWeb(Str("did:web:a" + rest))
    ensures IsDidWeb(Str("did:web:a:b"))
    ensures !IsDidWeb(Str("did:web:")) && !IsDidWeb(Str("did:web::a"))
  {
    assert ("did:web:a" + rest)[..|DidWebPrefix|] == DidWebPrefix;
  }

  /** No value is both a did:key and a did:key verification-method id: the first forbids `#`, the second needs one. */
  lemma DidKeyAndVerificationMethodIdDisjoint(v: Unknown)
    ensures !(IsDidKey(v) && IsDidKeyVerificationMethodId(v))
  {
    if IsDidKeyVerificationMethodId(v) {
      var s := v.s;
      var i, j := ScanMatchIsMatch(s);
      assert s[|DidKeyPrefix|..][j - |DidKeyPrefix|] == '#';
      assert !MatchesDidKey(s);
    }
  }

  /** All three predicates reject every value that is not a string. */
  lemma PredicatesNeedStrings(v: Unknown)
    requires !v.Str?
    ensures !IsDidKey(v) && !IsDidWeb(v) && !IsDidKeyVerificationMethodId(v)
  {
  }
}
