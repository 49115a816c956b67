/** The three functions of Go's `strings` package that the server uses:
    HasPrefix, TrimPrefix and TrimSuffix, on strings as sequences of chars. */
module Strings {

  /** strings.HasPrefix(s, p): `s` is at least as long as `p` and agrees
      with it on each of `p`'s positions. */
  predicate HasPrefix(s: string, p: string): (b: bool)
    ensures b <==> |p| <= |s| && forall i :: 0 <= i < |p| ==> s[i] == p[i]
  {
    |p| <= |s| && s[..|p|] == p
  }

  /** strings.HasSuffix(s, p): `s` is at least as long as `p` and its last
      |p| characters are those of `p`. */
  predicate HasSuffix(s: string, p: string): (b: bool)
    ensures b <==> |p| <= |s| && forall i :: 0 <= i < |p| ==> s[|s| - |p| + i] == p[i]
  {
    |p| <= |s| && s[|s| - |p|..] == p
  }

  /** strings.TrimPrefix: `s` without a leading `p`, or `s` itself when it
      does not start with `p`. */
  function TrimPrefix(s: string, p: string): (r: string)
    ensures HasPrefix(s, p) ==> p + r == s
    ensures !HasPrefix(s, p) ==> r == s
  {
    if HasPrefix(s, p) then
      assert s == s[..|p|] + s[|p|..];
      s[|p|..]
    else s
  }

  /** strings.TrimSuffix: `s` without a trailing `p`, or `s` itself when it
      does not end with `p`. */
  function TrimSuffix(s: string, p: string): (r: string)
    ensures HasSuffix(s, p) ==> r + p == s
    ensures !HasSuffix(s, p) ==> r == s
  {
    if HasSuffix(s, p) then
      assert s == s[..|s| - |p|] + s[|s| - |p|..];
      s[..|s| - |p|]
    else s
  }

  /** Removing a suffix that was just appended gives back the original string. */
  lemma TrimSuffixAppended(s: string, p: string)
    ensures TrimSuffix(s + p, p) == s
  {
    assert (s + p)[|s + p| - |p|..] == p;
  }

  /** Removing a prefix that was just prepended gives back the original string. */
  lemma TrimPrefixPrepended(p: string, s: string)
    ensures TrimPrefix(p + s, p) == s
  {
    assert (p + s)[..|p|] == p;
  }
}
