/**
 Text helpers shared by the URI parser, the snapshot path mapping and the
 document-path derivation. Strings are `seq<char>`; only the '/' separator
 matters to the builder.
 */
module Strings {

  predicate HasPrefix(s: string, p: string) {
    |p| <= |s| && s[..|p|] == p
  }

  predicate NoSlash(s: string) {
    forall i :: 0 <= i < |s| ==> s[i] != '/'
  }

  predicate AllSlashes(s: string) {
    forall i :: 0 <= i < |s| ==> s[i] == '/'
  }

  predicate EndsWithSlash(s: string) {
    |s| > 0 && s[|s| - 1] == '/'
  }

  /** Python's `s.rstrip("/")`: the longest prefix of `s` that does not end in '/'. */
  function StripTrailingSlashes(s: string): (r: string)
    ensures |r| <= |s| && r == s[..|r|]
    ensures AllSlashes(s[|r|..])
    ensures !EndsWithSlash(r)
    decreases |s|
  {
    if EndsWithSlash(s) then StripTrailingSlashes(s[..|s| - 1]) else s
  }

  /** Index of the first '/' in `s`, or `|s|` when there is none. */
  function FirstSlash(s: string): (i: nat)
    ensures i <= |s|
    ensures NoSlash(s[..i])
    ensures i < |s| ==> s[i] == '/'
    decreases |s|
  {
    if |s| == 0 || s[0] == '/' then 0
    else
      var j := FirstSlash(s[1..]);
      assert s[..1 + j] == [s[0]] + s[1..][..j];
      1 + j
  }

  lemma {:induction false} FirstSlashOfJoin(a: string, b: string)
    requires NoSlash(a)
    ensures FirstSlash(a + "/" + b) == |a|
    decreases |a|
  {
    var s := a + "/" + b;
    if |a| > 0 {
      assert s[1..] == a[1..] + "/" + b;
      FirstSlashOfJoin(a[1..], b);
    }
  }

  /** A '/'-joined pair whose head has no '/' splits back uniquely. */
  lemma SplitJoin(a: string, b: string, c: string, d: string)
    requires NoSlash(a) && NoSlash(c)
    ensures a + "/" + b == c + "/" + d <==> a == c && b == d
  {
    if a + "/" + b == c + "/" + d {
      FirstSlashOfJoin(a, b);
      FirstSlashOfJoin(c, d);
      var s := a + "/" + b;
      assert a == s[..|a|];
      assert c == s[..|c|];
      assert b == s[|a| + 1..];
      assert d == (c + "/" + d)[|c| + 1..];
    }
  }

  /** Stripping a string that already has no trailing '/' changes nothing. */
  lemma StripIdentity(s: string)
    requires !EndsWithSlash(s)
    ensures StripTrailingSlashes(s) == s
  {
  }

  /** A sequence is its prefix followed by its suffix. */
  lemma SplitAround(s: string, n: nat)
    requires n <= |s|
    ensures s == s[..n] + s[n..]
  {
  }

  lemma SplitAtSlash(s: string, i: nat)
    requires i < |s| && s[i] == '/'
    ensures s == s[..i] + "/" + s[i + 1..]
  {
  }

  lemma Reassemble(uri: string, scheme: string, rest: string, bucket: string, tail: string, path: string, extra: string)
    requires uri == scheme + rest && rest == bucket + "/" + tail && tail == path + extra
    ensures uri == (scheme + bucket + "/" + path) + extra
  {
  }

  lemma ConcatSplits(a: string, b: string)
    ensures HasPrefix(a + b, a) && (a + b)[|a|..] == b
  {
  }
}
