/** `strings.Trim(s, "/")` as used on `BaseURL`: every leading and every
    trailing '/' is removed, nothing else. */
module Strings {

  const Slash: char := '/'

  /** Every character of `s` is a slash. */
  predicate AllSlashes(s: string)
  {
    forall k :: 0 <= k < |s| ==> s[k] == Slash
  }

  /** `s` neither starts nor ends with a slash. */
  predicate NoEdgeSlash(s: string)
  {
    |s| == 0 || (s[0] != Slash && s[|s| - 1] != Slash)
  }

  /** The length of the leading run of slashes in `s`. */
  function LeadingSlashes(s: string): (n: nat)
    ensures n <= |s|
    ensures AllSlashes(s[..n])
    ensures n == |s| || s[n] != Slash
  {
    if |s| > 0 && s[0] == Slash then 1 + LeadingSlashes(s[1..]) else 0
  }

  /** Drops the leading run of slashes: the result is a suffix of `s`, what
      was dropped is all slashes, and what is left does not start with one. */
  function TrimLeft(s: string): (r: string)
    ensures |r| <= |s| && r == s[|s| - |r|..]
    ensures AllSlashes(s[..|s| - |r|])
    ensures |r| == 0 || r[0] != Slash
  {
    s[LeadingSlashes(s)..]
  }

  /** Drops the trailing run of slashes: the result is a prefix of `s`, what
      was dropped is all slashes, and what is left does not end with one. */
  function TrimRight(s: string): (r: string)
    ensures |r| <= |s| && r == s[..|r|]
    ensures AllSlashes(s[|r|..])
    ensures |r| == 0 || r[|r| - 1] != Slash
  {
    if |s| > 0 && s[|s| - 1] == Slash then TrimRight(s[..|s| - 1]) else s
  }

  /** `strings.Trim(s, "/")`. The result is `s[i..i + |r|]` with `i` the
      length of the leading slash run, everything outside it is slashes, and
      the result has no slash at either end; together these determine it. */
  function Trim(s: string): (r: string)
    ensures NoEdgeSlash(r)
    ensures LeadingSlashes(s) + |r| <= |s|
    ensures r == s[LeadingSlashes(s)..LeadingSlashes(s) + |r|]
    ensures AllSlashes(s[..LeadingSlashes(s)])
    ensures AllSlashes(s[LeadingSlashes(s) + |r|..])
  {
    var i := LeadingSlashes(s);
    var r := TrimRight(TrimLeft(s));
    assert s[i + |r|..] == s[i..][|r|..];
    r
  }

  /** An input trims to the empty string exactly when it is all slashes. */
  lemma TrimEmptyIff(s: string)
    ensures Trim(s) == [] <==> AllSlashes(s)
  {
  }

  /** A string without edge slashes is its own trim. */
  lemma TrimFixesClean(s: string)
    requires NoEdgeSlash(s)
    ensures Trim(s) == s
  {
  }

  /** Trimming is idempotent. */
  lemma TrimIdempotent(s: string)
    ensures Trim(Trim(s)) == Trim(s)
  {
  }
}
