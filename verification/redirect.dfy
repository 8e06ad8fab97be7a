/** The `CheckRedirect` closure of `Send` (gozzle.go) and what it means for a
    chain of redirects. Go's client calls the closure before following each
    redirect, passing in `via` the requests already made, oldest first; so
    when it is about to follow the n-th redirect, `len(via) == n`. */
module Redirect {
  import opened Wrappers
  import opened Types

  /** The closure: an error exactly when more requests have been made than
      the configured cap. */
  function CheckRedirect(viaLength: nat, maxRedirects: int): (r: Option<Error>)
  {
    if viaLength > maxRedirects then Some(TooManyRedirects) else None
  }

  /** Whether the client follows a chain of `hops` redirects to its end:
      every check, for `len(via)` from 1 to `hops`, must pass. */
  function FollowsChain(hops: nat, maxRedirects: int): bool
  {
    hops == 0 || (FollowsChain(hops - 1, maxRedirects) && CheckRedirect(hops, maxRedirects).None?)
  }

  /** A chain is followed exactly when it has no redirect at all or at most
      `maxRedirects` of them; with a negative cap no redirect is followed. */
  lemma {:induction false} FollowsChainIff(hops: nat, maxRedirects: int)
    ensures FollowsChain(hops, maxRedirects) <==> hops == 0 || hops <= maxRedirects
  {
    if hops > 0 {
      FollowsChainIff(hops - 1, maxRedirects);
    }
  }
}
