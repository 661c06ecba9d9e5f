/** Go error values: sentinels, leaf errors nobody compares against, and the `%w` wrapping of fmt.Errorf. */
module Errors {
  import opened Basics

  datatype Error =
    | NotFound                // store.ErrNotFound
    | ProviderDisabled        // scheduler.ErrProviderDisabled
    | ProviderUncredentialed  // scheduler.ErrProviderUncredentialed
    | FetcherNotFound         // provider.ErrFetcherNotFound
    | Auth                    // provider.ErrAuth
    | InvalidKeyLength        // secret.ErrInvalidKeyLength
    | InvalidBlob             // secret.ErrInvalidBlob
    | DecryptionFailed        // secret.ErrDecryptionFailed
    | InvalidFields(missing: set<Bytes>, unknown: set<Bytes>)
    | Other(code: int)
    | Wrapped(inner: Error)

  /** errors.Is for chains built with a single `%w` per layer. */
  predicate Is(e: Error, target: Error) {
    e == target || (e.Wrapped? && Is(e.inner, target))
  }

  /** The innermost error of a chain. */
  function Root(e: Error): (r: Error)
    ensures !r.Wrapped?
  {
    if e.Wrapped? then Root(e.inner) else e
  }

  /** `layers` nested fmt.Errorf("...: %w") calls around e. */
  function WrapTimes(e: Error, layers: nat): Error {
    if layers == 0 then e else Wrapped(WrapTimes(e, layers - 1))
  }

  /** A sentinel is found in a chain exactly when it is the chain's root. */
  lemma {:induction false} IsMatchesRoot(e: Error, target: Error)
    requires !target.Wrapped?
    ensures Is(e, target) <==> Root(e) == target
  {
    if e.Wrapped? {
      IsMatchesRoot(e.inner, target);
    }
  }

  /** Wrapping never hides or invents a sentinel, however many layers are added. */
  lemma {:induction false} IsThroughLayers(e: Error, layers: nat, target: Error)
    requires !target.Wrapped?
    ensures Is(WrapTimes(e, layers), target) <==> Is(e, target)
  {
    if layers > 0 {
      IsThroughLayers(e, layers - 1, target);
    }
  }

  /** A store statement either succeeds (None) or fails with a driver error identified by a code. */
  type Fault = Option<int>

  /** The error a failing store statement returns: a driver error wrapped once. */
  function StoreError(code: int): Error {
    Wrapped(Other(code))
  }
}
