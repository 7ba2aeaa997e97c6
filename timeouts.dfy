/**
 * The timeout translation of DjangoCache.get_backend_timeout: how the timeout
 * argument of a Django cache call becomes the `expire` argument the store
 * receives. Seconds are whole numbers here; the store, not this function,
 * relates them to a clock.
 */
module Timeouts {

  /** The `timeout` argument of a cache call: Django's DEFAULT_TIMEOUT sentinel,
      an explicit number of seconds, or an explicit None (never expire). */
  datatype Timeout = UseDefault | Secs(secs: int) | NoExpiry

  /** The `expire` argument the store receives: None, or a number of seconds
      counted from the write. Django's configured default_timeout has this
      shape too (a number of seconds, or None). */
  datatype Expire = Never | After(secs: int)

  /** An expiry that lies before the write itself: the entry is stale from the start. */
  predicate ElapsedOnWrite(e: Expire)
  {
    e.After? && e.secs < 0
  }

  /** The explicit timeout argument that names the same thing as an expiry. */
  function AsTimeout(e: Expire): (t: Timeout)
    ensures t != UseDefault
    ensures t == NoExpiry <==> e == Never
  {
    match e
    case Never => NoExpiry
    case After(n) => Secs(n)
  }

  /**
   * get_backend_timeout. The sentinel is replaced by the configured default
   * and that default is not looked at again; only an explicit zero is turned
   * into -1, an expiry that has already passed.
   */
  function BackendTimeout(timeout: Timeout, defaultTimeout: Expire): (r: Expire)
    ensures timeout == UseDefault ==> r == defaultTimeout
    ensures timeout == Secs(0) ==> r == After(-1)
    ensures timeout == NoExpiry ==> r == Never
    ensures timeout.Secs? && timeout.secs != 0 ==> r == After(timeout.secs)
  {
    match timeout
    case UseDefault => defaultTimeout
    case Secs(n) => if n == 0 then After(-1) else After(n)
    case NoExpiry => Never
  }

  /** A default of zero is handed to the store as zero, while an explicit zero
      becomes -1: the zero rule does not apply to the substituted default. */
  lemma DefaultNotRewritten(defaultTimeout: Expire)
    ensures BackendTimeout(UseDefault, defaultTimeout) == defaultTimeout
    ensures defaultTimeout == After(0) ==>
              BackendTimeout(UseDefault, defaultTimeout) == After(0) &&
              BackendTimeout(Secs(0), defaultTimeout) == After(-1)
  {
  }

  /** An explicit timeout never depends on the configured default. */
  lemma ExplicitIgnoresDefault(timeout: Timeout, d1: Expire, d2: Expire)
    requires timeout != UseDefault
    ensures BackendTimeout(timeout, d1) == BackendTimeout(timeout, d2)
  {
  }

  /** An explicit timeout reaches the store as an expiry that has already passed
      exactly when it is zero or negative; an explicit zero in particular never
      reaches the store as 0 and never as None. */
  lemma ExplicitZeroIsElapsed(timeout: Timeout, defaultTimeout: Expire)
    requires timeout != UseDefault
    ensures ElapsedOnWrite(BackendTimeout(timeout, defaultTimeout)) <==>
              timeout.Secs? && timeout.secs <= 0
    ensures BackendTimeout(timeout, defaultTimeout) != After(0)
    ensures timeout == Secs(0) ==> BackendTimeout(timeout, defaultTimeout) != Never
  {
  }

  /** The store is told "never expire" exactly for an explicit None, or for the
      sentinel when the configured default is None. */
  lemma NeverIffNone(timeout: Timeout, defaultTimeout: Expire)
    ensures BackendTimeout(timeout, defaultTimeout) == Never <==>
              timeout == NoExpiry || (timeout == UseDefault && defaultTimeout == Never)
  {
  }

  /** Every explicit value other than zero passes through unchanged: reading the
      result back as a timeout gives the argument again. Zero comes back as -1. */
  lemma ExplicitPassesThrough(timeout: Timeout, defaultTimeout: Expire)
    requires timeout != UseDefault
    ensures timeout != Secs(0) ==> AsTimeout(BackendTimeout(timeout, defaultTimeout)) == timeout
    ensures timeout == Secs(0) ==> AsTimeout(BackendTimeout(timeout, defaultTimeout)) == Secs(-1)
  {
  }

  /** Leaving the timeout out is the same as passing the configured default
      explicitly, except when that default is zero: then the sentinel gives 0
      and the explicit zero gives -1. */
  lemma DefaultResolution(defaultTimeout: Expire)
    ensures BackendTimeout(UseDefault, defaultTimeout) ==
              BackendTimeout(AsTimeout(defaultTimeout), defaultTimeout)
            <==> defaultTimeout != After(0)
  {
  }
}
