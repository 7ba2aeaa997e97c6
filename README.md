# DjangoCache, modelled in Dafny

`DjangoCache` (diskcache/djangocache.py) is a Django cache backend. It owns no
storage of its own and forwards to the `FanoutCache` it holds in `self._cache`:
`get`, `set`, `delete` and `has_key` qualify the caller's key with Django's
`make_key(key, version)` before forwarding; `set` also translates its `timeout`
argument with `get_backend_timeout`; `add` is `has_key` followed, when the key
is absent, by `set`; `clear` takes no key and empties the store.

The model has four modules:

- `Wrappers` (wrappers.dfy): `Option`, for Python's `None`.
- `Timeouts` (timeouts.dfy): the timeout argument as `UseDefault | Secs(n) | NoExpiry`
  (Django's `DEFAULT_TIMEOUT` sentinel, explicit seconds, explicit `None`), the store's
  `expire` argument as `Never | After(n)`, and `BackendTimeout`, the translator.
- `Calls` (calls.dfy): the wrapped store as a `map` from qualified keys to entries
  (value, expire, tag); `make_key` as a function-valued configuration field, deterministic
  and otherwise unconstrained; `Apply`, the effect of one `set`/`add`/`delete`/`clear` on the
  store, `Run`, the effect of a sequence of them, and the lemmas about sequences of calls
  (round trip, version isolation, first add wins, delete and clear completeness).
- `Adapter` (djangocache.dfy): `class DjangoCache` with the store contents as a field
  `cache` and one method per call; each mutating method states its new store outright
  and ties it to `Apply`.

The sentinel's substituted default skips the zero rule, because that rule is an
`elif` (lines 91-93): a configured default of 0 reaches the store as 0, while an
explicit 0 becomes -1 (`Timeouts.DefaultNotRewritten`,
`Timeouts.DefaultResolution`, `Calls.DefaultTimeoutResolution`).

## Model

| member | source | states |
|---|---|---|
| Timeouts.BackendTimeout | diskcache/djangocache.py:85-96 | total: the sentinel gives exactly the configured default, an explicit 0 gives -1, an explicit None gives None, any other explicit value is returned as is |
| Timeouts.DefaultNotRewritten | diskcache/djangocache.py:91-93 | the substituted default is not rewritten again: a default of 0 is returned as 0 while an explicit 0 becomes -1 |
| Timeouts.ExplicitIgnoresDefault | diskcache/djangocache.py:93-96 | an explicit timeout gives the same result whatever the configured default |
| Timeouts.ExplicitZeroIsElapsed | diskcache/djangocache.py:93-95 | an explicit timeout reaches the store as an already-passed expiry exactly when it is at most 0; an explicit 0 never reaches the store as 0 or as None |
| Timeouts.NeverIffNone | diskcache/djangocache.py:96 | the store is told "never expire" exactly for an explicit None, or for the sentinel when the default is None |
| Timeouts.ExplicitPassesThrough | diskcache/djangocache.py:91-96 | reading the result back as a timeout returns every explicit argument except 0, which comes back as -1 |
| Timeouts.DefaultResolution | diskcache/djangocache.py:91-95 | omitting the timeout equals passing the configured default explicitly if and only if that default is not 0 |
| Adapter.DjangoCache.constructor | diskcache/djangocache.py:10-23 | the adapter starts over the given configuration and the store's existing contents |
| Adapter.DjangoCache.Add | diskcache/djangocache.py:26-33 | returns true exactly when the qualified key was absent; if present the store is unchanged, otherwise the store is what `set` with the same arguments leaves |
| Adapter.DjangoCache.Get | diskcache/djangocache.py:38-44 | returns the value stored under `make_key(key, version)`, or `default` when that key is absent |
| Adapter.DjangoCache.Set | diskcache/djangocache.py:49-54 | writes the entry (value, translated timeout, tag) under `make_key(key, version)`; every other key keeps its entry or its absence |
| Adapter.DjangoCache.Delete | diskcache/djangocache.py:59-61 | afterwards `make_key(key, version)` is absent; every other key keeps its entry or its absence |
| Adapter.DjangoCache.HasKey | diskcache/djangocache.py:66-68 | true exactly when the store holds `make_key(key, version)` |
| Adapter.DjangoCache.Clear | diskcache/djangocache.py:73-74 | afterwards the store is empty: no key under any version is present |
| Calls.KeptWhilePresent | diskcache/djangocache.py:26-61 | an entry survives unchanged through any calls that do not clear, delete or set its qualified key (adds of it find it present) |
| Calls.StaysAbsent | diskcache/djangocache.py:26-74 | an absent qualified key stays absent through any calls that neither set nor add it |
| Calls.SetThenGet | diskcache/djangocache.py:38-54 | after `set(key, value, timeout, version, tag)` and any calls that keep that qualified key, the store holds exactly that value, translated expiry and tag there |
| Calls.VersionIsolation | diskcache/djangocache.py:49-54 | when distinct explicit versions never collide under `make_key`, `set` under version `b` leaves the value set under version `a != b` in place, and both are readable |
| Calls.AddIsGuardedSet | diskcache/djangocache.py:26-33 | `add` on a present key changes nothing; on an absent key it writes exactly what `set` writes |
| Calls.FirstAddWins | diskcache/djangocache.py:26-33 | after an `add` of an absent key, later adds of it (and calls that keep it) leave the first add's entry in place |
| Calls.DeleteIdempotent | diskcache/djangocache.py:59-61 | `delete` of an absent key changes nothing, and deleting twice equals deleting once |
| Calls.DeleteThenAbsent | diskcache/djangocache.py:59-68 | after `delete(key, version)`, `has_key(key, version)` is false until a `set` or `add` writes that qualified key |
| Calls.ClearThenAbsent | diskcache/djangocache.py:66-74 | after `clear`, `has_key` is false for every key and version until a `set` or `add` writes it |
| Calls.ZeroTimeoutStoresElapsed | diskcache/djangocache.py:49-54 | `set` with timeout 0 stores an entry whose expiry has already passed |
| Calls.NoneTimeoutStoresNever | diskcache/djangocache.py:49-54 | `set` with timeout None stores an entry that never expires |
| Calls.DefaultTimeoutResolution | diskcache/djangocache.py:49-54 | `set` without a timeout leaves the same store as `set` with the configured default passed explicitly, if and only if that default is not 0 |

## Left out

- Adapter.DjangoCache.HasKey: presence in the map; the store's hiding of expired-but-not-yet-purged entries is the store's behaviour (FanoutCache is not part of this model) and is not modelled.
- Adapter.DjangoCache.Get: same as HasKey for expired entries; the `read` (file-handle streaming), `expire_time` and `tag` flags and the tuple shapes they return are not modelled.
- Adapter.DjangoCache.Set: always returns true; store-level failures (a write the store declines or an I/O error) are not modelled, and neither is the `read` flag.
- Adapter.DjangoCache.Delete, Adapter.DjangoCache.Clear, Adapter.DjangoCache.Get, Adapter.DjangoCache.HasKey, Adapter.DjangoCache.Add: never fail; the store's errors, which the program passes through to the caller unchanged, are not modelled.
- Adapter.DjangoCache.Add, Calls.FirstAddWins, Calls.SetThenGet, Calls.KeptWhilePresent: an entry whose expiry has already passed still counts as present, so a second `add` after `set(timeout=0)` is refused here but accepted by the program, whose store treats the expired entry as absent.
- Adapter.DjangoCache.constructor: does not model the shard count, the lock-acquisition timeout (`DATABASE_TIMEOUT`, default 0.025) or the forwarded options; these configure FanoutCache.
- `close` is not modelled: it only releases the store's file handles and locks.
- `make_key`'s string format, version defaulting and key prefix belong to Django and are a free function here; that distinct explicit versions give distinct qualified keys is assumed only by `Calls.VersionIsolation`.
- Timeouts are whole seconds; float timeouts and the wall clock that turns an expiry into an instant are not modelled.
- The race in `add` between `has_key` and `set` under concurrent callers is not modelled; calls are sequential.
- The `__doc__` assignments are documentation only.
