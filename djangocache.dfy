/**
 * DjangoCache: the Django cache backend that forwards every call to the store
 * it holds, after qualifying the key with make_key and translating the timeout.
 */
module Adapter {
  import opened Wrappers
  import opened Timeouts
  import opened Calls

  class DjangoCache<V> {
    /** default_timeout and make_key, fixed by the Django configuration. */
    const config: Config
    /** The contents of the wrapped store (`self._cache`). */
    var cache: Store<V>

    /** An adapter over a store that already holds `contents`. */
    constructor (config: Config, contents: Store<V>)
      ensures this.config == config && cache == contents
    {
      this.config := config;
      cache := contents;
    }

    /** add: has_key, then set only if the qualified key was absent. */
    method Add(key: string, value: V, timeout: Timeout, version: Option<int>, tag: Option<string>)
      returns (ok: bool)
      modifies this
      ensures ok <==> config.makeKey(key, version) !in old(cache)
      ensures !ok ==> cache == old(cache)
      ensures ok ==> cache == old(cache)[config.makeKey(key, version) :=
                                Entry(value, BackendTimeout(timeout, config.defaultTimeout), tag)]
      ensures cache == Apply(config, old(cache), AddCall(key, value, timeout, version, tag))
    {
      var present := HasKey(key, version);
      if present {
        return false;
      }
      ok := Set(key, value, timeout, version, tag);
    }

    /** get: the value stored under the qualified key, or `default` on a miss. */
    method Get(key: string, default: V, version: Option<int>) returns (v: V)
      ensures config.makeKey(key, version) in cache ==> v == cache[config.makeKey(key, version)].value
      ensures config.makeKey(key, version) !in cache ==> v == default
    {
      var q := config.makeKey(key, version);
      v := if q in cache then cache[q].value else default;
    }

    /** set: writes one entry under the qualified key, with the translated
        timeout as its expiry; every other entry stays as it was. */
    method Set(key: string, value: V, timeout: Timeout, version: Option<int>, tag: Option<string>)
      returns (ok: bool)
      modifies this
      ensures ok
      ensures config.makeKey(key, version) in cache
      ensures cache[config.makeKey(key, version)] ==
                Entry(value, BackendTimeout(timeout, config.defaultTimeout), tag)
      ensures forall q :: q != config.makeKey(key, version) ==>
                (q in cache <==> q in old(cache)) && (q in cache ==> cache[q] == old(cache)[q])
      ensures cache == Apply(config, old(cache), SetCall(key, value, timeout, version, tag))
    {
      var q := config.makeKey(key, version);
      var expire := BackendTimeout(timeout, config.defaultTimeout);
      cache := cache[q := Entry(value, expire, tag)];
      ok := true;
    }

    /** delete: removes the entry under the qualified key, if any; nothing else changes. */
    method Delete(key: string, version: Option<int>)
      modifies this
      ensures config.makeKey(key, version) !in cache
      ensures forall q :: q != config.makeKey(key, version) ==>
                (q in cache <==> q in old(cache)) && (q in cache ==> cache[q] == old(cache)[q])
      ensures cache == Apply(config, old(cache), DeleteCall(key, version))
    {
      var q := config.makeKey(key, version);
      cache := cache - {q};
    }

    /** has_key: whether the store holds the qualified key. */
    method HasKey(key: string, version: Option<int>) returns (b: bool)
      ensures b <==> config.makeKey(key, version) in cache
    {
      var q := config.makeKey(key, version);
      b := q in cache;
    }

    /** clear: empties the store, whatever the key, version or tag. */
    method Clear()
      modifies this
      ensures cache == map[]
      ensures forall key, version :: config.makeKey(key, version) !in cache
      ensures cache == Apply(config, old(cache), ClearCall)
    {
      cache := map[];
    }
  }
}
