/**
 * What each state-changing DjangoCache call does to the store it wraps, as a
 * function on the store's contents, and what a sequence of such calls does.
 * The store is a map from qualified keys to entries: the model keeps insert,
 * remove and lookup, and nothing of the store's own expiry, eviction or disk
 * layout.
 */
module Calls {
  import opened Wrappers
  import opened Timeouts

  /** Django's make_key: a deterministic function of the raw key and the version
      (None stands for the configured default version). */
  type KeyFunc = (string, Option<int>) -> string

  /** What the adapter takes from its Django configuration. */
  datatype Config = Config(defaultTimeout: Expire, makeKey: KeyFunc)

  /** One stored entry: the value, the expire argument it was written with, its tag. */
  datatype Entry<V> = Entry(value: V, expire: Expire, tag: Option<string>)

  type Store<V> = map<string, Entry<V>>

  /** The calls that change the store. */
  datatype Call<V> =
    | SetCall(key: string, value: V, timeout: Timeout, version: Option<int>, tag: Option<string>)
    | AddCall(key: string, value: V, timeout: Timeout, version: Option<int>, tag: Option<string>)
    | DeleteCall(key: string, version: Option<int>)
    | ClearCall

  /** The entry `set` writes for these arguments. */
  function NewEntry<V>(cfg: Config, value: V, timeout: Timeout, tag: Option<string>): (e: Entry<V>)
    ensures e.value == value && e.tag == tag
    ensures timeout == Secs(0) ==> ElapsedOnWrite(e.expire)
  {
    Entry(value, BackendTimeout(timeout, cfg.defaultTimeout), tag)
  }

  /** The store after set(key, value, timeout, version, tag). */
  function Put<V>(cfg: Config, m: Store<V>, key: string, value: V, timeout: Timeout,
                  version: Option<int>, tag: Option<string>): (m': Store<V>)
    ensures m'.Keys == m.Keys + {cfg.makeKey(key, version)}
    ensures m'[cfg.makeKey(key, version)].value == value
  {
    m[cfg.makeKey(key, version) := NewEntry(cfg, value, timeout, tag)]
  }

  /** The store after one call: add is has_key followed by set. */
  function Apply<V>(cfg: Config, m: Store<V>, c: Call<V>): (m': Store<V>)
    ensures c.ClearCall? ==> m' == map[]
    ensures !c.ClearCall? ==> m'.Keys - {cfg.makeKey(c.key, c.version)} == m.Keys - {cfg.makeKey(c.key, c.version)}
  {
    match c
    case SetCall(key, value, timeout, version, tag) => Put(cfg, m, key, value, timeout, version, tag)
    case AddCall(key, value, timeout, version, tag) =>
      if cfg.makeKey(key, version) in m then m else Put(cfg, m, key, value, timeout, version, tag)
    case DeleteCall(key, version) => m - {cfg.makeKey(key, version)}
    case ClearCall => map[]
  }

  /** The store after the calls, first to last. */
  function Run<V>(cfg: Config, m: Store<V>, calls: seq<Call<V>>): (m': Store<V>)
    decreases |calls|
  {
    if calls == [] then m else Run(cfg, Apply(cfg, m, calls[0]), calls[1..])
  }

  /** The call writes under the qualified key q (set, or add). */
  predicate Writes<V>(cfg: Config, c: Call<V>, q: string)
  {
    (c.SetCall? || c.AddCall?) && cfg.makeKey(c.key, c.version) == q
  }

  /** The call leaves an entry present under q as it is: it is no clear, no
      delete of q and no set of q (an add of q is allowed; it finds q present). */
  predicate Keeps<V>(cfg: Config, c: Call<V>, q: string)
  {
    && !c.ClearCall?
    && !(c.SetCall? && cfg.makeKey(c.key, c.version) == q)
    && !(c.DeleteCall? && cfg.makeKey(c.key, c.version) == q)
  }

  /** No two explicit versions of one raw key share a qualified key. (Version
      None stands for the configured version, so it is left out.) */
  ghost predicate VersionsDisjoint(cfg: Config)
  {
    forall key, v1: int, v2: int :: v1 != v2 ==> cfg.makeKey(key, Some(v1)) != cfg.makeKey(key, Some(v2))
  }

  /** An entry present under q survives, unchanged, every sequence of calls that keep q. */
  lemma {:induction false} KeptWhilePresent<V>(cfg: Config, m: Store<V>, calls: seq<Call<V>>, q: string)
    requires q in m
    requires forall i :: 0 <= i < |calls| ==> Keeps(cfg, calls[i], q)
    ensures q in Run(cfg, m, calls) && Run(cfg, m, calls)[q] == m[q]
    decreases |calls|
  {
    if calls != [] {
      var m1 := Apply(cfg, m, calls[0]);
      assert Keeps(cfg, calls[0], q);
      assert q in m1 && m1[q] == m[q];
      forall i | 0 <= i < |calls[1..]| ensures Keeps(cfg, calls[1..][i], q) {
        assert calls[1..][i] == calls[i + 1];
      }
      KeptWhilePresent(cfg, m1, calls[1..], q);
    }
  }

  /** A qualified key that is absent stays absent through calls that do not write it. */
  lemma {:induction false} StaysAbsent<V>(cfg: Config, m: Store<V>, calls: seq<Call<V>>, q: string)
    requires q !in m
    requires forall i :: 0 <= i < |calls| ==> !Writes(cfg, calls[i], q)
    ensures q !in Run(cfg, m, calls)
    decreases |calls|
  {
    if calls != [] {
      var m1 := Apply(cfg, m, calls[0]);
      assert !Writes(cfg, calls[0], q);
      assert q !in m1;
      forall i | 0 <= i < |calls[1..]| ensures !Writes(cfg, calls[1..][i], q) {
        assert calls[1..][i] == calls[i + 1];
      }
      StaysAbsent(cfg, m1, calls[1..], q);
    }
  }

  /** set followed by get finds the entry set, with the translated expiry and
      the tag, however many calls in between leave that qualified key alone
      (in this map model, where an entry stays until deleted or cleared). */
  lemma SetThenGet<V>(cfg: Config, m: Store<V>, key: string, value: V, timeout: Timeout,
                      version: Option<int>, tag: Option<string>, later: seq<Call<V>>)
    requires forall i :: 0 <= i < |later| ==> Keeps(cfg, later[i], cfg.makeKey(key, version))
    ensures var m' := Run(cfg, m, [SetCall(key, value, timeout, version, tag)] + later);
            && cfg.makeKey(key, version) in m'
            && m'[cfg.makeKey(key, version)] ==
                 Entry(value, BackendTimeout(timeout, cfg.defaultTimeout), tag)
  {
    var calls := [SetCall(key, value, timeout, version, tag)] + later;
    assert calls[0] == SetCall(key, value, timeout, version, tag) && calls[1..] == later;
    KeptWhilePresent(cfg, Apply(cfg, m, calls[0]), later, cfg.makeKey(key, version));
  }

  /** set under one version does not disturb what was set under another. */
  lemma VersionIsolation<V>(cfg: Config, m: Store<V>, key: string, v1: V, v2: V,
                            ver1: int, ver2: int, timeout: Timeout, tag: Option<string>)
    requires VersionsDisjoint(cfg)
    requires ver1 != ver2
    ensures var m' := Run(cfg, m, [SetCall(key, v1, timeout, Some(ver1), tag),
                                   SetCall(key, v2, timeout, Some(ver2), tag)]);
            && cfg.makeKey(key, Some(ver1)) in m' && m'[cfg.makeKey(key, Some(ver1))].value == v1
            && cfg.makeKey(key, Some(ver2)) in m' && m'[cfg.makeKey(key, Some(ver2))].value == v2
  {
    var first := SetCall(key, v1, timeout, Some(ver1), tag);
    var later := [SetCall(key, v2, timeout, Some(ver2), tag)];
    assert [first, later[0]] == [first] + later;
    assert Keeps(cfg, later[0], cfg.makeKey(key, Some(ver1)));
    SetThenGet(cfg, m, key, v1, timeout, Some(ver1), tag, later);
    assert [first, later[0]] == [first] + (later + []);
    SetThenGet(cfg, Apply(cfg, m, first), key, v2, timeout, Some(ver2), tag, []);
  }

  /** On an absent key, add writes exactly what set would; on a present key it changes nothing. */
  lemma AddIsGuardedSet<V>(cfg: Config, m: Store<V>, key: string, value: V, timeout: Timeout,
                           version: Option<int>, tag: Option<string>)
    ensures cfg.makeKey(key, version) in m ==> Apply(cfg, m, AddCall(key, value, timeout, version, tag)) == m
    ensures cfg.makeKey(key, version) !in m ==>
              Apply(cfg, m, AddCall(key, value, timeout, version, tag)) ==
              Apply(cfg, m, SetCall(key, value, timeout, version, tag))
  {
  }

  /** Of several adds of one qualified key, the first one wins: once an add has
      written an absent key, later adds of it find it present and the entry stays
      the first add's, through any calls that keep it. This holds of the map
      model, where an entry whose expiry has passed still counts as present. */
  lemma FirstAddWins<V>(cfg: Config, m: Store<V>, first: Call<V>, later: seq<Call<V>>)
    requires first.AddCall? && cfg.makeKey(first.key, first.version) !in m
    requires forall i :: 0 <= i < |later| ==> Keeps(cfg, later[i], cfg.makeKey(first.key, first.version))
    ensures var q := cfg.makeKey(first.key, first.version);
            var m' := Run(cfg, m, [first] + later);
            q in m' && m'[q] == NewEntry(cfg, first.value, first.timeout, first.tag)
  {
    var calls := [first] + later;
    assert calls[0] == first && calls[1..] == later;
    KeptWhilePresent(cfg, Apply(cfg, m, first), later, cfg.makeKey(first.key, first.version));
  }

  /** delete of an absent key changes nothing, and deleting twice is deleting once. */
  lemma DeleteIdempotent<V>(cfg: Config, m: Store<V>, key: string, version: Option<int>)
    ensures cfg.makeKey(key, version) !in m ==> Apply(cfg, m, DeleteCall(key, version)) == m
    ensures Apply(cfg, Apply(cfg, m, DeleteCall(key, version)), DeleteCall(key, version)) ==
            Apply(cfg, m, DeleteCall(key, version))
  {
  }

  /** After delete, has_key is false for that key and version until something writes it again. */
  lemma DeleteThenAbsent<V>(cfg: Config, m: Store<V>, key: string, version: Option<int>, later: seq<Call<V>>)
    requires forall i :: 0 <= i < |later| ==> !Writes(cfg, later[i], cfg.makeKey(key, version))
    ensures cfg.makeKey(key, version) !in Run(cfg, m, [DeleteCall(key, version)] + later)
  {
    var calls := [DeleteCall(key, version)] + later;
    assert calls[0] == DeleteCall(key, version) && calls[1..] == later;
    StaysAbsent(cfg, Apply(cfg, m, calls[0]), later, cfg.makeKey(key, version));
  }

  /** After clear, has_key is false for every key and version until something writes it again. */
  lemma ClearThenAbsent<V>(cfg: Config, m: Store<V>, key: string, version: Option<int>, later: seq<Call<V>>)
    requires forall i :: 0 <= i < |later| ==> !Writes(cfg, later[i], cfg.makeKey(key, version))
    ensures cfg.makeKey(key, version) !in Run(cfg, m, [ClearCall] + later)
  {
    var calls := [ClearCall] + later;
    assert calls[0] == ClearCall && calls[1..] == later;
    StaysAbsent(cfg, Apply(cfg, m, calls[0]), later, cfg.makeKey(key, version));
  }

  /** set with an explicit zero timeout stores an entry whose expiry has already passed. */
  lemma ZeroTimeoutStoresElapsed<V>(cfg: Config, m: Store<V>, key: string, value: V,
                                    version: Option<int>, tag: Option<string>)
    ensures var m' := Apply(cfg, m, SetCall(key, value, Secs(0), version, tag));
            cfg.makeKey(key, version) in m' && ElapsedOnWrite(m'[cfg.makeKey(key, version)].expire)
  {
  }

  /** set with an explicit None stores an entry that never expires. */
  lemma NoneTimeoutStoresNever<V>(cfg: Config, m: Store<V>, key: string, value: V,
                                  version: Option<int>, tag: Option<string>)
    ensures var m' := Apply(cfg, m, SetCall(key, value, NoExpiry, version, tag));
            cfg.makeKey(key, version) in m' && m'[cfg.makeKey(key, version)].expire == Never
  {
  }

  /** set without a timeout writes the same store as set with the configured
      default passed explicitly, unless that default is zero. */
  lemma DefaultTimeoutResolution<V>(cfg: Config, m: Store<V>, key: string, value: V,
                                    version: Option<int>, tag: Option<string>)
    ensures Apply(cfg, m, SetCall(key, value, UseDefault, version, tag)) ==
            Apply(cfg, m, SetCall(key, value, AsTimeout(cfg.defaultTimeout), version, tag))
            <==> cfg.defaultTimeout != After(0)
  {
    var q := cfg.makeKey(key, version);
    var byDefault := Apply(cfg, m, SetCall(key, value, UseDefault, version, tag));
    var explicit := Apply(cfg, m, SetCall(key, value, AsTimeout(cfg.defaultTimeout), version, tag));
    DefaultResolution(cfg.defaultTimeout);
    if cfg.defaultTimeout == After(0) {
      assert byDefault[q].expire != explicit[q].expire;
    }
  }
}
