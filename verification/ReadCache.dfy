/** The read cache of the Ragic client: cached values, the registry of reads in
    flight, and the generations that keep a slow read from refilling a cache entry
    that was cleared while it ran.  A value is identified by the load that fetched
    it, so "which value is served" and "which load fetched it" are one question. */
module ReadCache {
  import opened Options

  type Key = string
  type LoadId = nat

  datatype Generation = Generation(global: nat, key: nat)

  datatype State = State(
    cache: map<Key, LoadId>,
    inFlight: map<Key, LoadId>,
    inFlightCacheKey: map<Key, Key>,
    generationByKey: map<Key, nat>,
    globalGeneration: nat)

  /** What a started load's callbacks have captured. */
  datatype Load = Load(id: LoadId, cacheKey: Key, inFlightKey: Key, useCache: bool, generation: Generation)

  datatype ReadResult =
    | Cached(source: LoadId)
    | Joined(source: LoadId)
    | Started(load: Load)

  // ---- keys ----

  const SEPARATOR: string := "\0"

  function FormKey(path: string): Key { "form:" + path }

  function PagePrefix(path: string): Key { "form-page:" + path + ":" }

  function EntryPrefix(path: string): Key { "entry:" + path + ":" }

  /** `rest` holds the priority, timeout, retry and budget parts. */
  function BuildReadInFlightKey(cacheKey: Key, useCache: bool, rest: string): Key {
    cacheKey + SEPARATOR + (if useCache then "cache" else "live") + SEPARATOR + rest
  }

  predicate HasPrefix(key: Key, prefix: Key) {
    prefix <= key
  }

  /** The cache keys under which a form path's data is stored. */
  predicate IsKeyOf(path: string, cacheKey: Key) {
    cacheKey == FormKey(path) || HasPrefix(cacheKey, PagePrefix(path)) || HasPrefix(cacheKey, EntryPrefix(path))
  }

  /** The spellings of a path that clearing it covers, in the order of the code. */
  function Variants(path: string): seq<string> {
    if |path| > 0 && path[|path| - 1] == '/' then [path, path[..|path| - 1]] else [path, path + "/"]
  }

  predicate Covers(path: string, cacheKey: Key) {
    IsKeyOf(Variants(path)[0], cacheKey) || IsKeyOf(Variants(path)[1], cacheKey)
  }

  // ---- generations ----

  function KeyGeneration(st: State, k: Key): nat {
    if k in st.generationByKey then st.generationByKey[k] else 0
  }

  function CurrentGeneration(st: State, k: Key): Generation {
    Generation(st.globalGeneration, KeyGeneration(st, k))
  }

  predicate IsCurrent(st: State, load: Load) {
    CurrentGeneration(st, load.cacheKey) == load.generation
  }

  function Bump(st: State, k: Key): State {
    st.(generationByKey := st.generationByKey[k := KeyGeneration(st, k) + 1])
  }

  // ---- reads ----

  /** The synchronous part of a cacheable read. */
  function Begin(st: State, cacheKey: Key, inFlightKey: Key, useCache: bool, id: LoadId): (ReadResult, State) {
    if useCache && cacheKey in st.cache then (Cached(st.cache[cacheKey]), st)
    else if inFlightKey in st.inFlight then (Joined(st.inFlight[inFlightKey]), st)
    else
      var load := Load(id, cacheKey, inFlightKey, useCache, CurrentGeneration(st, cacheKey));
      (Started(load),
       st.(inFlight := st.inFlight[inFlightKey := id],
           inFlightCacheKey := st.inFlightCacheKey[inFlightKey := cacheKey]))
  }

  /** The load's value arrives; null and undefined values are never cached. */
  function Fulfil(st: State, load: Load, hasValue: bool): State {
    if load.useCache && IsCurrent(st, load) && hasValue
    then st.(cache := st.cache[load.cacheKey := load.id])
    else st
  }

  /** The load's `finally`: it unregisters itself, and only itself. */
  function Finish(st: State, load: Load): State {
    if load.inFlightKey in st.inFlight && st.inFlight[load.inFlightKey] == load.id
    then st.(inFlight := st.inFlight - {load.inFlightKey},
             inFlightCacheKey := st.inFlightCacheKey - {load.inFlightKey})
    else st
  }

  // ---- clearing ----

  /** The registered keys among `gone` that charge a generation bump to `k`. */
  function Charges(st: State, gone: set<Key>, k: Key): set<Key> {
    set ik | ik in gone && ik in st.inFlightCacheKey && st.inFlightCacheKey[ik] == k && k != "" :: ik
  }

  function ChargedKeys(st: State, gone: set<Key>): set<Key> {
    set ik | ik in gone && ik in st.inFlightCacheKey && st.inFlightCacheKey[ik] != "" :: st.inFlightCacheKey[ik]
  }

  /** Unregistering the reads `gone`: each one bumps the generation of its cache key. */
  function Unregister(st: State, gone: set<Key>): State {
    st.(inFlight := st.inFlight - gone,
        inFlightCacheKey := st.inFlightCacheKey - gone,
        generationByKey := map k | k in st.generationByKey.Keys + ChargedKeys(st, gone) ::
                             KeyGeneration(st, k) + |Charges(st, gone, k)|)
  }

  function RegisteredUnder(st: State, prefix: Key): set<Key> {
    set ik | ik in st.inFlight && HasPrefix(ik, prefix) :: ik
  }

  function ClearInFlightByPrefix(st: State, prefix: Key): State {
    Unregister(st, RegisteredUnder(st, prefix))
  }

  function ClearInFlightByCacheKey(st: State, k: Key): State {
    var bumped := Bump(st, k);
    ClearInFlightByPrefix(
      bumped.(inFlight := bumped.inFlight - {k}, inFlightCacheKey := bumped.inFlightCacheKey - {k}),
      k + SEPARATOR)
  }

  function Uncache(st: State, prefix: Key): State {
    st.(cache := map k | k in st.cache && !HasPrefix(k, prefix) :: st.cache[k])
  }

  function ClearVariant(st: State, path: string): State {
    var a := ClearInFlightByCacheKey(st.(cache := st.cache - {FormKey(path)}), FormKey(path));
    var b := ClearInFlightByPrefix(Uncache(a, PagePrefix(path)), PagePrefix(path));
    ClearInFlightByPrefix(Uncache(b, EntryPrefix(path)), EntryPrefix(path))
  }

  function ClearForm(st: State, path: string): State {
    ClearVariant(ClearVariant(st, Variants(path)[0]), Variants(path)[1])
  }

  function ClearAll(st: State): State {
    State(map[], map[], map[], map[], st.globalGeneration + 1)
  }

  const EMPTY := State(map[], map[], map[], map[], 0)

  // ---- the client object ----

  /** The cache key whose generation unregistering `ik` bumps. */
  predicate IsChargedTo(st: State, ik: Key, k: Key) {
    ik in st.inFlightCacheKey && st.inFlightCacheKey[ik] == k && k != ""
  }

  lemma ChargeOneMore(st: State, done: set<Key>, ik: Key, k: Key)
    requires ik !in done
    ensures |Charges(st, done + {ik}, k)| == |Charges(st, done, k)| + (if IsChargedTo(st, ik, k) then 1 else 0)
    ensures k in ChargedKeys(st, done + {ik}) <==> k in ChargedKeys(st, done) || IsChargedTo(st, ik, k)
    ensures k !in ChargedKeys(st, done) ==> |Charges(st, done, k)| == 0
  {
    UnchargedHasNoCharges(st, done, k);
    UnchargedHasNoCharges(st, done + {ik}, k);
    if IsChargedTo(st, ik, k) {
      assert Charges(st, done + {ik}, k) == Charges(st, done, k) + {ik};
    } else {
      assert Charges(st, done + {ik}, k) == Charges(st, done, k);
    }
  }

  function UnregisterOne(st: State, ik: Key): State {
    var bumped := if ik in st.inFlightCacheKey && st.inFlightCacheKey[ik] != ""
                  then Bump(st, st.inFlightCacheKey[ik]) else st;
    bumped.(inFlight := bumped.inFlight - {ik}, inFlightCacheKey := bumped.inFlightCacheKey - {ik})
  }

  lemma UnregisterOneMoreGeneration(st: State, done: set<Key>, ik: Key, k: Key)
    requires ik !in done
    ensures var after, one := Unregister(st, done + {ik}), UnregisterOne(Unregister(st, done), ik);
            && (k in after.generationByKey <==> k in one.generationByKey)
            && KeyGeneration(after, k) == KeyGeneration(one, k)
  {
    ChargeOneMore(st, done, ik, k);
  }

  lemma UnregisterOneMore(st: State, done: set<Key>, ik: Key)
    requires ik !in done
    ensures Unregister(st, done + {ik}) == UnregisterOne(Unregister(st, done), ik)
  {
    hide Charges, ChargedKeys, KeyGeneration;
    var after, one := Unregister(st, done + {ik}), UnregisterOne(Unregister(st, done), ik);
    assert st.inFlight - (done + {ik}) == (st.inFlight - done) - {ik};
    assert st.inFlightCacheKey - (done + {ik}) == (st.inFlightCacheKey - done) - {ik};
    SameGenerations(st, done, ik, after, one);
  }

  lemma SameGenerations(st: State, done: set<Key>, ik: Key, after: State, one: State)
    requires ik !in done
    requires after == Unregister(st, done + {ik}) && one == UnregisterOne(Unregister(st, done), ik)
    ensures after.generationByKey == one.generationByKey
  {
    hide Unregister, UnregisterOne;
    forall k
      ensures k in after.generationByKey <==> k in one.generationByKey
      ensures k in after.generationByKey ==> after.generationByKey[k] == one.generationByKey[k]
    {
      UnregisterOneMoreGeneration(st, done, ik, k);
    }
  }

  lemma UnchargedHasNoCharges(st: State, gone: set<Key>, k: Key)
    ensures k !in ChargedKeys(st, gone) <==> Charges(st, gone, k) == {}
  {
    if k in ChargedKeys(st, gone) {
      var ik :| ik in gone && ik in st.inFlightCacheKey && st.inFlightCacheKey[ik] == k && k != "";
      assert ik in Charges(st, gone, k);
    }
    if Charges(st, gone, k) != {} {
      var ik :| ik in Charges(st, gone, k);
      assert st.inFlightCacheKey[ik] in ChargedKeys(st, gone);
    }
  }

  class RagicReadCache {
    var cache: map<Key, LoadId>
    var inFlightReads: map<Key, LoadId>
    var inFlightReadCacheKeys: map<Key, Key>
    var cacheGenerationByKey: map<Key, nat>
    var globalCacheGeneration: nat

    ghost function Abstract(): State
      reads this
    {
      State(cache, inFlightReads, inFlightReadCacheKeys, cacheGenerationByKey, globalCacheGeneration)
    }

    constructor ()
      ensures Abstract() == EMPTY
    {
      cache, inFlightReads, inFlightReadCacheKeys := map[], map[], map[];
      cacheGenerationByKey, globalCacheGeneration := map[], 0;
    }

    method BumpCacheGeneration(cacheKey: Key)
      modifies this`cacheGenerationByKey
      ensures Abstract() == Bump(old(Abstract()), cacheKey)
    {
      var current := if cacheKey in cacheGenerationByKey then cacheGenerationByKey[cacheKey] else 0;
      cacheGenerationByKey := cacheGenerationByKey[cacheKey := current + 1];
    }

    /** `id` names the promise made when the read has to start a load. */
    method RunCacheableRead(cacheKey: Key, inFlightKey: Key, useCache: bool, id: LoadId) returns (r: ReadResult)
      modifies this
      ensures (r, Abstract()) == Begin(old(Abstract()), cacheKey, inFlightKey, useCache, id)
    {
      if useCache && cacheKey in cache {
        return Cached(cache[cacheKey]);
      }
      if inFlightKey in inFlightReads {
        return Joined(inFlightReads[inFlightKey]);
      }
      var current := if cacheKey in cacheGenerationByKey then cacheGenerationByKey[cacheKey] else 0;
      var generation := Generation(globalCacheGeneration, current);
      inFlightReads := inFlightReads[inFlightKey := id];
      inFlightReadCacheKeys := inFlightReadCacheKeys[inFlightKey := cacheKey];
      return Started(Load(id, cacheKey, inFlightKey, useCache, generation));
    }

    method OnLoadFulfilled(load: Load, hasValue: bool)
      modifies this`cache
      ensures Abstract() == Fulfil(old(Abstract()), load, hasValue)
    {
      if load.useCache && hasValue {
        var current := if load.cacheKey in cacheGenerationByKey then cacheGenerationByKey[load.cacheKey] else 0;
        if globalCacheGeneration == load.generation.global && current == load.generation.key {
          cache := cache[load.cacheKey := load.id];
        }
      }
    }

    method OnLoadFinally(load: Load)
      modifies this`inFlightReads, this`inFlightReadCacheKeys
      ensures Abstract() == Finish(old(Abstract()), load)
    {
      if load.inFlightKey in inFlightReads && inFlightReads[load.inFlightKey] == load.id {
        inFlightReads := inFlightReads - {load.inFlightKey};
        inFlightReadCacheKeys := inFlightReadCacheKeys - {load.inFlightKey};
      }
    }

    method ClearInFlightReadsByPrefix(prefix: Key)
      modifies this`inFlightReads, this`inFlightReadCacheKeys, this`cacheGenerationByKey
      ensures Abstract() == ClearInFlightByPrefix(old(Abstract()), prefix)
    {
      ghost var st := Abstract();
      ghost var done: set<Key> := {};
      var todo := set ik | ik in inFlightReads && HasPrefix(ik, prefix) :: ik;
      assert todo == RegisteredUnder(st, prefix);
      UnregisterNone(st);
      while todo != {}
        invariant todo !! done && todo + done == RegisteredUnder(st, prefix)
        invariant Abstract() == Unregister(st, done)
        decreases todo
      {
        var key :| key in todo;
        UnregisterOneMore(st, done, key);
        if key in inFlightReadCacheKeys && inFlightReadCacheKeys[key] != "" {
          BumpCacheGeneration(inFlightReadCacheKeys[key]);
        }
        inFlightReads := inFlightReads - {key};
        inFlightReadCacheKeys := inFlightReadCacheKeys - {key};
        done := done + {key};
        todo := todo - {key};
      }
    }

    method ClearInFlightReadByCacheKey(cacheKey: Key)
      modifies this`inFlightReads, this`inFlightReadCacheKeys, this`cacheGenerationByKey
      ensures Abstract() == ClearInFlightByCacheKey(old(Abstract()), cacheKey)
    {
      BumpCacheGeneration(cacheKey);
      inFlightReads := inFlightReads - {cacheKey};
      inFlightReadCacheKeys := inFlightReadCacheKeys - {cacheKey};
      ClearInFlightReadsByPrefix(cacheKey + SEPARATOR);
    }

    method DeleteCachedByPrefix(prefix: Key)
      modifies this`cache
      ensures Abstract() == Uncache(old(Abstract()), prefix)
    {
      var keys := set k | k in cache && HasPrefix(k, prefix) :: k;
      cache := cache - keys;
    }

    method ClearFormCache(formPath: string)
      modifies this
      ensures Abstract() == ClearForm(old(Abstract()), formPath)
    {
      var variants := Variants(formPath);
      ghost var st := Abstract();
      for i := 0 to |variants|
        invariant Abstract() == if i == 0 then st
                                else if i == 1 then ClearVariant(st, variants[0]) else ClearForm(st, formPath)
      {
        var path := variants[i];
        cache := cache - {FormKey(path)};
        ClearInFlightReadByCacheKey(FormKey(path));
        DeleteCachedByPrefix(PagePrefix(path));
        ClearInFlightReadsByPrefix(PagePrefix(path));
        DeleteCachedByPrefix(EntryPrefix(path));
        ClearInFlightReadsByPrefix(EntryPrefix(path));
      }
    }

    method ClearCache()
      modifies this
      ensures Abstract() == ClearAll(old(Abstract()))
    {
      globalCacheGeneration := globalCacheGeneration + 1;
      inFlightReads, inFlightReadCacheKeys, cacheGenerationByKey := map[], map[], map[];
      cache := map[];
    }
  }

  lemma UnregisterNone(st: State)
    ensures Unregister(st, {}) == st
  {
    forall k ensures Charges(st, {}, k) == {} {
    }
    assert ChargedKeys(st, {}) == {};
    assert st.inFlight - {} == st.inFlight;
    assert st.inFlightCacheKey - {} == st.inFlightCacheKey;
  }
}
