/** What sharing a load in flight means over whole runs: when a started load stays the
    one that reads of its key join, when the value it fetched stays the one that cached
    reads get, and that a load one can still join is a load that may still be cached. */
module ReadSharing {
  import opened ReadCache
  import opened ReadCacheSafety

  // ---- a registered load is current ----

  /** Every registered read begins with its cache key and the separator. */
  ghost predicate Keyed(st: State) {
    forall ik :: ik in st.inFlightCacheKey ==> HasPrefix(ik, st.inFlightCacheKey[ik] + SEPARATOR)
  }

  /** `st'` keeps a part of the registry of `st` and no generation of what it keeps has moved. */
  ghost predicate KeepsSurvivors(st: State, st': State) {
    forall ik :: ik in st'.inFlightCacheKey ==>
      && ik in st.inFlightCacheKey && st'.inFlightCacheKey[ik] == st.inFlightCacheKey[ik]
      && KeyGeneration(st', st.inFlightCacheKey[ik]) == KeyGeneration(st, st.inFlightCacheKey[ik])
  }

  lemma SurvivorsCompose(a: State, b: State, c: State)
    requires KeepsSurvivors(a, b) && KeepsSurvivors(b, c)
    ensures KeepsSurvivors(a, c)
  {
    forall ik | ik in c.inFlightCacheKey
      ensures ik in a.inFlightCacheKey && c.inFlightCacheKey[ik] == a.inFlightCacheKey[ik]
      ensures KeyGeneration(c, a.inFlightCacheKey[ik]) == KeyGeneration(a, a.inFlightCacheKey[ik])
    {
      assert ik in b.inFlightCacheKey;
    }
  }

  /** No separator before the last character, so a prefix never ends inside what
      follows the cache key. */
  predicate EndsByTheKey(prefix: Key) {
    forall i :: 0 <= i < |prefix| - 1 ==> prefix[i] != '\0'
  }

  /** Two reads of one cache key have such a prefix together or not at all. */
  lemma SameKeySamePrefix(prefix: Key, k: Key, a: Key, b: Key)
    requires EndsByTheKey(prefix) && HasPrefix(a, prefix)
    requires HasPrefix(a, k + SEPARATOR) && HasPrefix(b, k + SEPARATOR)
    ensures HasPrefix(b, prefix)
  {
    var key := k + SEPARATOR;
    assert a[|k|] == key[|k|] == '\0';
    assert |prefix| <= |key|;
    assert forall i :: 0 <= i < |prefix| ==> prefix[i] == a[i] == key[i] == b[i];
  }

  lemma ClearByPrefixKeepsSurvivors(st: State, prefix: Key)
    requires RegistryShape(st) && Keyed(st) && EndsByTheKey(prefix)
    ensures KeepsSurvivors(st, ClearInFlightByPrefix(st, prefix)) && Keyed(ClearInFlightByPrefix(st, prefix))
  {
    hide HasPrefix;
    var gone := RegisteredUnder(st, prefix);
    var st' := ClearInFlightByPrefix(st, prefix);
    forall ik | ik in st'.inFlightCacheKey
      ensures KeyGeneration(st', st.inFlightCacheKey[ik]) == KeyGeneration(st, st.inFlightCacheKey[ik])
    {
      var k := st.inFlightCacheKey[ik];
      UnregisterGeneration(st, gone, k);
      forall x | x in Charges(st, gone, k) ensures false {
        SameKeySamePrefix(prefix, k, x, ik);
      }
      assert Charges(st, gone, k) == {};
    }
  }

  lemma ClearByCacheKeyKeepsSurvivors(st: State, k: Key)
    requires RegistryShape(st) && Keyed(st) && '\0' !in k
    ensures KeepsSurvivors(st, ClearInFlightByCacheKey(st, k)) && Keyed(ClearInFlightByCacheKey(st, k))
  {
    hide HasPrefix, RegisteredUnder, Charges, ChargedKeys;
    var bumped := Bump(st, k);
    var st1 := bumped.(inFlight := bumped.inFlight - {k}, inFlightCacheKey := bumped.inFlightCacheKey - {k});
    var st2 := ClearInFlightByCacheKey(st, k);
    ClearByPrefixFacts(st1, k + SEPARATOR);
    ClearByPrefixKeepsSurvivors(st1, k + SEPARATOR);
    forall ik | ik in st2.inFlightCacheKey
      ensures KeyGeneration(st2, st.inFlightCacheKey[ik]) == KeyGeneration(st, st.inFlightCacheKey[ik])
    {
      assert ik in st2.inFlight && ik in st1.inFlight && !HasPrefix(ik, k + SEPARATOR);
      assert st.inFlightCacheKey[ik] != k;
    }
  }

  /** Reached from `st` by clearing, with every survivor's generation as it was. */
  ghost predicate ClearedFrom(st: State, now: State) {
    RegistryShape(now) && Keyed(now) && KeepsSurvivors(st, now)
  }

  lemma ThenCacheOnly(st: State, now: State, next: State)
    requires ClearedFrom(st, now) && next == now.(cache := next.cache)
    ensures ClearedFrom(st, next)
  {
    assert KeepsSurvivors(now, next);
  }

  lemma ThenByPrefix(st: State, now: State, prefix: Key)
    requires ClearedFrom(st, now) && EndsByTheKey(prefix)
    ensures ClearedFrom(st, ClearInFlightByPrefix(now, prefix))
  {
    ClearByPrefixFacts(now, prefix);
    ClearByPrefixKeepsSurvivors(now, prefix);
    SurvivorsCompose(st, now, ClearInFlightByPrefix(now, prefix));
  }

  lemma ThenByCacheKey(st: State, now: State, k: Key)
    requires ClearedFrom(st, now) && '\0' !in k
    ensures ClearedFrom(st, ClearInFlightByCacheKey(now, k))
  {
    ClearByCacheKeyFacts(now, k);
    ClearByCacheKeyKeepsSurvivors(now, k);
    SurvivorsCompose(st, now, ClearInFlightByCacheKey(now, k));
  }

  lemma ThenVariant(st: State, now: State, v: string)
    requires ClearedFrom(st, now) && '\0' !in v
    ensures ClearedFrom(st, ClearVariant(now, v))
  {
    hide ClearedFrom, ClearInFlightByCacheKey, ClearInFlightByPrefix;
    var now1 := now.(cache := now.cache - {FormKey(v)});
    ThenCacheOnly(st, now, now1);
    ThenByCacheKey(st, now1, FormKey(v));
    var a := ClearInFlightByCacheKey(now1, FormKey(v));
    ThenCacheOnly(st, a, Uncache(a, PagePrefix(v)));
    ThenByPrefix(st, Uncache(a, PagePrefix(v)), PagePrefix(v));
    var b := ClearInFlightByPrefix(Uncache(a, PagePrefix(v)), PagePrefix(v));
    ThenCacheOnly(st, b, Uncache(b, EntryPrefix(v)));
    ThenByPrefix(st, Uncache(b, EntryPrefix(v)), EntryPrefix(v));
  }

  lemma ClearFormKeepsSurvivors(st: State, path: string)
    requires RegistryShape(st) && Keyed(st) && '\0' !in path
    ensures KeepsSurvivors(st, ClearForm(st, path))
  {
    hide ClearVariant;
    var vs := Variants(path);
    assert KeepsSurvivors(st, st);
    ThenVariant(st, st, vs[0]);
    ThenVariant(st, ClearVariant(st, vs[0]), vs[1]);
  }

  ghost predicate RegisteredIsCurrent(s: System, ik: Key)
    requires ik in s.st.inFlight
  {
    s.st.inFlight[ik] in s.loads && IsCurrent(s.st, s.loads[s.st.inFlight[ik]].load)
  }

  ghost predicate Good(s: System) {
    && Inv(s)
    && forall ik {:trigger RegisteredIsCurrent(s, ik)} :: ik in s.st.inFlight ==> RegisteredIsCurrent(s, ik)
  }

  lemma RegistryIsKeyed(s: System)
    requires Inv(s)
    ensures RegistryShape(s.st) && Keyed(s.st)
  {
    forall ik | ik in s.st.inFlightCacheKey ensures HasPrefix(ik, s.st.inFlightCacheKey[ik] + SEPARATOR) {
      assert ik in s.st.inFlight;
      assert LoadOk(s, s.st.inFlight[ik]);
    }
  }

  lemma FormClearKeepsCurrent(s: System, path: string)
    requires Good(s) && Enabled(s, FormIsCleared(path))
    ensures var s' := Apply(s, FormIsCleared(path));
            forall ik :: ik in s'.st.inFlight ==> RegisteredIsCurrent(s', ik)
  {
    hide ClearForm;
    var s' := Apply(s, FormIsCleared(path));
    RegistryIsKeyed(s);
    ClearFormDrops(s.st, path);
    ClearFormKeepsSurvivors(s.st, path);
    forall ik | ik in s'.st.inFlight ensures RegisteredIsCurrent(s', ik) {
      assert RegisteredIsCurrent(s, ik);
      assert ik in s'.st.inFlightCacheKey;
    }
  }

  lemma ReadKeepsCurrent(s: System, k: Key, ik: Key, useCache: bool, id: LoadId)
    requires Good(s) && id !in s.loads
    ensures var s' := ReadStep(s, k, ik, useCache, id).(clock := s.clock + 1);
            forall x :: x in s'.st.inFlight ==> RegisteredIsCurrent(s', x)
  {
    var s' := ReadStep(s, k, ik, useCache, id).(clock := s.clock + 1);
    forall x | x in s'.st.inFlight ensures RegisteredIsCurrent(s', x) {
      if x in s.st.inFlight {
        assert RegisteredIsCurrent(s, x);
      }
    }
  }

  lemma ReadEventKeepsCurrent(s: System, t: Target, useCache: bool, rest: string, id: LoadId)
    requires Good(s) && id !in s.loads
    ensures var s' := Apply(s, Read(t, useCache, rest, id));
            forall x :: x in s'.st.inFlight ==> RegisteredIsCurrent(s', x)
  {
    hide Good, ReadStep, CacheKey, BuildReadInFlightKey, RegisteredIsCurrent;
    var k, ik := CacheKey(t), BuildReadInFlightKey(CacheKey(t), useCache, rest);
    assert Apply(s, Read(t, useCache, rest, id)) == ReadStep(s, k, ik, useCache, id).(clock := s.clock + 1);
    ReadKeepsCurrent(s, k, ik, useCache, id);
  }

  /** Steps of loads and of time move no generation. */
  lemma QuietKeepsCurrent(s: System, e: Event)
    requires Good(s) && (e.LoadFulfils? || e.LoadRejects? || e.LoadUnregisters? || e.EntryExpires?)
    ensures var s' := Apply(s, e); forall x :: x in s'.st.inFlight ==> RegisteredIsCurrent(s', x)
  {
    hide Inv;
    var s' := Apply(s, e);
    forall x | x in s'.st.inFlight ensures RegisteredIsCurrent(s', x) {
      assert RegisteredIsCurrent(s, x);
    }
  }

  lemma ApplyKeepsGood(s: System, e: Event)
    requires Good(s)
    ensures Good(Apply(s, e))
  {
    hide Inv, RegisteredIsCurrent, ReadStep, ClearForm, CacheKey, BuildReadInFlightKey, Fulfil, Finish, WithProgress;
    ApplyKeepsInv(s, e);
    if Enabled(s, e) {
      match e
      case Read(t, useCache, rest, id) => ReadEventKeepsCurrent(s, t, useCache, rest, id);
      case FormIsCleared(path) => FormClearKeepsCurrent(s, path);
      case CacheIsCleared =>
      case _ => QuietKeepsCurrent(s, e);
    }
  }

  lemma {:induction false} RunKeepsGood(s: System, events: seq<Event>)
    requires Good(s)
    ensures Good(Run(s, events))
  {
    if |events| > 0 {
      RunKeepsGood(s, events[..|events| - 1]);
      ApplyKeepsGood(Run(s, events[..|events| - 1]), events[|events| - 1]);
    }
  }

  /** In every reachable state an unsettled load may still write the cache exactly while
      it is the one that reads of its key join: no clear leaves behind a load that later
      reads share but that can no longer be cached, nor one that could still be cached
      unseen. */
  lemma RegisteredIffCurrent(events: seq<Event>, id: LoadId)
    requires Is(Run(START, events), id, Loading)
    ensures var s := Run(START, events);
            IsCurrent(s.st, s.loads[id].load) <==> IsRegistered(s, id, s.loads[id].load.inFlightKey)
  {
    var s := Run(START, events);
    RunKeepsGood(START, events);
    assert Registered(s, id);
    var ik := s.loads[id].load.inFlightKey;
    if ik in s.st.inFlight && s.st.inFlight[ik] == id {
      assert RegisteredIsCurrent(s, ik);
    }
  }

  // ---- how long a load is shared ----

  predicate IsRegistered(s: System, id: LoadId, ik: Key) {
    ik in s.st.inFlight && s.st.inFlight[ik] == id
  }

  /** The events after which reads no longer join load `id`. */
  predicate Parts(s: System, e: Event, id: LoadId, ik: Key) {
    && Enabled(s, e)
    && match e
       case LoadUnregisters(x) => x == id
       case FormIsCleared(path) => CoversInFlight(path, ik)
       case CacheIsCleared => true
       case _ => false
  }

  predicate PartedIn(s: System, events: seq<Event>, id: LoadId, ik: Key) {
    && |events| > 0
    && (|| PartedIn(s, events[..|events| - 1], id, ik)
        || Parts(Run(s, events[..|events| - 1]), events[|events| - 1], id, ik))
  }

  /** A load is never replaced by another of its name, and an ended one never loads again. */
  lemma StepKeepsLoad(s: System, e: Event, id: LoadId)
    requires id in s.loads
    ensures id in Apply(s, e).loads && Apply(s, e).loads[id].load == s.loads[id].load
    ensures s.loads[id].progress != Loading ==> Apply(s, e).loads[id].progress != Loading
  {
    hide Begin, Fulfil, Finish, ClearForm, ClearAll, CacheKey, BuildReadInFlightKey;
  }

  lemma ReadKeepsRegistered(s: System, k: Key, key: Key, useCache: bool, next: LoadId, id: LoadId, ik: Key)
    requires id in s.loads && next !in s.loads
    ensures IsRegistered(ReadStep(s, k, key, useCache, next), id, ik) <==> IsRegistered(s, id, ik)
  {
  }

  lemma UnregistersOnlyItself(s: System, x: LoadId, id: LoadId, ik: Key)
    requires Inv(s) && Is(s, x, Settled) && id in s.loads && s.loads[id].load.inFlightKey == ik
    ensures IsRegistered(Effect(s, LoadUnregisters(x)), id, ik) <==> IsRegistered(s, id, ik) && x != id
  {
    assert LoadOk(s, x);
  }

  lemma FormClearPartsCovered(s: System, path: string, id: LoadId, ik: Key)
    requires Inv(s) && '\0' !in path
    ensures IsRegistered(Effect(s, FormIsCleared(path)), id, ik)
            <==> IsRegistered(s, id, ik) && !CoversInFlight(path, ik)
  {
    hide ClearForm, CoversInFlight;
    ClearFormDrops(s.st, path);
    ClearFormRegistry(s.st, path, ik);
  }

  lemma RegisteredAfterStep(s: System, e: Event, id: LoadId, ik: Key)
    requires Inv(s) && id in s.loads && s.loads[id].load.inFlightKey == ik
    ensures IsRegistered(Apply(s, e), id, ik) <==> IsRegistered(s, id, ik) && !Parts(s, e, id, ik)
  {
    hide ReadStep, ClearForm, CacheKey, BuildReadInFlightKey, CoversInFlight, Inv;
    if Enabled(s, e) {
      match e
      case Read(t, useCache, rest, x) =>
        ReadKeepsRegistered(s, CacheKey(t), BuildReadInFlightKey(CacheKey(t), useCache, rest), useCache, x, id, ik);
      case LoadUnregisters(x) => UnregistersOnlyItself(s, x, id, ik);
      case FormIsCleared(path) => FormClearPartsCovered(s, path, id, ik);
      case _ =>
    }
  }

  /** While a load is registered, no step starts another one under its key. */
  lemma NoSecondLoad(s: System, e: Event, id: LoadId, ik: Key, x: LoadId)
    requires IsRegistered(s, id, ik) && x in Apply(s, e).loads && x !in s.loads
    ensures Apply(s, e).loads[x].load.inFlightKey != ik
  {
    hide ClearForm, ClearAll, Fulfil, Finish, CacheKey, BuildReadInFlightKey;
  }

  lemma {:induction false} RegisteredAfterRun(s: System, events: seq<Event>, id: LoadId, ik: Key)
    requires Inv(s) && id in s.loads && s.loads[id].load.inFlightKey == ik
    ensures Inv(Run(s, events))
    ensures id in Run(s, events).loads && Run(s, events).loads[id].load == s.loads[id].load
    ensures IsRegistered(Run(s, events), id, ik) <==> IsRegistered(s, id, ik) && !PartedIn(s, events, id, ik)
  {
    hide Inv, Apply, Parts;
    if |events| > 0 {
      var front, e := events[..|events| - 1], events[|events| - 1];
      RegisteredAfterRun(s, front, id, ik);
      ApplyKeepsInv(Run(s, front), e);
      StepKeepsLoad(Run(s, front), e, id);
      RegisteredAfterStep(Run(s, front), e, id, ik);
    }
  }

  lemma {:induction false} NoSecondLoadInRun(s: System, events: seq<Event>, id: LoadId, ik: Key, x: LoadId)
    requires Inv(s) && IsRegistered(s, id, ik) && id in s.loads && s.loads[id].load.inFlightKey == ik
    requires !PartedIn(s, events, id, ik) && x in Run(s, events).loads && x !in s.loads
    ensures Run(s, events).loads[x].load.inFlightKey != ik
  {
    hide Inv, Apply, Parts;
    if |events| > 0 {
      var front, e := events[..|events| - 1], events[|events| - 1];
      RegisteredAfterRun(s, front, id, ik);
      if x in Run(s, front).loads {
        NoSecondLoadInRun(s, front, id, ik, x);
        StepKeepsLoad(Run(s, front), e, x);
      } else {
        NoSecondLoad(Run(s, front), e, id, ik, x);
      }
    }
  }

  /** A load that a read starts is the one that reads of its key join for as long as it
      has not unregistered itself and nothing has cleared its key, and not any longer;
      so long no other load of that key starts, and a read of it that the cache does not
      answer joins. */
  lemma LoadIsShared(before: seq<Event>, t: Target, useCache: bool, rest: string, id: LoadId, events: seq<Event>)
    requires id !in Run(START, before).loads
    requires Begin(Run(START, before).st, CacheKey(t), BuildReadInFlightKey(CacheKey(t), useCache, rest), useCache, id).0.Started?
    ensures var ik := BuildReadInFlightKey(CacheKey(t), useCache, rest);
            var s := Apply(Run(START, before), Read(t, useCache, rest, id));
            var later := Run(s, events);
            && (IsRegistered(later, id, ik) <==> !PartedIn(s, events, id, ik))
            && (!PartedIn(s, events, id, ik) ==>
                  && (forall x :: x in later.loads && x !in s.loads ==> later.loads[x].load.inFlightKey != ik)
                  && (forall next :: Begin(later.st, CacheKey(t), ik, useCache, next).0
                        == if useCache && CacheKey(t) in later.st.cache
                           then Cached(later.st.cache[CacheKey(t)]) else Joined(id)))
  {
    hide Inv, CacheKey, BuildReadInFlightKey, Run, Parts;
    var ik := BuildReadInFlightKey(CacheKey(t), useCache, rest);
    var s := Apply(Run(START, before), Read(t, useCache, rest, id));
    RunKeepsInv(before);
    ApplyKeepsInv(Run(START, before), Read(t, useCache, rest, id));
    assert IsRegistered(s, id, ik) && id in s.loads && s.loads[id].load.inFlightKey == ik;
    RegisteredAfterRun(s, events, id, ik);
    if !PartedIn(s, events, id, ik) {
      forall x | x in Run(s, events).loads && x !in s.loads
        ensures Run(s, events).loads[x].load.inFlightKey != ik
      {
        NoSecondLoadInRun(s, events, id, ik, x);
      }
    }
  }

  // ---- how long its value is served ----

  predicate IsCached(s: System, id: LoadId, k: Key) {
    k in s.st.cache && s.st.cache[k] == id
  }

  /** The events that take a value out of the cache or put another in its place. */
  predicate Displaces(s: System, e: Event, k: Key) {
    && Enabled(s, e)
    && match e
       case LoadFulfils(x, hasValue) =>
         var load := s.loads[x].load;
         hasValue && load.useCache && load.cacheKey == k && IsCurrent(s.st, load)
       case EntryExpires(key) => key == k
       case FormIsCleared(path) => Covers(path, k)
       case CacheIsCleared => true
       case _ => false
  }

  predicate DisplacedIn(s: System, events: seq<Event>, k: Key) {
    && |events| > 0
    && (|| DisplacedIn(s, events[..|events| - 1], k)
        || Displaces(Run(s, events[..|events| - 1]), events[|events| - 1], k))
  }

  lemma FulfilledLoadReplaces(s: System, x: LoadId, hasValue: bool, id: LoadId, k: Key)
    requires Inv(s) && Is(s, x, Loading) && x != id
    ensures IsCached(Effect(s, LoadFulfils(x, hasValue)), id, k)
            <==> IsCached(s, id, k) && !Displaces(s, LoadFulfils(x, hasValue), k)
  {
    assert LoadOk(s, x);
  }

  lemma CachedAfterStep(s: System, e: Event, id: LoadId, k: Key)
    requires Inv(s) && id in s.loads && s.loads[id].progress != Loading
    ensures IsCached(Apply(s, e), id, k) <==> IsCached(s, id, k) && !Displaces(s, e, k)
  {
    hide Inv, ClearForm, Covers, CacheKey, BuildReadInFlightKey, IsCurrent;
    if Enabled(s, e) {
      match e
      case LoadFulfils(x, hasValue) => FulfilledLoadReplaces(s, x, hasValue, id, k);
      case FormIsCleared(path) => ClearFormCache(s.st, path, k);
      case _ =>
    }
  }

  lemma {:induction false} CachedAfterRun(s: System, events: seq<Event>, id: LoadId, k: Key)
    requires Inv(s) && id in s.loads && s.loads[id].progress != Loading
    ensures Inv(Run(s, events))
    ensures id in Run(s, events).loads && Run(s, events).loads[id].progress != Loading
    ensures IsCached(Run(s, events), id, k) <==> IsCached(s, id, k) && !DisplacedIn(s, events, k)
  {
    hide Inv, Apply, Displaces;
    if |events| > 0 {
      var front, e := events[..|events| - 1], events[|events| - 1];
      CachedAfterRun(s, front, id, k);
      ApplyKeepsInv(Run(s, front), e);
      StepKeepsLoad(Run(s, front), e, id);
      CachedAfterStep(Run(s, front), e, id, k);
    }
  }

  /** The value of a caching load that is still joined when it arrives is what cached
      reads of its key get from then on, until it expires, a clear covers it, or a later
      load of the key stores its own; and not any longer. */
  lemma FetchedValueIsServed(before: seq<Event>, id: LoadId, events: seq<Event>)
    requires var s := Run(START, before);
             Is(s, id, Loading) && s.loads[id].load.useCache && IsRegistered(s, id, s.loads[id].load.inFlightKey)
    ensures var k := Run(START, before).loads[id].load.cacheKey;
            var s := Apply(Run(START, before), LoadFulfils(id, true));
            forall ik, next :: Begin(Run(s, events).st, k, ik, true, next).0 == Cached(id)
                               <==> !DisplacedIn(s, events, k)
  {
    hide Inv, Run, Displaces;
    var s0 := Run(START, before);
    var k := s0.loads[id].load.cacheKey;
    var s := Apply(s0, LoadFulfils(id, true));
    RegisteredIffCurrent(before, id);
    RunKeepsInv(before);
    FulfilCaches(s0, id);
    ApplyKeepsInv(s0, LoadFulfils(id, true));
    CachedAfterRun(s, events, id, k);
  }

  lemma FulfilCaches(s: System, id: LoadId)
    requires Inv(s) && Is(s, id, Loading) && s.loads[id].load.useCache && IsCurrent(s.st, s.loads[id].load)
    ensures var s' := Apply(s, LoadFulfils(id, true));
            IsCached(s', id, s.loads[id].load.cacheKey) && Is(s', id, Settled)
  {
    assert LoadOk(s, id);
  }

  // ---- where a cached value comes from ----

  /** At step `j` load `id` arrived with a value, asked to be cached under `k`, and nothing
      had cleared `k` since it began. */
  predicate StoredAt(s: System, events: seq<Event>, id: LoadId, k: Key, j: nat)
    requires j < |events|
  {
    var now := Run(s, events[..j]);
    && events[j] == LoadFulfils(id, true) && Is(now, id, Loading)
    && now.loads[id].load.useCache && now.loads[id].load.cacheKey == k && IsCurrent(now.st, now.loads[id].load)
  }

  lemma StepStores(s: System, e: Event, k: Key)
    requires Inv(s) && k in Apply(s, e).st.cache
    ensures var id := Apply(s, e).st.cache[k];
            || IsCached(s, id, k)
            || (&& e == LoadFulfils(id, true) && Is(s, id, Loading)
                && s.loads[id].load.useCache && s.loads[id].load.cacheKey == k && IsCurrent(s.st, s.loads[id].load))
  {
    hide ClearForm, Covers, CacheKey, BuildReadInFlightKey, IsCurrent;
    if Enabled(s, e) {
      match e
      case LoadFulfils(id, _) => assert LoadOk(s, id);
      case FormIsCleared(path) => ClearFormCache(s.st, path, k);
      case _ =>
    }
  }

  /** In every run each cached value was put there by a load that arrived with it, cached and
      current, under its own key. */
  lemma {:induction false} CachedValuesWereFetched(events: seq<Event>, k: Key)
    requires k in Run(START, events).st.cache
    ensures exists j :: 0 <= j < |events| && StoredAt(START, events, Run(START, events).st.cache[k], k, j)
  {
    hide Inv, Apply;
    var front, last := events[..|events| - 1], |events| - 1;
    var id := Run(START, events).st.cache[k];
    RunKeepsInv(front);
    StepStores(Run(START, front), events[last], k);
    if IsCached(Run(START, front), id, k) {
      CachedValuesWereFetched(front, k);
      var j :| 0 <= j < |front| && StoredAt(START, front, id, k, j);
      assert front[..j] == events[..j];
      assert StoredAt(START, events, id, k, j);
    } else {
      assert StoredAt(START, events, id, k, last);
    }
  }

  lemma {:induction false} EndedStaysEnded(s: System, events: seq<Event>, id: LoadId)
    requires id in s.loads && s.loads[id].progress != Loading
    ensures id in Run(s, events).loads && Run(s, events).loads[id].progress != Loading
  {
    hide Apply;
    if |events| > 0 {
      EndedStaysEnded(s, events[..|events| - 1], id);
      StepKeepsLoad(Run(s, events[..|events| - 1]), events[|events| - 1], id);
    }
  }

  lemma {:induction false} RunSplits(s: System, events: seq<Event>, i: nat)
    requires i <= |events|
    ensures Run(s, events) == Run(Run(s, events[..i]), events[i..])
  {
    hide Apply;
    if i < |events| {
      RunSplits(s, events[..|events| - 1], i);
      assert events[..|events| - 1][..i] == events[..i];
      assert events[i..][..|events[i..]| - 1] == events[..|events| - 1][i..];
    } else {
      assert events[..i] == events && events[i..] == [];
    }
  }

  /** A load ends once. */
  lemma EndsOnce(events: seq<Event>, id: LoadId, i: nat, j: nat)
    requires i < j < |events|
    requires Is(Run(START, events[..i]), id, Loading) && (events[i].LoadFulfils? || events[i].LoadRejects?) && events[i].id == id
    ensures !Is(Run(START, events[..j]), id, Loading)
  {
    assert events[..i + 1][..i] == events[..i];
    assert events[..j][..i + 1] == events[..i + 1];
    RunSplits(START, events[..j], i + 1);
    EndedStaysEnded(Run(START, events[..i + 1]), events[..j][i + 1..], id);
  }

  /** A load that ends without a value, or fails, never answers a later read from the cache:
      it is not in the cache then or at any later time. */
  lemma NoValueIsNeverCached(events: seq<Event>, i: nat, id: LoadId, k: Key)
    requires i < |events| && Is(Run(START, events[..i]), id, Loading)
    requires events[i] == LoadFulfils(id, false) || events[i] == LoadRejects(id)
    ensures !IsCached(Run(START, events), id, k)
  {
    hide Run, Apply;
    if IsCached(Run(START, events), id, k) {
      CachedValuesWereFetched(events, k);
      var j :| 0 <= j < |events| && StoredAt(START, events, id, k, j);
      if i < j {
        EndsOnce(events, id, i, j);
      } else if j < i {
        EndsOnce(events, id, j, i);
      }
    }
  }
}
