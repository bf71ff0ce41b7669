/** Runs of the read cache: any interleaving of reads, settling loads, expiring
    entries, form clears and full clears.  The registration invariant makes every
    clear reach every load that could still write, and so no read is ever served a
    value that was being fetched when its form was last cleared. */
module ReadCacheSafety {
  import opened ReadCache

  datatype Target = Form(path: string) | Page(path: string, rest: string) | Entry(path: string, rest: string)

  datatype Progress = Loading | Settled | Unregistered

  datatype LoadInfo = LoadInfo(load: Load, began: nat, progress: Progress)

  datatype Scope = Everything | OneForm(path: string)

  datatype Clear = Clear(at: nat, scope: Scope)

  /** A read begun at `readAt` was bound to the value of load `source`. */
  datatype Served = Served(readAt: nat, cacheKey: Key, source: LoadId)

  datatype System = System(
    st: State,
    loads: map<LoadId, LoadInfo>,
    clears: seq<Clear>,
    served: seq<Served>,
    clock: nat)

  datatype Event =
    | Read(target: Target, useCache: bool, rest: string, id: LoadId)
    | LoadFulfils(id: LoadId, hasValue: bool)
    | LoadRejects(id: LoadId)
    | LoadUnregisters(id: LoadId)
    | EntryExpires(cacheKey: Key)
    | FormIsCleared(path: string)
    | CacheIsCleared

  function CacheKey(t: Target): Key {
    match t
    case Form(path) => FormKey(path)
    case Page(path, rest) => PagePrefix(path) + rest
    case Entry(path, rest) => EntryPrefix(path) + rest
  }

  function Source(r: ReadResult): LoadId {
    match r
    case Cached(id) => id
    case Joined(id) => id
    case Started(load) => load.id
  }

  function ReadStep(s: System, cacheKey: Key, inFlightKey: Key, useCache: bool, id: LoadId): System {
    var (r, st) := Begin(s.st, cacheKey, inFlightKey, useCache, id);
    s.(st := st,
       loads := if r.Started? then s.loads[id := LoadInfo(r.load, s.clock, Loading)] else s.loads,
       served := s.served + [Served(s.clock, cacheKey, Source(r))])
  }

  function WithProgress(s: System, id: LoadId, p: Progress): System
    requires id in s.loads
  {
    s.(loads := s.loads[id := s.loads[id].(progress := p)])
  }

  predicate Is(s: System, id: LoadId, p: Progress) {
    id in s.loads && s.loads[id].progress == p
  }

  predicate Enabled(s: System, e: Event) {
    match e
    case Read(_, _, _, id) => id !in s.loads
    case LoadFulfils(id, _) => Is(s, id, Loading)
    case LoadRejects(id) => Is(s, id, Loading)
    case LoadUnregisters(id) => Is(s, id, Settled)
    case EntryExpires(_) => true
    // Form paths never hold the NUL that separates the parts of an in-flight key.
    case FormIsCleared(path) => '\0' !in path
    case CacheIsCleared => true
  }

  function Effect(s: System, e: Event): System
    requires Enabled(s, e)
  {
    match e
    case Read(t, useCache, rest, id) =>
      ReadStep(s, CacheKey(t), BuildReadInFlightKey(CacheKey(t), useCache, rest), useCache, id)
    case LoadFulfils(id, hasValue) =>
      WithProgress(s, id, Settled).(st := Fulfil(s.st, s.loads[id].load, hasValue))
    case LoadRejects(id) => WithProgress(s, id, Settled)
    case LoadUnregisters(id) => WithProgress(s, id, Unregistered).(st := Finish(s.st, s.loads[id].load))
    case EntryExpires(k) => s.(st := s.st.(cache := s.st.cache - {k}))
    case FormIsCleared(path) =>
      s.(st := ClearForm(s.st, path), clears := s.clears + [Clear(s.clock, OneForm(path))])
    case CacheIsCleared =>
      s.(st := ClearAll(s.st), clears := s.clears + [Clear(s.clock, Everything)])
  }

  /** One event, then the clock moves: no two events happen at the same time. */
  function Apply(s: System, e: Event): System {
    if Enabled(s, e) then Effect(s, e).(clock := s.clock + 1) else s
  }

  function Run(s: System, events: seq<Event>): System {
    if |events| == 0 then s
    else Apply(Run(s, events[..|events| - 1]), events[|events| - 1])
  }

  const START := System(EMPTY, map[], [], [], 0)

  // ---- what a clear reaches ----

  /** The in-flight keys that clearing a path unregisters. */
  predicate CoversInFlight(path: string, ik: Key) {
    VariantCoversInFlight(Variants(path)[0], ik) || VariantCoversInFlight(Variants(path)[1], ik)
  }

  predicate VariantCoversInFlight(v: string, ik: Key) {
    HasPrefix(ik, FormKey(v) + SEPARATOR) || HasPrefix(ik, PagePrefix(v)) || HasPrefix(ik, EntryPrefix(v))
  }

  predicate ScopeCoversKey(scope: Scope, k: Key) {
    scope.Everything? || Covers(scope.path, k)
  }

  predicate ScopeCoversInFlight(scope: Scope, ik: Key) {
    scope.Everything? || CoversInFlight(scope.path, ik)
  }

  lemma CoveredKeyIsCoveredInFlight(scope: Scope, k: Key, ik: Key)
    requires ScopeCoversKey(scope, k) && HasPrefix(ik, k + SEPARATOR)
    ensures ScopeCoversInFlight(scope, ik)
  {
    if scope.OneForm? {
      var v := if IsKeyOf(Variants(scope.path)[0], k) then Variants(scope.path)[0] else Variants(scope.path)[1];
      assert IsKeyOf(v, k);
      assert HasPrefix(ik, k);
      assert VariantCoversInFlight(v, ik);
    }
  }

  /** Clearing a path covers the path itself and its spelling with or without one
      trailing slash. */
  lemma ClearCoversItsPath(path: string, t: Target)
    requires t.path in Variants(path)
    ensures Covers(path, CacheKey(t))
    ensures path in Variants(path)
    ensures (if |path| > 0 && path[|path| - 1] == '/' then path[..|path| - 1] else path + "/") in Variants(path)
  {
    var vs := Variants(path);
    assert vs[0] == path && vs[0] in vs && vs[1] in vs;
    assert IsKeyOf(t.path, CacheKey(t));
    assert t.path == vs[0] || t.path == vs[1];
  }

  lemma MarkIsLater(a: string, b: string, x: string, y: string, mark: char)
    requires mark !in b && |a| < |b|
    ensures a + [mark] + x != b + [mark] + y
  {
    assert (a + [mark] + x)[|a|] == mark;
    assert (b + [mark] + y)[|a|] == b[|a|] && b[|a|] in b;
  }

  lemma SameBeforeMark(a: string, b: string, x: string, y: string, mark: char)
    requires mark !in a && mark !in b
    ensures a + [mark] + x == b + [mark] + y <==> a == b && x == y
  {
    var p, q := a + [mark] + x, b + [mark] + y;
    if |a| < |b| {
      MarkIsLater(a, b, x, y, mark);
    } else if |b| < |a| {
      MarkIsLater(b, a, y, x, mark);
    } else {
      assert p[..|a|] == a && q[..|a|] == b && p[|a| + 1..] == x && q[|a| + 1..] == y;
    }
  }

  /** Where the data of a path is stored, in words. */
  function StoredUnder(t: Target): string {
    match t
    case Form(path) => "form:" + path
    case Page(path, rest) => "form-page:" + path + ":" + rest
    case Entry(path, rest) => "entry:" + path + ":" + rest
  }

  lemma PrefixIsPath(kind: string, path: string, other: string, rest: string)
    requires ':' !in path && ':' !in other
    ensures kind + path + ":" <= kind + other + ":" + rest <==> path == other
  {
    var pre, all := kind + path + ":", kind + other + ":" + rest;
    if pre <= all {
      var tail := all[|pre|..];
      assert pre + tail == all;
      assert (pre + tail)[|kind|..] == path + [':'] + tail;
      assert all[|kind|..] == other + [':'] + rest;
      SameBeforeMark(path, other, tail, rest, ':');
    }
    if path == other {
      assert all == pre + rest;
    }
  }

  lemma OneSpellingIsCovered(path: string, t: Target)
    requires ':' !in path && ':' !in t.path
    ensures IsKeyOf(path, StoredUnder(t)) <==> path == t.path
  {
    var k := StoredUnder(t);
    match t
    case Form(other) =>
      assert k[|"form:"|..] == other && FormKey(path)[|"form:"|..] == path;
      assert k[4] == ':' && PagePrefix(path)[4] == '-' && k[0] == 'f' && EntryPrefix(path)[0] == 'e';
    case Page(other, rest) =>
      PrefixIsPath("form-page:", path, other, rest);
      assert k[4] == '-' && FormKey(path)[4] == ':' && k[0] == 'f' && EntryPrefix(path)[0] == 'e';
    case Entry(other, rest) =>
      PrefixIsPath("entry:", path, other, rest);
      assert k[0] == 'e' && FormKey(path)[0] == 'f' && PagePrefix(path)[0] == 'f';
  }

  /** And it covers nothing but the two spellings of that path. */
  lemma ClearCoversOnlyItsPath(path: string, t: Target)
    requires ':' !in path && ':' !in t.path
    ensures CacheKey(t) == StoredUnder(t)
    ensures Covers(path, CacheKey(t)) <==>
              t.path == path || (if |path| > 0 && path[|path| - 1] == '/' then t.path + "/" == path else t.path == path + "/")
  {
    var vs := Variants(path);
    OneSpellingIsCovered(vs[0], t);
    OneSpellingIsCovered(vs[1], t);
    assert |path| > 0 && path[|path| - 1] == '/' ==> path == path[..|path| - 1] + "/";
  }

  /** Reads share a load only if they ask for the same data in the same way. */
  lemma SharedMeansSame(a: Key, aCached: bool, aRest: string, b: Key, bCached: bool, bRest: string)
    requires '\0' !in a && '\0' !in b
    ensures BuildReadInFlightKey(a, aCached, aRest) == BuildReadInFlightKey(b, bCached, bRest)
            <==> a == b && aCached == bCached && aRest == bRest
  {
    var x := (if aCached then "cache" else "live") + SEPARATOR + aRest;
    var y := (if bCached then "cache" else "live") + SEPARATOR + bRest;
    assert BuildReadInFlightKey(a, aCached, aRest) == a + SEPARATOR + x;
    assert BuildReadInFlightKey(b, bCached, bRest) == b + SEPARATOR + y;
    SameBeforeMark(a, b, x, y, '\0');
    SameBeforeMark(if aCached then "cache" else "live", if bCached then "cache" else "live", aRest, bRest, '\0');
    assert "cache"[0] != "live"[0];
  }

  // ---- what a clear does ----

  /** Every registered key belongs to a real cache key. */
  ghost predicate RegistryShape(st: State) {
    && st.inFlight.Keys == st.inFlightCacheKey.Keys
    && forall ik :: ik in st.inFlight ==> st.inFlightCacheKey[ik] != "" && '\0' in ik
  }

  /** `st'` keeps a part of the registry of `st`, and every read it drops has had the
      generation of its cache key raised. */
  ghost predicate DropsWithBump(st: State, st': State) {
    && st'.globalGeneration == st.globalGeneration
    && (forall ik :: ik in st'.inFlight ==> ik in st.inFlight && st'.inFlight[ik] == st.inFlight[ik])
    && (forall ik :: ik in st'.inFlightCacheKey ==>
          ik in st.inFlightCacheKey && st'.inFlightCacheKey[ik] == st.inFlightCacheKey[ik])
    && (forall k :: KeyGeneration(st', k) >= KeyGeneration(st, k))
    && (forall ik :: ik in st.inFlight && ik in st.inFlightCacheKey && ik !in st'.inFlight ==>
          KeyGeneration(st', st.inFlightCacheKey[ik]) > KeyGeneration(st, st.inFlightCacheKey[ik]))
  }

  lemma DropsCompose(a: State, b: State, c: State)
    requires RegistryShape(a) && RegistryShape(b) && DropsWithBump(a, b) && DropsWithBump(b, c)
    ensures DropsWithBump(a, c)
  {
    forall ik | ik in a.inFlight && ik !in c.inFlight
      ensures KeyGeneration(c, a.inFlightCacheKey[ik]) > KeyGeneration(a, a.inFlightCacheKey[ik])
    {
      var k := a.inFlightCacheKey[ik];
      assert KeyGeneration(c, k) >= KeyGeneration(b, k) >= KeyGeneration(a, k);
      if ik in b.inFlight {
        assert ik in b.inFlightCacheKey && b.inFlightCacheKey[ik] == k;
      }
    }
    forall k ensures KeyGeneration(c, k) >= KeyGeneration(a, k) {
      assert KeyGeneration(c, k) >= KeyGeneration(b, k) >= KeyGeneration(a, k);
    }
  }

  lemma UnregisterGeneration(st: State, gone: set<Key>, k: Key)
    ensures KeyGeneration(Unregister(st, gone), k) == KeyGeneration(st, k) + |Charges(st, gone, k)|
  {
    UnchargedHasNoCharges(st, gone, k);
  }

  lemma ClearByPrefixFacts(st: State, prefix: Key)
    requires RegistryShape(st)
    ensures var st' := ClearInFlightByPrefix(st, prefix);
            && RegistryShape(st') && DropsWithBump(st, st') && st'.cache == st.cache
            && forall ik :: ik in st'.inFlight <==> ik in st.inFlight && !HasPrefix(ik, prefix)
  {
    var gone := RegisteredUnder(st, prefix);
    var st' := ClearInFlightByPrefix(st, prefix);
    forall k ensures KeyGeneration(st', k) >= KeyGeneration(st, k) {
      UnregisterGeneration(st, gone, k);
    }
    forall ik | ik in st.inFlight && ik !in st'.inFlight
      ensures KeyGeneration(st', st.inFlightCacheKey[ik]) > KeyGeneration(st, st.inFlightCacheKey[ik])
    {
      UnregisterGeneration(st, gone, st.inFlightCacheKey[ik]);
      assert ik in Charges(st, gone, st.inFlightCacheKey[ik]);
    }
  }

  lemma ClearByCacheKeyFacts(st: State, k: Key)
    requires RegistryShape(st) && '\0' !in k
    ensures var st' := ClearInFlightByCacheKey(st, k);
            && RegistryShape(st') && DropsWithBump(st, st') && st'.cache == st.cache
            && forall ik :: ik in st'.inFlight <==> ik in st.inFlight && !HasPrefix(ik, k + SEPARATOR)
  {
    var bumped := Bump(st, k);
    var st1 := bumped.(inFlight := bumped.inFlight - {k}, inFlightCacheKey := bumped.inFlightCacheKey - {k});
    assert k !in st.inFlight;
    assert DropsWithBump(st, st1);
    ClearByPrefixFacts(st1, k + SEPARATOR);
    DropsCompose(st, st1, ClearInFlightByCacheKey(st, k));
  }

  /** Deleting cache entries leaves the registry and the generations alone. */
  lemma UncacheDrops(st: State, st1: State, st2: State)
    requires DropsWithBump(st, st1) && st2 == st1.(cache := st2.cache)
    ensures DropsWithBump(st, st2)
  {
    assert forall k :: KeyGeneration(st2, k) == KeyGeneration(st1, k);
  }

  lemma ClearVariantDrops(st: State, v: string)
    requires RegistryShape(st) && '\0' !in v
    ensures RegistryShape(ClearVariant(st, v)) && DropsWithBump(st, ClearVariant(st, v))
  {
    var st1 := st.(cache := st.cache - {FormKey(v)});
    assert DropsWithBump(st, st) && DropsWithBump(st, st1);
    ClearByCacheKeyFacts(st1, FormKey(v));
    var a := ClearInFlightByCacheKey(st1, FormKey(v));
    DropsCompose(st, st1, a);
    var a' := Uncache(a, PagePrefix(v));
    UncacheDrops(st, a, a');
    ClearByPrefixFacts(a', PagePrefix(v));
    var b := ClearInFlightByPrefix(a', PagePrefix(v));
    DropsCompose(st, a', b);
    var b' := Uncache(b, EntryPrefix(v));
    UncacheDrops(st, b, b');
    ClearByPrefixFacts(b', EntryPrefix(v));
    DropsCompose(st, b', ClearVariant(st, v));
  }

  lemma ClearVariantRegistry(st: State, v: string, ik: Key)
    requires RegistryShape(st) && '\0' !in v
    ensures ik in ClearVariant(st, v).inFlight <==> ik in st.inFlight && !VariantCoversInFlight(v, ik)
  {
    var st1 := st.(cache := st.cache - {FormKey(v)});
    ClearByCacheKeyFacts(st1, FormKey(v));
    var a := Uncache(ClearInFlightByCacheKey(st1, FormKey(v)), PagePrefix(v));
    ClearByPrefixFacts(a, PagePrefix(v));
    var b := Uncache(ClearInFlightByPrefix(a, PagePrefix(v)), EntryPrefix(v));
    ClearByPrefixFacts(b, EntryPrefix(v));
  }

  lemma ClearVariantCache(st: State, v: string, k: Key)
    ensures k in ClearVariant(st, v).cache <==> k in st.cache && !IsKeyOf(v, k)
    ensures k in ClearVariant(st, v).cache ==> ClearVariant(st, v).cache[k] == st.cache[k]
  {
  }

  /** Clearing a form raises the generation of every read it drops. */
  lemma ClearFormDrops(st: State, path: string)
    requires RegistryShape(st) && '\0' !in path
    ensures RegistryShape(ClearForm(st, path)) && DropsWithBump(st, ClearForm(st, path))
  {
    hide DropsWithBump, RegistryShape, ClearVariant;
    var vs := Variants(path);
    ClearVariantDrops(st, vs[0]);
    ClearVariantDrops(ClearVariant(st, vs[0]), vs[1]);
    DropsCompose(st, ClearVariant(st, vs[0]), ClearForm(st, path));
  }

  /** Clearing a form unregisters exactly the reads of that form. */
  lemma ClearFormRegistry(st: State, path: string, ik: Key)
    requires RegistryShape(st) && '\0' !in path
    ensures ik in ClearForm(st, path).inFlight <==> ik in st.inFlight && !CoversInFlight(path, ik)
  {
    var vs := Variants(path);
    ClearVariantDrops(st, vs[0]);
    ClearVariantRegistry(st, vs[0], ik);
    ClearVariantRegistry(ClearVariant(st, vs[0]), vs[1], ik);
  }

  /** Clearing a form deletes exactly the entries of that form. */
  lemma ClearFormCache(st: State, path: string, k: Key)
    ensures k in ClearForm(st, path).cache <==> k in st.cache && !Covers(path, k)
    ensures k in ClearForm(st, path).cache ==> ClearForm(st, path).cache[k] == st.cache[k]
  {
    ClearVariantCache(st, Variants(path)[0], k);
    ClearVariantCache(ClearVariant(st, Variants(path)[0]), Variants(path)[1], k);
  }

  // ---- invariant ----

  ghost predicate LoadOk(s: System, id: LoadId)
    requires id in s.loads
  {
    var load := s.loads[id].load;
    && load.id == id
    && load.cacheKey != ""
    && HasPrefix(load.inFlightKey, load.cacheKey + SEPARATOR)
    && '\0' in load.inFlightKey
    && s.loads[id].began < s.clock
    && load.generation.global <= s.st.globalGeneration
    && (load.generation.global == s.st.globalGeneration ==>
          load.generation.key <= KeyGeneration(s.st, load.cacheKey))
  }

  ghost predicate RegistryOk(s: System) {
    && RegistryShape(s.st)
    && forall ik {:trigger s.st.inFlight[ik]} :: ik in s.st.inFlight ==>
         && s.st.inFlight[ik] in s.loads
         && var info := s.loads[s.st.inFlight[ik]];
         && info.load.inFlightKey == ik
         && s.st.inFlightCacheKey[ik] == info.load.cacheKey
         && info.progress != Unregistered
  }

  /** An unsettled load whose generation is still current is registered. */
  ghost predicate Registered(s: System, id: LoadId)
    requires id in s.loads
  {
    s.loads[id].progress == Loading && IsCurrent(s.st, s.loads[id].load) ==>
      && s.loads[id].load.inFlightKey in s.st.inFlight
      && s.st.inFlight[s.loads[id].load.inFlightKey] == id
  }

  ghost predicate FreshInFlight(clears: seq<Clear>, began: nat, ik: Key) {
    forall c {:trigger ScopeCoversInFlight(c.scope, ik)} ::
      c in clears && ScopeCoversInFlight(c.scope, ik) ==> c.at <= began
  }

  ghost predicate FreshCached(clears: seq<Clear>, began: nat, k: Key) {
    forall c {:trigger ScopeCoversKey(c.scope, k)} ::
      c in clears && ScopeCoversKey(c.scope, k) ==> c.at <= began
  }

  ghost predicate RegisteredIsFresh(s: System, ik: Key)
    requires ik in s.st.inFlight
  {
    s.st.inFlight[ik] in s.loads && FreshInFlight(s.clears, s.loads[s.st.inFlight[ik]].began, ik)
  }

  ghost predicate CachedIsFresh(s: System, k: Key)
    requires k in s.st.cache
  {
    s.st.cache[k] in s.loads && FreshCached(s.clears, s.loads[s.st.cache[k]].began, k)
  }

  /** What the guarantee says about one read that has been served. */
  ghost predicate ServedIsFresh(s: System, r: Served) {
    && r.source in s.loads
    && forall c {:trigger ScopeCoversKey(c.scope, r.cacheKey)} ::
         c in s.clears && c.at < r.readAt && ScopeCoversKey(c.scope, r.cacheKey) ==>
           c.at <= s.loads[r.source].began
  }

  ghost predicate HistoryOk(s: System) {
    && (forall c :: c in s.clears ==> c.at < s.clock)
    && (forall r :: r in s.served ==> r.readAt < s.clock && ServedIsFresh(s, r))
  }

  ghost predicate Inv(s: System) {
    && RegistryOk(s)
    && HistoryOk(s)
    && (forall id {:trigger LoadOk(s, id)} :: id in s.loads ==> LoadOk(s, id))
    && (forall id {:trigger Registered(s, id)} :: id in s.loads ==> Registered(s, id))
    && (forall ik {:trigger RegisteredIsFresh(s, ik)} :: ik in s.st.inFlight ==> RegisteredIsFresh(s, ik))
    && (forall k {:trigger CachedIsFresh(s, k)} :: k in s.st.cache ==> CachedIsFresh(s, k))
  }

  // ---- events keep it ----

  lemma ReadServesFresh(s: System, k: Key, ik: Key, useCache: bool, id: LoadId)
    requires Inv(s) && id !in s.loads && HasPrefix(ik, k + SEPARATOR)
    ensures var s' := ReadStep(s, k, ik, useCache, id);
            ServedIsFresh(s', Served(s.clock, k, Source(Begin(s.st, k, ik, useCache, id).0)))
  {
    var s' := ReadStep(s, k, ik, useCache, id);
    var r := Begin(s.st, k, ik, useCache, id).0;
    if r.Cached? {
      assert CachedIsFresh(s, k);
    } else if r.Joined? {
      assert RegisteredIsFresh(s, ik);
    }
    forall c | c in s.clears && ScopeCoversKey(c.scope, k) ensures c.at <= s'.loads[Source(r)].began {
      CoveredKeyIsCoveredInFlight(c.scope, k, ik);
    }
  }

  lemma ReadKeepsOldLoad(s: System, k: Key, ik: Key, useCache: bool, id: LoadId, x: LoadId)
    requires Inv(s) && id !in s.loads && x in s.loads
    ensures var s' := ReadStep(s, k, ik, useCache, id).(clock := s.clock + 1);
            x in s'.loads && LoadOk(s', x) && Registered(s', x)
  {
    hide HasPrefix, RegisteredIsFresh, CachedIsFresh, HistoryOk;
    assert LoadOk(s, x) && Registered(s, x);
  }

  lemma SeparatorIsIn(k: Key, ik: Key)
    requires HasPrefix(ik, k + SEPARATOR)
    ensures '\0' in ik
  {
    assert (k + SEPARATOR)[|k|] == '\0' && ik[|k|] == '\0';
  }

  lemma ReadAddsLoad(s: System, k: Key, ik: Key, useCache: bool, id: LoadId)
    requires id !in s.loads && k != "" && HasPrefix(ik, k + SEPARATOR)
    ensures var s' := ReadStep(s, k, ik, useCache, id).(clock := s.clock + 1);
            id in s'.loads ==> LoadOk(s', id) && Registered(s', id)
  {
    SeparatorIsIn(k, ik);
    var s' := ReadStep(s, k, ik, useCache, id).(clock := s.clock + 1);
    assert id in s'.loads ==> LoadOk(s', id);
  }

  lemma BeginKeepsShape(st: State, k: Key, ik: Key, useCache: bool, id: LoadId)
    requires RegistryShape(st) && k != "" && '\0' in ik
    ensures RegistryShape(Begin(st, k, ik, useCache, id).1)
  {
    hide CurrentGeneration;
  }

  lemma ReadKeepsRegistry(s: System, k: Key, ik: Key, useCache: bool, id: LoadId)
    requires Inv(s) && id !in s.loads && k != "" && '\0' in ik
    ensures RegistryOk(ReadStep(s, k, ik, useCache, id).(clock := s.clock + 1))
  {
    hide CurrentGeneration, HistoryOk, LoadOk, Registered, RegisteredIsFresh, CachedIsFresh;
    var (r, st') := Begin(s.st, k, ik, useCache, id);
    var s' := ReadStep(s, k, ik, useCache, id).(clock := s.clock + 1);
    BeginKeepsShape(s.st, k, ik, useCache, id);
    forall x | x in s'.st.inFlight
      ensures && s'.st.inFlight[x] in s'.loads
              && s'.loads[s'.st.inFlight[x]].load.inFlightKey == x
              && s'.st.inFlightCacheKey[x] == s'.loads[s'.st.inFlight[x]].load.cacheKey
              && s'.loads[s'.st.inFlight[x]].progress != Unregistered
    {
      if r.Started? && x == ik {
        assert s'.st.inFlight[x] == id;
      } else {
        assert s'.st.inFlight[x] == s.st.inFlight[x] && s.st.inFlight[x] in s.loads;
      }
    }
  }

  lemma ReadKeepsLoads(s: System, k: Key, ik: Key, useCache: bool, id: LoadId)
    requires Inv(s) && id !in s.loads && k != "" && HasPrefix(ik, k + SEPARATOR)
    ensures var s' := ReadStep(s, k, ik, useCache, id).(clock := s.clock + 1);
            && RegistryOk(s')
            && (forall x :: x in s'.loads ==> LoadOk(s', x) && Registered(s', x))
  {
    hide Inv, LoadOk, Registered, RegistryOk, HasPrefix, Begin;
    var s' := ReadStep(s, k, ik, useCache, id).(clock := s.clock + 1);
    SeparatorIsIn(k, ik);
    ReadKeepsRegistry(s, k, ik, useCache, id);
    forall x | x in s'.loads ensures LoadOk(s', x) && Registered(s', x) {
      if x in s.loads {
        ReadKeepsOldLoad(s, k, ik, useCache, id, x);
      } else {
        ReadAddsLoad(s, k, ik, useCache, id);
      }
    }
  }

  lemma ReadKeepsFresh(s: System, k: Key, ik: Key, useCache: bool, id: LoadId)
    requires Inv(s) && id !in s.loads && HasPrefix(ik, k + SEPARATOR)
    ensures var s' := ReadStep(s, k, ik, useCache, id).(clock := s.clock + 1);
            && (forall x :: x in s'.st.inFlight ==> RegisteredIsFresh(s', x))
            && (forall x :: x in s'.st.cache ==> CachedIsFresh(s', x))
  {
    var s' := ReadStep(s, k, ik, useCache, id).(clock := s.clock + 1);
    forall x | x in s'.st.inFlight ensures RegisteredIsFresh(s', x) {
      if x in s.st.inFlight {
        assert RegisteredIsFresh(s, x);
      }
    }
    forall x | x in s'.st.cache ensures CachedIsFresh(s', x) {
      assert CachedIsFresh(s, x);
    }
  }

  lemma ReadKeepsHistory(s: System, k: Key, ik: Key, useCache: bool, id: LoadId)
    requires Inv(s) && id !in s.loads && HasPrefix(ik, k + SEPARATOR)
    ensures HistoryOk(ReadStep(s, k, ik, useCache, id).(clock := s.clock + 1))
  {
    var s' := ReadStep(s, k, ik, useCache, id).(clock := s.clock + 1);
    ReadServesFresh(s, k, ik, useCache, id);
    forall r | r in s'.served ensures r.readAt < s'.clock && ServedIsFresh(s', r) {
      if r in s.served {
        assert ServedIsFresh(s, r);
      }
    }
  }

  lemma ReadKeepsInv(s: System, k: Key, ik: Key, useCache: bool, id: LoadId)
    requires Inv(s) && id !in s.loads && k != "" && HasPrefix(ik, k + SEPARATOR)
    ensures Inv(ReadStep(s, k, ik, useCache, id).(clock := s.clock + 1))
  {
    ReadKeepsLoads(s, k, ik, useCache, id);
    ReadKeepsFresh(s, k, ik, useCache, id);
    ReadKeepsHistory(s, k, ik, useCache, id);
  }

  /** Steps that neither drop a registration nor touch a generation. */
  lemma LoadsFrame(s: System, s': System, id: LoadId, p: Progress)
    requires Inv(s) && id in s.loads && s.loads[id].progress == Loading && p == Settled
    requires s'.loads == WithProgress(s, id, p).loads && s'.clock == s.clock + 1
    requires s'.st == s.st.(cache := s'.st.cache)
    ensures RegistryOk(s')
    ensures forall x :: x in s'.loads ==> LoadOk(s', x) && Registered(s', x)
  {
    hide HistoryOk, RegisteredIsFresh, CachedIsFresh;
    forall x | x in s'.loads ensures LoadOk(s', x) && Registered(s', x) {
      assert LoadOk(s, x) && Registered(s, x);
    }
  }

  lemma FreshFrame(s: System, s': System)
    requires Inv(s) && s'.clears == s.clears
    requires forall id :: id in s.loads ==> id in s'.loads && s'.loads[id].began == s.loads[id].began
    requires forall ik :: ik in s'.st.inFlight ==> ik in s.st.inFlight && s'.st.inFlight[ik] == s.st.inFlight[ik]
    ensures forall ik :: ik in s'.st.inFlight ==> RegisteredIsFresh(s', ik)
    ensures forall k :: k in s'.st.cache && k in s.st.cache && s'.st.cache[k] == s.st.cache[k] ==> CachedIsFresh(s', k)
  {
    forall ik | ik in s'.st.inFlight ensures RegisteredIsFresh(s', ik) {
      assert RegisteredIsFresh(s, ik);
    }
    forall k | k in s'.st.cache && k in s.st.cache && s'.st.cache[k] == s.st.cache[k] ensures CachedIsFresh(s', k) {
      assert CachedIsFresh(s, k);
    }
  }

  /** A current unsettled load is younger than every clear of its key: it is
      registered, and registered loads are. */
  lemma CurrentLoadIsFresh(s: System, id: LoadId)
    requires Inv(s) && Is(s, id, Loading) && IsCurrent(s.st, s.loads[id].load)
    ensures FreshCached(s.clears, s.loads[id].began, s.loads[id].load.cacheKey)
  {
    var load := s.loads[id].load;
    assert LoadOk(s, id) && Registered(s, id);
    assert RegisteredIsFresh(s, load.inFlightKey);
    forall c | c in s.clears && ScopeCoversKey(c.scope, load.cacheKey) ensures c.at <= s.loads[id].began {
      CoveredKeyIsCoveredInFlight(c.scope, load.cacheKey, load.inFlightKey);
    }
  }

  lemma SettleKeepsInv(s: System, id: LoadId, hasValue: bool)
    requires Inv(s) && Is(s, id, Loading)
    ensures Inv(WithProgress(s, id, Settled).(st := Fulfil(s.st, s.loads[id].load, hasValue), clock := s.clock + 1))
  {
    var load := s.loads[id].load;
    var s' := WithProgress(s, id, Settled).(st := Fulfil(s.st, load, hasValue), clock := s.clock + 1);
    assert LoadOk(s, id);
    LoadsFrame(s, s', id, Settled);
    FreshFrame(s, s');
    HistoryFrame(s, s');
    if IsCurrent(s.st, load) {
      CurrentLoadIsFresh(s, id);
    }
  }

  lemma RejectKeepsInv(s: System, id: LoadId)
    requires Inv(s) && Is(s, id, Loading)
    ensures Inv(WithProgress(s, id, Settled).(clock := s.clock + 1))
  {
    var s' := WithProgress(s, id, Settled).(clock := s.clock + 1);
    LoadsFrame(s, s', id, Settled);
    FreshFrame(s, s');
    HistoryFrame(s, s');
  }

  lemma HistoryFrame(s: System, s': System)
    requires HistoryOk(s) && s'.clears == s.clears && s'.served == s.served && s'.clock == s.clock + 1
    requires forall id :: id in s.loads ==> id in s'.loads && s'.loads[id].began == s.loads[id].began
    ensures HistoryOk(s')
  {
    forall r | r in s.served ensures ServedIsFresh(s', r) {
      assert ServedIsFresh(s, r);
    }
  }

  lemma UnregisterKeepsLoads(s: System, id: LoadId)
    requires Inv(s) && Is(s, id, Settled)
    ensures var s' := WithProgress(s, id, Unregistered).(st := Finish(s.st, s.loads[id].load), clock := s.clock + 1);
            && RegistryOk(s')
            && forall x :: x in s'.loads ==> LoadOk(s', x) && Registered(s', x)
  {
    var s' := WithProgress(s, id, Unregistered).(st := Finish(s.st, s.loads[id].load), clock := s.clock + 1);
    assert LoadOk(s, id);
    forall x | x in s'.loads ensures LoadOk(s', x) && Registered(s', x) {
      assert LoadOk(s, x) && Registered(s, x);
    }
  }

  lemma UnregisterKeepsInv(s: System, id: LoadId)
    requires Inv(s) && Is(s, id, Settled)
    ensures Inv(WithProgress(s, id, Unregistered).(st := Finish(s.st, s.loads[id].load), clock := s.clock + 1))
  {
    var s' := WithProgress(s, id, Unregistered).(st := Finish(s.st, s.loads[id].load), clock := s.clock + 1);
    UnregisterKeepsLoads(s, id);
    FreshFrame(s, s');
    HistoryFrame(s, s');
  }

  lemma ExpiryKeepsInv(s: System, k: Key)
    requires Inv(s)
    ensures Inv(s.(st := s.st.(cache := s.st.cache - {k}), clock := s.clock + 1))
  {
    var s' := s.(st := s.st.(cache := s.st.cache - {k}), clock := s.clock + 1);
    forall x | x in s'.loads ensures LoadOk(s', x) && Registered(s', x) {
      assert LoadOk(s, x) && Registered(s, x);
    }
    forall ik | ik in s'.st.inFlight ensures RegisteredIsFresh(s', ik) {
      assert RegisteredIsFresh(s, ik);
    }
    forall x | x in s'.st.cache ensures CachedIsFresh(s', x) {
      assert CachedIsFresh(s, x);
    }
    HistoryFrame(s, s');
  }

  lemma ClearKeepsHistory(s: System, s': System, scope: Scope)
    requires HistoryOk(s) && s'.clears == s.clears + [Clear(s.clock, scope)]
    requires s'.served == s.served && s'.loads == s.loads && s'.clock == s.clock + 1
    ensures HistoryOk(s')
  {
    forall r | r in s.served ensures ServedIsFresh(s', r) {
      assert ServedIsFresh(s, r);
    }
  }

  /** After a form clear, a load is current only if the clear did not reach it. */
  lemma DropKeepsLoad(s: System, s': System, id: LoadId)
    requires id in s.loads && LoadOk(s, id) && Registered(s, id) && RegistryOk(s)
    requires s'.loads == s.loads && s'.clock == s.clock + 1 && DropsWithBump(s.st, s'.st)
    ensures LoadOk(s', id) && Registered(s', id)
  {
    var load := s.loads[id].load;
    assert KeyGeneration(s'.st, load.cacheKey) >= KeyGeneration(s.st, load.cacheKey);
  }

  lemma DropKeepsRegistry(s: System, s': System)
    requires RegistryOk(s) && s'.loads == s.loads && RegistryShape(s'.st) && DropsWithBump(s.st, s'.st)
    ensures RegistryOk(s')
  {
  }

  lemma FormClearKeepsLoads(s: System, path: string)
    requires Inv(s) && '\0' !in path
    ensures var s' := Effect(s, FormIsCleared(path)).(clock := s.clock + 1);
            && RegistryOk(s')
            && (forall id :: id in s'.loads ==> LoadOk(s', id) && Registered(s', id))
  {
    var s' := Effect(s, FormIsCleared(path)).(clock := s.clock + 1);
    ClearFormDrops(s.st, path);
    DropKeepsRegistry(s, s');
    forall id | id in s'.loads ensures LoadOk(s', id) && Registered(s', id) {
      assert LoadOk(s, id) && Registered(s, id);
      DropKeepsLoad(s, s', id);
    }
  }

  lemma FreshInFlightGrows(clears: seq<Clear>, began: nat, ik: Key, c: Clear)
    requires FreshInFlight(clears, began, ik) && !ScopeCoversInFlight(c.scope, ik)
    ensures FreshInFlight(clears + [c], began, ik)
  {
  }

  lemma FreshCachedGrows(clears: seq<Clear>, began: nat, k: Key, c: Clear)
    requires FreshCached(clears, began, k) && !ScopeCoversKey(c.scope, k)
    ensures FreshCached(clears + [c], began, k)
  {
  }

  /** What survives a form clear was not covered by it. */
  lemma FormClearKeepsRegistered(s: System, path: string, st: State, ik: Key)
    requires Inv(s) && '\0' !in path && st == ClearForm(s.st, path) && ik in st.inFlight
    ensures ik in s.st.inFlight && st.inFlight[ik] == s.st.inFlight[ik] && st.inFlight[ik] in s.loads
    ensures FreshInFlight(s.clears + [Clear(s.clock, OneForm(path))], s.loads[st.inFlight[ik]].began, ik)
  {
    ClearFormDrops(s.st, path);
    ClearFormRegistry(s.st, path, ik);
    assert RegisteredIsFresh(s, ik);
    FreshInFlightGrows(s.clears, s.loads[st.inFlight[ik]].began, ik, Clear(s.clock, OneForm(path)));
  }

  lemma FormClearKeepsCached(s: System, path: string, st: State, k: Key)
    requires Inv(s) && st == ClearForm(s.st, path) && k in st.cache
    ensures k in s.st.cache && st.cache[k] == s.st.cache[k] && st.cache[k] in s.loads
    ensures FreshCached(s.clears + [Clear(s.clock, OneForm(path))], s.loads[st.cache[k]].began, k)
  {
    ClearFormCache(s.st, path, k);
    assert CachedIsFresh(s, k);
    FreshCachedGrows(s.clears, s.loads[st.cache[k]].began, k, Clear(s.clock, OneForm(path)));
  }

  lemma FormClearKeepsFresh(s: System, path: string)
    requires Inv(s) && '\0' !in path
    ensures var s' := Effect(s, FormIsCleared(path)).(clock := s.clock + 1);
            && (forall ik :: ik in s'.st.inFlight ==> RegisteredIsFresh(s', ik))
            && (forall k :: k in s'.st.cache ==> CachedIsFresh(s', k))
  {
    var s' := Effect(s, FormIsCleared(path)).(clock := s.clock + 1);
    forall ik | ik in s'.st.inFlight ensures RegisteredIsFresh(s', ik) {
      FormClearKeepsRegistered(s, path, s'.st, ik);
    }
    forall k | k in s'.st.cache ensures CachedIsFresh(s', k) {
      FormClearKeepsCached(s, path, s'.st, k);
    }
  }

  lemma ClearAllKeepsInv(s: System)
    requires Inv(s)
    ensures Inv(Effect(s, CacheIsCleared).(clock := s.clock + 1))
  {
    var s' := Effect(s, CacheIsCleared).(clock := s.clock + 1);
    forall id | id in s'.loads ensures LoadOk(s', id) && Registered(s', id) {
      assert LoadOk(s, id);
    }
    ClearKeepsHistory(s, s', Everything);
  }

  lemma FormClearKeepsInv(s: System, path: string)
    requires Inv(s) && Enabled(s, FormIsCleared(path))
    ensures Inv(Apply(s, FormIsCleared(path)))
  {
    hide ClearForm, RegistryOk, LoadOk, Registered, RegisteredIsFresh, CachedIsFresh, HistoryOk;
    FormClearKeepsLoads(s, path);
    FormClearKeepsFresh(s, path);
    ClearKeepsHistory(s, Apply(s, FormIsCleared(path)), OneForm(path));
  }

  lemma ReadEventKeepsInv(s: System, t: Target, useCache: bool, rest: string, id: LoadId)
    requires Inv(s) && id !in s.loads
    ensures Inv(Apply(s, Read(t, useCache, rest, id)))
  {
    hide Inv, ReadStep;
    var k := CacheKey(t);
    var ik := BuildReadInFlightKey(k, useCache, rest);
    assert k[0] == 'f' || k[0] == 'e';
    assert HasPrefix(ik, k + SEPARATOR);
    ReadKeepsInv(s, k, ik, useCache, id);
  }

  lemma ApplyKeepsInv(s: System, e: Event)
    requires Inv(s)
    ensures Inv(Apply(s, e))
  {
    hide Inv, ReadStep, Fulfil, Finish, ClearForm, ClearAll, CacheKey, BuildReadInFlightKey, WithProgress;
    if Enabled(s, e) {
      match e
      case Read(t, useCache, rest, id) => ReadEventKeepsInv(s, t, useCache, rest, id);
      case LoadFulfils(id, hasValue) => SettleKeepsInv(s, id, hasValue);
      case LoadRejects(id) => RejectKeepsInv(s, id);
      case LoadUnregisters(id) => UnregisterKeepsInv(s, id);
      case EntryExpires(k) => ExpiryKeepsInv(s, k);
      case FormIsCleared(path) => FormClearKeepsInv(s, path);
      case CacheIsCleared => ClearAllKeepsInv(s);
    }
  }

  lemma {:induction false} RunKeepsInv(events: seq<Event>)
    ensures Inv(Run(START, events))
  {
    if |events| > 0 {
      RunKeepsInv(events[..|events| - 1]);
      ApplyKeepsInv(Run(START, events[..|events| - 1]), events[|events| - 1]);
    }
  }

  // ---- the guarantees ----

  /** No stale value is served: in any run, a read begun after a clear that covers
      its key gets the value of a load that began no earlier than that clear, whether
      from the cache, from a read it joined, or from a load of its own. */
  lemma NoStaleRead(events: seq<Event>, r: Served, c: Clear)
    requires r in Run(START, events).served && c in Run(START, events).clears
    requires c.at < r.readAt && ScopeCoversKey(c.scope, r.cacheKey)
    ensures r.source in Run(START, events).loads
    ensures c.at <= Run(START, events).loads[r.source].began
  {
    RunKeepsInv(events);
    assert ServedIsFresh(Run(START, events), r);
  }

  /** In every reachable state an unsettled load that could still write the cache is
      registered, so every clear of its form can reach it. */
  lemma CurrentLoadsAreRegistered(events: seq<Event>, id: LoadId)
    requires Is(Run(START, events), id, Loading)
    requires IsCurrent(Run(START, events).st, Run(START, events).loads[id].load)
    ensures var s := Run(START, events);
            var ik := s.loads[id].load.inFlightKey;
            ik in s.st.inFlight && s.st.inFlight[ik] == id
  {
    RunKeepsInv(events);
    assert Registered(Run(START, events), id);
  }

  /** A superseded load that settles leaves its successor registered. */
  lemma SupersededLoadKeepsSuccessor(events: seq<Event>, id: LoadId, ik: Key)
    requires Is(Run(START, events), id, Settled)
    requires var st := Run(START, events).st; ik in st.inFlight && st.inFlight[ik] != id
    ensures var s' := Apply(Run(START, events), LoadUnregisters(id));
            && ik in s'.st.inFlight
            && s'.st.inFlight[ik] == Run(START, events).st.inFlight[ik]
            && ik in s'.st.inFlightCacheKey
  {
    RunKeepsInv(events);
    var s := Run(START, events);
    assert LoadOk(s, id) && RegistryShape(s.st);
  }

  // ---- sharing ----

  /** No two unsettled loads of one key can both still write the cache. */
  lemma OneCurrentLoadPerKey(events: seq<Event>, a: LoadId, b: LoadId)
    requires Is(Run(START, events), a, Loading) && Is(Run(START, events), b, Loading)
    requires var s := Run(START, events);
             && IsCurrent(s.st, s.loads[a].load) && IsCurrent(s.st, s.loads[b].load)
             && s.loads[a].load.inFlightKey == s.loads[b].load.inFlightKey
    ensures a == b
  {
    CurrentLoadsAreRegistered(events, a);
    CurrentLoadsAreRegistered(events, b);
  }
}
