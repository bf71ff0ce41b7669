/** Five request lanes, three class limiters and one global limiter: a request takes a
    token of its class, then one of the global bucket, and only then calls upstream. */
module RateComposition {
  import opened Options
  import opened TokenBucket
  import opened RateBounds

  datatype RateClass = Foreground | Mutation | Background

  function ClassOf(lane: Lane): RateClass {
    match lane
    case MutationLane => Mutation
    case SyncLane => Background
    case BackgroundLane => Background
    case UserLane => Foreground
    case WriteLane => Foreground
  }

  function GlobalPriority(lane: Lane): int {
    match lane
    case MutationLane => 0
    case WriteLane => 0
    case UserLane => 1
    case SyncLane => 2
    case BackgroundLane => 2
  }

  datatype Limits = Limits(foreground: Config, mutation: Config, background: Config, global: Config)

  datatype System = System(foreground: Bucket, mutation: Bucket, background: Bucket, global: Bucket)

  /** `expired` are the requests whose deadline has passed at that moment: they give
      up instead of going on, and the tokens they hold are lost. */
  datatype SystemEvent =
    | Enter(owner: Owner, now: real, expired: set<Owner>)
    | ClassTick(kind: RateClass, now: real, expired: set<Owner>)
    | ClassRemove(kind: RateClass, sequence: nat)
    | GlobalTick(now: real, expired: set<Owner>)
    | GlobalRemove(sequence: nat)

  /** What a step or a run did: class tokens taken, upstream calls started, and
      requests that gave up while holding a class token. */
  datatype Log = Log(system: System, classTokens: seq<Owner>, started: seq<Owner>, burned: seq<Owner>)

  function ClassConfig(l: Limits, k: RateClass): Config {
    match k case Foreground => l.foreground case Mutation => l.mutation case Background => l.background
  }

  function ClassBucket(s: System, k: RateClass): Bucket {
    match k case Foreground => s.foreground case Mutation => s.mutation case Background => s.background
  }

  function WithClass(s: System, k: RateClass, b: Bucket): System {
    match k
    case Foreground => s.(foreground := b)
    case Mutation => s.(mutation := b)
    case Background => s.(background := b)
  }

  ghost predicate ValidLimits(l: Limits) {
    ValidConfig(l.foreground) && ValidConfig(l.mutation) && ValidConfig(l.background) && ValidConfig(l.global)
  }

  ghost predicate SystemOk(l: Limits, s: System) {
    && Ok(l.foreground, s.foreground) && Ok(l.mutation, s.mutation)
    && Ok(l.background, s.background) && Ok(l.global, s.global)
  }

  function Keep(q: seq<Owner>, expired: set<Owner>): seq<Owner> {
    if |q| == 0 then [] else (if q[0] in expired then [] else [q[0]]) + Keep(q[1..], expired)
  }

  function Lose(q: seq<Owner>, expired: set<Owner>): seq<Owner> {
    if |q| == 0 then [] else (if q[0] in expired then [q[0]] else []) + Lose(q[1..], expired)
  }

  /** The requests that now ask the global bucket, each with its priority. */
  function GlobalRequests(q: seq<Owner>, now: real): seq<Event> {
    if |q| == 0 then []
    else [Acquire(now, q[0], GlobalPriority(q[0].lane), false)] + GlobalRequests(q[1..], now)
  }

  function OwnersOf(q: seq<Waiter>, sequence: nat): seq<Owner> {
    if |q| == 0 then []
    else if q[0].sequence == sequence then [q[0].owner]
    else OwnersOf(q[1..], sequence)
  }

  /** The event that the class bucket `k` sees in a step. */
  function ClassEvents(k: RateClass, e: SystemEvent): seq<Event> {
    match e
    case Enter(owner, now, _) => if ClassOf(owner.lane) == k then [Acquire(now, owner, 0, false)] else []
    case ClassTick(kind, now, _) => if kind == k then [Tick(now)] else []
    case ClassRemove(kind, sequence) => if kind == k then [Remove(sequence)] else []
    case _ => []
  }

  function EventClass(e: SystemEvent): RateClass {
    match e
    case Enter(owner, _, _) => ClassOf(owner.lane)
    case ClassTick(kind, _, _) => kind
    case ClassRemove(kind, _) => kind
    case _ => Foreground
  }

  function Expired(e: SystemEvent): set<Owner> {
    if e.ClassRemove? || e.GlobalRemove? then {} else e.expired
  }

  /** Those that obtain a class token in this step. */
  function ClassGrants(l: Limits, s: System, e: SystemEvent): seq<Owner>
    requires ValidLimits(l)
  {
    var k := EventClass(e);
    Run(ClassConfig(l, k), ClassBucket(s, k), ClassEvents(k, e)).granted
  }

  /** The events that the global bucket sees in a step. */
  function GlobalEvents(l: Limits, s: System, e: SystemEvent): seq<Event>
    requires ValidLimits(l)
  {
    match e
    case GlobalTick(now, _) => [Tick(now)]
    case GlobalRemove(sequence) => [Remove(sequence)]
    case ClassRemove(_, _) => []
    case Enter(_, now, expired) => GlobalRequests(Keep(ClassGrants(l, s, e), expired), now)
    case ClassTick(_, now, expired) => GlobalRequests(Keep(ClassGrants(l, s, e), expired), now)
  }

  function Apply(l: Limits, s: System, e: SystemEvent): Log
    requires ValidLimits(l)
  {
    var k := EventClass(e);
    var own := Run(ClassConfig(l, k), ClassBucket(s, k), ClassEvents(k, e));
    var global := Run(l.global, s.global, GlobalEvents(l, s, e));
    Log(WithClass(s, k, own.bucket).(global := global.bucket),
        own.granted,
        Keep(global.granted, Expired(e)),
        Lose(own.granted, Expired(e))
        + (if e.GlobalRemove? then OwnersOf(s.global.waiters, e.sequence) else [])
        + Lose(global.granted, Expired(e)))
  }

  function RunAll(l: Limits, s: System, events: seq<SystemEvent>): Log
    requires ValidLimits(l)
    decreases |events|
  {
    if |events| == 0 then Log(s, [], [], [])
    else
      var first := Apply(l, s, events[0]);
      var rest := RunAll(l, first.system, events[1..]);
      Log(rest.system, first.classTokens + rest.classTokens, first.started + rest.started,
          first.burned + rest.burned)
  }

  /** Everything the global bucket sees during a run. */
  function GlobalTrace(l: Limits, s: System, events: seq<SystemEvent>): seq<Event>
    requires ValidLimits(l)
    decreases |events|
  {
    if |events| == 0 then []
    else GlobalEvents(l, s, events[0]) + GlobalTrace(l, Apply(l, s, events[0]).system, events[1..])
  }

  function ClassTrace(k: RateClass, events: seq<SystemEvent>): seq<Event> {
    if |events| == 0 then [] else ClassEvents(k, events[0]) + ClassTrace(k, events[1..])
  }

  ghost predicate Readings(events: seq<SystemEvent>, s: real, t: real) {
    forall e :: e in events && !e.ClassRemove? && !e.GlobalRemove? ==> s <= e.now <= t
  }

  function Count(q: seq<Owner>, k: RateClass): nat {
    if |q| == 0 then 0 else (if ClassOf(q[0].lane) == k then 1 else 0) + Count(q[1..], k)
  }

  /** Requests of class `k` that hold a class token and wait for a global one. */
  function Waiting(s: System, k: RateClass): nat {
    Count(Owners(s.global.waiters), k)
  }

  // ---- counting ----

  lemma {:induction false} CountConcat(a: seq<Owner>, b: seq<Owner>, k: RateClass)
    ensures Count(a + b, k) == Count(a, k) + Count(b, k)
  {
    if |a| == 0 {
      assert a + b == b;
    } else {
      assert (a + b)[1..] == a[1..] + b;
      CountConcat(a[1..], b, k);
    }
  }

  lemma {:induction false} KeepAndLose(q: seq<Owner>, expired: set<Owner>, k: RateClass)
    ensures Count(Keep(q, expired), k) + Count(Lose(q, expired), k) == Count(q, k)
    ensures |Keep(q, expired)| <= |q|
  {
    if |q| > 0 {
      KeepAndLose(q[1..], expired, k);
      CountConcat(if q[0] in expired then [] else [q[0]], Keep(q[1..], expired), k);
      CountConcat(if q[0] in expired then [q[0]] else [], Lose(q[1..], expired), k);
    }
  }

  lemma OwnersConcat(a: seq<Waiter>, b: seq<Waiter>)
    ensures Owners(a + b) == Owners(a) + Owners(b)
  {
    assert forall i :: 0 <= i < |a + b| ==> Owners(a + b)[i] == (Owners(a) + Owners(b))[i];
  }

  lemma SplitCount(q: seq<Waiter>, n: nat, k: RateClass)
    requires n <= |q|
    ensures Count(Owners(q[..n]), k) + Count(Owners(q[n..]), k) == Count(Owners(q), k)
  {
    assert q == q[..n] + q[n..];
    OwnersConcat(q[..n], q[n..]);
    CountConcat(Owners(q[..n]), Owners(q[n..]), k);
  }

  lemma InsertCount(q: seq<Waiter>, w: Waiter, k: RateClass)
    ensures Count(Owners(Insert(q, w)), k) == Count(Owners(q), k) + Count([w.owner], k)
  {
    var i := InsertionIndex(q, w);
    SplitCount(q, i, k);
    OwnersConcat(q[..i] + [w], q[i..]);
    OwnersConcat(q[..i], [w]);
    CountConcat(Owners(q[..i]) + [w.owner], Owners(q[i..]), k);
    CountConcat(Owners(q[..i]), [w.owner], k);
    assert Owners([w]) == [w.owner];
  }

  lemma {:induction false} RemoveCount(q: seq<Waiter>, sequence: nat, k: RateClass)
    ensures Count(Owners(WithoutSequence(q, sequence)), k) + Count(OwnersOf(q, sequence), k) == Count(Owners(q), k)
  {
    if |q| > 0 {
      var r := WithoutSequence(q[1..], sequence);
      assert Owners([q[0]]) == [q[0].owner];
      SplitCount(q, 1, k);
      assert q[..1] == [q[0]];
      if q[0].sequence != sequence {
        RemoveCount(q[1..], sequence, k);
        OwnersConcat([q[0]], r);
        CountConcat([q[0].owner], Owners(r), k);
      }
    }
  }

  lemma DrainConservesOwners(b: Bucket, k: RateClass)
    ensures Count(Drain(b).granted, k) + Count(Owners(Drain(b).bucket.waiters), k) == Count(Owners(b.waiters), k)
  {
    SplitCount(b.waiters, DrainCount(b.tokens, |b.waiters|), k);
  }

  /** What `acquire` does, by cases, without its arithmetic. */
  lemma AcquireCases(c: Config, b: Bucket, e: Event)
    requires ValidConfig(c) && e.Acquire? && !e.aborted
    ensures var r := Refill(c, b, e.now);
            var o := TokenBucket.Apply(c, b, e);
            || (o.granted == [e.owner] && o.bucket.waiters == b.waiters)
            || (var d := Drain(TokenBucket.Joined(r, e.owner, e.priority));
                o.granted == d.granted && o.bucket.waiters == d.bucket.waiters)
  {
  }

  /** A bucket neither loses nor invents requests: who asked is let through or waits. */
  lemma AcquireConservesOwners(c: Config, b: Bucket, e: Event, k: RateClass)
    requires ValidConfig(c) && e.Acquire? && !e.aborted
    ensures var o := TokenBucket.Apply(c, b, e);
            Count(o.granted, k) + Count(Owners(o.bucket.waiters), k)
            == Count(Owners(b.waiters), k) + Count([e.owner], k)
  {
    var r := Refill(c, b, e.now);
    var w := Waiter(e.owner, e.priority, r.nextSequence);
    AcquireCases(c, b, e);
    InsertCount(b.waiters, w, k);
    DrainConservesOwners(TokenBucket.Joined(r, e.owner, e.priority), k);
  }

  lemma RefillKeepsQueue(c: Config, b: Bucket, now: real)
    ensures Refill(c, b, now).waiters == b.waiters
  {}

  lemma TickConservesOwners(c: Config, b: Bucket, now: real, k: RateClass)
    requires ValidConfig(c)
    ensures var o := TokenBucket.Apply(c, b, Tick(now));
            Count(o.granted, k) + Count(Owners(o.bucket.waiters), k) == Count(Owners(b.waiters), k)
  {
    hide Refill, Gain, WaitMs, Drain;
    RefillKeepsQueue(c, b.(timer := None), now);
    DrainConservesOwners(Refill(c, b.(timer := None), now), k);
  }

  lemma {:induction false} RequestsConserveOwners(c: Config, b: Bucket, q: seq<Owner>, now: real, k: RateClass)
    requires ValidConfig(c)
    ensures var o := Run(c, b, GlobalRequests(q, now));
            Count(o.granted, k) + Count(Owners(o.bucket.waiters), k) == Count(Owners(b.waiters), k) + Count(q, k)
    decreases |q|
  {
    hide TokenBucket.Apply, Owners;
    if |q| > 0 {
      var e := Acquire(now, q[0], GlobalPriority(q[0].lane), false);
      var first := TokenBucket.Apply(c, b, e);
      var es := GlobalRequests(q, now);
      assert es[0] == e && es[1..] == GlobalRequests(q[1..], now);
      AcquireConservesOwners(c, b, e, k);
      RequestsConserveOwners(c, first.bucket, q[1..], now, k);
      CountConcat(first.granted, Run(c, first.bucket, es[1..]).granted, k);
      CountConcat([q[0]], q[1..], k);
      assert [q[0]] + q[1..] == q;
    }
  }

  lemma RunOne(c: Config, b: Bucket, e: Event)
    requires ValidConfig(c)
    ensures Run(c, b, [e]).bucket == TokenBucket.Apply(c, b, e).bucket
    ensures Run(c, b, [e]).granted == TokenBucket.Apply(c, b, e).granted
  {
    assert [e][1..] == [];
    assert Run(c, TokenBucket.Apply(c, b, e).bucket, []).granted == [];
  }

  /** The books of the global bucket for one step. */
  lemma GlobalBooks(l: Limits, s: System, e: SystemEvent, k: RateClass)
    requires ValidLimits(l)
    ensures var o := Run(l.global, s.global, GlobalEvents(l, s, e));
            Count(o.granted, k) + Count(Owners(o.bucket.waiters), k)
            + (if e.GlobalRemove? then Count(OwnersOf(s.global.waiters, e.sequence), k) else 0)
            == Waiting(s, k) + (if e.GlobalTick? || e.GlobalRemove? || e.ClassRemove? then 0
                                else Count(Keep(ClassGrants(l, s, e), e.expired), k))
  {
    hide Keep, ClassGrants;
    match e
    case GlobalTick(now, _) =>
      RunOne(l.global, s.global, Tick(now));
      TickConservesOwners(l.global, s.global, now, k);
    case GlobalRemove(sequence) =>
      RunOne(l.global, s.global, Remove(sequence));
      RemoveCount(s.global.waiters, sequence, k);
    case ClassRemove(_, _) =>
    case Enter(_, now, expired) =>
      RequestsConserveOwners(l.global, s.global, Keep(ClassGrants(l, s, e), expired), now, k);
    case ClassTick(_, now, expired) =>
      RequestsConserveOwners(l.global, s.global, Keep(ClassGrants(l, s, e), expired), now, k);
  }

  lemma RemoveGrantsNobody(l: Limits, s: System, e: SystemEvent)
    requires ValidLimits(l) && (e.GlobalTick? || e.GlobalRemove? || e.ClassRemove?)
    ensures ClassGrants(l, s, e) == []
  {
    var k := EventClass(e);
    if e.ClassRemove? {
      RunOne(ClassConfig(l, k), ClassBucket(s, k), Remove(e.sequence));
    }
  }

  lemma StepConservesRequests(l: Limits, s: System, e: SystemEvent, k: RateClass)
    requires ValidLimits(l)
    ensures var log := Apply(l, s, e);
            Count(log.classTokens, k) + Waiting(s, k)
            == Count(log.started, k) + Count(log.burned, k) + Waiting(log.system, k)
  {
    var log := Apply(l, s, e);
    var global := Run(l.global, s.global, GlobalEvents(l, s, e));
    var removed := if e.GlobalRemove? then OwnersOf(s.global.waiters, e.sequence) else [];
    GlobalBooks(l, s, e, k);
    KeepAndLose(global.granted, Expired(e), k);
    KeepAndLose(log.classTokens, Expired(e), k);
    CountConcat(Lose(log.classTokens, Expired(e)) + removed, Lose(global.granted, Expired(e)), k);
    CountConcat(Lose(log.classTokens, Expired(e)), removed, k);
    if e.GlobalTick? || e.GlobalRemove? || e.ClassRemove? {
      RemoveGrantsNobody(l, s, e);
    }
  }

  /** Conservation over a run: every class token taken ends as an upstream call, as a
      request that gave up, or as a request still waiting for a global token. */
  lemma {:induction false} RequestsAreConserved(l: Limits, s: System, events: seq<SystemEvent>, k: RateClass)
    requires ValidLimits(l)
    ensures var log := RunAll(l, s, events);
            Count(log.classTokens, k) + Waiting(s, k)
            == Count(log.started, k) + Count(log.burned, k) + Waiting(log.system, k)
    decreases |events|
  {
    if |events| > 0 {
      var first := Apply(l, s, events[0]);
      var rest := RunAll(l, first.system, events[1..]);
      StepConservesRequests(l, s, events[0], k);
      RequestsAreConserved(l, first.system, events[1..], k);
      CountConcat(first.classTokens, rest.classTokens, k);
      CountConcat(first.started, rest.started, k);
      CountConcat(first.burned, rest.burned, k);
    }
  }

  // ---- the bounds ----

  lemma {:induction false} RunOnGlobal(l: Limits, s: System, events: seq<SystemEvent>)
    requires ValidLimits(l)
    ensures RunAll(l, s, events).system.global == Run(l.global, s.global, GlobalTrace(l, s, events)).bucket
    ensures |RunAll(l, s, events).started| <= |Run(l.global, s.global, GlobalTrace(l, s, events)).granted|
    decreases |events|
  {
    if |events| > 0 {
      var e := events[0];
      var first := Apply(l, s, e);
      RunOnGlobal(l, first.system, events[1..]);
      RunConcat(l.global, s.global, GlobalEvents(l, s, e), GlobalTrace(l, first.system, events[1..]));
      KeepAndLose(Run(l.global, s.global, GlobalEvents(l, s, e)).granted, Expired(e), Foreground);
    }
  }

  lemma {:induction false} RequestsWithin(q: seq<Owner>, now: real, s: real, t: real)
    requires s <= now <= t
    ensures Within(GlobalRequests(q, now), s, t)
  {
    if |q| > 0 {
      RequestsWithin(q[1..], now, s, t);
    }
  }

  lemma {:induction false} GlobalTraceWithin(l: Limits, sys: System, events: seq<SystemEvent>, s: real, t: real)
    requires ValidLimits(l) && Readings(events, s, t)
    ensures Within(GlobalTrace(l, sys, events), s, t)
    decreases |events|
  {
    if |events| > 0 {
      var e := events[0];
      assert e in events;
      if e.Enter? || e.ClassTick? {
        RequestsWithin(Keep(ClassGrants(l, sys, e), e.expired), e.now, s, t);
      }
      assert Within(GlobalEvents(l, sys, e), s, t);
      GlobalTraceWithin(l, Apply(l, sys, e).system, events[1..], s, t);
    }
  }

  /** Over any window all five lanes together start at most what the global bucket
      allows, whatever gives up or times out on the way. */
  lemma ComposedRateBound(l: Limits, sys: System, events: seq<SystemEvent>, s: real, t: real)
    requires ValidLimits(l) && SystemOk(l, sys) && s <= t && Readings(events, s, t)
    ensures |RunAll(l, sys, events).started| as real <= l.global.capacity + Gain(l.global, t - s)
  {
    RunOnGlobal(l, sys, events);
    GlobalTraceWithin(l, sys, events, s, t);
    RateBound(l.global, sys.global, GlobalTrace(l, sys, events), s, t);
  }

  lemma {:induction false} GrantedClass(c: Config, b: Bucket, events: seq<Event>, k: RateClass)
    requires ValidConfig(c)
    requires forall w :: w in b.waiters ==> ClassOf(w.owner.lane) == k
    requires forall e :: e in events && (e.Acquire? || e.TryAcquire?) ==> ClassOf(e.owner.lane) == k
    ensures Count(Run(c, b, events).granted, k) == |Run(c, b, events).granted|
    ensures forall w :: w in Run(c, b, events).bucket.waiters ==> ClassOf(w.owner.lane) == k
    ensures forall o :: o in Run(c, b, events).granted ==> ClassOf(o.lane) == k
    decreases |events|
  {
    if |events| > 0 {
      var e := events[0];
      assert e in events;
      var first := TokenBucket.Apply(c, b, e);
      StepKeepsClass(c, b, e, k);
      GrantedClass(c, first.bucket, events[1..], k);
      AllCounted(Run(c, b, events).granted, k);
    }
  }

  lemma {:induction false} AllCounted(q: seq<Owner>, k: RateClass)
    requires forall o :: o in q ==> ClassOf(o.lane) == k
    ensures Count(q, k) == |q|
  {
    if |q| > 0 {
      AllCounted(q[1..], k);
    }
  }

  lemma StepKeepsClass(c: Config, b: Bucket, e: Event, k: RateClass)
    requires ValidConfig(c)
    requires forall w :: w in b.waiters ==> ClassOf(w.owner.lane) == k
    requires e.Acquire? || e.TryAcquire? ==> ClassOf(e.owner.lane) == k
    ensures var o := TokenBucket.Apply(c, b, e);
            && (forall w :: w in o.bucket.waiters ==> ClassOf(w.owner.lane) == k)
            && (forall x :: x in o.granted ==> ClassOf(x.lane) == k)
  {
    hide Gain, WaitMs, Insert, DrainCount;
    if e.Acquire? {
      var r := Refill(c, b, e.now);
      InsertElements(r.waiters, Waiter(e.owner, e.priority, r.nextSequence));
    } else if e.Remove? {
      WithoutSequenceFacts(b.waiters, e.sequence);
    }
  }

  /** Each class bucket only ever serves its own class. */
  ghost predicate ClassesOk(s: System) {
    forall k, w {:trigger w in ClassBucket(s, k).waiters} :: w in ClassBucket(s, k).waiters ==> ClassOf(w.owner.lane) == k
  }

  lemma ClassStep(l: Limits, s: System, e: SystemEvent, k: RateClass)
    requires ValidLimits(l) && ClassesOk(s)
    ensures var o := Run(ClassConfig(l, k), ClassBucket(s, k), ClassEvents(k, e));
            && ClassBucket(Apply(l, s, e).system, k) == o.bucket
            && Count(Apply(l, s, e).classTokens, k) == |o.granted|
            && (forall w :: w in o.bucket.waiters ==> ClassOf(w.owner.lane) == k)
  {
    var j := EventClass(e);
    assert forall w :: w in ClassBucket(s, k).waiters ==> ClassOf(w.owner.lane) == k;
    assert forall w :: w in ClassBucket(s, j).waiters ==> ClassOf(w.owner.lane) == j;
    GrantedClass(ClassConfig(l, k), ClassBucket(s, k), ClassEvents(k, e), k);
    GrantedClass(ClassConfig(l, j), ClassBucket(s, j), ClassEvents(j, e), j);
    if j != k {
      NoneCounted(Apply(l, s, e).classTokens, j, k);
    }
  }

  lemma {:induction false} NoneCounted(q: seq<Owner>, j: RateClass, k: RateClass)
    requires j != k && forall o :: o in q ==> ClassOf(o.lane) == j
    ensures Count(q, k) == 0
  {
    if |q| > 0 {
      NoneCounted(q[1..], j, k);
    }
  }

  lemma {:induction false} RunOnClass(l: Limits, s: System, events: seq<SystemEvent>, k: RateClass)
    requires ValidLimits(l) && ClassesOk(s)
    ensures Count(RunAll(l, s, events).classTokens, k)
            == |Run(ClassConfig(l, k), ClassBucket(s, k), ClassTrace(k, events)).granted|
    ensures ClassesOk(RunAll(l, s, events).system)
    decreases |events|
  {
    if |events| > 0 {
      var e := events[0];
      var first := Apply(l, s, e);
      ClassStep(l, s, e, k);
      forall j, w | w in ClassBucket(first.system, j).waiters ensures ClassOf(w.owner.lane) == j {
        ClassStep(l, s, e, j);
      }
      RunOnClass(l, first.system, events[1..], k);
      RunConcat(ClassConfig(l, k), ClassBucket(s, k), ClassEvents(k, e), ClassTrace(k, events[1..]));
      CountConcat(first.classTokens, RunAll(l, first.system, events[1..]).classTokens, k);
    }
  }

  lemma {:induction false} ClassTraceWithin(events: seq<SystemEvent>, k: RateClass, s: real, t: real)
    requires Readings(events, s, t)
    ensures Within(ClassTrace(k, events), s, t)
  {
    if |events| > 0 {
      assert events[0] in events;
      ClassTraceWithin(events[1..], k, s, t);
    }
  }

  /** The class tokens handed out in a window stay within the class's own bound. */
  lemma ClassTokenBound(l: Limits, sys: System, events: seq<SystemEvent>, k: RateClass, s: real, t: real)
    requires ValidLimits(l) && SystemOk(l, sys) && ClassesOk(sys) && s <= t && Readings(events, s, t)
    ensures Count(RunAll(l, sys, events).classTokens, k) as real
            <= ClassConfig(l, k).capacity + Gain(ClassConfig(l, k), t - s)
  {
    RunOnClass(l, sys, events, k);
    ClassTraceWithin(events, k, s, t);
    RateBound(ClassConfig(l, k), ClassBucket(sys, k), ClassTrace(k, events), s, t);
  }

  /** Upstream calls of a class exceed its bound by at most the requests that held a
      class token when the window opened; with none waiting the bound is the class's own. */
  lemma ClassStartBound(l: Limits, sys: System, events: seq<SystemEvent>, k: RateClass, s: real, t: real)
    requires ValidLimits(l) && SystemOk(l, sys) && ClassesOk(sys) && s <= t && Readings(events, s, t)
    ensures Count(RunAll(l, sys, events).started, k) as real
            <= ClassConfig(l, k).capacity + Gain(ClassConfig(l, k), t - s) + Waiting(sys, k) as real
    ensures Waiting(sys, k) == 0 ==>
              Count(RunAll(l, sys, events).started, k) as real
              <= ClassConfig(l, k).capacity + Gain(ClassConfig(l, k), t - s)
  {
    ClassTokenBound(l, sys, events, k, s, t);
    RequestsAreConserved(l, sys, events, k);
  }

  // ---- single steps in which nobody's deadline passes ----

  lemma {:induction false} NothingExpired(q: seq<Owner>)
    ensures Keep(q, {}) == q && Lose(q, {}) == []
  {
    if |q| > 0 {
      NothingExpired(q[1..]);
      assert [q[0]] + q[1..] == q;
    }
  }

  lemma OneRequest(owner: Owner, now: real)
    ensures GlobalRequests([owner], now) == [Acquire(now, owner, GlobalPriority(owner.lane), false)]
  {
    assert [owner][1..] == [];
  }

  /** A request that finds a class token at once and goes on to the global bucket. */
  lemma EnterWithToken(l: Limits, s: System, owner: Owner, now: real)
    requires ValidLimits(l)
    requires var k := ClassOf(owner.lane);
             Refill(ClassConfig(l, k), ClassBucket(s, k), now).tokens >= 1.0 && ClassBucket(s, k).waiters == []
    ensures var k := ClassOf(owner.lane);
            var r := Refill(ClassConfig(l, k), ClassBucket(s, k), now);
            var g := AcquireStep(l.global, s.global, now, owner, GlobalPriority(owner.lane), false);
            Apply(l, s, Enter(owner, now, {}))
            == Log(WithClass(s, k, r.(tokens := r.tokens - 1.0)).(global := g.bucket), [owner], g.granted, [])
  {
    var k := ClassOf(owner.lane);
    var e := Enter(owner, now, {});
    RunOne(ClassConfig(l, k), ClassBucket(s, k), Acquire(now, owner, 0, false));
    assert ClassGrants(l, s, e) == [owner];
    NothingExpired([owner]);
    var a := Acquire(now, owner, GlobalPriority(owner.lane), false);
    OneRequest(owner, now);
    RunOne(l.global, s.global, a);
    NothingExpired(TokenBucket.Apply(l.global, s.global, a).granted);
  }

  lemma GlobalCheck(l: Limits, s: System, now: real)
    requires ValidLimits(l) && Enabled(s.global, Tick(now))
    ensures var g := TickStep(l.global, s.global, now);
            Apply(l, s, GlobalTick(now, {})) == Log(s.(global := g.bucket), [], g.granted, [])
  {
    RunOne(l.global, s.global, Tick(now));
    NothingExpired(TickStep(l.global, s.global, now).granted);
    NothingExpired([]);
  }

  lemma RemoveFromGlobal(l: Limits, s: System, sequence: nat)
    requires ValidLimits(l)
    ensures var log := Apply(l, s, GlobalRemove(sequence));
            log.system == s.(global := RemoveStep(s.global, sequence)) && log.started == []
  {
    RunOne(l.global, s.global, Remove(sequence));
    NothingExpired([]);
  }

  lemma RemoveFromClass(l: Limits, s: System, k: RateClass, sequence: nat)
    requires ValidLimits(l)
    ensures var log := Apply(l, s, ClassRemove(k, sequence));
            log.system == WithClass(s, k, RemoveStep(ClassBucket(s, k), sequence)) && log.started == []
  {
    RunOne(ClassConfig(l, k), ClassBucket(s, k), Remove(sequence));
    NothingExpired([]);
  }
}
