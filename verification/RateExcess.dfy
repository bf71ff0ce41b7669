/** Exactly when a class of lanes can start more calls in a window than its own bucket
    allows: what is known of the two buckets when the window opens decides it. */
module RateExcess {
  import opened Options
  import opened TokenBucket
  import opened RateBounds
  import opened RateComposition

  // ---- one bucket ----

  /** The time in which a bucket earns `tokens`. */
  function Due(c: Config, tokens: real): real
    requires ValidConfig(c)
  {
    tokens * 1000.0 / c.refillPerSecond
  }

  lemma DueEarns(c: Config, tokens: real)
    requires ValidConfig(c)
    ensures Gain(c, Due(c, tokens)) == tokens
    ensures tokens >= 0.0 ==> Due(c, tokens) >= 0.0
  {
    var x, r := tokens * 1000.0, c.refillPerSecond;
    assert x / r * r == x;
    assert x / r / 1000.0 * r == x / r * r / 1000.0;
    if tokens >= 0.0 {
      assert x / r >= 0.0;
    }
  }

  lemma DueIsFirst(c: Config, tokens: real, d: real)
    requires ValidConfig(c)
    ensures Due(c, tokens) <= d <==> tokens <= Gain(c, d)
  {
    hide Gain, Due;
    DueEarns(c, tokens);
    var x := Due(c, tokens);
    if x <= d {
      GainIsMonotone(c, x, d);
    } else {
      GainIsStrict(c, d, x);
    }
  }

  lemma GainIsStrict(c: Config, x: real, y: real)
    requires ValidConfig(c) && x < y
    ensures Gain(c, x) < Gain(c, y)
  {
    GainIsLinear(c, x, y - x);
    assert (y - x) / 1000.0 > 0.0;
    assert (y - x) / 1000.0 * c.refillPerSecond > 0.0;
  }

  /** Refilling later brings what the time in between earns, as long as there is room. */
  lemma RefillLater(c: Config, b: Bucket, x: real, y: real)
    requires ValidConfig(c) && 0.0 <= b.tokens <= c.capacity && b.lastRefillAt <= x <= y
    ensures var r, earned := Refill(c, b, x).tokens, Gain(c, y - x);
            && Refill(c, b, y).tokens == Min(c.capacity, r + earned)
            && 0.0 <= r <= c.capacity && earned >= 0.0
  {
    hide Gain, Refill;
    RefillInTwoSteps(c, b, x, y);
    RefillFacts(c, b, x);
    RefillOnce(c, Refill(c, b, x), y);
    GainIsMonotone(c, 0.0, y - x);
    GainOfZero(c);
  }

  lemma RefillOnce(c: Config, b: Bucket, now: real)
    requires b.lastRefillAt <= now && b.tokens <= c.capacity
    ensures Refill(c, b, now).tokens == Min(c.capacity, b.tokens + Gain(c, now - b.lastRefillAt))
  {
    hide Gain;
    GainOfZero(c);
    assert b.lastRefillAt == now ==> Gain(c, now - b.lastRefillAt) == 0.0;
  }

  /** Everybody who waits has no token to wait for. */
  predicate Served(c: Config, b: Bucket, x: real) {
    b.waiters == [] || Refill(c, b, x).tokens < 1.0
  }

  lemma RefillNow(c: Config, b: Bucket, x: real)
    requires x <= b.lastRefillAt
    ensures Refill(c, b, x) == b
  {}

  /** A refill check lets the front of the queue through as far as whole tokens go. */
  lemma TickServes(c: Config, b: Bucket, x: real)
    requires ValidConfig(c) && Ok(c, b) && b.waiters != [] && b.lastRefillAt <= x
    ensures var o, r := TickStep(c, b, x), Refill(c, b, x).tokens;
            var n := |o.granted|;
            && Enabled(b, Tick(x)) && Ok(c, o.bucket) && o.bucket.lastRefillAt == x
            && n <= |b.waiters| && o.bucket.waiters == b.waiters[n..] && o.granted == Owners(b.waiters[..n])
            && Refill(c, o.bucket, x).tokens == r - n as real
            && Served(c, o.bucket, x)
            && (r == 1.0 ==> n == 1)
  {
    hide Gain, WaitMs, Owners, Refill, DrainCount;
    var r := Refill(c, b, x);
    RefillFacts(c, b, x);
    RefillIgnoresTimer(c, b, x);
    TickKeepsOk(c, b, x);
    DrainFacts(c, r.(timer := None));
    DrainCountFacts(r.tokens, |b.waiters|);
    RefillNow(c, TickStep(c, b, x).bucket, x);
  }

  /** A request that asks a served bucket: it goes at once, or it waits and nobody goes. */
  lemma AcquireServed(c: Config, b: Bucket, x: real, owner: Owner, priority: int)
    requires ValidConfig(c) && Ok(c, b) && b.lastRefillAt <= x && Served(c, b, x)
    ensures var o, r := AcquireStep(c, b, x, owner, priority, false), Refill(c, b, x).tokens;
            && Ok(c, o.bucket) && o.bucket.lastRefillAt == x && Served(c, o.bucket, x)
            && Refill(c, o.bucket, x).tokens == r - |o.granted| as real
            && (if r >= 1.0 then o.granted == [owner] && b.waiters == [] && o.bucket.waiters == []
                else o.granted == [] && |o.bucket.waiters| == |b.waiters| + 1
                     && forall w :: w in o.bucket.waiters ==> w in b.waiters || w.owner == owner)
  {
    hide Gain, WaitMs, InsertionIndex, Refill, DrainCount;
    var r := Refill(c, b, x);
    RefillFacts(c, b, x);
    AcquireKeepsOk(c, b, x, owner, priority, false);
    if r.tokens < 1.0 {
      var w := Waiter(owner, priority, r.nextSequence);
      InsertElements(r.waiters, w);
      var joined := Insert(r.waiters, w);
      assert joined[..0] == [] && joined[0..] == joined;
      NoneDrained(r.tokens, |joined|);
    }
    RefillNow(c, AcquireStep(c, b, x, owner, priority, false).bucket, x);
  }

  lemma NoneDrained(tokens: real, waiting: nat)
    requires tokens < 1.0
    ensures DrainCount(tokens, waiting) == 0
  {}

  // ---- runs, a step at a time ----

  /** Some run that reads the clock within [s, x] leads from `from` to `sys` and starts `n`
      calls of class `k` on the way. */
  ghost predicate Reaches(l: Limits, k: RateClass, from: System, s: real, x: real, sys: System, n: nat)
    requires ValidLimits(l)
  {
    exists events :: Ends(l, k, from, s, x, sys, n, events)
  }

  ghost predicate Ends(l: Limits, k: RateClass, from: System, s: real, x: real, sys: System, n: nat, events: seq<SystemEvent>)
    requires ValidLimits(l)
  {
    && Readings(events, s, x)
    && RunAll(l, from, events).system == sys
    && Count(RunAll(l, from, events).started, k) == n
  }

  lemma {:induction false} RunAllSnoc(l: Limits, sys: System, events: seq<SystemEvent>, e: SystemEvent)
    requires ValidLimits(l)
    ensures var before := RunAll(l, sys, events);
            var last := RateComposition.Apply(l, before.system, e);
            && RunAll(l, sys, events + [e]).system == last.system
            && RunAll(l, sys, events + [e]).started == before.started + last.started
    decreases |events|
  {
    hide RateComposition.Apply;
    if |events| == 0 {
      assert events + [e] == [e] && [e][1..] == [];
    } else {
      assert (events + [e])[1..] == events[1..] + [e];
      RunAllSnoc(l, RateComposition.Apply(l, sys, events[0]).system, events[1..], e);
    }
  }

  lemma ReachesNext(l: Limits, k: RateClass, from: System, s: real, x: real, sys: System, n: nat, e: SystemEvent, y: real)
    requires ValidLimits(l) && Reaches(l, k, from, s, x, sys, n) && x <= y
    requires e.ClassRemove? || e.GlobalRemove? || s <= e.now <= y
    ensures var log := RateComposition.Apply(l, sys, e);
            Reaches(l, k, from, s, y, log.system, n + Count(log.started, k))
  {
    hide RateComposition.Apply, RunAll;
    var events :| Ends(l, k, from, s, x, sys, n, events);
    var log := RateComposition.Apply(l, sys, e);
    RunAllSnoc(l, from, events, e);
    CountConcat(RunAll(l, from, events).started, log.started, k);
    assert Ends(l, k, from, s, y, log.system, n + Count(log.started, k), events + [e]);
  }

  lemma ReachesStart(l: Limits, k: RateClass, from: System, s: real)
    requires ValidLimits(l)
    ensures Reaches(l, k, from, s, s, from, 0)
  {
    assert Ends(l, k, from, s, s, from, 0, []);
  }

  lemma ReachesLater(l: Limits, k: RateClass, from: System, s: real, x: real, sys: System, n: nat, y: real)
    requires ValidLimits(l) && Reaches(l, k, from, s, x, sys, n) && x <= y
    ensures Reaches(l, k, from, s, y, sys, n)
  {
    hide RunAll;
    var events :| Ends(l, k, from, s, x, sys, n, events);
    assert Ends(l, k, from, s, y, sys, n, events);
  }

  // ---- the claim ----

  /** What the class's own bucket allows in a window of length `d`. */
  function ClassBound(l: Limits, k: RateClass, d: real): real {
    ClassConfig(l, k).capacity + Gain(ClassConfig(l, k), d)
  }

  /** The run starts more calls of the class within [s, t] than that. */
  ghost predicate Passes(l: Limits, sys: System, k: RateClass, s: real, t: real, events: seq<SystemEvent>)
    requires ValidLimits(l)
  {
    && s <= t && Readings(events, s, t)
    && Count(RunAll(l, sys, events).started, k) as real > ClassBound(l, k, t - s)
  }

  ghost predicate Exceeds(l: Limits, sys: System, k: RateClass, s: real)
    requires ValidLimits(l)
  {
    exists t, events :: Passes(l, sys, k, s, t, events)
  }

  lemma ReachingExceeds(l: Limits, sys: System, k: RateClass, s: real, t: real, end: System, n: nat)
    requires ValidLimits(l) && s <= t && Reaches(l, k, sys, s, t, end, n) && n as real > ClassBound(l, k, t - s)
    ensures Exceeds(l, sys, k, s)
  {
    hide RunAll, Gain;
    var events :| Ends(l, k, sys, s, t, end, n, events);
    assert Passes(l, sys, k, s, t, events);
  }

  function ClassTokens(l: Limits, sys: System, k: RateClass, s: real): real {
    Refill(ClassConfig(l, k), ClassBucket(sys, k), s).tokens
  }

  function GlobalTokens(l: Limits, sys: System, s: real): real {
    Refill(l.global, sys.global, s).tokens
  }

  /** The requests that hold a class token, with the whole class tokens there will be after
      `d`, and the whole global tokens there will be, both pass the class's bound for `d`. */
  predicate RoomToExceed(l: Limits, sys: System, k: RateClass, s: real, d: real) {
    && d >= 0.0
    && (Waiting(sys, k) + (ClassTokens(l, sys, k, s) + Gain(ClassConfig(l, k), d)).Floor) as real > ClassBound(l, k, d)
    && (GlobalTokens(l, sys, s) + Gain(l.global, d)).Floor as real > ClassBound(l, k, d)
  }

  // ---- no run exceeds more than that ----

  /** From a bucket last refilled before a window, no more is granted in it than the tokens
      it opens with and what the window earns. */
  lemma GrantsFromOpening(c: Config, b: Bucket, events: seq<Event>, s: real, t: real)
    requires ValidConfig(c) && Ok(c, b) && b.lastRefillAt <= s <= t && Within(events, s, t)
    ensures |Run(c, b, events).granted| as real <= Refill(c, b, s).tokens + Gain(c, t - s)
  {
    hide Gain, Refill, Run;
    ExtraRefillIsInvisible(c, b, s, events);
    RefillFacts(c, b, s);
    ApplyKeepsOk(c, b, ReadStats(s));
    GrantsByTokens(c, Refill(c, b, s), events, s, t);
  }

  lemma FloorBound(n: int, x: real)
    requires n as real <= x
    ensures n <= x.Floor
  {}

  lemma {:induction false} CountIsSmall(q: seq<Owner>, k: RateClass)
    ensures Count(q, k) <= |q|
  {
    if |q| > 0 {
      CountIsSmall(q[1..], k);
    }
  }

  /** The opening's limits on what a window can start. */
  lemma StartsFromOpening(l: Limits, sys: System, events: seq<SystemEvent>, k: RateClass, s: real, t: real)
    requires ValidLimits(l) && SystemOk(l, sys) && ClassesOk(sys) && s <= t && Readings(events, s, t)
    requires ClassBucket(sys, k).lastRefillAt <= s && sys.global.lastRefillAt <= s
    ensures var n := Count(RunAll(l, sys, events).started, k);
            && n <= Waiting(sys, k) + (ClassTokens(l, sys, k, s) + Gain(ClassConfig(l, k), t - s)).Floor
            && n <= (GlobalTokens(l, sys, s) + Gain(l.global, t - s)).Floor
  {
    hide Gain, Refill, Run, RunAll, Ok;
    var log := RunAll(l, sys, events);
    RequestsAreConserved(l, sys, events, k);
    RunOnClass(l, sys, events, k);
    ClassTraceWithin(events, k, s, t);
    GrantsFromOpening(ClassConfig(l, k), ClassBucket(sys, k), ClassTrace(k, events), s, t);
    FloorBound(Count(log.classTokens, k), ClassTokens(l, sys, k, s) + Gain(ClassConfig(l, k), t - s));
    RunOnGlobal(l, sys, events);
    GlobalTraceWithin(l, sys, events, s, t);
    GrantsFromOpening(l.global, sys.global, GlobalTrace(l, sys, events), s, t);
    CountIsSmall(log.started, k);
    FloorBound(Count(log.started, k), GlobalTokens(l, sys, s) + Gain(l.global, t - s));
  }

  lemma ExceedsNeedsRoom(l: Limits, sys: System, k: RateClass, s: real)
    requires ValidLimits(l) && SystemOk(l, sys) && ClassesOk(sys) && Exceeds(l, sys, k, s)
    requires ClassBucket(sys, k).lastRefillAt <= s && sys.global.lastRefillAt <= s
    ensures exists d :: RoomToExceed(l, sys, k, s, d)
  {
    hide Gain, Refill, RunAll, Ok;
    var t, events :| Passes(l, sys, k, s, t, events);
    StartsFromOpening(l, sys, events, k, s, t);
    assert RoomToExceed(l, sys, k, s, t - s);
  }

  // ---- and some run uses all of it ----

  /** The run so far has read the clock up to `x`; only requests of class `k` wait for the
      global bucket, and none for the class's own. */
  ghost predicate Calm(l: Limits, k: RateClass, x: real, sys: System) {
    && SystemOk(l, sys)
    && ClassBucket(sys, k).waiters == []
    && (forall w :: w in sys.global.waiters ==> ClassOf(w.owner.lane) == k)
    && ClassBucket(sys, k).lastRefillAt <= x && sys.global.lastRefillAt <= x
  }

  ghost predicate Ready(l: Limits, k: RateClass, x: real, sys: System) {
    Calm(l, k, x, sys) && Served(l.global, sys.global, x)
  }

  lemma {:induction false} WaitingIsLength(q: seq<Waiter>, k: RateClass)
    requires forall w :: w in q ==> ClassOf(w.owner.lane) == k
    ensures Count(Owners(q), k) == |q|
  {
    assert forall o :: o in Owners(q) ==> ClassOf(o.lane) == k;
    AllCounted(Owners(q), k);
  }

  function Member(k: RateClass): (o: Owner)
    ensures ClassOf(o.lane) == k
  {
    Owner(match k case Foreground => UserLane case Mutation => MutationLane case Background => SyncLane, 0)
  }

  /** A refill check at `x`. */
  lemma TickStepsOn(l: Limits, k: RateClass, x: real, sys: System)
    requires ValidLimits(l) && Calm(l, k, x, sys) && sys.global.waiters != []
    ensures var log, r := RateComposition.Apply(l, sys, GlobalTick(x, {})), GlobalTokens(l, sys, x);
            var n := Count(log.started, k);
            && Ready(l, k, x, log.system) && ClassBucket(log.system, k) == ClassBucket(sys, k)
            && |log.system.global.waiters| == |sys.global.waiters| - n
            && GlobalTokens(l, log.system, x) == r - n as real
            && (r == 1.0 ==> n == 1)
  {
    hide Refill, TickStep, RateComposition.Apply, Ok;
    var b := sys.global;
    TickServes(l.global, b, x);
    GlobalCheck(l, sys, x);
    var n := |TickStep(l.global, b, x).granted|;
    assert forall w :: w in b.waiters[..n] ==> w in b.waiters;
    assert forall w :: w in b.waiters[n..] ==> w in b.waiters;
    WaitingIsLength(b.waiters[..n], k);
  }

  /** A request of the class at `x`, when the class has a token. */
  lemma EnterStepsOn(l: Limits, k: RateClass, x: real, sys: System)
    requires ValidLimits(l) && Ready(l, k, x, sys) && ClassTokens(l, sys, k, x) >= 1.0
    ensures var log, r := RateComposition.Apply(l, sys, Enter(Member(k), x, {})), GlobalTokens(l, sys, x);
            var n := Count(log.started, k);
            && Ready(l, k, x, log.system)
            && ClassTokens(l, log.system, k, x) == ClassTokens(l, sys, k, x) - 1.0
            && GlobalTokens(l, log.system, x) == r - n as real
            && n == (if r >= 1.0 then 1 else 0)
            && |log.system.global.waiters| == |sys.global.waiters| + 1 - n
            && (r >= 1.0 ==> sys.global.waiters == [])
  {
    hide Refill, AcquireStep, RateComposition.Apply, Ok;
    var owner := Member(k);
    var own := Refill(ClassConfig(l, k), ClassBucket(sys, k), x);
    AcquireServed(l.global, sys.global, x, owner, GlobalPriority(owner.lane));
    EnterWithToken(l, sys, owner, x);
    TokenTaken(ClassConfig(l, k), ClassBucket(sys, k), x);
    AllCounted([owner], k);
    AllCounted([], k);
  }

  lemma TokenTaken(c: Config, b: Bucket, x: real)
    requires ValidConfig(c) && Ok(c, b) && b.lastRefillAt <= x && Refill(c, b, x).tokens >= 1.0
    ensures var r := Refill(c, b, x); var after := r.(tokens := r.tokens - 1.0);
            && Ok(c, after) && after.lastRefillAt == x && after.waiters == b.waiters
            && Refill(c, after, x).tokens == r.tokens - 1.0
  {
    hide Refill, Gain;
    RefillFacts(c, b, x);
    var r := Refill(c, b, x);
    RefillNow(c, r.(tokens := r.tokens - 1.0), x);
  }

  /** What has not been started yet, and how much the global bucket will have for it. */
  ghost predicate Lean(l: Limits, before: System, x: real, n: nat, after: System, y: real, m: nat) {
    && GlobalTokens(l, after, y) < 1.0
    && GlobalTokens(l, after, y) + m as real == GlobalTokens(l, before, x) + Gain(l.global, y - x) + n as real
  }

  ghost predicate Rich(l: Limits, after: System, y: real) {
    after.global.waiters == [] && GlobalTokens(l, after, y) >= 1.0
  }

  /** From `x` to `y` a refill check at each whole token: at `y` either everybody has gone
      and a token is left, or every token of that time has been used. */
  lemma ServeUntil(l: Limits, k: RateClass, from: System, s: real, x: real, y: real, sys: System, n: nat)
      returns (after: System, m: nat)
    requires ValidLimits(l) && l.global.capacity >= 1.0 && s <= x <= y
    requires Ready(l, k, x, sys) && Reaches(l, k, from, s, x, sys, n)
    ensures Ready(l, k, y, after) && Reaches(l, k, from, s, y, after, m)
    ensures ClassBucket(after, k) == ClassBucket(sys, k) && m + |after.global.waiters| == n + |sys.global.waiters|
    ensures Rich(l, after, y) || Lean(l, sys, x, n, after, y, m)
    decreases |sys.global.waiters|
  {
    hide Gain, Refill, Due, RateComposition.Apply, Reaches, Ok;
    var c, b, r := l.global, sys.global, GlobalTokens(l, sys, x);
    OkTokens(c, b);
    RefillLater(c, b, x, y);
    if r + Gain(c, y - x) < 1.0 || b.waiters == [] {
      after, m := sys, n;
      ReachesLater(l, k, from, s, x, sys, n, y);
    } else {
      var z := x + Due(c, 1.0 - r);
      DueEarns(c, 1.0 - r);
      DueIsFirst(c, 1.0 - r, y - x);
      RefillLater(c, b, x, z);
      assert GlobalTokens(l, sys, z) == 1.0;
      TickStepsOn(l, k, z, sys);
      ReachesNext(l, k, from, s, x, sys, n, GlobalTick(z, {}), z);
      var next := RateComposition.Apply(l, sys, GlobalTick(z, {})).system;
      after, m := ServeUntil(l, k, from, s, z, y, next, n + 1);
      GainIsLinear(c, z - x, y - z);
      assert z - x + (y - z) == y - x;
    }
  }

  lemma OkTokens(c: Config, b: Bucket)
    requires Ok(c, b)
    ensures 0.0 <= b.tokens <= c.capacity
  {}

  /** The books at `x`: `e` requests have entered since the window opened and `n` started,
      and no token has been lost on the way. */
  ghost predicate Booked(l: Limits, k: RateClass, from: System, s: real, x: real, sys: System, n: nat, e: nat) {
    && ClassTokens(l, sys, k, x) + e as real == ClassTokens(l, from, k, s) + Gain(ClassConfig(l, k), x - s)
    && GlobalTokens(l, sys, x) + n as real == GlobalTokens(l, from, s) + Gain(l.global, x - s)
    && n + |sys.global.waiters| == Waiting(from, k) + e
  }

  lemma FloorIs(x: real, n: int)
    requires n as real <= x < n as real + 1.0
    ensures x.Floor == n
  {}

  lemma GainSplits(c: Config, s: real, x: real, y: real)
    ensures Gain(c, x - s) + Gain(c, y - x) == Gain(c, y - s)
  {
    hide Gain;
    GainIsLinear(c, x - s, y - x);
    assert x - s + (y - x) == y - s;
  }

  ghost predicate BigEnough(l: Limits, k: RateClass) {
    ValidLimits(l) && l.global.capacity >= 1.0 && ClassConfig(l, k).capacity >= 1.0
  }

  /** No more class tokens come before the window closes: what is started by then passes
      the bound. */
  lemma LastStretch(l: Limits, k: RateClass, from: System, s: real, x: real, t: real, sys: System, n: nat, e: nat)
    requires BigEnough(l, k) && RoomToExceed(l, from, k, s, t - s) && s <= x <= t
    requires Ready(l, k, x, sys) && Reaches(l, k, from, s, x, sys, n) && Booked(l, k, from, s, x, sys, n, e)
    requires 0.0 <= ClassTokens(l, sys, k, x) && ClassTokens(l, sys, k, x) + Gain(ClassConfig(l, k), t - x) < 1.0
    ensures Exceeds(l, from, k, s)
  {
    hide Gain, Refill, Reaches, Exceeds, Ok, ValidLimits;
    var after, m := ServeUntil(l, k, from, s, x, t, sys, n);
    GainSplits(ClassConfig(l, k), s, x, t);
    GainSplits(l.global, s, x, t);
    GainGrows(l, k, t - x);
    if Rich(l, after, t) {
      FloorIs(ClassTokens(l, from, k, s) + Gain(ClassConfig(l, k), t - s), e);
    } else {
      FloorBelow(GlobalTokens(l, from, s) + Gain(l.global, t - s), m);
    }
    ReachingExceeds(l, from, k, s, t, after, m);
  }

  lemma GainGrows(l: Limits, k: RateClass, d: real)
    requires ValidLimits(l) && d >= 0.0
    ensures Gain(ClassConfig(l, k), d) >= 0.0
  {
    hide Gain;
    GainIsMonotone(ClassConfig(l, k), 0.0, d);
    GainOfZero(ClassConfig(l, k));
  }

  lemma FloorBelow(x: real, m: int)
    requires x < m as real + 1.0
    ensures x.Floor <= m
  {}

  /** The class earns its next token at `y`: the request that takes it passes the bound if it
      starts at once, and waits otherwise. */
  lemma NextRequest(l: Limits, k: RateClass, from: System, s: real, x: real, y: real, sys: System, n: nat, e: nat)
      returns (after: System, m: nat)
    requires BigEnough(l, k) && s <= x <= y
    requires Waiting(from, k) as real + ClassTokens(l, from, k, s) > ClassConfig(l, k).capacity
    requires Ready(l, k, x, sys) && Reaches(l, k, from, s, x, sys, n) && Booked(l, k, from, s, x, sys, n, e)
    requires ClassTokens(l, sys, k, x) + Gain(ClassConfig(l, k), y - x) == 1.0
    ensures Exceeds(l, from, k, s)
            || (&& Ready(l, k, y, after) && Reaches(l, k, from, s, y, after, m) && Booked(l, k, from, s, y, after, m, e + 1)
                && ClassTokens(l, after, k, y) == 0.0)
  {
    hide Gain, Refill, Reaches, Exceeds, Ok, ValidLimits, RateComposition.Apply;
    var ck := ClassConfig(l, k);
    var served, started := ServeUntil(l, k, from, s, x, y, sys, n);
    ClassOkTokens(l, sys, k);
    RefillLater(ck, ClassBucket(sys, k), x, y);
    GainSplits(ck, s, x, y);
    GainSplits(l.global, s, x, y);
    EnterStepsOn(l, k, y, served);
    var enter := Enter(Member(k), y, {});
    ReachesNext(l, k, from, s, y, served, started, enter, y);
    var log := RateComposition.Apply(l, served, enter);
    after, m := log.system, started + Count(log.started, k);
    if Rich(l, served, y) {
      ReachingExceeds(l, from, k, s, y, after, m);
    }
  }

  lemma ClassOkTokens(l: Limits, sys: System, k: RateClass)
    requires SystemOk(l, sys) && ValidLimits(l)
    ensures ValidConfig(ClassConfig(l, k)) && Ok(ClassConfig(l, k), ClassBucket(sys, k))
    ensures 0.0 <= ClassBucket(sys, k).tokens <= ClassConfig(l, k).capacity
  {}

  lemma {:induction false} UseTheRoom(l: Limits, k: RateClass, from: System, s: real, x: real, t: real, sys: System, n: nat, e: nat)
    requires BigEnough(l, k) && RoomToExceed(l, from, k, s, t - s) && s <= x <= t
    requires Ready(l, k, x, sys) && Reaches(l, k, from, s, x, sys, n) && Booked(l, k, from, s, x, sys, n, e)
    requires 0.0 <= ClassTokens(l, sys, k, x) < 1.0
    ensures Exceeds(l, from, k, s)
    decreases (ClassTokens(l, from, k, s) + Gain(ClassConfig(l, k), t - s)).Floor - e
  {
    hide Gain, Refill, Reaches, Exceeds, Ok, ValidLimits, Ready, Due;
    var ck, r := ClassConfig(l, k), ClassTokens(l, sys, k, x);
    GainSplits(ck, s, x, t);
    DueOfClass(l, k, 1.0 - r, t - x);
    if r + Gain(ck, t - x) < 1.0 {
      LastStretch(l, k, from, s, x, t, sys, n, e);
    } else {
      var y := x + Due(ck, 1.0 - r);
      var after, m := NextRequest(l, k, from, s, x, y, sys, n, e);
      FloorBound(e + 1, ClassTokens(l, from, k, s) + Gain(ck, t - s));
      if !Exceeds(l, from, k, s) {
        UseTheRoom(l, k, from, s, y, t, after, m, e + 1);
      }
    }
  }

  lemma DueOfClass(l: Limits, k: RateClass, tokens: real, d: real)
    requires ValidLimits(l)
    ensures var c := ClassConfig(l, k);
            && ValidConfig(c) && Gain(c, Due(c, tokens)) == tokens
            && (tokens >= 0.0 ==> Due(c, tokens) >= 0.0)
            && (Due(c, tokens) <= d <==> tokens <= Gain(c, d))
  {
    hide Gain, Due;
    DueEarns(ClassConfig(l, k), tokens);
    DueIsFirst(ClassConfig(l, k), tokens, d);
  }

  // ---- opening the window ----

  lemma {:induction false} RemovedAt(q: seq<Waiter>, i: nat)
    requires DistinctSequences(q) && i < |q|
    ensures |WithoutSequence(q, q[i].sequence)| == |q| - 1 && OwnersOf(q, q[i].sequence) == [q[i].owner]
  {
    if i > 0 {
      assert q[0].sequence != q[i].sequence;
      RemovedAt(q[1..], i - 1);
    }
  }

  lemma RemovedKeepsTokens(c: Config, b: Bucket, sequence: nat, x: real)
    ensures Refill(c, RemoveStep(b, sequence), x).tokens == Refill(c, b, x).tokens
    ensures RemoveStep(b, sequence).lastRefillAt == b.lastRefillAt
  {
    hide Gain;
  }

  /** Nobody of the class waits for a class token any more; nothing else has changed. */
  lemma ClearClassQueue(l: Limits, k: RateClass, from: System, s: real, sys: System) returns (after: System)
    requires ValidLimits(l) && SystemOk(l, sys) && Reaches(l, k, from, s, s, sys, 0)
    ensures SystemOk(l, after) && Reaches(l, k, from, s, s, after, 0) && after.global == sys.global
    ensures ClassBucket(after, k).waiters == [] && ClassBucket(after, k).lastRefillAt == ClassBucket(sys, k).lastRefillAt
    ensures ClassTokens(l, after, k, s) == ClassTokens(l, sys, k, s)
    decreases |ClassBucket(sys, k).waiters|
  {
    hide Refill, Reaches, Ok, RateComposition.Apply, WithoutSequence;
    var b := ClassBucket(sys, k);
    after := sys;
    if b.waiters != [] {
      var sequence := b.waiters[0].sequence;
      OkIsDistinct(ClassConfig(l, k), b);
      RemovedAt(b.waiters, 0);
      RemoveKeepsOk(ClassConfig(l, k), b, sequence);
      RemoveFromClass(l, sys, k, sequence);
      RemovedKeepsTokens(ClassConfig(l, k), b, sequence, s);
      ReachesNext(l, k, from, s, s, sys, 0, ClassRemove(k, sequence), s);
      after := ClearClassQueue(l, k, from, s, RateComposition.Apply(l, sys, ClassRemove(k, sequence)).system);
    }
  }

  lemma OkIsDistinct(c: Config, b: Bucket)
    requires Ok(c, b)
    ensures DistinctSequences(b.waiters) && (b.waiters != [] ==> b.timer.Some?)
  {}

  /** Only requests of the class wait for the global bucket any more. */
  lemma ClearOthers(l: Limits, k: RateClass, from: System, s: real, sys: System) returns (after: System)
    requires ValidLimits(l) && SystemOk(l, sys) && Reaches(l, k, from, s, s, sys, 0)
    ensures SystemOk(l, after) && Reaches(l, k, from, s, s, after, 0) && ClassBucket(after, k) == ClassBucket(sys, k)
    ensures forall w :: w in after.global.waiters ==> ClassOf(w.owner.lane) == k
    ensures |after.global.waiters| == Waiting(sys, k) && after.global.lastRefillAt == sys.global.lastRefillAt
    ensures GlobalTokens(l, after, s) == GlobalTokens(l, sys, s)
    decreases |sys.global.waiters|
  {
    hide Refill, Reaches, Ok, RateComposition.Apply, WithoutSequence, ClassOf;
    var b := sys.global;
    after := sys;
    if i: nat :| i < |b.waiters| && ClassOf(b.waiters[i].owner.lane) != k {
      var sequence := b.waiters[i].sequence;
      OkIsDistinct(l.global, b);
      RemovedAt(b.waiters, i);
      RemoveCount(b.waiters, sequence, k);
      RemoveKeepsOk(l.global, b, sequence);
      RemoveFromGlobal(l, sys, sequence);
      RemovedKeepsTokens(l.global, b, sequence, s);
      ReachesNext(l, k, from, s, s, sys, 0, GlobalRemove(sequence), s);
      after := ClearOthers(l, k, from, s, RateComposition.Apply(l, sys, GlobalRemove(sequence)).system);
    } else {
      WaitingIsLength(b.waiters, k);
    }
  }

  /** All class tokens there are at the opening are taken. */
  lemma TakeClassTokens(l: Limits, k: RateClass, from: System, s: real, sys: System, n: nat, e: nat)
      returns (after: System, m: nat, f: nat)
    requires ValidLimits(l) && Ready(l, k, s, sys) && Reaches(l, k, from, s, s, sys, n) && Booked(l, k, from, s, s, sys, n, e)
    ensures Ready(l, k, s, after) && Reaches(l, k, from, s, s, after, m) && Booked(l, k, from, s, s, after, m, f)
    ensures ClassTokens(l, after, k, s) < 1.0
    decreases ClassTokens(l, sys, k, s).Floor
  {
    hide Refill, Gain, Reaches, Ok, RateComposition.Apply, Ready;
    after, m, f := sys, n, e;
    if ClassTokens(l, sys, k, s) >= 1.0 {
      EnterStepsOn(l, k, s, sys);
      var enter := Enter(Member(k), s, {});
      ReachesNext(l, k, from, s, s, sys, n, enter, s);
      var log := RateComposition.Apply(l, sys, enter);
      after, m, f := TakeClassTokens(l, k, from, s, log.system, n + Count(log.started, k), e + 1);
    }
  }

  /** The run of the class starts with whoever waits and a check for all of them. */
  lemma RoomIsUsed(l: Limits, sys: System, k: RateClass, s: real, d: real)
    requires BigEnough(l, k) && SystemOk(l, sys) && RoomToExceed(l, sys, k, s, d)
    requires ClassBucket(sys, k).lastRefillAt <= s && sys.global.lastRefillAt <= s
    ensures Exceeds(l, sys, k, s)
  {
    hide Refill, Gain, Reaches, Ok, Exceeds, RateComposition.Apply;
    ReachesStart(l, k, sys, s);
    var s1 := ClearClassQueue(l, k, sys, s, sys);
    var s2 := ClearOthers(l, k, sys, s, s1);
    SomebodyWaits(l, sys, k, s, d);
    TickStepsOn(l, k, s, s2);
    ReachesNext(l, k, sys, s, s, s2, 0, GlobalTick(s, {}), s);
    var log := RateComposition.Apply(l, s2, GlobalTick(s, {}));
    GainOfZero(ClassConfig(l, k));
    GainOfZero(l.global);
    assert Booked(l, k, sys, s, s, log.system, Count(log.started, k), 0);
    var s3, n, e := TakeClassTokens(l, k, sys, s, log.system, Count(log.started, k), 0);
    TokensAreNotNegative(l, s3, k, s);
    UseTheRoom(l, k, sys, s, s, s + d, s3, n, e);
  }

  lemma TokensAreNotNegative(l: Limits, sys: System, k: RateClass, s: real)
    requires ValidLimits(l) && SystemOk(l, sys)
    ensures 0.0 <= ClassTokens(l, sys, k, s) <= ClassConfig(l, k).capacity
    ensures 0.0 <= GlobalTokens(l, sys, s) <= l.global.capacity
  {
    hide Refill, Gain;
    RefillFacts(ClassConfig(l, k), ClassBucket(sys, k), s);
    RefillFacts(l.global, sys.global, s);
  }

  lemma SomebodyWaits(l: Limits, sys: System, k: RateClass, s: real, d: real)
    requires ValidLimits(l) && SystemOk(l, sys) && RoomToExceed(l, sys, k, s, d)
    ensures Waiting(sys, k) > 0
  {
    hide Refill, Gain;
    TokensAreNotNegative(l, sys, k, s);
  }

  // ---- the theorems ----

  /** A window that opens at `s` can see more calls of the class than its bucket allows
      exactly when, for some length of it, the requests that hold a class token and the whole
      class tokens to come pass the bound, and so do the whole global tokens to come. */
  lemma ExceedsIff(l: Limits, sys: System, k: RateClass, s: real)
    requires BigEnough(l, k) && SystemOk(l, sys) && ClassesOk(sys)
    requires ClassBucket(sys, k).lastRefillAt <= s && sys.global.lastRefillAt <= s
    ensures Exceeds(l, sys, k, s) <==> exists d :: RoomToExceed(l, sys, k, s, d)
  {
    hide RoomToExceed, Exceeds, Refill, Gain, Ok;
    if Exceeds(l, sys, k, s) {
      ExceedsNeedsRoom(l, sys, k, s);
    }
    if d :| RoomToExceed(l, sys, k, s, d) {
      RoomIsUsed(l, sys, k, s, d);
    }
  }

  lemma GainsCompare(l: Limits, k: RateClass, d: real)
    requires ValidLimits(l)
    ensures Gain(l.global, d) * ClassConfig(l, k).refillPerSecond == Gain(ClassConfig(l, k), d) * l.global.refillPerSecond
  {
    var a, b := l.global.refillPerSecond, ClassConfig(l, k).refillPerSecond;
    assert d / 1000.0 * a * b == d / 1000.0 * b * a;
  }

  /** A lead `x` of the global bucket over the class, `d` late, is as large as one likes. */
  lemma LeadGrows(a: real, b: real, earned: real, globally: real, lead: real)
    requires 0.0 < b < a && lead >= 0.0
    requires globally * b == earned * a && earned >= lead * b / (a - b)
    ensures globally - earned >= lead
  {
    var gap := a - b;
    assert lead * b / gap * gap == lead * b;
    assert (earned - lead * b / gap) * gap >= 0.0;
    assert earned * gap >= lead * b;
    assert (globally - earned) * b == earned * gap;
    assert (globally - earned - lead) * b >= 0.0;
  }

  /** If the global bucket is the faster one, which is so whenever the classes share its
      rate, the requests that hold a class token and the class tokens there are decide. */
  lemma FasterGlobalExceedsIff(l: Limits, sys: System, k: RateClass, s: real)
    requires BigEnough(l, k) && SystemOk(l, sys) && ClassesOk(sys)
    requires ClassBucket(sys, k).lastRefillAt <= s && sys.global.lastRefillAt <= s
    requires ClassConfig(l, k).refillPerSecond < l.global.refillPerSecond
    ensures Exceeds(l, sys, k, s)
            <==> Waiting(sys, k) as real + ClassTokens(l, sys, k, s) > ClassConfig(l, k).capacity
  {
    hide Exceeds, Refill, Gain, Ok;
    var ck, tau := ClassConfig(l, k), ClassTokens(l, sys, k, s);
    ExceedsIff(l, sys, k, s);
    TokensAreNotNegative(l, sys, k, s);
    if Waiting(sys, k) as real + tau > ck.capacity {
      FasterGlobalHasRoom(l, sys, k, s);
    }
  }

  lemma FasterGlobalHasRoom(l: Limits, sys: System, k: RateClass, s: real)
    requires BigEnough(l, k) && SystemOk(l, sys)
    requires ClassConfig(l, k).refillPerSecond < l.global.refillPerSecond
    requires Waiting(sys, k) as real + ClassTokens(l, sys, k, s) > ClassConfig(l, k).capacity
    ensures exists d :: RoomToExceed(l, sys, k, s, d)
  {
    hide Refill, Gain, Ok, Due;
    var ck, tau := ClassConfig(l, k), ClassTokens(l, sys, k, s);
    TokensAreNotNegative(l, sys, k, s);
    var a, b, lead := l.global.refillPerSecond, ck.refillPerSecond, ck.capacity + 1.0;
    var enough := lead * b / (a - b);
    var n := (tau + enough).Floor + 1;
    NotNegative(lead * b, a - b);
    DueOfClass(l, k, n as real - tau, 0.0);
    var d := Due(ck, n as real - tau);
    GainsCompare(l, k, d);
    LeadGrows(a, b, n as real - tau, Gain(l.global, d), lead);
    FloorIs(tau + Gain(ck, d), n);
    FloorAbove(GlobalTokens(l, sys, s) + Gain(l.global, d), ClassBound(l, k, d));
    assert RoomToExceed(l, sys, k, s, d);
  }

  lemma NotNegative(x: real, y: real)
    requires x >= 0.0 && y > 0.0
    ensures x / y >= 0.0
  {}

  lemma FloorAbove(x: real, bound: real)
    requires x >= bound + 1.0
    ensures x.Floor as real > bound
  {}

  /** And if the global bucket is neither larger nor faster, the class's bound always holds. */
  lemma SmallGlobalNeverExceeds(l: Limits, sys: System, k: RateClass, s: real)
    requires BigEnough(l, k) && SystemOk(l, sys) && ClassesOk(sys)
    requires ClassBucket(sys, k).lastRefillAt <= s && sys.global.lastRefillAt <= s
    requires l.global.capacity <= ClassConfig(l, k).capacity
    requires l.global.refillPerSecond <= ClassConfig(l, k).refillPerSecond
    ensures !Exceeds(l, sys, k, s)
  {
    hide Exceeds, Refill, Gain, Ok;
    ExceedsIff(l, sys, k, s);
    TokensAreNotNegative(l, sys, k, s);
    forall d ensures !RoomToExceed(l, sys, k, s, d) {
      if d >= 0.0 {
        SlowerEarnsLess(l, k, d);
      }
    }
  }

  lemma SlowerEarnsLess(l: Limits, k: RateClass, d: real)
    requires ValidLimits(l) && d >= 0.0 && l.global.refillPerSecond <= ClassConfig(l, k).refillPerSecond
    ensures Gain(l.global, d) <= Gain(ClassConfig(l, k), d)
  {
    var gap := ClassConfig(l, k).refillPerSecond - l.global.refillPerSecond;
    assert d / 1000.0 >= 0.0;
    assert d / 1000.0 * gap >= 0.0;
    assert d / 1000.0 * ClassConfig(l, k).refillPerSecond == d / 1000.0 * l.global.refillPerSecond + d / 1000.0 * gap;
  }

  // ---- starts and class tokens ----

  predicate OnlyChecks(events: seq<SystemEvent>) {
    forall e :: e in events ==> e.GlobalTick?
  }

  ghost predicate StartsWithoutTokens(l: Limits, sys: System, k: RateClass, events: seq<SystemEvent>)
    requires ValidLimits(l)
  {
    && OnlyChecks(events)
    && Count(RunAll(l, sys, events).started, k) > 0 && RunAll(l, sys, events).classTokens == []
  }

  lemma CheckFirst(l: Limits, sys: System, k: RateClass, e: SystemEvent, rest: seq<SystemEvent>)
    requires ValidLimits(l) && e.GlobalTick?
    requires var log := RateComposition.Apply(l, sys, e);
             && log.classTokens == []
             && (if Count(log.started, k) > 0 then rest == [] else StartsWithoutTokens(l, log.system, k, rest))
    ensures StartsWithoutTokens(l, sys, k, [e] + rest)
  {
    hide RateComposition.Apply;
    var log := RateComposition.Apply(l, sys, e);
    assert ([e] + rest)[1..] == rest;
    CountConcat(log.started, RunAll(l, log.system, rest).started, k);
  }

  /** A refill check late enough finds a token: it starts a request of the class, or makes
      the queue shorter and leaves those of the class in it. */
  lemma LateCheck(l: Limits, sys: System, k: RateClass) returns (e: SystemEvent)
    requires ValidLimits(l) && l.global.capacity >= 1.0 && SystemOk(l, sys) && Waiting(sys, k) > 0
    ensures e.GlobalTick?
    ensures var log := RateComposition.Apply(l, sys, e);
            && log.classTokens == [] && SystemOk(l, log.system)
            && (Count(log.started, k) > 0
                || (Waiting(log.system, k) == Waiting(sys, k) && |log.system.global.waiters| < |sys.global.waiters|))
  {
    hide Refill, Gain, Due, TickStep, RateComposition.Apply, Ok;
    var c, b := l.global, sys.global;
    var x := b.lastRefillAt + Due(c, 1.0);
    DueEarns(c, 1.0);
    OkTokens(c, b);
    RefillOnce(c, b, x);
    TickServes(c, b, x);
    GlobalCheck(l, sys, x);
    CheckCounts(c, b, x, k);
    e := GlobalTick(x, {});
  }

  /** Enough late refill checks start a request of the class that waits, and they take no
      class token. */
  lemma {:induction false} ChecksStartIt(l: Limits, sys: System, k: RateClass)
    requires ValidLimits(l) && l.global.capacity >= 1.0 && SystemOk(l, sys) && Waiting(sys, k) > 0
    ensures exists events :: StartsWithoutTokens(l, sys, k, events)
    decreases |sys.global.waiters|
  {
    hide RateComposition.Apply, SystemOk, StartsWithoutTokens;
    var e := LateCheck(l, sys, k);
    var log := RateComposition.Apply(l, sys, e);
    var rest: seq<SystemEvent> := [];
    if Count(log.started, k) == 0 {
      ChecksStartIt(l, log.system, k);
      rest :| StartsWithoutTokens(l, log.system, k, rest);
    }
    CheckFirst(l, sys, k, e, rest);
    assert StartsWithoutTokens(l, sys, k, [e] + rest);
  }

  lemma CheckCounts(c: Config, b: Bucket, x: real, k: RateClass)
    requires ValidConfig(c) && Enabled(b, Tick(x))
    ensures var o := TickStep(c, b, x);
            Count(o.granted, k) + Count(Owners(o.bucket.waiters), k) == Count(Owners(b.waiters), k)
  {
    hide Refill, Count, TickStep;
    TickConservesOwners(c, b, x, k);
  }

  /** In every run from a state the class starts at most as many calls as it takes class
      tokens, exactly if none of its requests waits for a global token in that state. */
  lemma StartsWithinTokensIff(l: Limits, sys: System, k: RateClass)
    requires ValidLimits(l) && SystemOk(l, sys) && l.global.capacity >= 1.0
    ensures (forall events :: Count(RunAll(l, sys, events).started, k) <= Count(RunAll(l, sys, events).classTokens, k))
            <==> Waiting(sys, k) == 0
  {
    hide RateComposition.Apply, Ok;
    if Waiting(sys, k) == 0 {
      forall events ensures Count(RunAll(l, sys, events).started, k) <= Count(RunAll(l, sys, events).classTokens, k) {
        RequestsAreConserved(l, sys, events, k);
      }
    } else {
      ChecksStartIt(l, sys, k);
      var events :| StartsWithoutTokens(l, sys, k, events);
      assert Count(RunAll(l, sys, events).classTokens, k) == 0;
    }
  }
}
