/** The token bucket that limits how fast requests leave for the upstream.  Times
    are in milliseconds and token counts are real numbers, as the source's numbers
    are fractional; rounding is not modelled. */
module TokenBucket {
  import opened Options

  datatype Lane = UserLane | MutationLane | SyncLane | BackgroundLane | WriteLane

  /** The request a waiter belongs to. */
  datatype Owner = Owner(lane: Lane, id: nat)

  datatype Waiter = Waiter(owner: Owner, priority: int, sequence: nat)

  /** `timer` holds the time at which the armed refill check is due. */
  datatype Bucket = Bucket(
    tokens: real,
    lastRefillAt: real,
    waiters: seq<Waiter>,
    nextSequence: nat,
    timer: Option<real>)

  datatype Config = Config(refillPerSecond: real, capacity: real)

  /** The constructor throws for any other configuration. */
  ghost predicate ValidConfig(c: Config) {
    c.refillPerSecond > 0.0 && c.capacity > 0.0
  }

  datatype Event =
    | Acquire(now: real, owner: Owner, priority: int, aborted: bool)
    | TryAcquire(now: real, owner: Owner)
    | Tick(now: real)
    | Remove(sequence: nat)
    | ReadStats(now: real)

  /** The bucket after a step and the owners it let through, in order. */
  datatype Outcome = Outcome(bucket: Bucket, granted: seq<Owner>)

  function New(c: Config, now: real): Bucket {
    Bucket(c.capacity, now, [], 0, None)
  }

  function Min(a: real, b: real): real { if a <= b then a else b }

  function Gain(c: Config, elapsed: real): real {
    elapsed / 1000.0 * c.refillPerSecond
  }

  function Refill(c: Config, b: Bucket, now: real): Bucket {
    if now - b.lastRefillAt <= 0.0 then b
    else b.(tokens := Min(c.capacity, b.tokens + Gain(c, now - b.lastRefillAt)), lastRefillAt := now)
  }

  /** The delay of the refill check: `Math.max(1, Math.ceil(1000 / rate))`. */
  function WaitMs(c: Config): real
    requires ValidConfig(c)
  {
    var period := 1000.0 / c.refillPerSecond;
    var ceiling := if period.Floor as real == period then period else (period.Floor + 1) as real;
    if ceiling < 1.0 then 1.0 else ceiling
  }

  predicate Before(a: Waiter, b: Waiter) {
    a.priority < b.priority || (a.priority == b.priority && a.sequence < b.sequence)
  }

  /** First queued waiter that the new one overtakes, or the end of the queue. */
  function InsertionIndex(q: seq<Waiter>, w: Waiter): (i: nat)
    ensures i <= |q|
    ensures forall k :: 0 <= k < i ==> !Before(w, q[k])
    ensures i < |q| ==> Before(w, q[i])
  {
    if |q| == 0 || Before(w, q[0]) then 0 else 1 + InsertionIndex(q[1..], w)
  }

  function Insert(q: seq<Waiter>, w: Waiter): seq<Waiter> {
    var i := InsertionIndex(q, w);
    q[..i] + [w] + q[i..]
  }

  function Owners(q: seq<Waiter>): (r: seq<Owner>)
    ensures |r| == |q|
    ensures forall i :: 0 <= i < |q| ==> r[i] == q[i].owner
  {
    if |q| == 0 then [] else Owners(q[..|q| - 1]) + [q[|q| - 1].owner]
  }

  /** How many waiters the tokens pay for. */
  function DrainCount(tokens: real, waiting: nat): (n: nat)
    ensures n <= waiting
  {
    if tokens >= 1.0 && waiting > 0 then 1 + DrainCount(tokens - 1.0, waiting - 1) else 0
  }

  function Drain(b: Bucket): Outcome {
    var n := DrainCount(b.tokens, |b.waiters|);
    Outcome(b.(tokens := b.tokens - n as real, waiters := b.waiters[n..]), Owners(b.waiters[..n]))
  }

  function ScheduleRefillCheck(c: Config, b: Bucket, now: real): Bucket
    requires ValidConfig(c)
  {
    if b.timer.Some? || b.waiters == [] then b else b.(timer := Some(now + WaitMs(c)))
  }

  function AcquireStep(c: Config, b: Bucket, now: real, owner: Owner, priority: int, aborted: bool): Outcome
    requires ValidConfig(c)
  {
    var r := Refill(c, b, now);
    if r.tokens >= 1.0 && r.waiters == [] then
      Outcome(r.(tokens := r.tokens - 1.0), [owner])
    else if aborted then
      Outcome(r.(nextSequence := r.nextSequence + 1), [])
    else
      var w := Waiter(owner, priority, r.nextSequence);
      var drained := Drain(r.(waiters := Insert(r.waiters, w), nextSequence := r.nextSequence + 1));
      drained.(bucket := ScheduleRefillCheck(c, drained.bucket, now))
  }

  function TryAcquireStep(c: Config, b: Bucket, now: real, owner: Owner): Outcome {
    var r := Refill(c, b, now);
    if r.tokens >= 1.0 && r.waiters == [] then Outcome(r.(tokens := r.tokens - 1.0), [owner]) else Outcome(r, [])
  }

  function TickStep(c: Config, b: Bucket, now: real): Outcome
    requires ValidConfig(c)
  {
    var drained := Drain(Refill(c, b.(timer := None), now));
    drained.(bucket := ScheduleRefillCheck(c, drained.bucket, now))
  }

  function WithoutSequence(q: seq<Waiter>, sequence: nat): seq<Waiter> {
    if |q| == 0 then []
    else if q[0].sequence == sequence then q[1..]
    else [q[0]] + WithoutSequence(q[1..], sequence)
  }

  /** A timeout or an abort takes a waiter out; an empty queue disarms the timer. */
  function RemoveStep(b: Bucket, sequence: nat): Bucket {
    var q := WithoutSequence(b.waiters, sequence);
    b.(waiters := q, timer := if q == [] then None else b.timer)
  }

  /** An armed refill check may fire at any clock reading, even one before its due time:
      timers and the wall clock are different clocks. */
  predicate Enabled(b: Bucket, e: Event) {
    e.Tick? ==> b.timer.Some?
  }

  function Apply(c: Config, b: Bucket, e: Event): Outcome
    requires ValidConfig(c)
  {
    if !Enabled(b, e) then Outcome(b, [])
    else
      match e
      case Acquire(now, owner, priority, aborted) => AcquireStep(c, b, now, owner, priority, aborted)
      case TryAcquire(now, owner) => TryAcquireStep(c, b, now, owner)
      case Tick(now) => TickStep(c, b, now)
      case Remove(sequence) => Outcome(RemoveStep(b, sequence), [])
      case ReadStats(now) => Outcome(Refill(c, b, now), [])
  }

  /** A whole run: the final bucket and everyone let through, in order. */
  function Run(c: Config, b: Bucket, events: seq<Event>): Outcome
    requires ValidConfig(c)
    decreases |events|
  {
    if |events| == 0 then Outcome(b, [])
    else
      var first := Apply(c, b, events[0]);
      var rest := Run(c, first.bucket, events[1..]);
      Outcome(rest.bucket, first.granted + rest.granted)
  }

  // ---- what every step keeps ----

  ghost predicate SortedQueue(q: seq<Waiter>) {
    forall i, j :: 0 <= i < j < |q| ==> Before(q[i], q[j])
  }

  /** No two waiters have the same number. */
  ghost predicate DistinctSequences(q: seq<Waiter>) {
    forall i, j :: 0 <= i < j < |q| ==> q[i].sequence != q[j].sequence
  }

  ghost predicate QueueOk(b: Bucket) {
    && SortedQueue(b.waiters)
    && DistinctSequences(b.waiters)
    && (forall w :: w in b.waiters ==> w.sequence < b.nextSequence)
  }

  ghost predicate Ok(c: Config, b: Bucket) {
    && 0.0 <= b.tokens <= c.capacity
    && QueueOk(b)
    && (b.waiters != [] ==> b.timer.Some?)
  }

  lemma GainIsLinear(c: Config, x: real, y: real)
    ensures Gain(c, x) + Gain(c, y) == Gain(c, x + y)
  {
    var r := c.refillPerSecond;
    assert x / 1000.0 * r + y / 1000.0 * r == (x / 1000.0 + y / 1000.0) * r;
    assert x / 1000.0 + y / 1000.0 == (x + y) / 1000.0;
  }

  lemma GainIsMonotone(c: Config, x: real, y: real)
    requires ValidConfig(c) && x <= y
    ensures Gain(c, x) <= Gain(c, y)
  {
    GainIsLinear(c, x, y - x);
    assert (y - x) / 1000.0 >= 0.0;
    assert (y - x) / 1000.0 * c.refillPerSecond >= 0.0;
  }

  lemma GainOfZero(c: Config)
    ensures Gain(c, 0.0) == 0.0
  {
  }

  lemma RefillFacts(c: Config, b: Bucket, now: real)
    requires ValidConfig(c) && 0.0 <= b.tokens <= c.capacity
    ensures var r := Refill(c, b, now);
            && b.tokens <= r.tokens <= c.capacity
            && r == b.(tokens := r.tokens, lastRefillAt := r.lastRefillAt)
            && r.lastRefillAt == (if now <= b.lastRefillAt then b.lastRefillAt else now)
            && r.tokens <= b.tokens + Gain(c, r.lastRefillAt - b.lastRefillAt)
  {
    GainOfZero(c);
    if now - b.lastRefillAt > 0.0 {
      GainIsMonotone(c, 0.0, now - b.lastRefillAt);
    }
  }

  lemma RefillIgnoresTimer(c: Config, b: Bucket, now: real)
    ensures Refill(c, b.(timer := None), now) == Refill(c, b, now).(timer := None)
  {
    hide Gain;
  }

  /** Refilling twice is refilling once: the bucket behaves as if it filled all the time. */
  lemma RefillInTwoSteps(c: Config, b: Bucket, t1: real, t2: real)
    requires ValidConfig(c) && b.tokens <= c.capacity && t1 <= t2
    ensures Refill(c, Refill(c, b, t1), t2) == Refill(c, b, t2)
  {
    if b.lastRefillAt < t1 {
      GainIsLinear(c, t1 - b.lastRefillAt, t2 - t1);
      GainIsMonotone(c, 0.0, t2 - t1);
      GainOfZero(c);
      assert t1 - b.lastRefillAt + (t2 - t1) == t2 - b.lastRefillAt;
    }
  }

  lemma {:induction false} DrainCountFacts(tokens: real, waiting: nat)
    requires tokens >= 0.0
    ensures var n := DrainCount(tokens, waiting);
            && n as real <= tokens
            && (n < waiting ==> tokens - n as real < 1.0)
            && (tokens >= 1.0 && waiting > 0 ==> n >= 1)
  {
    if tokens >= 1.0 && waiting > 0 {
      DrainCountFacts(tokens - 1.0, waiting - 1);
    }
  }

  lemma DrainFacts(c: Config, b: Bucket)
    requires 0.0 <= b.tokens <= c.capacity
    ensures var d := Drain(b);
            && d.bucket.tokens + |d.granted| as real == b.tokens
            && 0.0 <= d.bucket.tokens <= b.tokens
            && |d.granted| <= |b.waiters|
            && d.granted == Owners(b.waiters[..|d.granted|])
            && d.bucket == b.(tokens := d.bucket.tokens, waiters := b.waiters[|d.granted|..])
            && (b.tokens >= 1.0 && b.waiters != [] ==> |d.granted| >= 1)
  {
    DrainCountFacts(b.tokens, |b.waiters|);
  }

  lemma InsertElements(q: seq<Waiter>, w: Waiter)
    ensures forall x :: x in Insert(q, w) <==> x in q || x == w
  {
    var i := InsertionIndex(q, w);
    assert q == q[..i] + q[i..];
  }

  lemma InsertKeepsSorted(q: seq<Waiter>, w: Waiter)
    requires SortedQueue(q) && forall x :: x in q ==> x.sequence < w.sequence
    ensures SortedQueue(Insert(q, w))
  {
    var i := InsertionIndex(q, w);
    var r := Insert(q, w);
    assert forall k :: 0 <= k < |q| ==> q[k] in q;
    forall a, b | 0 <= a < b < |r| ensures Before(r[a], r[b]) {
      var x := if a < i then q[a] else if a == i then w else q[a - 1];
      var y := if b < i then q[b] else if b == i then w else q[b - 1];
      assert r[a] == x && r[b] == y;
    }
  }

  lemma {:induction false} WithoutSequenceFacts(q: seq<Waiter>, sequence: nat)
    ensures forall w :: w in WithoutSequence(q, sequence) ==> w in q
    ensures forall w :: w in q && w.sequence != sequence ==> w in WithoutSequence(q, sequence)
    ensures SortedQueue(q) ==> SortedQueue(WithoutSequence(q, sequence))
  {
    if |q| > 0 {
      WithoutSequenceFacts(q[1..], sequence);
      assert q == [q[0]] + q[1..];
      if q[0].sequence != sequence {
        var rest := WithoutSequence(q[1..], sequence);
        if SortedQueue(q) {
          forall k | 0 <= k < |rest| ensures Before(q[0], rest[k]) {
            assert rest[k] in rest;
            var j :| 0 <= j < |q[1..]| && q[1..][j] == rest[k];
            assert q[j + 1] == rest[k];
          }
        }
      }
    }
  }

  /** The bucket just after a new waiter joined the queue. */
  function Joined(b: Bucket, owner: Owner, priority: int): Bucket {
    b.(waiters := Insert(b.waiters, Waiter(owner, priority, b.nextSequence)), nextSequence := b.nextSequence + 1)
  }

  lemma JoinKeepsQueue(b: Bucket, owner: Owner, priority: int)
    requires QueueOk(b)
    ensures QueueOk(Joined(b, owner, priority))
  {
    InsertKeepsSorted(b.waiters, Waiter(owner, priority, b.nextSequence));
    InsertElements(b.waiters, Waiter(owner, priority, b.nextSequence));
  }

  lemma DrainKeepsQueue(c: Config, b: Bucket)
    requires 0.0 <= b.tokens <= c.capacity && QueueOk(b)
    ensures QueueOk(Drain(b).bucket)
  {
    DrainFacts(c, b);
  }

  lemma ThenScheduleIsOk(c: Config, b: Bucket, now: real)
    requires ValidConfig(c) && 0.0 <= b.tokens <= c.capacity && QueueOk(b)
    ensures Ok(c, ScheduleRefillCheck(c, Drain(b).bucket, now))
  {
    hide QueueOk, WaitMs, Drain, DrainCount;
    DrainFacts(c, b);
    DrainKeepsQueue(c, b);
    SameQueueOk(Drain(b).bucket, ScheduleRefillCheck(c, Drain(b).bucket, now));
  }

  lemma SameQueueOk(b: Bucket, other: Bucket)
    requires QueueOk(b) && other.waiters == b.waiters && other.nextSequence >= b.nextSequence
    ensures QueueOk(other)
  {
  }

  lemma AcquireKeepsOk(c: Config, b: Bucket, now: real, owner: Owner, priority: int, aborted: bool)
    requires ValidConfig(c) && Ok(c, b)
    ensures Ok(c, AcquireStep(c, b, now, owner, priority, aborted).bucket)
  {
    hide Refill, Gain, Insert, Drain, ScheduleRefillCheck, QueueOk;
    RefillFacts(c, b, now);
    var r := Refill(c, b, now);
    SameQueueOk(b, r);
    SameQueueOk(r, r.(tokens := r.tokens - 1.0));
    SameQueueOk(r, r.(nextSequence := r.nextSequence + 1));
    JoinKeepsQueue(r, owner, priority);
    ThenScheduleIsOk(c, Joined(r, owner, priority), now);
  }

  lemma TryAcquireKeepsOk(c: Config, b: Bucket, now: real, owner: Owner)
    requires ValidConfig(c) && Ok(c, b)
    ensures Ok(c, TryAcquireStep(c, b, now, owner).bucket) && Ok(c, Refill(c, b, now))
  {
    hide Refill, Gain;
    RefillFacts(c, b, now);
  }

  lemma TickKeepsOk(c: Config, b: Bucket, now: real)
    requires ValidConfig(c) && Ok(c, b)
    ensures Ok(c, TickStep(c, b, now).bucket)
  {
    hide Refill, Gain, WaitMs, DrainCount, Owners;
    RefillFacts(c, b.(timer := None), now);
    DrainFacts(c, Refill(c, b.(timer := None), now));
  }

  lemma RemoveKeepsOk(c: Config, b: Bucket, sequence: nat)
    requires ValidConfig(c) && Ok(c, b)
    ensures Ok(c, RemoveStep(b, sequence))
  {
    WithoutSequenceFacts(b.waiters, sequence);
  }

  lemma ApplyKeepsOk(c: Config, b: Bucket, e: Event)
    requires ValidConfig(c) && Ok(c, b)
    ensures Ok(c, Apply(c, b, e).bucket)
  {
    hide Ok, AcquireStep, TryAcquireStep, TickStep, RemoveStep, Refill;
    match e
    case Acquire(now, owner, priority, aborted) => AcquireKeepsOk(c, b, now, owner, priority, aborted);
    case TryAcquire(now, owner) => TryAcquireKeepsOk(c, b, now, owner);
    case Tick(now) => TickKeepsOk(c, b, now);
    case Remove(sequence) => RemoveKeepsOk(c, b, sequence);
    case ReadStats(now) => TryAcquireKeepsOk(c, b, now, Owner(UserLane, 0));
  }

  lemma GainIsRate(c: Config, elapsed: real)
    ensures Gain(c, elapsed) == elapsed / 1000.0 * c.refillPerSecond
  {
  }

  lemma NewIsOk(c: Config, now: real)
    requires ValidConfig(c)
    ensures Ok(c, New(c, now))
  {
  }

  // ---- the object ----

  class RateLimiter {
    const config: Config
    var tokens: real
    var lastRefillAt: real
    var waiters: seq<Waiter>
    var refillTimer: Option<real>
    var nextWaiterSequence: nat

    ghost predicate Valid()
      reads this
    {
      ValidConfig(config) && Ok(config, State())
    }

    ghost function State(): Bucket
      reads this
    {
      Bucket(tokens, lastRefillAt, waiters, nextWaiterSequence, refillTimer)
    }

    constructor (config: Config, now: real)
      requires ValidConfig(config)
      ensures Valid() && this.config == config && State() == New(config, now)
    {
      hide Ok;
      NewIsOk(config, now);
      this.config := config;
      tokens, lastRefillAt, waiters := config.capacity, now, [];
      refillTimer, nextWaiterSequence := None, 0;
    }

    method RefillTokens(now: real)
      requires ValidConfig(config)
      modifies this`tokens, this`lastRefillAt
      ensures State() == Refill(config, old(State()), now)
    {
      hide Gain;
      var elapsedMs := now - lastRefillAt;
      if elapsedMs <= 0.0 {
        return;
      }
      var newTokens := elapsedMs / 1000.0 * config.refillPerSecond;
      GainIsRate(config, elapsedMs);
      tokens := Min(config.capacity, tokens + newTokens);
      lastRefillAt := now;
    }

    method DrainWaiters() returns (granted: seq<Owner>)
      requires tokens >= 0.0
      modifies this`tokens, this`waiters
      ensures Outcome(State(), granted) == Drain(old(State()))
    {
      granted := [];
      ghost var q, t := waiters, tokens;
      while tokens >= 1.0 && |waiters| > 0
        invariant |granted| <= |q| && waiters == q[|granted|..]
        invariant tokens == t - |granted| as real && tokens >= 0.0
        invariant granted == Owners(q[..|granted|])
        invariant DrainCount(t, |q|) == |granted| + DrainCount(tokens, |waiters|)
        decreases |waiters|
      {
        var next := waiters[0];
        assert q[..|granted| + 1][..|granted|] == q[..|granted|];
        tokens := tokens - 1.0;
        waiters := waiters[1..];
        granted := granted + [next.owner];
      }
    }

    method Schedule(now: real)
      requires ValidConfig(config)
      modifies this`refillTimer
      ensures State() == ScheduleRefillCheck(config, old(State()), now)
    {
      if refillTimer.Some? || waiters == [] {
        return;
      }
      refillTimer := Some(now + WaitMs(config));
    }

    /** Where the new waiter goes in the queue. */
    method FindInsertionIndex(w: Waiter) returns (i: nat)
      ensures i == InsertionIndex(waiters, w)
    {
      i := 0;
      while i < |waiters| && !Before(w, waiters[i])
        invariant i <= |waiters|
        invariant InsertionIndex(waiters, w) == i + InsertionIndex(waiters[i..], w)
      {
        assert waiters[i..][1..] == waiters[i + 1..];
        i := i + 1;
      }
    }

    /** The wait of a request that found no token: it joins the queue, and whatever tokens
        there are go to the front of it. */
    method WaitForToken(now: real, w: Waiter) returns (granted: seq<Owner>)
      requires ValidConfig(config) && tokens >= 0.0
      modifies this`tokens, this`waiters, this`refillTimer
      ensures var drained := Drain(old(State()).(waiters := Insert(old(waiters), w)));
              Outcome(State(), granted) == drained.(bucket := ScheduleRefillCheck(config, drained.bucket, now))
    {
      hide Owners, DrainCount, WaitMs, InsertionIndex;
      var i := FindInsertionIndex(w);
      waiters := waiters[..i] + [w] + waiters[i..];
      granted := DrainWaiters();
      Schedule(now);
    }

    /** `granted` lists the callers whose wait this call ends, possibly its own. */
    method AcquireToken(now: real, owner: Owner, priority: int, aborted: bool) returns (granted: seq<Owner>)
      requires Valid()
      modifies this
      ensures Outcome(State(), granted) == Apply(config, old(State()), Acquire(now, owner, priority, aborted))
      ensures Valid()
    {
      hide Refill, Gain, WaitMs, DrainCount, Owners, Insert, Drain;
      ApplyKeepsOk(config, State(), Acquire(now, owner, priority, aborted));
      RefillFacts(config, State(), now);
      RefillTokens(now);
      if tokens >= 1.0 && |waiters| == 0 {
        tokens := tokens - 1.0;
        return [owner];
      }
      var w := Waiter(owner, priority, nextWaiterSequence);
      nextWaiterSequence := nextWaiterSequence + 1;
      if aborted {
        return [];
      }
      granted := WaitForToken(now, w);
    }

    method TryAcquireToken(now: real, owner: Owner) returns (ok: bool)
      requires Valid()
      modifies this
      ensures Valid()
      ensures Outcome(State(), if ok then [owner] else []) == Apply(config, old(State()), TryAcquire(now, owner))
    {
      RefillFacts(config, State(), now);
      RefillTokens(now);
      ok := tokens >= 1.0 && |waiters| == 0;
      if ok {
        tokens := tokens - 1.0;
      }
    }

    method OnRefillTimer(now: real) returns (granted: seq<Owner>)
      requires Valid() && Enabled(State(), Tick(now))
      modifies this
      ensures Valid()
      ensures Outcome(State(), granted) == Apply(config, old(State()), Tick(now))
    {
      ApplyKeepsOk(config, State(), Tick(now));
      RefillFacts(config, State(), now);
      refillTimer := None;
      RefillTokens(now);
      granted := DrainWaiters();
      if |waiters| > 0 {
        Schedule(now);
      }
    }

    /** Shared by the timeout and the abort handler of a waiter. */
    method RemoveFromQueue(sequence: nat)
      requires Valid()
      modifies this`waiters, this`refillTimer
      ensures Valid() && State() == RemoveStep(old(State()), sequence)
    {
      WithoutSequenceFacts(waiters, sequence);
      waiters := WithoutSequence(waiters, sequence);
      if |waiters| == 0 && refillTimer.Some? {
        refillTimer := None;
      }
    }
  }
}
