/** What the token bucket guarantees over whole runs: how many requests it lets
    through, in which order, and that nobody in the queue waits for ever. */
module RateBounds {
  import opened Options
  import opened TokenBucket

  /** Every clock reading of the run lies in [s, t]; removals read no clock. */
  ghost predicate Within(events: seq<Event>, s: real, t: real) {
    forall e :: e in events && !e.Remove? ==> s <= e.now <= t
  }

  lemma DrainBalances(c: Config, b: Bucket, now: real)
    requires ValidConfig(c) && 0.0 <= b.tokens <= c.capacity
    ensures var d := Drain(b);
            var after := ScheduleRefillCheck(c, d.bucket, now);
            after.tokens + |d.granted| as real == b.tokens && after.lastRefillAt == b.lastRefillAt
  {
    hide WaitMs, Owners, DrainCount;
    DrainFacts(c, b);
  }

  lemma AcquireBalances(c: Config, b: Bucket, e: Event)
    requires ValidConfig(c) && Ok(c, b) && e.Acquire?
    ensures var o, r := AcquireStep(c, b, e.now, e.owner, e.priority, e.aborted), Refill(c, b, e.now);
            o.bucket.tokens + |o.granted| as real == r.tokens && o.bucket.lastRefillAt == r.lastRefillAt
  {
    hide Refill, Gain, Drain, ScheduleRefillCheck, Insert, QueueOk;
    RefillFacts(c, b, e.now);
    DrainBalances(c, TokenBucket.Joined(Refill(c, b, e.now), e.owner, e.priority), e.now);
  }

  lemma TickBalances(c: Config, b: Bucket, now: real)
    requires ValidConfig(c) && Ok(c, b)
    ensures var o, r := TickStep(c, b, now), Refill(c, b, now);
            o.bucket.tokens + |o.granted| as real == r.tokens && o.bucket.lastRefillAt == r.lastRefillAt
  {
    hide Refill, Gain, Drain, ScheduleRefillCheck, QueueOk;
    RefillIgnoresTimer(c, b, now);
    RefillFacts(c, b, now);
    DrainBalances(c, Refill(c, b.(timer := None), now), now);
  }

  /** One step's books: tokens spent are tokens that refilling brought in. */
  lemma StepConservesTokens(c: Config, b: Bucket, e: Event)
    requires ValidConfig(c) && Ok(c, b)
    ensures var o := Apply(c, b, e);
            && Ok(c, o.bucket)
            && o.bucket.tokens + |o.granted| as real
               == (if Enabled(b, e) && !e.Remove? then Refill(c, b, e.now).tokens else b.tokens)
            && o.bucket.lastRefillAt
               == (if Enabled(b, e) && !e.Remove? then Refill(c, b, e.now).lastRefillAt else b.lastRefillAt)
  {
    hide Ok, Refill, AcquireStep, TickStep, WithoutSequence;
    ApplyKeepsOk(c, b, e);
    if e.Acquire? {
      AcquireBalances(c, b, e);
    } else if e.Tick? {
      TickBalances(c, b, e.now);
    }
  }

  lemma {:induction false} GrantsByTokens(c: Config, b: Bucket, events: seq<Event>, s: real, t: real)
    requires ValidConfig(c) && Ok(c, b) && b.lastRefillAt <= t && Within(events, s, t)
    ensures |Run(c, b, events).granted| as real <= b.tokens + Gain(c, t - b.lastRefillAt)
    decreases |events|
  {
    hide Gain, TokenBucket.Apply, Refill;
    GainIsMonotone(c, 0.0, t - b.lastRefillAt);
    GainOfZero(c);
    if |events| > 0 {
      var e := events[0];
      var o := Apply(c, b, e);
      StepConservesTokens(c, b, e);
      if Enabled(b, e) && !e.Remove? {
        assert e in events;
        RefillFacts(c, b, e.now);
      }
      GainOfZero(c);
      GrantsByTokens(c, o.bucket, events[1..], s, t);
      GainIsLinear(c, o.bucket.lastRefillAt - b.lastRefillAt, t - o.bucket.lastRefillAt);
      assert o.bucket.lastRefillAt - b.lastRefillAt + (t - o.bucket.lastRefillAt) == t - b.lastRefillAt;
    }
  }

  lemma GrantsAfterReading(c: Config, b: Bucket, events: seq<Event>, s: real, t: real)
    requires ValidConfig(c) && Ok(c, b) && s <= b.lastRefillAt <= t && Within(events, s, t)
    ensures |Run(c, b, events).granted| as real <= b.tokens + Gain(c, t - s)
  {
    hide Gain, Run, Ok;
    GrantsByTokens(c, b, events, s, t);
    GainIsMonotone(c, t - b.lastRefillAt, t - s);
  }

  lemma StepReadsClock(c: Config, b: Bucket, e: Event)
    requires ValidConfig(c) && Ok(c, b) && Enabled(b, e) && !e.Remove? && b.lastRefillAt < e.now
    ensures var o := Apply(c, b, e);
            Ok(c, o.bucket) && o.bucket.lastRefillAt == e.now && o.bucket.tokens + |o.granted| as real <= c.capacity
  {
    hide Gain, TokenBucket.Apply, Refill;
    StepConservesTokens(c, b, e);
    RefillFacts(c, b, e.now);
  }

  /** Once an event has read the clock inside the window, the bucket starts it full at
      best. */
  lemma BoundFromFirstReading(c: Config, b: Bucket, events: seq<Event>, s: real, t: real)
    requires ValidConfig(c) && Ok(c, b) && Within(events, s, t) && |events| > 0
    requires b.lastRefillAt < s && Enabled(b, events[0]) && !events[0].Remove?
    ensures |Run(c, b, events).granted| as real <= c.capacity + Gain(c, t - s)
  {
    hide Gain, TokenBucket.Apply, Refill;
    assert events[0] in events;
    StepReadsClock(c, b, events[0]);
    assert Within(events[1..], s, t);
    GrantsAfterReading(c, Apply(c, b, events[0]).bucket, events[1..], s, t);
  }

  /** The rate bound: in a window [s, t] of clock readings at most
      capacity + rate * (t - s) / 1000 requests get through, whatever happened before
      and even if the clock jumps about inside the window. */
  lemma {:induction false} RateBound(c: Config, b: Bucket, events: seq<Event>, s: real, t: real)
    requires ValidConfig(c) && Ok(c, b) && s <= t && Within(events, s, t)
    ensures |Run(c, b, events).granted| as real <= c.capacity + Gain(c, t - s)
    decreases |events|
  {
    hide Gain, Refill, AcquireStep, TickStep, TryAcquireStep, RemoveStep;
    GainIsMonotone(c, 0.0, t - s);
    GainOfZero(c);
    if b.lastRefillAt > t {
      GrantsByTokens(c, b, events, s, b.lastRefillAt);
    } else if b.lastRefillAt >= s {
      GrantsByTokens(c, b, events, s, t);
      GainIsMonotone(c, t - b.lastRefillAt, t - s);
    } else if |events| > 0 {
      if Enabled(b, events[0]) && !events[0].Remove? {
        BoundFromFirstReading(c, b, events, s, t);
      } else {
        StepConservesTokens(c, b, events[0]);
        RateBound(c, Apply(c, b, events[0]).bucket, events[1..], s, t);
      }
    }
  }

  /** A clock behind the bucket's own mark mints nothing: over any run that reads no later
      time, what is let through is paid from the tokens there were. */
  lemma {:induction false} ClockBackAddsNothing(c: Config, b: Bucket, events: seq<Event>)
    requires ValidConfig(c) && Ok(c, b)
    requires forall e :: e in events && !e.Remove? ==> e.now <= b.lastRefillAt
    ensures var o := Run(c, b, events);
            o.bucket.tokens + |o.granted| as real == b.tokens && o.bucket.lastRefillAt == b.lastRefillAt
    decreases |events|
  {
    hide TokenBucket.Apply, Gain, Ok;
    if |events| > 0 {
      assert events[0] in events;
      StepConservesTokens(c, b, events[0]);
      ClockBackAddsNothing(c, TokenBucket.Apply(c, b, events[0]).bucket, events[1..]);
    }
  }

  lemma {:induction false} RunConcat(c: Config, b: Bucket, before: seq<Event>, after: seq<Event>)
    requires ValidConfig(c)
    ensures Run(c, b, before + after).bucket == Run(c, Run(c, b, before).bucket, after).bucket
    ensures Run(c, b, before + after).granted
            == Run(c, b, before).granted + Run(c, Run(c, b, before).bucket, after).granted
    decreases |before|
  {
    hide TokenBucket.Apply;
    if |before| == 0 {
      assert before + after == after;
    } else {
      assert (before + after)[1..] == before[1..] + after;
      RunConcat(c, Apply(c, b, before[0]).bucket, before[1..], after);
    }
  }

  lemma {:induction false} RunKeepsOk(c: Config, b: Bucket, events: seq<Event>)
    requires ValidConfig(c) && Ok(c, b)
    ensures Ok(c, Run(c, b, events).bucket)
    decreases |events|
  {
    if |events| > 0 {
      ApplyKeepsOk(c, b, events[0]);
      RunKeepsOk(c, Apply(c, b, events[0]).bucket, events[1..]);
    }
  }

  // ---- what one request for a token does ----

  /** The tokens that are there at `now`. */
  function TokensAt(c: Config, b: Bucket, now: real): real {
    if now <= b.lastRefillAt then b.tokens
    else
      var all := b.tokens + (now - b.lastRefillAt) / 1000.0 * c.refillPerSecond;
      if all < c.capacity then all else c.capacity
  }

  predicate JoinsAt(before: seq<Waiter>, w: Waiter, after: seq<Waiter>, i: nat) {
    i <= |before| && after == before[..i] + [w] + before[i..]
  }

  /** A request that finds a token and nobody waiting has it, even if it is aborted already;
      one that does not and is aborted leaves no trace in the queue; any other joins the
      queue and, while there is no token, waits there with the check armed. */
  lemma AskIsAnswered(c: Config, b: Bucket, now: real, owner: Owner, priority: int, aborted: bool)
    requires ValidConfig(c) && Ok(c, b)
    ensures var o, tokens := Apply(c, b, Acquire(now, owner, priority, aborted)), TokensAt(c, b, now);
            if tokens >= 1.0 && b.waiters == [] then
              o.granted == [owner] && o.bucket.tokens == tokens - 1.0 && o.bucket.waiters == []
            else if aborted then
              && o.granted == [] && o.bucket.tokens == tokens && o.bucket.waiters == b.waiters
              && o.bucket.nextSequence == b.nextSequence + 1
            else
              && o.bucket.nextSequence == b.nextSequence + 1
              && (tokens < 1.0 ==>
                    && o.granted == [] && o.bucket.tokens == tokens && o.bucket.timer.Some?
                    && exists i :: JoinsAt(b.waiters, Waiter(owner, priority, b.nextSequence), o.bucket.waiters, i))
  {
    hide Refill, TokensAt, Ok, Gain, Insert, Drain, DrainCount, WaitMs, JoinsAt;
    var w := Waiter(owner, priority, b.nextSequence);
    RefilledTokens(c, b, now);
    JoinsInOnePlace(b.waiters, w);
    NoTokenNoGrant(Refill(c, b, now).(waiters := Insert(b.waiters, w), nextSequence := b.nextSequence + 1));
  }

  lemma RefilledTokens(c: Config, b: Bucket, now: real)
    ensures var r := Refill(c, b, now);
            r.tokens == TokensAt(c, b, now) && r.waiters == b.waiters && r.nextSequence == b.nextSequence && r.timer == b.timer
  {
  }

  lemma JoinsInOnePlace(q: seq<Waiter>, w: Waiter)
    ensures JoinsAt(q, w, Insert(q, w), InsertionIndex(q, w)) && Insert(q, w) != []
  {
  }

  lemma NoTokenNoGrant(b: Bucket)
    ensures b.tokens < 1.0 ==> Drain(b) == Outcome(b, [])
    ensures Drain(b).bucket.nextSequence == b.nextSequence
  {
    if b.tokens < 1.0 {
      assert b.waiters[0..] == b.waiters && Owners(b.waiters[..0]) == [];
    }
  }

  /** A request that gives up leaves the queue, the others keep their tokens and their places,
      and the check is disarmed once nobody waits. */
  lemma GivingUpTakesOneOut(c: Config, b: Bucket, sequence: nat)
    requires ValidConfig(c) && Ok(c, b)
    ensures var o := Apply(c, b, Remove(sequence));
            && o.granted == [] && o.bucket.tokens == b.tokens
            && (forall w :: w in o.bucket.waiters <==> w in b.waiters && w.sequence != sequence)
            && SortedQueue(o.bucket.waiters)
            && o.bucket.timer == (if o.bucket.waiters == [] then None else b.timer)
  {
    hide SortedQueue;
    WithoutSequenceFacts(b.waiters, sequence);
    SequenceIsGone(b.waiters, sequence);
  }

  lemma {:induction false} SequenceIsGone(q: seq<Waiter>, sequence: nat)
    requires DistinctSequences(q)
    ensures forall w :: w in WithoutSequence(q, sequence) ==> w.sequence != sequence
  {
    if |q| > 0 {
      assert q == [q[0]] + q[1..];
      SequenceIsGone(q[1..], sequence);
    }
  }

  // ---- lazy refilling refines a bucket that fills continuously ----

  /** `b` looked at once more at time `at`, refilled as if it filled all the time. */
  ghost predicate SameButRefilled(c: Config, b: Bucket, seen: Bucket, at: real) {
    seen == b || seen == Refill(c, b, at)
  }

  lemma RefilledStep(c: Config, b: Bucket, at: real, e: Event)
    requires ValidConfig(c) && Ok(c, b)
    requires !e.Remove? ==> at <= e.now
    ensures var seen := Refill(c, b, at);
            && Apply(c, seen, e).granted == Apply(c, b, e).granted
            && SameButRefilled(c, Apply(c, b, e).bucket, Apply(c, seen, e).bucket, at)
  {
    hide Gain, Drain, Insert, WaitMs, WithoutSequence;
    var seen := Refill(c, b, at);
    RefillFacts(c, b, at);
    if !e.Remove? {
      RefillInTwoSteps(c, b, at, e.now);
      RefillInTwoSteps(c, b.(timer := None), at, e.now);
    }
  }

  /** Looking at the bucket at any extra instant changes no later decision: who gets
      through, and when, is what a continuously filling bucket would decide. */
  lemma {:induction false} ExtraRefillIsInvisible(c: Config, b: Bucket, at: real, events: seq<Event>)
    requires ValidConfig(c) && Ok(c, b)
    requires forall e :: e in events && !e.Remove? ==> at <= e.now
    ensures Run(c, Apply(c, b, ReadStats(at)).bucket, events).granted == Run(c, b, events).granted
    decreases |events|
  {
    if |events| > 0 {
      var e := events[0];
      assert e in events;
      RefilledStep(c, b, at, e);
      ApplyKeepsOk(c, b, e);
      var next := Apply(c, b, e).bucket;
      forall x | x in events[1..] && !x.Remove? ensures at <= x.now {
        assert x in events;
      }
      ExtraRefillIsInvisible(c, next, at, events[1..]);
    }
  }

  // ---- order ----

  /** Who the queue lets through in one step, as waiters. */
  ghost function GrantedWaiters(c: Config, b: Bucket, e: Event): seq<Waiter>
    requires ValidConfig(c)
  {
    if !Enabled(b, e) then []
    else if e.Acquire? then
      var r := Refill(c, b, e.now);
      if (r.tokens >= 1.0 && r.waiters == []) || e.aborted then []
      else
        var j := TokenBucket.Joined(r, e.owner, e.priority);
        j.waiters[..DrainCount(j.tokens, |j.waiters|)]
    else if e.Tick? then
      var r := Refill(c, b.(timer := None), e.now);
      r.waiters[..DrainCount(r.tokens, |r.waiters|)]
    else []
  }

  ghost function AllGranted(c: Config, b: Bucket, events: seq<Event>): seq<Waiter>
    requires ValidConfig(c)
    decreases |events|
  {
    if |events| == 0 then []
    else GrantedWaiters(c, b, events[0]) + AllGranted(c, Apply(c, b, events[0]).bucket, events[1..])
  }

  /** What a step reports: the waiters it lets through in their order, or the one caller
      that found a token at once. */
  lemma StepReports(c: Config, b: Bucket, e: Event)
    requires ValidConfig(c)
    ensures var o, g := Apply(c, b, e).granted, GrantedWaiters(c, b, e);
            o == Owners(g) || (g == [] && (e.Acquire? || e.TryAcquire?) && o == [e.owner])
  {
    hide Gain, DrainCount, Insert, WaitMs;
  }

  /** Waiters are reported by the run in the order in which they are let through. */
  lemma {:induction false} GrantsAreReportedInOrder(c: Config, b: Bucket, events: seq<Event>, i: nat, j: nat)
    requires ValidConfig(c) && i < j < |AllGranted(c, b, events)|
    ensures exists p, q :: && 0 <= p < q < |Run(c, b, events).granted|
                           && Run(c, b, events).granted[p] == AllGranted(c, b, events)[i].owner
                           && Run(c, b, events).granted[q] == AllGranted(c, b, events)[j].owner
    decreases |events|
  {
    hide GrantedWaiters, TokenBucket.Apply;
    var e := events[0];
    var now, next := GrantedWaiters(c, b, e), Apply(c, b, e).bucket;
    var first := Apply(c, b, e).granted;
    StepReports(c, b, e);
    if j < |now| {
      assert Run(c, b, events).granted[i] == now[i].owner && Run(c, b, events).granted[j] == now[j].owner;
    } else {
      GrantIsReported(c, next, events[1..], j - |now|);
      var q :| 0 <= q < |Run(c, next, events[1..]).granted|
               && Run(c, next, events[1..]).granted[q] == AllGranted(c, next, events[1..])[j - |now|].owner;
      assert Run(c, b, events).granted[|first| + q] == AllGranted(c, b, events)[j].owner;
      if i < |now| {
        assert Run(c, b, events).granted[i] == now[i].owner;
      } else {
        GrantsAreReportedInOrder(c, next, events[1..], i - |now|, j - |now|);
        var x, y :| 0 <= x < y < |Run(c, next, events[1..]).granted|
                    && Run(c, next, events[1..]).granted[x] == AllGranted(c, next, events[1..])[i - |now|].owner
                    && Run(c, next, events[1..]).granted[y] == AllGranted(c, next, events[1..])[j - |now|].owner;
        assert Run(c, b, events).granted[|first| + x] == AllGranted(c, b, events)[i].owner;
        assert Run(c, b, events).granted[|first| + y] == AllGranted(c, b, events)[j].owner;
      }
    }
  }

  /** A waiter that is let through is reported by the run. */
  lemma {:induction false} GrantIsReported(c: Config, b: Bucket, events: seq<Event>, i: nat)
    requires ValidConfig(c) && i < |AllGranted(c, b, events)|
    ensures exists p :: && 0 <= p < |Run(c, b, events).granted|
                        && Run(c, b, events).granted[p] == AllGranted(c, b, events)[i].owner
    decreases |events|
  {
    hide GrantedWaiters, TokenBucket.Apply;
    var e := events[0];
    var now, next := GrantedWaiters(c, b, e), Apply(c, b, e).bucket;
    StepReports(c, b, e);
    if i < |now| {
      assert Run(c, b, events).granted[i] == now[i].owner;
    } else {
      GrantIsReported(c, next, events[1..], i - |now|);
      var p :| 0 <= p < |Run(c, next, events[1..]).granted|
               && Run(c, next, events[1..]).granted[p] == AllGranted(c, next, events[1..])[i - |now|].owner;
      assert Run(c, b, events).granted[|Apply(c, b, e).granted| + p] == AllGranted(c, b, events)[i].owner;
    }
  }

  lemma DrainFate(c: Config, b: Bucket, now: real, w: Waiter)
    requires ValidConfig(c) && w in b.waiters
    ensures w in ScheduleRefillCheck(c, Drain(b).bucket, now).waiters || w in b.waiters[..DrainCount(b.tokens, |b.waiters|)]
  {
    hide WaitMs, Owners;
    var n := DrainCount(b.tokens, |b.waiters|);
    assert b.waiters == b.waiters[..n] + b.waiters[n..];
  }

  lemma RefillKeepsQueue(c: Config, b: Bucket, now: real)
    ensures Refill(c, b, now).waiters == b.waiters
  {
    hide Gain;
  }

  /** A waiter stays queued, is let through, or is taken out by name. */
  lemma WaiterFate(c: Config, b: Bucket, e: Event, w: Waiter)
    requires ValidConfig(c) && Ok(c, b) && w in b.waiters && e != Remove(w.sequence)
    ensures w in Apply(c, b, e).bucket.waiters || w in GrantedWaiters(c, b, e)
  {
    hide Refill, Drain, DrainCount, ScheduleRefillCheck, Insert, WithoutSequence, Ok;
    match e
    case Acquire(now, owner, priority, aborted) =>
      var r := Refill(c, b, now);
      RefillKeepsQueue(c, b, now);
      if !aborted {
        InsertElements(r.waiters, Waiter(owner, priority, r.nextSequence));
        DrainFate(c, TokenBucket.Joined(r, owner, priority), now, w);
      }
    case Tick(now) =>
      RefillKeepsQueue(c, b.(timer := None), now);
      DrainFate(c, Refill(c, b.(timer := None), now), now, w);
    case Remove(sequence) => WithoutSequenceFacts(b.waiters, sequence);
    case _ => RefillKeepsQueue(c, b, e.now);
  }

  lemma PrefixInOrder(q: seq<Waiter>, n: nat, x: Waiter, y: Waiter, j: nat)
    requires SortedQueue(q) && n <= |q| && j < n && x in q && q[j] == y && Before(x, y)
    ensures exists i :: 0 <= i < j && q[..n][i] == x
  {
    var i :| 0 <= i < |q| && q[i] == x;
    assert i < j;
    assert q[..n][i] == x;
  }

  /** A step lets waiters through from the front of an ordered queue. */
  lemma StepGrantsInOrder(c: Config, b: Bucket, e: Event, x: Waiter, y: Waiter, j: nat)
    requires ValidConfig(c) && Ok(c, b) && x in b.waiters && Before(x, y)
    requires j < |GrantedWaiters(c, b, e)| && GrantedWaiters(c, b, e)[j] == y
    ensures exists i :: 0 <= i < j && GrantedWaiters(c, b, e)[i] == x
  {
    if e.Acquire? {
      var r := Refill(c, b, e.now);
      RefillFacts(c, b, e.now);
      JoinKeepsQueue(r, e.owner, e.priority);
      InsertElements(r.waiters, Waiter(e.owner, e.priority, r.nextSequence));
      var q := TokenBucket.Joined(r, e.owner, e.priority);
      PrefixInOrder(q.waiters, DrainCount(q.tokens, |q.waiters|), x, y, j);
    } else {
      var r := Refill(c, b.(timer := None), e.now);
      PrefixInOrder(b.waiters, DrainCount(r.tokens, |r.waiters|), x, y, j);
    }
  }

  lemma QueuedIsOld(c: Config, b: Bucket, e: Event, y: Waiter)
    requires ValidConfig(c) && Ok(c, b) && y in b.waiters
    ensures y.sequence < Apply(c, b, e).bucket.nextSequence
  {
    StepQueueOrigin(c, b, e, y);
  }

  /** Priority first, then first come first served: of two waiters queued together the
      smaller one is let through first, unless it is taken out of the queue. */
  lemma {:induction false} PriorityFifo(c: Config, b: Bucket, events: seq<Event>, x: Waiter, y: Waiter, j: nat)
    requires ValidConfig(c) && Ok(c, b)
    requires x in b.waiters && y in b.waiters && Before(x, y)
    requires Remove(x.sequence) !in events
    requires j < |AllGranted(c, b, events)| && AllGranted(c, b, events)[j] == y
    ensures exists i :: 0 <= i < j && AllGranted(c, b, events)[i] == x
    decreases |events|
  {
    hide GrantedWaiters, TokenBucket.Apply, Ok;
    var e := events[0];
    var now := GrantedWaiters(c, b, e);
    var next := Apply(c, b, e).bucket;
    var later := AllGranted(c, next, events[1..]);
    ApplyKeepsOk(c, b, e);
    if j < |now| {
      StepGrantsInOrder(c, b, e, x, y, j);
      var i :| 0 <= i < j && now[i] == x;
      assert AllGranted(c, b, events)[i] == x;
    } else if x in now {
      var i :| 0 <= i < |now| && now[i] == x;
      assert AllGranted(c, b, events)[i] == x;
    } else {
      WaiterFate(c, b, e, x);
      assert later[j - |now|] == y;
      OnlyQueuedOrNewAreGranted(c, next, events[1..], y);
      QueuedIsOld(c, b, e, y);
      PriorityFifo(c, next, events[1..], x, y, j - |now|);
      var i :| 0 <= i < j - |now| && later[i] == x;
      assert AllGranted(c, b, events)[i + |now|] == x;
    }
  }

  /** So the callers themselves get their tokens in that order. */
  lemma ServedInOrder(c: Config, b: Bucket, events: seq<Event>, x: Waiter, y: Waiter)
    requires ValidConfig(c) && Ok(c, b)
    requires x in b.waiters && y in b.waiters && Before(x, y)
    requires Remove(x.sequence) !in events && y in AllGranted(c, b, events)
    ensures exists p, q :: && 0 <= p < q < |Run(c, b, events).granted|
                           && Run(c, b, events).granted[p] == x.owner && Run(c, b, events).granted[q] == y.owner
  {
    hide AllGranted, Run, Ok;
    var j :| 0 <= j < |AllGranted(c, b, events)| && AllGranted(c, b, events)[j] == y;
    PriorityFifo(c, b, events, x, y, j);
    var i :| 0 <= i < j && AllGranted(c, b, events)[i] == x;
    GrantsAreReportedInOrder(c, b, events, i, j);
  }

  /** Whoever is let through later is queued now or joins later with a new sequence. */
  lemma {:induction false} OnlyQueuedOrNewAreGranted(c: Config, b: Bucket, events: seq<Event>, y: Waiter)
    requires ValidConfig(c) && Ok(c, b) && y in AllGranted(c, b, events)
    ensures y in b.waiters || y.sequence >= b.nextSequence
    decreases |events|
  {
    hide GrantedWaiters, TokenBucket.Apply, Ok;
    var e := events[0];
    var next := Apply(c, b, e).bucket;
    ApplyKeepsOk(c, b, e);
    if y !in GrantedWaiters(c, b, e) {
      OnlyQueuedOrNewAreGranted(c, next, events[1..], y);
    }
    StepQueueOrigin(c, b, e, y);
  }

  lemma DrainOrigin(c: Config, b: Bucket, now: real, y: Waiter)
    requires ValidConfig(c)
    ensures var after := ScheduleRefillCheck(c, Drain(b).bucket, now);
            && after.nextSequence == b.nextSequence
            && (y in after.waiters || y in b.waiters[..DrainCount(b.tokens, |b.waiters|)] ==> y in b.waiters)
  {
    hide WaitMs, DrainCount, Owners;
  }

  lemma StepQueueOrigin(c: Config, b: Bucket, e: Event, y: Waiter)
    requires ValidConfig(c) && Ok(c, b)
    ensures Apply(c, b, e).bucket.nextSequence >= b.nextSequence
    ensures y in Apply(c, b, e).bucket.waiters || y in GrantedWaiters(c, b, e) ==>
              y in b.waiters || y.sequence >= b.nextSequence
  {
    hide Gain, Drain, DrainCount, ScheduleRefillCheck, Insert, WithoutSequence, Ok;
    if e.Acquire? {
      var r := Refill(c, b, e.now);
      InsertElements(r.waiters, Waiter(e.owner, e.priority, r.nextSequence));
      DrainOrigin(c, TokenBucket.Joined(r, e.owner, e.priority), e.now, y);
    } else if e.Tick? {
      DrainOrigin(c, Refill(c, b.(timer := None), e.now), e.now, y);
    } else if e.Remove? {
      WithoutSequenceFacts(b.waiters, e.sequence);
    }
  }
}
