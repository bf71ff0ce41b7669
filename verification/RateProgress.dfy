/** Nobody waits for ever: how many refill checks a queued waiter can see before it is
    let through, and why one more check than its place in the queue may be needed. */
module RateProgress {
  import opened Options
  import opened TokenBucket
  import opened RateBounds

  /** The clock readings of the run never go back, starting from `from`. */
  ghost predicate Monotone(from: real, events: seq<Event>)
    decreases |events|
  {
    if |events| == 0 then true
    else if events[0].Remove? then Monotone(from, events[1..])
    else from <= events[0].now && Monotone(events[0].now, events[1..])
  }

  /** A refill check that fires when it is due by the clock, or later. */
  predicate FiresDue(b: Bucket, e: Event) {
    e.Tick? && b.timer.Some? && b.timer.value <= e.now
  }

  /** The refill checks of a run that fire no earlier than they are due. */
  ghost function TicksFired(c: Config, b: Bucket, events: seq<Event>): nat
    requires ValidConfig(c)
    decreases |events|
  {
    if |events| == 0 then 0
    else (if FiresDue(b, events[0]) then 1 else 0)
         + TicksFired(c, Apply(c, b, events[0]).bucket, events[1..])
  }

  /** Nothing has been let through since the refill check was armed, as far as the
      tokens can tell: they are at least what that time alone has brought in. */
  ghost predicate Clean(c: Config, b: Bucket)
    requires ValidConfig(c)
  {
    b.timer.Some? && Min(c.capacity, Gain(c, b.lastRefillAt - (b.timer.value - WaitMs(c)))) <= b.tokens
  }

  ghost function TicksNeeded(c: Config, b: Bucket, index: nat): nat
    requires ValidConfig(c)
  {
    index + 1 + (if Clean(c, b) then 0 else 1)
  }

  lemma WaitIsOnePeriod(c: Config)
    requires ValidConfig(c)
    ensures WaitMs(c) * c.refillPerSecond >= 1000.0
  {
    var period := 1000.0 / c.refillPerSecond;
    assert period * c.refillPerSecond == 1000.0;
    assert WaitMs(c) >= period;
    assert (WaitMs(c) - period) * c.refillPerSecond >= 0.0;
  }

  lemma WaitBringsAToken(c: Config)
    requires ValidConfig(c)
    ensures Gain(c, WaitMs(c)) >= 1.0
  {
    WaitIsOnePeriod(c);
    var w, r := WaitMs(c), c.refillPerSecond;
    assert w / 1000.0 * r == w * r / 1000.0;
  }

  lemma RefillKeepsClean(c: Config, b: Bucket, now: real)
    requires ValidConfig(c) && Ok(c, b) && Clean(c, b) && b.lastRefillAt <= now
    ensures Clean(c, Refill(c, b, now))
    ensures Min(c.capacity, Gain(c, now - (b.timer.value - WaitMs(c)))) <= Refill(c, b, now).tokens
  {
    hide WaitMs;
    var armed := b.timer.value - WaitMs(c);
    GainIsLinear(c, b.lastRefillAt - armed, now - b.lastRefillAt);
    GainIsMonotone(c, 0.0, now - b.lastRefillAt);
    GainOfZero(c);
    assert b.lastRefillAt - armed + (now - b.lastRefillAt) == now - armed;
  }

  /** A refill check that fires on a clean bucket always has a token to give. */
  lemma CleanTickHasToken(c: Config, b: Bucket, now: real)
    requires ValidConfig(c) && c.capacity >= 1.0 && Ok(c, b) && Clean(c, b)
    requires b.lastRefillAt <= now && b.timer.value <= now
    ensures Refill(c, b, now).tokens >= 1.0
  {
    RefillKeepsClean(c, b, now);
    WaitBringsAToken(c);
    GainIsMonotone(c, WaitMs(c), now - (b.timer.value - WaitMs(c)));
  }

  /** Waiters that join behind `q[i]` leave its place alone. */
  lemma InsertBehind(q: seq<Waiter>, w: Waiter, i: nat)
    requires SortedQueue(q) && i < |q|
    requires q[i].priority <= w.priority && q[i].sequence < w.sequence
    ensures i < |Insert(q, w)| && Insert(q, w)[i] == q[i]
  {
    var k := InsertionIndex(q, w);
    assert forall j :: 0 <= j < i ==> Before(q[j], q[i]);
  }

  lemma NotInPrefix(q: seq<Waiter>, n: nat, i: nat)
    requires n <= |q| && i < |q| && q[i] !in q[..n]
    ensures n <= i
  {
  }

  lemma {:induction false} RemoveOther(q: seq<Waiter>, sequence: nat, i: nat)
    requires i < |q| && q[i].sequence != sequence
    ensures exists k :: 0 <= k <= i && k < |WithoutSequence(q, sequence)| && WithoutSequence(q, sequence)[k] == q[i]
  {
    if q[0].sequence == sequence {
      assert WithoutSequence(q, sequence)[i - 1] == q[i];
    } else if i == 0 {
      assert WithoutSequence(q, sequence)[0] == q[0];
    } else {
      RemoveOther(q[1..], sequence, i - 1);
      var k :| 0 <= k <= i - 1 && k < |WithoutSequence(q[1..], sequence)|
               && WithoutSequence(q[1..], sequence)[k] == q[1..][i - 1];
      assert WithoutSequence(q, sequence)[k + 1] == q[i];
    }
  }

  ghost predicate Progressed(c: Config, b: Bucket, i: nat, w: Waiter, after: Bucket, fired: nat)
    requires ValidConfig(c)
  {
    exists k :: 0 <= k < |after.waiters| && after.waiters[k] == w && TicksNeeded(c, after, k) + fired <= TicksNeeded(c, b, i)
  }

  lemma AcquireProgress(c: Config, b: Bucket, e: Event, i: nat)
    requires ValidConfig(c) && Ok(c, b) && e.Acquire? && b.lastRefillAt <= e.now
    requires i < |b.waiters| && b.waiters[i].priority <= e.priority
    requires b.waiters[i] !in GrantedWaiters(c, b, e)
    ensures Progressed(c, b, i, b.waiters[i], Apply(c, b, e).bucket, 0)
  {
    hide Gain, WaitMs, Insert, Owners;
    var w := b.waiters[i];
    var r := Refill(c, b, e.now);
    RefillFacts(c, b, e.now);
    if Clean(c, b) {
      RefillKeepsClean(c, b, e.now);
    }
    if e.aborted {
      assert Apply(c, b, e).bucket.waiters[i] == w;
    } else {
      var j := TokenBucket.Joined(r, e.owner, e.priority);
      InsertBehind(r.waiters, Waiter(e.owner, e.priority, r.nextSequence), i);
      var n := DrainCount(j.tokens, |j.waiters|);
      NotInPrefix(j.waiters, n, i);
      assert Apply(c, b, e).bucket.waiters[i - n] == w;
    }
  }

  lemma TickProgress(c: Config, b: Bucket, now: real, i: nat)
    requires ValidConfig(c) && c.capacity >= 1.0 && Ok(c, b) && Enabled(b, Tick(now)) && b.lastRefillAt <= now
    requires i < |b.waiters| && b.waiters[i] !in GrantedWaiters(c, b, Tick(now))
    ensures Progressed(c, b, i, b.waiters[i], Apply(c, b, Tick(now)).bucket, if FiresDue(b, Tick(now)) then 1 else 0)
  {
    hide Gain, WaitMs;
    var w := b.waiters[i];
    var r := Refill(c, b.(timer := None), now);
    var n := DrainCount(r.tokens, |r.waiters|);
    var after := Apply(c, b, Tick(now)).bucket;
    RefillFacts(c, b.(timer := None), now);
    DrainCountFacts(r.tokens, |r.waiters|);
    if Clean(c, b) && FiresDue(b, Tick(now)) {
      CleanTickHasToken(c, b, now);
      assert r.tokens == Refill(c, b, now).tokens;
    }
    NotInPrefix(r.waiters, n, i);
    assert after.waiters[i - n] == w;
    assert after.timer == Some(now + WaitMs(c));
    GainOfZero(c);
    assert after.lastRefillAt - (after.timer.value - WaitMs(c)) == 0.0;
    assert Clean(c, after);
  }

  lemma OtherProgress(c: Config, b: Bucket, e: Event, i: nat)
    requires ValidConfig(c) && Ok(c, b) && i < |b.waiters|
    requires !Enabled(b, e) || e.TryAcquire? || e.ReadStats? || e.Remove?
    requires e.TryAcquire? || e.ReadStats? ==> b.lastRefillAt <= e.now
    requires e != Remove(b.waiters[i].sequence)
    ensures Progressed(c, b, i, b.waiters[i], Apply(c, b, e).bucket, 0)
  {
    var w := b.waiters[i];
    var after := Apply(c, b, e).bucket;
    if e.Remove? {
      RemoveOther(b.waiters, e.sequence, i);
      var k :| 0 <= k <= i && k < |after.waiters| && after.waiters[k] == w;
      assert Clean(c, after) == Clean(c, b);
    } else {
      if (e.TryAcquire? || e.ReadStats?) && Clean(c, b) {
        RefillKeepsClean(c, b, e.now);
      }
      assert after.waiters[i] == w;
    }
  }

  lemma MonotoneStep(c: Config, b: Bucket, events: seq<Event>)
    requires ValidConfig(c) && Ok(c, b) && |events| > 0 && Monotone(b.lastRefillAt, events)
    ensures Monotone(Apply(c, b, events[0]).bucket.lastRefillAt, events[1..])
  {
    StepConservesTokens(c, b, events[0]);
    if !events[0].Remove? {
      RefillFacts(c, b, events[0].now);
      if !Enabled(b, events[0]) {
        MonotoneWeaken(b.lastRefillAt, events[0].now, events[1..]);
      }
    }
  }

  lemma {:induction false} MonotoneWeaken(a: real, b: real, events: seq<Event>)
    requires a <= b && Monotone(b, events)
    ensures Monotone(a, events)
    decreases |events|
  {
    if |events| > 0 && events[0].Remove? {
      MonotoneWeaken(a, b, events[1..]);
    }
  }

  /** Bounded waiting: with room for at least one token and a clock that does not go
      back, the waiter at place `i` (counting from 0) is let through within i + 1 due refill
      checks if nothing was let through since the pending check was armed, and within
      i + 2 otherwise, unless it leaves or someone with a smaller priority number comes. */
  lemma {:induction false} BoundedWaiting(c: Config, b: Bucket, events: seq<Event>, i: nat)
    requires ValidConfig(c) && c.capacity >= 1.0 && Ok(c, b) && i < |b.waiters|
    requires Monotone(b.lastRefillAt, events)
    requires forall e :: e in events && e.Acquire? ==> b.waiters[i].priority <= e.priority
    requires Remove(b.waiters[i].sequence) !in events
    requires TicksFired(c, b, events) >= TicksNeeded(c, b, i)
    ensures b.waiters[i] in AllGranted(c, b, events)
    decreases |events|
  {
    hide GrantedWaiters, TokenBucket.Apply, Gain, Refill, WaitMs;
    var w := b.waiters[i];
    var e := events[0];
    var after := Apply(c, b, e).bucket;
    if w !in GrantedWaiters(c, b, e) {
      assert e in events;
      var fired := if FiresDue(b, e) then 1 else 0;
      if e.Acquire? {
        AcquireProgress(c, b, e, i);
      } else if e.Tick? && Enabled(b, e) {
        TickProgress(c, b, e.now, i);
      } else {
        OtherProgress(c, b, e, i);
      }
      var k :| 0 <= k < |after.waiters| && after.waiters[k] == w
               && TicksNeeded(c, after, k) + fired <= TicksNeeded(c, b, i);
      ApplyKeepsOk(c, b, e);
      MonotoneStep(c, b, events);
      forall x | x in events[1..] && x.Acquire? ensures w.priority <= x.priority {
        assert x in events;
      }
      BoundedWaiting(c, after, events[1..], k);
    }
  }

  /** And the request it stands for gets its token within the run. */
  lemma WaiterIsServed(c: Config, b: Bucket, events: seq<Event>, i: nat)
    requires ValidConfig(c) && c.capacity >= 1.0 && Ok(c, b) && i < |b.waiters|
    requires Monotone(b.lastRefillAt, events)
    requires forall e :: e in events && e.Acquire? ==> b.waiters[i].priority <= e.priority
    requires Remove(b.waiters[i].sequence) !in events
    requires TicksFired(c, b, events) >= TicksNeeded(c, b, i)
    ensures b.waiters[i].owner in Run(c, b, events).granted
  {
    hide AllGranted, Run, Ok, TicksNeeded, TicksFired, Monotone;
    BoundedWaiting(c, b, events, i);
    var k :| 0 <= k < |AllGranted(c, b, events)| && AllGranted(c, b, events)[k] == b.waiters[i];
    GrantIsReported(c, b, events, k);
  }

  /** When a refill check lets someone through. */
  lemma TickGrantsIff(c: Config, b: Bucket, now: real)
    requires ValidConfig(c) && Ok(c, b) && Enabled(b, Tick(now))
    ensures Apply(c, b, Tick(now)).granted != [] <==> b.waiters != [] && Refill(c, b, now).tokens >= 1.0
  {
    var r := Refill(c, b.(timer := None), now);
    RefillFacts(c, b.(timer := None), now);
    DrainFacts(c, r);
    DrainCountFacts(r.tokens, |r.waiters|);
  }

  const ONE_PER_SECOND := Config(1.0, 1.0)

  function Someone(id: nat): Owner { Owner(UserLane, id) }

  const FIRST := Waiter(Owner(UserLane, 1), 0, 0)
  const SECOND := Waiter(Owner(UserLane, 2), 0, 1)

  lemma OneSecondWait()
    ensures ValidConfig(ONE_PER_SECOND) && WaitMs(ONE_PER_SECOND) == 1000.0
  {
    assert 1000.0 / ONE_PER_SECOND.refillPerSecond == 1000.0;
  }

  lemma RunThree(c: Config, b: Bucket, e0: Event, e1: Event, e2: Event)
    requires ValidConfig(c)
    ensures Run(c, b, [e0, e1, e2]).bucket == Apply(c, Apply(c, Apply(c, b, e0).bucket, e1).bucket, e2).bucket
  {
    RunConcat(c, b, [e0], [e1, e2]);
    RunConcat(c, Run(c, b, [e0]).bucket, [e1], [e2]);
    assert [e0] + [e1, e2] == [e0, e1, e2] && [e1] + [e2] == [e1, e2];
  }

  lemma FirstPasses()
    ensures ValidConfig(ONE_PER_SECOND)
    ensures Apply(ONE_PER_SECOND, New(ONE_PER_SECOND, 0.0), Acquire(0.0, Someone(0), 0, false)).bucket
            == Bucket(0.0, 0.0, [], 0, None)
  {
  }

  lemma FirstQueues()
    ensures ValidConfig(ONE_PER_SECOND)
    ensures Apply(ONE_PER_SECOND, Bucket(0.0, 0.0, [], 0, None), Acquire(0.0, Someone(1), 0, false)).bucket
            == Bucket(0.0, 0.0, [FIRST], 1, Some(1000.0))
  {
    OneSecondWait();
    assert Insert([], FIRST) == [FIRST];
    assert DrainCount(0.0, 1) == 0;
  }

  lemma SecondDrainsFirst()
    ensures ValidConfig(ONE_PER_SECOND)
    ensures Apply(ONE_PER_SECOND, Bucket(0.0, 0.0, [FIRST], 1, Some(1000.0)), Acquire(1000.0, Someone(2), 0, false)).bucket
            == Bucket(0.0, 1000.0, [SECOND], 2, Some(1000.0))
  {
    OneSecondWait();
    var b := Bucket(0.0, 0.0, [FIRST], 1, Some(1000.0));
    assert Refill(ONE_PER_SECOND, b, 1000.0) == b.(tokens := 1.0, lastRefillAt := 1000.0);
    assert [FIRST][1..] == [];
    assert InsertionIndex([FIRST], SECOND) == 1;
    assert Insert([FIRST], SECOND) == [FIRST, SECOND];
    assert DrainCount(1.0, 2) == 1 + DrainCount(0.0, 1);
    assert [FIRST, SECOND][1..] == [SECOND];
  }

  lemma SecondGetsNothing()
    ensures ValidConfig(ONE_PER_SECOND)
    ensures GrantsNobody(Bucket(0.0, 1000.0, [SECOND], 2, Some(1000.0)), 1000.0)
  {
    assert DrainCount(0.0, 1) == 0;
    assert [SECOND][..0] == [];
  }

  /** A due refill check that lets nobody through although somebody waits. */
  ghost predicate GrantsNobody(b: Bucket, now: real)
    requires ValidConfig(ONE_PER_SECOND)
  {
    b.waiters != [] && FiresDue(b, Tick(now)) && Apply(ONE_PER_SECOND, b, Tick(now)).granted == []
  }

  /** Not every refill check lets someone through, not even with a waiter in the queue:
      an `acquire` at the same instant drains the token the check was armed for. */
  lemma TickMayGrantNobody()
    ensures ValidConfig(ONE_PER_SECOND)
    ensures exists events :: GrantsNobody(Run(ONE_PER_SECOND, New(ONE_PER_SECOND, 0.0), events).bucket, 1000.0)
  {
    var e0, e1, e2 := Acquire(0.0, Someone(0), 0, false), Acquire(0.0, Someone(1), 0, false),
                      Acquire(1000.0, Someone(2), 0, false);
    FirstPasses();
    FirstQueues();
    SecondDrainsFirst();
    RunThree(ONE_PER_SECOND, New(ONE_PER_SECOND, 0.0), e0, e1, e2);
    SecondGetsNothing();
    assert GrantsNobody(Run(ONE_PER_SECOND, New(ONE_PER_SECOND, 0.0), [e0, e1, e2]).bucket, 1000.0);
  }
}
