/** No slot of a lane is lost or freed twice, no slot stands idle while a request waits,
    waiting is first come first served, and exactly when a lane can exceed its limit. */
module LaneSafety {
  import opened Options
  import opened Queues
  import CB = CircuitBreaker
  import opened ConcurrencyLane

  // ---- what every step keeps ----

  function One(b: bool): nat { if b then 1 else 0 }

  /** A request that came in is in exactly one place. */
  predicate InOnePlace(l: Lane, id: RequestId) {
    One(id in l.queue) + One(id in l.handed) + One(id in l.holders) + One(id in l.finished) + One(id in l.timedOut)
    == One(id < l.next)
  }

  ghost predicate Ordered(l: Lane) {
    && Increasing(l.queue) && Increasing(l.handed)
    && forall h, w :: h in l.handed && w in l.queue ==> h < w
  }

  ghost predicate SlotsOk(l: Lane) {
    && l.active == |l.holders|
    && (forall id :: InOnePlace(l, id))
    && Ordered(l)
  }

  /** Nobody waits while a slot is free and unpromised. */
  predicate WorkConserving(max: nat, l: Lane) {
    |l.queue| > 0 ==> l.active + |l.handed| >= max
  }

  lemma AcquireKeeps(max: nat, l: Lane)
    requires SlotsOk(l) && WorkConserving(max, l)
    ensures var a := Acquire(max, l, l.next); SlotsOk(a) && WorkConserving(max, a) && l.holders <= a.holders
  {
    var a := Acquire(max, l, l.next);
    assert InOnePlace(l, l.next);
    forall x | x in l.handed || x in l.queue ensures x < l.next {
      assert InOnePlace(l, x);
    }
    Append(l.queue, l.next);
    forall id ensures InOnePlace(a, id) {
      assert InOnePlace(l, id);
    }
  }

  lemma ResumeKeeps(max: nat, l: Lane, id: RequestId)
    requires SlotsOk(l) && WorkConserving(max, l) && id in l.handed
    ensures var a := Resume(l, id); SlotsOk(a) && WorkConserving(max, a) && l.holders <= a.holders
  {
    var a := Resume(l, id);
    WithoutOne(l.handed, id);
    assert InOnePlace(l, id);
    forall x ensures InOnePlace(a, x) {
      assert InOnePlace(l, x);
    }
  }

  lemma TimeoutKeeps(max: nat, l: Lane, id: RequestId)
    requires SlotsOk(l) && WorkConserving(max, l) && id in l.queue
    ensures var a := QueueTimeout(l, id); SlotsOk(a) && WorkConserving(max, a) && a.holders == l.holders
  {
    var a := QueueTimeout(l, id);
    WithoutOne(l.queue, id);
    assert InOnePlace(l, id);
    forall x ensures InOnePlace(a, x) {
      assert InOnePlace(l, x);
    }
  }

  lemma ReleaseKeeps(max: nat, l: Lane, id: RequestId)
    requires SlotsOk(l) && WorkConserving(max, l) && id in l.holders
    ensures var a := ReleaseSlot(l, id); SlotsOk(a) && WorkConserving(max, a) && a.holders == l.holders - {id}
  {
    var a := ReleaseSlot(l, id);
    assert InOnePlace(l, id);
    assert |l.holders - {id}| == |l.holders| - 1;
    if |l.queue| > 0 {
      assert l.queue == [l.queue[0]] + l.queue[1..];
      assert l.queue[0] in l.queue;
      Append(l.handed, l.queue[0]);
      assert InOnePlace(l, l.queue[0]);
    }
    forall x ensures InOnePlace(a, x) {
      assert InOnePlace(l, x);
      if |l.queue| > 0 {
        assert x in l.queue <==> x == l.queue[0] || x in l.queue[1..];
      }
    }
  }

  // ---- the whole lane ----

  /** Whatever runs holds a slot. */
  ghost predicate Inv(max: nat, s: State) {
    && SlotsOk(s.lane)
    && WorkConserving(max, s.lane)
    && s.breaker.running <= s.lane.holders
  }

  lemma StepKeepsInv(c: CB.Settings, max: nat, s: State, e: Event)
    requires Inv(max, s) && Enabled(s, e)
    ensures Inv(max, Apply(c, max, s, e))
  {
    hide SlotsOk, WorkConserving, Acquire, QueueTimeout, Resume, ReleaseSlot, CB.BeforeQueue, CB.BeforeRun, CB.Success, CB.Failure;
    match e
    case Arrive(id, now) =>
      AcquireKeeps(max, s.lane);
    case Expire(id) =>
      TimeoutKeeps(max, s.lane, id);
    case Wake(id) =>
      ResumeKeeps(max, s.lane, id);
    case Start(id, now) =>
      HolderIsUnfinished(s.lane, id);
      ReleaseKeeps(max, s.lane, id);
    case Finish(id, _, _) =>
      HolderIsUnfinished(s.lane, id);
      ReleaseKeeps(max, s.lane, id);
    case Look(_) =>
  }

  lemma HolderIsUnfinished(l: Lane, id: RequestId)
    requires SlotsOk(l) && id in l.holders
    ensures id !in l.finished
  {
    assert InOnePlace(l, id);
  }

  /** In every run: the counter is the number of slots held, so no slot is lost or freed
      twice; no request is lost; and no slot idles while a request waits. */
  lemma {:induction false} RunKeepsInv(c: CB.Settings, max: nat, s: State, events: seq<Event>)
    requires Inv(max, s) && Feasible(c, max, s, events)
    ensures Inv(max, Run(c, max, s, events))
    decreases |events|
  {
    if |events| > 0 {
      StepKeepsInv(c, max, s, events[0]);
      RunKeepsInv(c, max, Apply(c, max, s, events[0]), events[1..]);
    }
  }

  lemma SlotsAreConserved(c: CB.Settings, max: nat, events: seq<Event>)
    requires Feasible(c, max, IDLE, events)
    ensures var l := Run(c, max, IDLE, events).lane;
            && l.active == |l.holders|
            && (forall id :: InOnePlace(l, id))
            && (|l.queue| > 0 ==> l.active + |l.handed| >= max)
  {
    RunKeepsInv(c, max, IDLE, events);
  }

  /** A second call of a request's release changes nothing. */
  lemma ReleaseIsOneShot(max: nat, l: Lane, id: RequestId)
    requires SlotsOk(l) && id in l.holders
    ensures var once := ReleaseSlot(l, id);
            && once.active == l.active - 1
            && ReleaseSlot(once, id) == once
  {
    HolderIsUnfinished(l, id);
    assert l.holders - {id} < l.holders;
    assert |l.holders - {id}| == |l.holders| - 1;
  }

  /** The end of a request gives its slot back: when its task ends, or the second breaker
      check refuses it. */
  predicate Ends(c: CB.Settings, s: State, e: Event) {
    e.Finish? || (e.Start? && CB.BeforeRun(c, s.breaker.breaker, e.now).refusal.Some?)
  }

  lemma EndGivesSlotBack(c: CB.Settings, max: nat, s: State, e: Event)
    requires Inv(max, s) && Enabled(s, e) && Ends(c, s, e)
    ensures var a := Apply(c, max, s, e).lane;
            e.id in a.finished && e.id !in a.holders && a.active == s.lane.active - 1
  {
    ReleaseIsOneShot(max, s.lane, e.id);
    HolderIsUnfinished(s.lane, e.id);
  }

  /** What the end of a request tells the breaker: a success closes it and forgets its
      failures, a failure that counts is one more, and any other end changes neither its
      state nor its count. */
  lemma OutcomeCounts(c: CB.Settings, max: nat, s: State, id: RequestId, outcome: Outcome, now: int)
    requires Enabled(s, Finish(id, outcome, now))
    ensures var b, a := s.breaker.breaker, Apply(c, max, s, Finish(id, outcome, now)).breaker;
            && a.running == s.breaker.running - {id}
            && match outcome
               case Succeeded => a.breaker.state == CB.Closed && a.breaker.failures == 0
               case Counted => a.breaker.failures == b.failures + 1
               case Uncounted =>
                 && a.breaker.state == b.state && a.breaker.failures == b.failures && a.breaker.openedAt == b.openedAt
                 && a.breaker.changes == b.changes
  {
  }

  /** And in no later run does that request hold a slot again. */
  lemma {:induction false} SlotStaysReturned(c: CB.Settings, max: nat, s: State, events: seq<Event>, id: RequestId)
    requires Inv(max, s) && Feasible(c, max, s, events) && id in s.lane.finished
    ensures id in Run(c, max, s, events).lane.finished && id !in Run(c, max, s, events).lane.holders
    decreases |events|
  {
    hide SlotsOk, WorkConserving, CB.BeforeQueue, CB.BeforeRun, CB.Success, CB.Failure;
    if |events| > 0 {
      StepKeepsInv(c, max, s, events[0]);
      SlotStaysReturned(c, max, Apply(c, max, s, events[0]), events[1..], id);
    } else {
      NotBoth(s.lane, id);
    }
  }

  lemma NotBoth(l: Lane, id: RequestId)
    requires SlotsOk(l) && id in l.finished
    ensures id !in l.holders
  {
    assert InOnePlace(l, id);
  }

  // ---- the limit ----

  function Promised(l: Lane): int { l.active + |l.handed| }

  /** A new request that takes a slot which an unresumed waiter has been promised. */
  predicate Overtakes(c: CB.Settings, max: nat, s: State, e: Event) {
    && e.Arrive?
    && CB.BeforeQueue(c, s.breaker.breaker, e.now).refusal.None?
    && s.lane.active < max <= Promised(s.lane)
  }

  function Overtakings(c: CB.Settings, max: nat, s: State, events: seq<Event>): nat
    decreases |events|
  {
    if |events| == 0 then 0
    else (if Overtakes(c, max, s, events[0]) then 1 else 0) + Overtakings(c, max, Apply(c, max, s, events[0]), events[1..])
  }

  lemma StepPromises(c: CB.Settings, max: nat, s: State, e: Event)
    requires Inv(max, s) && Enabled(s, e)
    ensures var a := Apply(c, max, s, e);
            && (Overtakes(c, max, s, e) ==> Promised(a.lane) == Promised(s.lane) + 1 > max)
            && (!Overtakes(c, max, s, e) ==> Promised(a.lane) <= Promised(s.lane) || Promised(a.lane) <= max)
  {
    match e
    case Arrive(id, now) =>
    case Expire(id) =>
    case Wake(id) =>
      WithoutOne(s.lane.handed, id);
    case Start(id, now) =>
      ReleaseIsOneShot(max, s.lane, id);
      HolderIsUnfinished(s.lane, id);
    case Finish(id, _, _) =>
      ReleaseIsOneShot(max, s.lane, id);
      HolderIsUnfinished(s.lane, id);
    case Look(_) =>
  }

  /** The slots in use or promised exceed the limit by at most the number of overtakings. */
  lemma {:induction false} OvershootIsOvertakings(c: CB.Settings, max: nat, s: State, events: seq<Event>, extra: nat)
    requires Inv(max, s) && Feasible(c, max, s, events) && Promised(s.lane) <= max + extra
    ensures Promised(Run(c, max, s, events).lane) <= max + extra + Overtakings(c, max, s, events)
    decreases |events|
  {
    if |events| > 0 {
      var e := events[0];
      var next := Apply(c, max, s, e);
      StepKeepsInv(c, max, s, e);
      StepPromises(c, max, s, e);
      OvershootIsOvertakings(c, max, next, events[1..], extra + if Overtakes(c, max, s, e) then 1 else 0);
    }
  }

  /** The limit holds all through a run exactly when nobody overtakes a woken waiter. */
  ghost predicate WithinLimit(c: CB.Settings, max: nat, s: State, events: seq<Event>)
    decreases |events|
  {
    && Promised(s.lane) <= max
    && (|events| > 0 ==> WithinLimit(c, max, Apply(c, max, s, events[0]), events[1..]))
  }

  lemma {:induction false} LimitHoldsIff(c: CB.Settings, max: nat, s: State, events: seq<Event>)
    requires Inv(max, s) && Feasible(c, max, s, events) && Promised(s.lane) <= max
    ensures WithinLimit(c, max, s, events) <==> Overtakings(c, max, s, events) == 0
    decreases |events|
  {
    if |events| > 0 {
      var next := Apply(c, max, s, events[0]);
      StepKeepsInv(c, max, s, events[0]);
      StepPromises(c, max, s, events[0]);
      if Promised(next.lane) <= max {
        LimitHoldsIff(c, max, next, events[1..]);
      } else {
        assert !WithinLimit(c, max, next, events[1..]);
      }
    }
  }

  /** So without overtaking at most `max` tasks run at once. */
  lemma RunningIsLimited(c: CB.Settings, max: nat, events: seq<Event>)
    requires Feasible(c, max, IDLE, events)
    ensures |Run(c, max, IDLE, events).breaker.running| <= max + Overtakings(c, max, IDLE, events)
  {
    RunKeepsInv(c, max, IDLE, events);
    OvershootIsOvertakings(c, max, IDLE, events, 0);
    var s := Run(c, max, IDLE, events);
    SubsetIsSmaller(s.breaker.running, s.lane.holders);
  }

  lemma {:induction false} SubsetIsSmaller(a: set<RequestId>, b: set<RequestId>)
    requires a <= b
    ensures |a| <= |b|
  {
    if a != {} {
      var x :| x in a;
      SubsetIsSmaller(a - {x}, b - {x});
    }
  }

  // ---- first come, first served ----

  /** What a step does to a waiting request. */
  lemma WaiterFate(c: CB.Settings, max: nat, s: State, e: Event, i: nat)
    requires Inv(max, s) && Enabled(s, e) && i < |s.lane.queue|
    ensures var q, a := s.lane.queue, Apply(c, max, s, e).lane;
            || (i < |a.queue| && a.queue[i] == q[i])
            || (i > 0 && i - 1 < |a.queue| && a.queue[i - 1] == q[i])
            || (i == 0 && q[i] in a.handed && (e.Finish? || e.Start?))
            || (e == Expire(q[i]) && q[i] in a.timedOut)
  {
    var q := s.lane.queue;
    if e.Expire? {
      WithoutAt(q, e.id);
      assert q[Position(q, e.id)] == e.id;
    }
  }

  /** Every release hands the slot to the request that has waited longest. */
  lemma ReleaseServesOldest(l: Lane, id: RequestId, waiter: RequestId)
    requires SlotsOk(l) && id in l.holders && waiter in l.queue
    ensures var a := ReleaseSlot(l, id);
            a.handed == l.handed + [l.queue[0]] && l.queue[0] <= waiter && Promised(a) == Promised(l)
  {
    ReleaseIsOneShot(0, l, id);
    HolderIsUnfinished(l, id);
    var k := Position(l.queue, waiter);
    assert l.queue[k] == waiter;
  }

  // ---- the lane drives its breaker correctly ----

  function BreakerTrace(c: CB.Settings, max: nat, s: State, events: seq<Event>): seq<CB.Event>
    decreases |events|
  {
    if |events| == 0 then []
    else BreakerEvents(s, events[0]) + BreakerTrace(c, max, Apply(c, max, s, events[0]), events[1..])
  }

  /** A feasible run of the breaker alone ends in `b`. */
  ghost predicate LeadsTo(c: CB.Settings, trace: seq<CB.Event>, b: CB.System) {
    CB.Feasible(c, trace) && CB.Run(c, trace) == b
  }

  lemma BreakerStep(c: CB.Settings, max: nat, s: State, e: Event, past: seq<CB.Event>)
    requires Inv(max, s) && Enabled(s, e) && LeadsTo(c, past, s.breaker)
    ensures LeadsTo(c, past + BreakerEvents(s, e), Apply(c, max, s, e).breaker)
  {
    var es := BreakerEvents(s, e);
    if |es| == 0 {
      assert past + es == past;
    } else {
      assert (past + es)[..|past|] == past;
      assert CB.Enabled(s.breaker, es[0]);
    }
  }

  lemma Associative(a: seq<CB.Event>, b: seq<CB.Event>, rest: seq<CB.Event>)
    ensures (a + b) + rest == a + (b + rest)
  {}

  /** The breaker of a lane is always in a state that a feasible run of its own leads to,
      so all that is proved of such runs holds of it. */
  lemma {:induction false} LaneRunsItsBreaker(c: CB.Settings, max: nat, s: State, events: seq<Event>, past: seq<CB.Event>)
    requires Inv(max, s) && Feasible(c, max, s, events) && LeadsTo(c, past, s.breaker)
    ensures LeadsTo(c, past + BreakerTrace(c, max, s, events), Run(c, max, s, events).breaker)
    decreases |events|
  {
    if |events| == 0 {
      assert past + [] == past;
    } else {
      var e := events[0];
      var next := Apply(c, max, s, e);
      StepKeepsInv(c, max, s, e);
      BreakerStep(c, max, s, e, past);
      LaneRunsItsBreaker(c, max, next, events[1..], past + BreakerEvents(s, e));
      Associative(past, BreakerEvents(s, e), BreakerTrace(c, max, next, events[1..]));
    }
  }

  // ---- overtaking happens ----

  const QUIET := CB.Settings(10, 30000)

  lemma RunStep(c: CB.Settings, max: nat, s: State, e: Event, events: seq<Event>, end: State)
    requires Enabled(s, e) && Feasible(c, max, Apply(c, max, s, e), events)
    requires Run(c, max, Apply(c, max, s, e), events) == end
    ensures Feasible(c, max, s, [e] + events) && Run(c, max, s, [e] + events) == end
  {
    assert ([e] + events)[1..] == events;
  }

  function Idle(l: Lane, running: set<RequestId>): State {
    State(l, CB.System(CB.NEW, running))
  }

  /** One slot, and yet two requests hold one: a request arrives after the first has given
      its slot back and before the waiter it woke has resumed. */
  lemma LimitMayBeExceeded()
    ensures exists events :: Feasible(QUIET, 1, IDLE, events) && Run(QUIET, 1, IDLE, events).lane.active == 2
  {
    var s1 := Idle(Lane(1, [], [], {0}, {}, {}, 1), {});
    var s2 := Idle(Lane(1, [1], [], {0}, {}, {}, 2), {});
    var s3 := Idle(Lane(1, [1], [], {0}, {}, {}, 2), {0});
    var s4 := Idle(Lane(0, [], [1], {}, {0}, {}, 2), {});
    var s5 := Idle(Lane(1, [], [1], {2}, {0}, {}, 3), {});
    var s6 := Idle(Lane(2, [], [], {1, 2}, {0}, {}, 3), {});
    assert Apply(QUIET, 1, IDLE, Arrive(0, 0)) == s1;
    assert Apply(QUIET, 1, s1, Arrive(1, 0)) == s2;
    assert Apply(QUIET, 1, s2, Start(0, 0)) == s3;
    assert Apply(QUIET, 1, s3, Finish(0, Succeeded, 0)) == s4;
    assert Apply(QUIET, 1, s4, Arrive(2, 0)) == s5;
    assert Apply(QUIET, 1, s5, Wake(1)) == s6;
    RunStep(QUIET, 1, s5, Wake(1), [], s6);
    RunStep(QUIET, 1, s4, Arrive(2, 0), [Wake(1)], s6);
    var e4 := [Arrive(2, 0)] + [Wake(1)];
    RunStep(QUIET, 1, s3, Finish(0, Succeeded, 0), e4, s6);
    RunStep(QUIET, 1, s2, Start(0, 0), [Finish(0, Succeeded, 0)] + e4, s6);
    var e2 := [Start(0, 0)] + ([Finish(0, Succeeded, 0)] + e4);
    RunStep(QUIET, 1, s1, Arrive(1, 0), e2, s6);
    RunStep(QUIET, 1, IDLE, Arrive(0, 0), [Arrive(1, 0)] + e2, s6);
  }
}
