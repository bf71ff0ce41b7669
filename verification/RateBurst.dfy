/** A concrete run of the composed limiters in which a class starts more calls in a
    window than its own bucket's bound: requests that took their class tokens earlier
    pile up behind more urgent traffic and leave together. */
module RateBurst {
  import opened Options
  import opened TokenBucket
  import opened RateBounds
  import opened RateComposition

  const SLOW := Config(1.0, 1.0)
  const LIMITS := Limits(SLOW, Config(1.0, 3.0), SLOW, Config(2.0, 1.0))

  function User(id: nat): Owner { Owner(UserLane, id) }

  function Writer(id: nat): Owner { Owner(MutationLane, id) }

  // ---- the states of the run ----

  const W0 := Waiter(Owner(UserLane, 1), 1, 0)
  const W1 := Waiter(Owner(MutationLane, 2), 0, 1)
  const W2 := Waiter(Owner(MutationLane, 3), 0, 2)
  const W3 := Waiter(Owner(UserLane, 2), 1, 3)

  function Spent(at: real, tokens: real): Bucket { Bucket(tokens, at, [], 0, None) }

  function Global(at: real, q: seq<Waiter>, next: nat, due: real): Bucket {
    Bucket(0.0, at, q, next, Some(due))
  }

  function State(userAt: real, userTokens: real, writerTokens: real, g: Bucket): System {
    System(Spent(userAt, userTokens), Spent(0.0, writerTokens), New(SLOW, 0.0), g)
  }

  function Fresh(): System {
    State(0.0, 1.0, 3.0, New(Config(2.0, 1.0), 0.0))
  }

  lemma HalfSecondWait()
    ensures ValidLimits(LIMITS) && WaitMs(LIMITS.global) == 500.0
  {
    assert 1000.0 / LIMITS.global.refillPerSecond == 500.0;
  }

  /** An `acquire` that finds an empty bucket just joins the queue. */
  lemma Queues(at: real, q: seq<Waiter>, next: nat, due: real, w: Waiter, now: real)
    requires ValidLimits(LIMITS) && now == at && w.sequence == next && q != []
    ensures AcquireStep(LIMITS.global, Global(at, q, next, due), now, w.owner, w.priority, false)
            == Outcome(Global(at, Insert(q, w), next + 1, due), [])
  {
    assert DrainCount(0.0, |Insert(q, w)|) == 0;
    assert Insert(q, w)[..0] == [];
  }

  /** A check half a second later lets the front waiter through. */
  lemma CheckGrantsFront(at: real, q: seq<Waiter>, next: nat)
    requires ValidLimits(LIMITS) && WaitMs(LIMITS.global) == 500.0 && |q| > 1
    ensures TickStep(LIMITS.global, Global(at, q, next, at + 500.0), at + 500.0)
            == Outcome(Global(at + 500.0, q[1..], next, at + 1000.0), [q[0].owner])
  {
    var b := Global(at, q, next, at + 500.0).(timer := None);
    assert Gain(LIMITS.global, 500.0) == 1.0;
    assert Refill(LIMITS.global, b, at + 500.0) == b.(tokens := 1.0, lastRefillAt := at + 500.0);
    assert DrainCount(1.0, |q|) == 1 + DrainCount(0.0, |q| - 1);
    assert Owners(q[..1]) == [q[0].owner];
  }

  /** The last waiter in line is let through and the check is not armed again. */
  lemma CheckGrantsLast(at: real, w: Waiter, next: nat)
    requires ValidLimits(LIMITS)
    ensures TickStep(LIMITS.global, Global(at, [w], next, at + 500.0), at + 500.0).granted == [w.owner]
  {
    var b := Global(at, [w], next, at + 500.0).(timer := None);
    assert Gain(LIMITS.global, 500.0) == 1.0;
    assert Refill(LIMITS.global, b, at + 500.0).tokens == 1.0;
    assert DrainCount(1.0, 1) == 1 + DrainCount(0.0, 0);
    assert [w][..1] == [w];
  }

  function Step(s: System, e: SystemEvent): System
    requires ValidLimits(LIMITS)
  {
    RateComposition.Apply(LIMITS, s, e).system
  }

  lemma FirstWriter()
    ensures ValidLimits(LIMITS)
    ensures Step(Fresh(), Enter(Writer(1), 0.0, {})) == State(0.0, 1.0, 2.0, Bucket(0.0, 0.0, [], 0, None))
  {
    EnterWithToken(LIMITS, Fresh(), Writer(1), 0.0);
  }

  lemma FirstUserQueues()
    ensures ValidLimits(LIMITS)
    ensures Step(State(0.0, 1.0, 2.0, Bucket(0.0, 0.0, [], 0, None)), Enter(User(1), 0.0, {}))
            == State(0.0, 0.0, 2.0, Global(0.0, [W0], 1, 500.0))
  {
    HalfSecondWait();
    EnterWithToken(LIMITS, State(0.0, 1.0, 2.0, Bucket(0.0, 0.0, [], 0, None)), User(1), 0.0);
    assert Insert([], W0) == [W0];
    assert DrainCount(0.0, 1) == 0;
    assert [W0][..0] == [];
  }

  lemma WritersOvertake()
    ensures ValidLimits(LIMITS)
    ensures Step(State(0.0, 0.0, 2.0, Global(0.0, [W0], 1, 500.0)), Enter(Writer(2), 0.0, {}))
            == State(0.0, 0.0, 1.0, Global(0.0, [W1, W0], 2, 500.0))
    ensures Step(State(0.0, 0.0, 1.0, Global(0.0, [W1, W0], 2, 500.0)), Enter(Writer(3), 0.0, {}))
            == State(0.0, 0.0, 0.0, Global(0.0, [W1, W2, W0], 3, 500.0))
  {
    EnterWithToken(LIMITS, State(0.0, 0.0, 2.0, Global(0.0, [W0], 1, 500.0)), Writer(2), 0.0);
    Queues(0.0, [W0], 1, 500.0, W1, 0.0);
    assert Insert([W0], W1) == [W1, W0];
    EnterWithToken(LIMITS, State(0.0, 0.0, 1.0, Global(0.0, [W1, W0], 2, 500.0)), Writer(3), 0.0);
    Queues(0.0, [W1, W0], 2, 500.0, W2, 0.0);
    assert [W1, W0][1..] == [W0];
    assert InsertionIndex([W1, W0], W2) == 1 + InsertionIndex([W0], W2);
    assert Insert([W1, W0], W2) == [W1, W2, W0];
  }

  lemma WritersGoFirst()
    ensures ValidLimits(LIMITS)
    ensures Step(State(0.0, 0.0, 0.0, Global(0.0, [W1, W2, W0], 3, 500.0)), GlobalTick(500.0, {}))
            == State(0.0, 0.0, 0.0, Global(500.0, [W2, W0], 3, 1000.0))
    ensures Step(State(0.0, 0.0, 0.0, Global(500.0, [W2, W0], 3, 1000.0)), GlobalTick(1000.0, {}))
            == State(0.0, 0.0, 0.0, Global(1000.0, [W0], 3, 1500.0))
  {
    HalfSecondWait();
    GlobalCheck(LIMITS, State(0.0, 0.0, 0.0, Global(0.0, [W1, W2, W0], 3, 500.0)), 500.0);
    CheckGrantsFront(0.0, [W1, W2, W0], 3);
    assert [W1, W2, W0][1..] == [W2, W0];
    GlobalCheck(LIMITS, State(0.0, 0.0, 0.0, Global(500.0, [W2, W0], 3, 1000.0)), 1000.0);
    CheckGrantsFront(500.0, [W2, W0], 3);
    assert [W2, W0][1..] == [W0];
  }

  lemma SecondUserQueues()
    ensures ValidLimits(LIMITS)
    ensures Step(State(0.0, 0.0, 0.0, Global(1000.0, [W0], 3, 1500.0)), Enter(User(2), 1000.0, {}))
            == State(1000.0, 0.0, 0.0, Global(1000.0, [W0, W3], 4, 1500.0))
  {
    var s := State(0.0, 0.0, 0.0, Global(1000.0, [W0], 3, 1500.0));
    assert Gain(SLOW, 1000.0) == 1.0;
    assert Refill(SLOW, s.foreground, 1000.0) == Spent(1000.0, 1.0);
    EnterWithToken(LIMITS, s, User(2), 1000.0);
    Queues(1000.0, [W0], 3, 1500.0, W3, 1000.0);
    assert [W0][1..] == [];
    assert InsertionIndex([W0], W3) == 1;
    assert Insert([W0], W3) == [W0, W3];
  }

  function Crowded(): System {
    State(1000.0, 0.0, 0.0, Global(1000.0, [W0, W3], 4, 1500.0))
  }

  ghost predicate Reachable(s: System)
    requires ValidLimits(LIMITS)
  {
    exists events :: RunAll(LIMITS, Fresh(), events).system == s
  }

  lemma {:induction false} RunAllAppend(s: System, events: seq<SystemEvent>, e: SystemEvent)
    requires ValidLimits(LIMITS)
    ensures RunAll(LIMITS, s, events + [e]).system == Step(RunAll(LIMITS, s, events).system, e)
    decreases |events|
  {
    if |events| == 0 {
      assert [] + [e] == [e] && [e][1..] == [];
      assert RunAll(LIMITS, Step(s, e), []).system == Step(s, e);
      assert events + [e] == [e];
    } else {
      assert (events + [e])[1..] == events[1..] + [e];
      RunAllAppend(Step(s, events[0]), events[1..], e);
    }
  }

  lemma ReachableNext(s: System, e: SystemEvent, s': System)
    requires ValidLimits(LIMITS) && Reachable(s) && s' == Step(s, e)
    ensures Reachable(s')
  {
    var events :| RunAll(LIMITS, Fresh(), events).system == s;
    RunAllAppend(Fresh(), events, e);
  }

  lemma CrowdedIsReachable()
    ensures ValidLimits(LIMITS) && Reachable(Crowded())
  {
    HalfSecondWait();
    assert RunAll(LIMITS, Fresh(), []).system == Fresh();
    FirstWriter();
    FirstUserQueues();
    WritersOvertake();
    WritersGoFirst();
    SecondUserQueues();
    var s1 := State(0.0, 1.0, 2.0, Bucket(0.0, 0.0, [], 0, None));
    var s2 := State(0.0, 0.0, 2.0, Global(0.0, [W0], 1, 500.0));
    var s3 := State(0.0, 0.0, 1.0, Global(0.0, [W1, W0], 2, 500.0));
    var s4 := State(0.0, 0.0, 0.0, Global(0.0, [W1, W2, W0], 3, 500.0));
    var s5 := State(0.0, 0.0, 0.0, Global(500.0, [W2, W0], 3, 1000.0));
    var s6 := State(0.0, 0.0, 0.0, Global(1000.0, [W0], 3, 1500.0));
    ReachableNext(Fresh(), Enter(Writer(1), 0.0, {}), s1);
    ReachableNext(s1, Enter(User(1), 0.0, {}), s2);
    ReachableNext(s2, Enter(Writer(2), 0.0, {}), s3);
    ReachableNext(s3, Enter(Writer(3), 0.0, {}), s4);
    ReachableNext(s4, GlobalTick(500.0, {}), s5);
    ReachableNext(s5, GlobalTick(1000.0, {}), s6);
    ReachableNext(s6, Enter(User(2), 1000.0, {}), Crowded());
  }

  lemma BothUsersStart()
    ensures ValidLimits(LIMITS)
    ensures RunAll(LIMITS, Crowded(), [GlobalTick(1500.0, {}), GlobalTick(2000.0, {})]).started == [User(1), User(2)]
  {
    HalfSecondWait();
    var e1, e2 := GlobalTick(1500.0, {}), GlobalTick(2000.0, {});
    GlobalCheck(LIMITS, Crowded(), 1500.0);
    CheckGrantsFront(1000.0, [W0, W3], 4);
    assert [W0, W3][1..] == [W3];
    var s := State(1000.0, 0.0, 0.0, Global(1500.0, [W3], 4, 2000.0));
    assert RateComposition.Apply(LIMITS, Crowded(), e1) == Log(s, [], [User(1)], []);
    GlobalCheck(LIMITS, s, 2000.0);
    CheckGrantsLast(1500.0, W3, 4);
    assert [e1, e2][1..] == [e2] && [e2][1..] == [];
    assert RunAll(LIMITS, s, [e2]).started == [User(2)] + [];
  }

  /** A class may start more calls in a window than its own bucket's bound: here two
      user calls in half a second, against 1 + 0.5. */
  lemma ClassMayExceedItsBound()
    ensures ValidLimits(LIMITS) && Reachable(Crowded())
    ensures exists events :: && Readings(events, 1500.0, 2000.0)
                             && Count(RunAll(LIMITS, Crowded(), events).started, Foreground) as real
                                > SLOW.capacity + Gain(SLOW, 500.0)
  {
    hide RunAll, Crowded;
    CrowdedIsReachable();
    BothUsersStart();
    var events := [GlobalTick(1500.0, {}), GlobalTick(2000.0, {})];
    AllCounted([User(1), User(2)], Foreground);
    assert Gain(SLOW, 500.0) == 0.5;
    assert Readings(events, 1500.0, 2000.0);
    assert Count(RunAll(LIMITS, Crowded(), events).started, Foreground) == 2;
  }
}
