/** Who goes first when requests of several lanes wait for a global token. */
module RateOrder {
  import opened Options
  import opened TokenBucket
  import opened RateBounds
  import opened RateComposition

  /** Mutations and writes go before user reads, and both before sync and background. */
  predicate ComesFirst(a: Lane, b: Lane) {
    || ((a == MutationLane || a == WriteLane) && b != MutationLane && b != WriteLane)
    || (a == UserLane && (b == SyncLane || b == BackgroundLane))
  }

  /** Among equals, whoever came first. */
  predicate GoesBefore(x: Waiter, y: Waiter) {
    || ComesFirst(x.owner.lane, y.owner.lane)
    || (!ComesFirst(y.owner.lane, x.owner.lane) && x.sequence < y.sequence)
  }

  /** Every waiter of the global bucket has the priority of its lane. */
  ghost predicate Prioritised(b: Bucket) {
    forall w :: w in b.waiters ==> w.priority == GlobalPriority(w.owner.lane)
  }

  ghost predicate AsksAsPrioritised(events: seq<Event>) {
    forall e :: e in events && e.Acquire? ==> e.priority == GlobalPriority(e.owner.lane)
  }

  lemma StepKeepsPriorities(c: Config, b: Bucket, e: Event)
    requires ValidConfig(c) && Prioritised(b) && (e.Acquire? ==> e.priority == GlobalPriority(e.owner.lane))
    ensures Prioritised(TokenBucket.Apply(c, b, e).bucket)
  {
    hide Gain, WaitMs, Insert, DrainCount, GlobalPriority;
    if e.Acquire? {
      var r := Refill(c, b, e.now);
      InsertElements(r.waiters, Waiter(e.owner, e.priority, r.nextSequence));
    } else if e.Remove? {
      WithoutSequenceFacts(b.waiters, e.sequence);
    }
  }

  lemma {:induction false} RunKeepsPriorities(c: Config, b: Bucket, events: seq<Event>)
    requires ValidConfig(c) && Prioritised(b) && AsksAsPrioritised(events)
    ensures Prioritised(Run(c, b, events).bucket)
    decreases |events|
  {
    hide TokenBucket.Apply, Prioritised;
    if |events| > 0 {
      assert events[0] in events;
      StepKeepsPriorities(c, b, events[0]);
      RunKeepsPriorities(c, TokenBucket.Apply(c, b, events[0]).bucket, events[1..]);
    }
  }

  lemma {:induction false} RequestsAskAsPrioritised(q: seq<Owner>, now: real)
    ensures AsksAsPrioritised(GlobalRequests(q, now))
  {
    hide GlobalPriority;
    if |q| > 0 {
      RequestsAskAsPrioritised(q[1..], now);
    }
  }

  /** No step lets a request wait with another lane's priority. */
  lemma SystemKeepsPriorities(l: Limits, s: System, e: SystemEvent)
    requires ValidLimits(l) && Prioritised(s.global)
    ensures Prioritised(RateComposition.Apply(l, s, e).system.global)
  {
    hide TokenBucket.Apply, Prioritised, Keep, ClassGrants, GlobalPriority;
    if e.Enter? || e.ClassTick? {
      RequestsAskAsPrioritised(Keep(ClassGrants(l, s, e), e.expired), e.now);
    }
    RunKeepsPriorities(l.global, s.global, GlobalEvents(l, s, e));
  }

  lemma {:induction false} OnlyRemovalsRemove(l: Limits, s: System, events: seq<SystemEvent>, sequence: nat)
    requires ValidLimits(l) && GlobalRemove(sequence) !in events
    ensures Remove(sequence) !in GlobalTrace(l, s, events)
    decreases |events|
  {
    hide RateComposition.Apply, Keep, ClassGrants;
    if |events| > 0 {
      var e := events[0];
      if e.Enter? || e.ClassTick? {
        RequestsRemoveNobody(Keep(ClassGrants(l, s, e), e.expired), e.now, sequence);
      }
      assert e in events;
      OnlyRemovalsRemove(l, RateComposition.Apply(l, s, e).system, events[1..], sequence);
    }
  }

  lemma {:induction false} RequestsRemoveNobody(q: seq<Owner>, now: real, sequence: nat)
    ensures Remove(sequence) !in GlobalRequests(q, now)
  {
    if |q| > 0 {
      RequestsRemoveNobody(q[1..], now, sequence);
    }
  }

  /** Over any run of the lanes, of two requests that wait for a global token the one whose
      lane comes first, or that came first, gets it before the other, unless it gives up. */
  lemma LanesInOrder(l: Limits, s: System, events: seq<SystemEvent>, x: Waiter, y: Waiter, j: nat)
    requires ValidLimits(l) && SystemOk(l, s) && Prioritised(s.global)
    requires x in s.global.waiters && y in s.global.waiters && GoesBefore(x, y)
    requires GlobalRemove(x.sequence) !in events
    requires var granted := AllGranted(l.global, s.global, GlobalTrace(l, s, events)); j < |granted| && granted[j] == y
    ensures var granted := AllGranted(l.global, s.global, GlobalTrace(l, s, events));
            exists i :: 0 <= i < j && granted[i] == x
  {
    hide AllGranted, GlobalTrace;
    OnlyRemovalsRemove(l, s, events, x.sequence);
    PriorityFifo(l.global, s.global, GlobalTrace(l, s, events), x, y, j);
  }

  lemma {:induction false} RunAllKeepsPriorities(l: Limits, s: System, events: seq<SystemEvent>)
    requires ValidLimits(l) && Prioritised(s.global)
    ensures Prioritised(RunAll(l, s, events).system.global)
    decreases |events|
  {
    hide RateComposition.Apply, Prioritised;
    if |events| > 0 {
      SystemKeepsPriorities(l, s, events[0]);
      RunAllKeepsPriorities(l, RateComposition.Apply(l, s, events[0]).system, events[1..]);
    }
  }
}
