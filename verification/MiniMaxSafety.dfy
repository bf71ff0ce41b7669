/** What every interleaving of requests, releases, aborts and timeouts keeps. */
module MiniMaxSafety {
  import opened Options
  import opened Queues
  import opened MiniMaxScheduler

  function Settlements(log: seq<Settlement>, item: ItemId): nat {
    if |log| == 0 then 0
    else Settlements(log[..|log| - 1], item) + (if log[|log| - 1].item == item then 1 else 0)
  }

  function Grants(log: seq<Settlement>): seq<ItemId> {
    if |log| == 0 then []
    else Grants(log[..|log| - 1]) + (if log[|log| - 1].verdict == Granted then [log[|log| - 1].item] else [])
  }

  /** Every item that came in waits or has been settled once. */
  predicate SettledOnce(s: Scheduler, item: ItemId) {
    (if item in s.queue then 1 else 0) + Settlements(s.log, item) == if item < s.next then 1 else 0
  }

  ghost predicate Slots(max: nat, s: Scheduler) {
    && s.active == |s.open| && s.active <= max
    && (|s.queue| > 0 ==> s.active == max)
  }

  /** Grants are made in the order of arrival, ahead of everyone who still waits. */
  ghost predicate Order(s: Scheduler) {
    && Increasing(s.queue) && Increasing(Grants(s.log))
    && (forall g :: g in Grants(s.log) ==> g < s.next)
    && (forall w :: w in s.queue ==> w < s.next)
    && (forall g, w :: g in Grants(s.log) && w in s.queue ==> g < w)
    && (forall x :: x in s.open ==> x in Grants(s.log))
  }

  ghost predicate Inv(max: nat, s: Scheduler) {
    && max >= 1
    && Slots(max, s)
    && Order(s)
    && forall item :: SettledOnce(s, item)
  }

  lemma SettleAdds(log: seq<Settlement>, item: ItemId, verdict: Verdict)
    ensures var after := log + [Settlement(item, verdict)];
            && Grants(after) == Grants(log) + (if verdict == Granted then [item] else [])
            && forall x :: Settlements(after, x) == Settlements(log, x) + (if x == item then 1 else 0)
  {
    var after := log + [Settlement(item, verdict)];
    assert after[..|after| - 1] == log;
  }

  lemma EnterKeepsOrder(max: nat, s: Scheduler, aborted: bool)
    requires Order(s)
    requires s.active < max ==> s.queue == []
    ensures Order(Enter(max, s, s.next, aborted))
  {
    SettleAdds(s.log, s.next, if aborted then Aborted else Granted);
    if !aborted && s.active < max {
      Append(Grants(s.log), s.next);
    } else if !aborted {
      Append(s.queue, s.next);
    }
  }

  lemma EnterSettlesOnce(max: nat, s: Scheduler, aborted: bool, x: ItemId)
    requires SettledOnce(s, x)
    ensures SettledOnce(Enter(max, s, s.next, aborted), x)
  {
    hide Grants;
    SettleAdds(s.log, s.next, if aborted then Aborted else Granted);
  }

  lemma EnterKeepsInv(max: nat, s: Scheduler, aborted: bool)
    requires Inv(max, s)
    ensures Inv(max, Enter(max, s, s.next, aborted))
  {
    hide Grants, Settlements, SettledOnce, Increasing;
    EnterKeepsOrder(max, s, aborted);
    forall item ensures SettledOnce(Enter(max, s, s.next, aborted), item) {
      assert SettledOnce(s, item);
      EnterSettlesOnce(max, s, aborted, item);
    }
  }

  lemma GiveUpKeepsInv(max: nat, s: Scheduler, item: ItemId, verdict: Verdict)
    requires Inv(max, s) && verdict != Granted
    ensures Inv(max, GiveUp(s, item, verdict))
  {
    if item in s.queue {
      var t := GiveUp(s, item, verdict);
      SettleAdds(s.log, item, verdict);
      WithoutOne(s.queue, item);
      forall x ensures SettledOnce(t, x) {
        assert SettledOnce(s, x);
      }
    }
  }

  lemma HandOverKeepsOrder(s: Scheduler, item: ItemId)
    requires Order(s) && item in s.open && |s.queue| > 0
    ensures Order(Free(s, item))
  {
    var next := s.queue[0];
    SettleAdds(s.log, next, Granted);
    assert next in s.queue;
    Append(Grants(s.log), next);
    forall w | w in s.queue[1..] ensures w in s.queue && next < w {}
  }

  lemma HandOverSettlesOnce(s: Scheduler, item: ItemId, x: ItemId)
    requires SettledOnce(s, x) && Increasing(s.queue) && item in s.open && |s.queue| > 0
    ensures SettledOnce(Free(s, item), x)
  {
    SettleAdds(s.log, s.queue[0], Granted);
    assert s.queue == [s.queue[0]] + s.queue[1..];
  }

  lemma FreeKeepsSlots(max: nat, s: Scheduler, item: ItemId)
    requires Slots(max, s) && item in s.open
    requires |s.queue| > 0 ==> s.queue[0] !in s.open
    ensures Slots(max, Free(s, item))
  {
    assert |s.open - {item}| == |s.open| - 1;
  }

  lemma FreeKeepsInv(max: nat, s: Scheduler, item: ItemId)
    requires Inv(max, s)
    ensures Inv(max, Free(s, item))
  {
    if item in s.open {
      var t := Free(s, item);
      if |s.queue| > 0 {
        assert s.queue[0] in s.queue;
        HandOverKeepsOrder(s, item);
      }
      FreeKeepsSlots(max, s, item);
      forall x ensures SettledOnce(t, x) {
        assert SettledOnce(s, x);
        if |s.queue| > 0 {
          HandOverSettlesOnce(s, item, x);
        }
      }
    }
  }

  lemma StepKeepsInv(max: nat, s: Scheduler, e: Event)
    requires Inv(max, s) && Enabled(s, e)
    ensures Inv(max, Apply(max, s, e))
  {
    match e
    case Acquire(_, aborted) => EnterKeepsInv(max, s, aborted);
    case Abort(item) => GiveUpKeepsInv(max, s, item, Aborted);
    case Timeout(item) => GiveUpKeepsInv(max, s, item, TimedOut);
    case Release(item) => FreeKeepsInv(max, s, item);
  }

  lemma {:induction false} RunKeepsInv(max: nat, s: Scheduler, events: seq<Event>)
    requires Inv(max, s) && Feasible(max, s, events)
    ensures Inv(max, Run(max, s, events))
    decreases |events|
  {
    if |events| > 0 {
      StepKeepsInv(max, s, events[0]);
      RunKeepsInv(max, Apply(max, s, events[0]), events[1..]);
    }
  }

  /** The counter is the number of grants not yet released and never passes the limit,
      and a request waits only while the limit is reached. */
  lemma SlotsAreConserved(max: nat, events: seq<Event>)
    requires max >= 1 && Feasible(max, EMPTY, events)
    ensures var s := Run(max, EMPTY, events);
            s.active == |s.open| <= max && (|s.queue| > 0 ==> s.active == max)
  {
    RunKeepsInv(max, EMPTY, events);
  }

  /** No promise is settled twice, and one that is not settled still waits. */
  lemma EachItemIsSettledOnce(max: nat, events: seq<Event>, item: ItemId)
    requires max >= 1 && Feasible(max, EMPTY, events)
    ensures var s := Run(max, EMPTY, events);
            && Settlements(s.log, item) <= 1
            && (item < s.next ==> (Settlements(s.log, item) == 1 <==> item !in s.queue))
  {
    RunKeepsInv(max, EMPTY, events);
    assert SettledOnce(Run(max, EMPTY, events), item);
  }

  /** Grants go in order of arrival: nobody is granted while an earlier arrival waits. */
  lemma GrantsAreFirstComeFirstServed(max: nat, events: seq<Event>)
    requires max >= 1 && Feasible(max, EMPTY, events)
    ensures var s := Run(max, EMPTY, events);
            && Increasing(Grants(s.log))
            && forall g, w :: g in Grants(s.log) && w in s.queue ==> g < w
  {
    RunKeepsInv(max, EMPTY, events);
  }

  /** Something in the run that gives an item this verdict. */
  predicate Earned(x: Settlement, events: seq<Event>) {
    match x.verdict
    case Aborted => Acquire(x.item, true) in events || Abort(x.item) in events
    case TimedOut => Timeout(x.item) in events
    case Granted => Acquire(x.item, false) in events
  }

  lemma EarnedLater(x: Settlement, e: Event, events: seq<Event>)
    requires Earned(x, events)
    ensures Earned(x, [e] + events)
  {
  }

  lemma {:induction false} NewVerdictsAreEarned(max: nat, s: Scheduler, events: seq<Event>)
    ensures var t := Run(max, s, events);
            && s.log <= t.log
            && (forall i :: |s.log| <= i < |t.log| ==> Earned(t.log[i], events) || (t.log[i].verdict == Granted && t.log[i].item in s.queue))
    decreases |events|
  {
    hide Earned;
    if |events| > 0 {
      var e := events[0];
      var mid := Apply(max, s, e);
      var t := Run(max, s, events);
      NewVerdictsAreEarned(max, mid, events[1..]);
      assert events == [e] + events[1..];
      StepSettles(max, s, e);
      forall i | |s.log| <= i < |t.log|
        ensures Earned(t.log[i], events) || (t.log[i].verdict == Granted && t.log[i].item in s.queue)
      {
        if i < |mid.log| {
          assert t.log[i] == mid.log[i];
          StepEarns(max, s, e, events);
        } else if Earned(t.log[i], events[1..]) {
          EarnedLater(t.log[i], e, events[1..]);
        } else {
          QueuedEarns(max, s, e, events, t.log[i]);
        }
      }
    }
  }

  lemma StepSettles(max: nat, s: Scheduler, e: Event)
    ensures var t := Apply(max, s, e); s.log <= t.log && |t.log| <= |s.log| + 1
  {
  }

  lemma StepEarns(max: nat, s: Scheduler, e: Event, events: seq<Event>)
    requires e in events
    ensures var t := Apply(max, s, e);
            |t.log| > |s.log| ==>
              var x := t.log[|s.log|];
              Earned(x, events) || (x.verdict == Granted && x.item in s.queue)
  {
  }

  lemma {:induction false} RestIsFromQueue(q: seq<ItemId>, item: ItemId)
    ensures forall x :: x in Without(q, item) ==> x in q
  {
    if |q| > 0 {
      assert q == [q[0]] + q[1..];
      RestIsFromQueue(q[1..], item);
    }
  }

  lemma QueuedEarns(max: nat, s: Scheduler, e: Event, events: seq<Event>, x: Settlement)
    requires e in events && x.verdict == Granted && x.item in Apply(max, s, e).queue
    ensures Earned(x, events) || x.item in s.queue
  {
    match e
    case Acquire(_, _) =>
    case Abort(item) => RestIsFromQueue(s.queue, item);
    case Timeout(item) => RestIsFromQueue(s.queue, item);
    case Release(_) =>
  }

  /** Each item's verdict is one that the run has earned it: granted after asking, aborted by
      its signal, or timed out by its timer. */
  lemma VerdictsAreEarned(max: nat, events: seq<Event>, x: Settlement)
    requires x in Run(max, EMPTY, events).log
    ensures Earned(x, events)
  {
    hide Earned;
    NewVerdictsAreEarned(max, EMPTY, events);
  }

  /** And while an item waits, the first of its signal and its timer settles it. */
  lemma GivingUpSettles(max: nat, s: Scheduler, e: Event)
    requires Inv(max, s) && (e.Abort? || e.Timeout?)
    ensures var t := Apply(max, s, e);
            if e.item in s.queue then
              && e.item !in t.queue && |t.queue| == |s.queue| - 1 && (forall x :: x in s.queue && x != e.item ==> x in t.queue)
              && t.log == s.log + [Settlement(e.item, if e.Abort? then Aborted else TimedOut)] && t.open == s.open
            else t == s
  {
    if e.item in s.queue {
      WithoutOne(s.queue, e.item);
    }
  }

  /** A release hands the slot to the front of the queue in the same step, and calling it
      again does nothing. */
  lemma ReleaseHandsOver(max: nat, s: Scheduler, item: ItemId)
    requires Inv(max, s) && item in s.open
    ensures var t := Free(s, item);
            && (|s.queue| > 0 ==> t.active == s.active && s.queue[0] in t.open && t.queue == s.queue[1..])
            && (|s.queue| == 0 ==> t.active == s.active - 1)
            && Free(t, item) == t
  {
    assert |s.open - {item}| == |s.open| - 1;
    if |s.queue| > 0 {
      assert s.queue[0] in s.queue;
      assert item in Grants(s.log);
    }
  }
}
