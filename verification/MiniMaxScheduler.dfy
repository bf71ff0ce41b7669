/** The MiniMax request scheduler: a semaphore that hands a freed slot straight to the
    first waiter, whose place in the queue may be given up by an abort or a timeout. */
module MiniMaxScheduler {
  import opened Options
  import opened Queues

  type ItemId = nat

  datatype Verdict = Granted | Aborted | TimedOut

  /** A promise of `acquire` being settled. */
  datatype Settlement = Settlement(item: ItemId, verdict: Verdict)

  /** `open` holds the grants whose release has not been called. */
  datatype Scheduler = Scheduler(
    active: int,
    queue: seq<ItemId>,
    open: set<ItemId>,
    log: seq<Settlement>,
    next: ItemId)

  const EMPTY: Scheduler := Scheduler(0, [], {}, [], 0)

  datatype Event =
    | Acquire(item: ItemId, aborted: bool)
    | Abort(item: ItemId)
    | Timeout(item: ItemId)
    | Release(item: ItemId)

  function Settle(s: Scheduler, item: ItemId, verdict: Verdict): Scheduler {
    s.(log := s.log + [Settlement(item, verdict)])
  }

  /** An abort or a timeout acts only on an item that still waits. */
  function GiveUp(s: Scheduler, item: ItemId, verdict: Verdict): Scheduler {
    if item in s.queue then Settle(s.(queue := Without(s.queue, item)), item, verdict) else s
  }

  function Free(s: Scheduler, item: ItemId): Scheduler {
    if item !in s.open then s
    else if |s.queue| > 0 then
      Settle(s.(queue := s.queue[1..], open := s.open - {item} + {s.queue[0]}), s.queue[0], Granted)
    else s.(open := s.open - {item}, active := if s.active - 1 > 0 then s.active - 1 else 0)
  }

  function Enter(max: nat, s: Scheduler, item: ItemId, aborted: bool): Scheduler {
    var t := s.(next := item + 1);
    if aborted then Settle(t, item, Aborted)
    else if s.active < max then Settle(t.(active := s.active + 1, open := s.open + {item}), item, Granted)
    else t.(queue := s.queue + [item])
  }

  function Apply(max: nat, s: Scheduler, e: Event): Scheduler {
    match e
    case Acquire(item, aborted) => Enter(max, s, item, aborted)
    case Abort(item) => GiveUp(s, item, Aborted)
    case Timeout(item) => GiveUp(s, item, TimedOut)
    case Release(item) => Free(s, item)
  }

  /** Aborts, timeouts and releases may come at any time and more than once. */
  predicate Enabled(s: Scheduler, e: Event) {
    e.Acquire? ==> e.item == s.next
  }

  function Run(max: nat, s: Scheduler, events: seq<Event>): Scheduler
    decreases |events|
  {
    if |events| == 0 then s else Run(max, Apply(max, s, events[0]), events[1..])
  }

  ghost predicate Feasible(max: nat, s: Scheduler, events: seq<Event>)
    decreases |events|
  {
    |events| > 0 ==> Enabled(s, events[0]) && Feasible(max, Apply(max, s, events[0]), events[1..])
  }

  // ---- the scheduler object ----

  class MiniMaxRequestScheduler {
    const maxConcurrency: nat
    var active: int
    var queue: seq<ItemId>
    var open: set<ItemId>
    ghost var log: seq<Settlement>
    ghost var next: ItemId

    ghost function Value(): Scheduler
      reads this
    {
      Scheduler(active, queue, open, log, next)
    }

    constructor (maxConcurrency: nat)
      requires maxConcurrency >= 1
      ensures Value() == EMPTY && this.maxConcurrency == maxConcurrency
    {
      this.maxConcurrency := maxConcurrency;
      active, queue, open, log, next := 0, [], {}, [], 0;
    }

    method AcquireSlot(item: ItemId, aborted: bool) returns (settled: Option<Verdict>)
      modifies this
      ensures Value() == Enter(maxConcurrency, old(Value()), item, aborted)
      ensures settled == if aborted then Some(Aborted) else if old(active) < maxConcurrency then Some(Granted) else None
    {
      next := item + 1;
      if aborted {
        log := log + [Settlement(item, Aborted)];
        return Some(Aborted);
      }
      if active < maxConcurrency {
        active := active + 1;
        open := open + {item};
        log := log + [Settlement(item, Granted)];
        return Some(Granted);
      }
      queue := queue + [item];
      settled := None;
    }

    method RemoveQueuedItem(item: ItemId) returns (removed: bool)
      modifies this`queue
      ensures removed <==> item in old(queue)
      ensures queue == if removed then Without(old(queue), item) else old(queue)
    {
      var index := 0;
      assert queue[0..] == queue;
      while index < |queue| && queue[index] != item
        invariant queue == old(queue) && index <= |queue| && item !in queue[..index]
        invariant Without(queue, item) == queue[..index] + Without(queue[index..], item)
      {
        WithoutSkips(queue, index, item);
        index := index + 1;
      }
      removed := index < |queue|;
      if removed {
        WithoutHits(queue, index, item);
        queue := queue[..index] + queue[index + 1..];
      } else {
        assert queue[..index] == queue;
      }
    }

    /** The abort listener or the timer of a queued item; true when it rejects. */
    method OnGiveUp(item: ItemId, verdict: Verdict) returns (rejected: bool)
      modifies this
      ensures Value() == GiveUp(old(Value()), item, verdict) && (rejected <==> item in old(queue))
    {
      rejected := RemoveQueuedItem(item);
      if rejected {
        log := log + [Settlement(item, verdict)];
      }
    }

    method ReleaseSlot(item: ItemId) returns (granted: Option<ItemId>)
      modifies this
      ensures Value() == Free(old(Value()), item)
      ensures granted == if item in old(open) && |old(queue)| > 0 then Some(old(queue)[0]) else None
    {
      granted := None;
      if item !in open {
        return;
      }
      open := open - {item};
      if |queue| > 0 {
        var next := queue[0];
        queue := queue[1..];
        open := open + {next};
        log := log + [Settlement(next, Granted)];
        return Some(next);
      }
      active := if active - 1 > 0 then active - 1 else 0;
    }
  }
}
