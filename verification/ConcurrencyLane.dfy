/** One Ragic lane: a bounded number of slots, a first-come queue in front of them, and
    the lane's circuit breaker.  A finished request gives its slot back and wakes the
    first waiter; the woken waiter takes its slot only when it resumes, one step later. */
module ConcurrencyLane {
  import opened Options
  import opened Queues
  import CB = CircuitBreaker

  type RequestId = nat

  /** `handed` holds the waiters that were woken and have not resumed.  `finished` holds
      the requests whose one-shot release has been used. */
  datatype Lane = Lane(
    active: int,
    queue: seq<RequestId>,
    handed: seq<RequestId>,
    holders: set<RequestId>,
    finished: set<RequestId>,
    timedOut: set<RequestId>,
    next: RequestId)

  const EMPTY: Lane := Lane(0, [], [], {}, {}, {}, 0)

  // ---- the slots ----

  /** The first half of `acquire`: take a slot, or join the queue when none is free. */
  function Acquire(max: nat, l: Lane, id: RequestId): Lane {
    if l.active >= max then l.(queue := l.queue + [id], next := id + 1)
    else l.(active := l.active + 1, holders := l.holders + {id}, next := id + 1)
  }

  /** The second half, run when a woken waiter resumes. */
  function Resume(l: Lane, id: RequestId): Lane {
    l.(active := l.active + 1, holders := l.holders + {id}, handed := Without(l.handed, id))
  }

  function QueueTimeout(l: Lane, id: RequestId): Lane {
    l.(queue := Without(l.queue, id), timedOut := l.timedOut + {id})
  }

  function ReleaseSlot(l: Lane, id: RequestId): Lane {
    if id in l.finished then l
    else
      l.(active := if l.active - 1 > 0 then l.active - 1 else 0,
         holders := l.holders - {id},
         finished := l.finished + {id},
         queue := if |l.queue| == 0 then [] else l.queue[1..],
         handed := if |l.queue| == 0 then l.handed else l.handed + [l.queue[0]])
  }

  // ---- requests ----

  datatype Outcome = Succeeded | Counted | Uncounted

  datatype State = State(lane: Lane, breaker: CB.System)

  const IDLE: State := State(EMPTY, CB.START)

  /** `Arrive` is a request's start up to the wait for a slot, `Start` the second breaker
      check, and `Finish` the end of its task. */
  datatype Event =
    | Arrive(id: RequestId, now: int)
    | Expire(id: RequestId)
    | Wake(id: RequestId)
    | Start(id: RequestId, now: int)
    | Finish(id: RequestId, outcome: Outcome, now: int)
    | Look(now: int)

  predicate Enabled(s: State, e: Event) {
    match e
    case Arrive(id, _) => id == s.lane.next
    case Expire(id) => id in s.lane.queue
    case Wake(id) => id in s.lane.handed
    case Start(id, _) => id in s.lane.holders - s.breaker.running
    case Finish(id, _, _) => id in s.breaker.running
    case Look(_) => true
  }

  /** The breaker's part of a step. */
  function BreakerEvents(s: State, e: Event): seq<CB.Event> {
    match e
    case Arrive(_, now) => [CB.Queue(now)]
    case Start(id, now) => [CB.Admit(id, now)]
    case Finish(id, outcome, now) =>
      [match outcome
       case Succeeded => CB.Succeed(id)
       case Counted => CB.Fail(id, now)
       case Uncounted => CB.FailUncounted(id)]
    case Look(now) => [CB.Look(now)]
    case _ => []
  }

  function Apply(c: CB.Settings, max: nat, s: State, e: Event): State {
    var es := BreakerEvents(s, e);
    var b := if |es| == 0 then s.breaker else CB.Apply(c, s.breaker, es[0]);
    match e
    case Arrive(id, now) =>
      if CB.BeforeQueue(c, s.breaker.breaker, now).refusal.Some? then State(s.lane, b)
      else State(Acquire(max, s.lane, id), b)
    case Expire(id) => State(QueueTimeout(s.lane, id), b)
    case Wake(id) => State(Resume(s.lane, id), b)
    case Start(id, now) =>
      if CB.Granted(c, s.breaker, es[0]) then State(s.lane, b) else State(ReleaseSlot(s.lane, id), b)
    case Finish(id, _, _) => State(ReleaseSlot(s.lane, id), b)
    case Look(_) => State(s.lane, b)
  }

  function Run(c: CB.Settings, max: nat, s: State, events: seq<Event>): State
    decreases |events|
  {
    if |events| == 0 then s else Run(c, max, Apply(c, max, s, events[0]), events[1..])
  }

  ghost predicate Feasible(c: CB.Settings, max: nat, s: State, events: seq<Event>)
    decreases |events|
  {
    |events| > 0 ==> Enabled(s, events[0]) && Feasible(c, max, Apply(c, max, s, events[0]), events[1..])
  }

  // ---- the lane object ----

  class RequestLane {
    const maxConcurrency: nat
    const breaker: CB.CircuitBreaker
    var active: int
    var queue: seq<RequestId>
    var woken: seq<RequestId>
    var released: set<RequestId>
    ghost var holders: set<RequestId>
    ghost var timedOut: set<RequestId>
    ghost var running: set<RequestId>
    ghost var next: RequestId

    ghost function Value(): State
      reads this, breaker
    {
      State(Slots(), CB.System(breaker.Value(), running))
    }

    ghost function Slots(): Lane
      reads this
    {
      Lane(active, queue, woken, holders, released, timedOut, next)
    }

    constructor (settings: CB.Settings, maxConcurrency: nat)
      ensures Value() == IDLE && this.maxConcurrency == maxConcurrency
      ensures fresh(breaker) && breaker.settings == settings
    {
      this.maxConcurrency := maxConcurrency;
      breaker := new CB.CircuitBreaker(settings);
      active, queue, woken, released := 0, [], [], {};
      holders, timedOut, running, next := {}, {}, {}, 0;
    }

    /** A request's first part: refused by the breaker, given a slot, or queued. */
    method Admit(id: RequestId, now: int) returns (refusal: Option<int>, waits: bool)
      modifies this, breaker
      ensures Value() == Apply(breaker.settings, maxConcurrency, old(Value()), Arrive(id, now))
      ensures refusal == CB.BeforeQueue(breaker.settings, old(breaker.Value()), now).refusal
      ensures waits <==> refusal.None? && id in queue && old(active) >= maxConcurrency
    {
      waits := false;
      refusal := breaker.CheckBeforeQueue(now);
      if refusal.None? {
        next := id + 1;
        if active >= maxConcurrency {
          queue := queue + [id];
          waits := true;
        } else {
          active := active + 1;
          holders := holders + {id};
        }
      }
    }

    method OnQueueTimeout(id: RequestId)
      modifies this
      ensures Value() == Apply(breaker.settings, maxConcurrency, old(Value()), Expire(id))
    {
      queue := Without(queue, id);
      timedOut := timedOut + {id};
    }

    method OnWoken(id: RequestId)
      modifies this
      ensures Value() == Apply(breaker.settings, maxConcurrency, old(Value()), Wake(id))
    {
      woken := Without(woken, id);
      active := active + 1;
      holders := holders + {id};
    }

    /** The release closure: its flag makes a second call do nothing. */
    method Release(id: RequestId)
      modifies this
      ensures Slots() == ReleaseSlot(old(Slots()), id) && running == old(running)
    {
      if id in released {
        return;
      }
      released := released + {id};
      holders := holders - {id};
      active := if active - 1 > 0 then active - 1 else 0;
      if |queue| > 0 {
        woken, queue := woken + [queue[0]], queue[1..];
      }
    }

    method BeforeTask(id: RequestId, now: int) returns (refusal: Option<int>)
      modifies this, breaker
      ensures Value() == Apply(breaker.settings, maxConcurrency, old(Value()), Start(id, now))
      ensures refusal == CB.BeforeRun(breaker.settings, old(breaker.Value()), now).refusal
    {
      refusal := breaker.CheckBeforeRun(now);
      if refusal.Some? {
        Release(id);
      } else {
        running := running + {id};
      }
    }

    method AfterTask(id: RequestId, outcome: Outcome, now: int)
      modifies this, breaker
      ensures Value() == Apply(breaker.settings, maxConcurrency, old(Value()), Finish(id, outcome, now))
    {
      match outcome {
        case Succeeded => breaker.RecordSuccess();
        case Counted => breaker.RecordFailure(now);
        case Uncounted => breaker.ReleaseHalfOpenProbe();
      }
      running := running - {id};
      Release(id);
    }
  }
}
