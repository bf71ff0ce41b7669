/** The circuit breaker of one Ragic lane, and the runs in which tasks check it, finish
    and are counted.  A clock reading is a parameter of each operation that takes one. */
module CircuitBreaker {
  import opened Options

  datatype Circuit = Closed | Open | HalfOpen

  /** What the listener is told; the cooldown's end is 0 unless the circuit opened. */
  datatype Change = Change(before: Circuit, after: Circuit, failures: nat, cooldownEndsAt: int)

  datatype Settings = Settings(failureThreshold: int, cooldownMs: int)

  datatype Breaker = Breaker(state: Circuit, failures: nat, openedAt: int, probe: bool, changes: seq<Change>)

  /** A check's outcome: the breaker after it, and the retry delay when it throws. */
  datatype Checked = Checked(breaker: Breaker, refusal: Option<int>)

  const NEW: Breaker := Breaker(Closed, 0, 0, false, [])

  function Transition(c: Settings, b: Breaker, next: Circuit): Breaker {
    if b.state == next then b
    else
      var ends := if next == Open then b.openedAt + c.cooldownMs else 0;
      b.(state := next,
         probe := b.probe && next == HalfOpen,
         changes := b.changes + [Change(b.state, next, b.failures, ends)])
  }

  function Cooldown(c: Settings, b: Breaker, now: int): Checked {
    if b.state != Open then Checked(b, None)
    else if now - b.openedAt < c.cooldownMs then Checked(b, Some(c.cooldownMs - (now - b.openedAt)))
    else Checked(Transition(c, b, HalfOpen), None)
  }

  function BeforeQueue(c: Settings, b: Breaker, now: int): Checked {
    var r := Cooldown(c, b, now);
    if r.refusal.Some? then r
    else if r.breaker.state == HalfOpen && r.breaker.probe then Checked(r.breaker, Some(c.cooldownMs))
    else r
  }

  function BeforeRun(c: Settings, b: Breaker, now: int): Checked {
    var r := BeforeQueue(c, b, now);
    if r.refusal.None? && r.breaker.state == HalfOpen then Checked(r.breaker.(probe := true), None) else r
  }

  function Success(c: Settings, b: Breaker): Breaker {
    Transition(c, b.(probe := false, failures := 0), Closed)
  }

  function Failure(c: Settings, b: Breaker, now: int): Breaker {
    var counted := b.(probe := false, failures := b.failures + 1);
    if counted.state == HalfOpen || counted.failures >= c.failureThreshold
    then Transition(c, counted.(openedAt := now), Open)
    else counted
  }

  function Release(b: Breaker): Breaker {
    if b.state == HalfOpen then b.(probe := false) else b
  }

  /** The readiness endpoint's look at the state, which may itself end the cooldown. */
  function Poll(c: Settings, b: Breaker, now: int): Breaker {
    if b.state == Open && now - b.openedAt >= c.cooldownMs then Transition(c, b, HalfOpen) else b
  }

  // ---- the breaker object ----

  class CircuitBreaker {
    const settings: Settings
    var state: Circuit
    var consecutiveFailures: nat
    var openedAt: int
    var halfOpenProbeInFlight: bool
    var notified: seq<Change>

    ghost function Value(): Breaker
      reads this
    {
      Breaker(state, consecutiveFailures, openedAt, halfOpenProbeInFlight, notified)
    }

    constructor (settings: Settings)
      ensures this.settings == settings && Value() == NEW
    {
      this.settings := settings;
      state, consecutiveFailures, openedAt, halfOpenProbeInFlight, notified := Closed, 0, 0, false, [];
    }

    method ChangeState(next: Circuit)
      modifies this
      ensures Value() == Transition(settings, old(Value()), next)
    {
      var prev := state;
      if prev == next {
        return;
      }
      state := next;
      if next != HalfOpen {
        halfOpenProbeInFlight := false;
      }
      var ends := if next == Open then openedAt + settings.cooldownMs else 0;
      notified := notified + [Change(prev, next, consecutiveFailures, ends)];
    }

    method TransitionOpenIfCooldownElapsed(now: int) returns (refusal: Option<int>)
      modifies this
      ensures Checked(Value(), refusal) == Cooldown(settings, old(Value()), now)
    {
      refusal := None;
      if state == Open {
        var elapsed := now - openedAt;
        if elapsed < settings.cooldownMs {
          return Some(settings.cooldownMs - elapsed);
        }
        ChangeState(HalfOpen);
      }
    }

    method CheckBeforeQueue(now: int) returns (refusal: Option<int>)
      modifies this
      ensures Checked(Value(), refusal) == BeforeQueue(settings, old(Value()), now)
    {
      refusal := TransitionOpenIfCooldownElapsed(now);
      if refusal.None? && state == HalfOpen && halfOpenProbeInFlight {
        refusal := Some(settings.cooldownMs);
      }
    }

    method CheckBeforeRun(now: int) returns (refusal: Option<int>)
      modifies this
      ensures Checked(Value(), refusal) == BeforeRun(settings, old(Value()), now)
    {
      refusal := TransitionOpenIfCooldownElapsed(now);
      if refusal.None? && state == HalfOpen {
        if halfOpenProbeInFlight {
          return Some(settings.cooldownMs);
        }
        halfOpenProbeInFlight := true;
      }
    }

    method RecordSuccess()
      modifies this
      ensures Value() == Success(settings, old(Value()))
    {
      halfOpenProbeInFlight := false;
      consecutiveFailures := 0;
      if state != Closed {
        ChangeState(Closed);
      }
    }

    method RecordFailure(now: int)
      modifies this
      ensures Value() == Failure(settings, old(Value()), now)
    {
      halfOpenProbeInFlight := false;
      consecutiveFailures := consecutiveFailures + 1;
      if state == HalfOpen {
        openedAt := now;
        ChangeState(Open);
        return;
      }
      if consecutiveFailures >= settings.failureThreshold {
        openedAt := now;
        ChangeState(Open);
      }
    }

    method GetAdmissionState(now: int) returns (s: Circuit)
      modifies this
      ensures Value() == Poll(settings, old(Value()), now) && s == state
    {
      if state == Open && now - openedAt >= settings.cooldownMs {
        ChangeState(HalfOpen);
      }
      s := state;
    }

    method ReleaseHalfOpenProbe()
      modifies this
      ensures Value() == Release(old(Value()))
    {
      if state == HalfOpen {
        halfOpenProbeInFlight := false;
      }
    }
  }

  // ---- runs ----

  type TaskId = nat

  /** `Queue` is the check before waiting for a slot, `Admit` the check before running;
      each admitted task ends in one of the three completions. */
  datatype Event =
    | Queue(now: int)
    | Admit(task: TaskId, now: int)
    | Succeed(task: TaskId)
    | Fail(task: TaskId, now: int)
    | FailUncounted(task: TaskId)
    | Look(now: int)

  datatype System = System(breaker: Breaker, running: set<TaskId>)

  const START: System := System(NEW, {})

  predicate Granted(c: Settings, s: System, e: Event) {
    e.Admit? && BeforeRun(c, s.breaker, e.now).refusal.None?
  }

  /** Only a running task completes, and a task is admitted once. */
  predicate Enabled(s: System, e: Event) {
    match e
    case Admit(task, _) => task !in s.running
    case Succeed(task) => task in s.running
    case Fail(task, _) => task in s.running
    case FailUncounted(task) => task in s.running
    case _ => true
  }

  function Apply(c: Settings, s: System, e: Event): System {
    match e
    case Queue(now) => s.(breaker := BeforeQueue(c, s.breaker, now).breaker)
    case Admit(task, now) =>
      System(BeforeRun(c, s.breaker, now).breaker, if Granted(c, s, e) then s.running + {task} else s.running)
    case Succeed(task) => System(Success(c, s.breaker), s.running - {task})
    case Fail(task, now) => System(Failure(c, s.breaker, now), s.running - {task})
    case FailUncounted(task) => System(Release(s.breaker), s.running - {task})
    case Look(now) => s.(breaker := Poll(c, s.breaker, now))
  }

  /** A run, last event last. */
  function Run(c: Settings, events: seq<Event>): System {
    if |events| == 0 then START
    else Apply(c, Run(c, events[..|events| - 1]), events[|events| - 1])
  }

  ghost predicate Feasible(c: Settings, events: seq<Event>) {
    |events| > 0 ==>
      && Feasible(c, events[..|events| - 1])
      && Enabled(Run(c, events[..|events| - 1]), events[|events| - 1])
  }
}
