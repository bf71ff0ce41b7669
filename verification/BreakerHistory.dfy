/** What a circuit breaker's state says about the run that led to it. */
module BreakerHistory {
  import opened Options
  import opened CircuitBreaker

  // ---- the history of a run, read from its events alone ----

  function Before(events: seq<Event>): seq<Event>
    requires |events| > 0
  {
    events[..|events| - 1]
  }

  function Last(events: seq<Event>): Event
    requires |events| > 0
  {
    events[|events| - 1]
  }

  /** Counted failures since the last success. */
  function FailuresSinceSuccess(events: seq<Event>): nat {
    if |events| == 0 || Last(events).Succeed? then 0
    else FailuresSinceSuccess(Before(events)) + (if Last(events).Fail? then 1 else 0)
  }

  function LastFailureAt(events: seq<Event>): int {
    if |events| == 0 then 0
    else if Last(events).Fail? then Last(events).now
    else LastFailureAt(Before(events))
  }

  predicate IsCheck(e: Event) { e.Queue? || e.Admit? || e.Look? }

  /** Some check since the last failure found the cooldown over. */
  predicate Cooled(c: Settings, events: seq<Event>) {
    && |events| > 0
    && !Last(events).Fail?
    && (Cooled(c, Before(events))
        || (IsCheck(Last(events)) && Last(events).now - LastFailureAt(Before(events)) >= c.cooldownMs))
  }

  function StateByHistory(c: Settings, events: seq<Event>): Circuit {
    if FailuresSinceSuccess(events) < c.failureThreshold then Closed
    else if Cooled(c, events) then HalfOpen
    else Open
  }

  /** The breaker is its history: which state it is in, how many failures it counts and
      when it opened are functions of the events. */
  lemma {:induction false} BreakerIsItsHistory(c: Settings, events: seq<Event>)
    requires c.failureThreshold >= 1
    ensures var b := Run(c, events).breaker;
            && b.state == StateByHistory(c, events)
            && b.failures == FailuresSinceSuccess(events)
            && (b.state != Closed <==> FailuresSinceSuccess(events) >= c.failureThreshold)
            && (b.state != Closed ==> b.openedAt == LastFailureAt(events))
            && (b.probe ==> b.state == HalfOpen)
  {
    if |events| > 0 {
      BreakerIsItsHistory(c, Before(events));
    }
  }

  // ---- admission ----

  /** The run is one of a clock that never goes back. */
  ghost predicate Monotone(events: seq<Event>) {
    forall i, j :: 0 <= i < j < |events| && Reads(events[i]) && Reads(events[j]) ==> events[i].now <= events[j].now
  }

  predicate Reads(e: Event) { IsCheck(e) || e.Fail? }

  predicate Admits(c: Settings, events: seq<Event>, j: nat)
    requires j < |events|
  {
    Granted(c, Run(c, events[..j]), events[j])
  }

  /** With a clock that does not go back, a failure counted at index `i` with no success
      after it is at or before the last counted failure. */
  lemma {:induction false} LastFailureIsLatest(events: seq<Event>, i: nat)
    requires Monotone(events) && i < |events| && events[i].Fail?
    ensures events[i].now <= LastFailureAt(events)
  {
    if !Last(events).Fail? {
      LastFailureIsLatest(Before(events), i);
    }
  }

  /** Once some check found the cooldown over, every later reading is past it. */
  lemma {:induction false} CooledMeansLate(c: Settings, events: seq<Event>, e: Event)
    requires Monotone(events + [e]) && Reads(e) && Cooled(c, events)
    ensures e.now - LastFailureAt(events) >= c.cooldownMs
  {
    var all := events + [e];
    assert all[|events| - 1] == Last(events) && all[|events|] == e;
    if Cooled(c, Before(events)) {
      assert forall i :: 0 <= i < |Before(events)| ==> (Before(events) + [e])[i] == all[i];
      assert Monotone(Before(events) + [e]);
      CooledMeansLate(c, Before(events), e);
    }
  }

  lemma {:induction false} FailuresStay(events: seq<Event>, i: nat, j: nat)
    requires i <= j <= |events|
    requires forall k :: i <= k < j ==> !events[k].Succeed?
    ensures FailuresSinceSuccess(events[..j]) >= FailuresSinceSuccess(events[..i])
  {
    if i < j {
      assert Before(events[..j]) == events[..j - 1];
      FailuresStay(events, i, j - 1);
    }
  }

  /** No task is admitted within the cooldown of a counted failure that left the circuit
      not closed, as long as no success came in between and the clock does not go back. */
  lemma NoAdmissionDuringCooldown(c: Settings, events: seq<Event>, i: nat, j: nat)
    requires c.failureThreshold >= 1 && Monotone(events)
    requires i < j < |events| && events[i].Fail? && Admits(c, events, j)
    requires Run(c, events[..i + 1]).breaker.state != Closed
    requires forall k :: i < k < j ==> !events[k].Succeed?
    ensures events[j].now - events[i].now >= c.cooldownMs
  {
    BreakerIsItsHistory(c, events[..i + 1]);
    BreakerIsItsHistory(c, events[..j]);
    FailuresStay(events, i + 1, j);
    LastFailureIsLatest(events[..j], i);
    assert events[..j] + [events[j]] == events[..j + 1];
    if Cooled(c, events[..j]) {
      CooledMeansLate(c, events[..j], events[j]);
    }
  }

  /** An open circuit's refusal names the exact wait: a check before that is refused too,
      and one from then on gets through to half-open. */
  lemma RetryAfterIsExact(c: Settings, b: Breaker, now: int, later: int)
    requires b.state == Open && !b.probe && BeforeRun(c, b, now).refusal.Some?
    ensures BeforeRun(c, b, later).refusal.None? <==> later >= now + BeforeRun(c, b, now).refusal.value
  {}

  /** In every run both checks refuse alike: an open circuit until its cooldown is over, and
      a half-open one while its probe is out, for a whole cooldown more. */
  lemma RefusalNamesTheWait(c: Settings, events: seq<Event>, now: int)
    requires c.failureThreshold >= 1
    ensures var b := Run(c, events).breaker;
            && BeforeQueue(c, b, now).refusal == BeforeRun(c, b, now).refusal
            && BeforeRun(c, b, now).refusal
               == (if b.state == Open && now < LastFailureAt(events) + c.cooldownMs
                   then Some(LastFailureAt(events) + c.cooldownMs - now)
                   else if b.state == HalfOpen && b.probe then Some(c.cooldownMs)
                   else None)
  {
    BreakerIsItsHistory(c, events);
  }

  // ---- half-open ----

  /** Tasks admitted since the circuit last became half-open, while it stays so. */
  function Probes(c: Settings, events: seq<Event>): nat {
    if |events| == 0 || Run(c, events).breaker.state != HalfOpen then 0
    else Probes(c, Before(events)) + (if Granted(c, Run(c, Before(events)), Last(events)) then 1 else 0)
  }

  /** Uncounted completions since then: all, and those of tasks admitted before. */
  function Releases(c: Settings, events: seq<Event>): nat {
    if |events| == 0 || Run(c, events).breaker.state != HalfOpen then 0
    else Releases(c, Before(events)) + (if Last(events).FailUncounted? then 1 else 0)
  }

  function RunningProbes(c: Settings, events: seq<Event>): set<TaskId> {
    if |events| == 0 || Run(c, events).breaker.state != HalfOpen then {}
    else
      var rest := RunningProbes(c, Before(events));
      match Last(events)
      case Admit(task, _) => if Granted(c, Run(c, Before(events)), Last(events)) then rest + {task} else rest
      case FailUncounted(task) => rest - {task}
      case _ => rest
  }

  function OlderReleases(c: Settings, events: seq<Event>): nat {
    if |events| == 0 || Run(c, events).breaker.state != HalfOpen then 0
    else
      OlderReleases(c, Before(events))
      + (if Last(events).FailUncounted? && Last(events).task !in RunningProbes(c, Before(events)) then 1 else 0)
  }

  function Flag(b: Breaker): nat { if b.probe then 1 else 0 }

  /** In half-open the admissions are at most one more than the uncounted completions. */
  lemma {:induction false} ProbesAreLimited(c: Settings, events: seq<Event>)
    requires c.failureThreshold >= 1
    ensures Probes(c, events) <= Releases(c, events) + Flag(Run(c, events).breaker)
    ensures Probes(c, events) <= 1 + Releases(c, events)
  {
    hide Path, Cooled, LastFailureAt, FailuresSinceSuccess, StateByHistory;
    if |events| > 0 {
      ProbesAreLimited(c, Before(events));
      BreakerIsItsHistory(c, Before(events));
    }
  }

  lemma WithoutOne(s: set<TaskId>, x: TaskId)
    ensures |s - {x}| == |s| - (if x in s then 1 else 0)
  {
    if x !in s {
      assert s - {x} == s;
    }
  }

  lemma FlagMeansHalfOpen(c: Settings, events: seq<Event>)
    requires c.failureThreshold >= 1
    ensures Run(c, events).breaker.probe ==> Run(c, events).breaker.state == HalfOpen
  {
    hide Run, StateByHistory;
    BreakerIsItsHistory(c, events);
  }

  /** At most one probe runs, plus one for every older task that ended uncounted. */
  lemma {:induction false} RunningProbesAreLimited(c: Settings, events: seq<Event>)
    requires c.failureThreshold >= 1 && Feasible(c, events)
    ensures RunningProbes(c, events) <= Run(c, events).running
    ensures |RunningProbes(c, events)| <= OlderReleases(c, events) + Flag(Run(c, events).breaker)
  {
    if |events| > 0 && Run(c, events).breaker.state == HalfOpen {
      RunningProbesAreLimited(c, Before(events));
      FlagMeansHalfOpen(c, Before(events));
      ProbeStep(c, Run(c, Before(events)), Last(events), RunningProbes(c, Before(events)));
    }
  }

  /** How a step into or within half-open changes the flag and the set of running probes. */
  lemma ProbeStep(c: Settings, s: System, e: Event, rest: set<TaskId>)
    requires Enabled(s, e) && rest <= s.running && (s.breaker.probe ==> s.breaker.state == HalfOpen)
    requires s.breaker.state != HalfOpen ==> rest == {}
    ensures var t := Apply(c, s, e);
            var probes := if e.Admit? && Granted(c, s, e) then rest + {e.task} else if e.FailUncounted? then rest - {e.task} else rest;
            t.breaker.state == HalfOpen ==>
              && probes <= t.running
              && |probes| + Flag(s.breaker) <= |rest| + Flag(t.breaker)
                                             + (if e.FailUncounted? && e.task !in rest then 1 else 0)
  {
    if e.FailUncounted? {
      WithoutOne(rest, e.task);
    } else if e.Admit? {
      assert e.task !in rest;
    }
  }

  lemma SingleProbe(c: Settings, events: seq<Event>)
    requires c.failureThreshold >= 1 && Feasible(c, events) && OlderReleases(c, events) == 0
    ensures |RunningProbes(c, events)| <= 1
  {
    RunningProbesAreLimited(c, events);
  }

  /** An uncounted completion came after the last admission. */
  predicate FreedSinceProbe(c: Settings, events: seq<Event>) {
    && |events| > 0
    && (Last(events).FailUncounted?
        || (!Granted(c, Run(c, Before(events)), Last(events)) && FreedSinceProbe(c, Before(events))))
  }

  lemma {:induction false} FlagByHistory(c: Settings, events: seq<Event>)
    requires c.failureThreshold >= 1 && Probes(c, events) > 0
    ensures !Run(c, events).breaker.probe <==> FreedSinceProbe(c, events)
  {
    hide StateByHistory;
    FlagMeansHalfOpen(c, Before(events));
    if Probes(c, Before(events)) > 0 {
      FlagByHistory(c, Before(events));
    }
  }

  lemma {:induction false} NoProbesNoFlag(c: Settings, events: seq<Event>)
    requires c.failureThreshold >= 1 && Probes(c, events) == 0
    ensures !Run(c, events).breaker.probe
  {
    hide StateByHistory;
    FlagMeansHalfOpen(c, events);
    if Run(c, events).breaker.state == HalfOpen {
      NoProbesNoFlag(c, Before(events));
    }
  }

  /** When a task is let through to run, whatever the clock has done: too few failures have
      been counted, or the cooldown is over, by this reading or by that of an earlier check
      since the last failure, and no probe stands in the way. */
  lemma GrantedIff(c: Settings, events: seq<Event>, e: Event)
    requires c.failureThreshold >= 1 && e.Admit?
    ensures Granted(c, Run(c, events), e) <==>
              || FailuresSinceSuccess(events) < c.failureThreshold
              || (&& (Cooled(c, events) || e.now - LastFailureAt(events) >= c.cooldownMs)
                  && (Probes(c, events) == 0 || FreedSinceProbe(c, events)))
  {
    hide Run, Probes, FreedSinceProbe, Cooled, LastFailureAt, FailuresSinceSuccess;
    BreakerIsItsHistory(c, events);
    if Probes(c, events) == 0 {
      NoProbesNoFlag(c, events);
    } else {
      FlagByHistory(c, events);
    }
  }

  /** So inside the cooldown a task is let through exactly if an earlier check since the
      failure read a clock past its end, which only a clock that went back since allows. */
  lemma EarlyAdmissionIff(c: Settings, events: seq<Event>, e: Event)
    requires c.failureThreshold >= 1 && e.Admit? && FailuresSinceSuccess(events) >= c.failureThreshold
    requires e.now - LastFailureAt(events) < c.cooldownMs
    ensures Granted(c, Run(c, events), e) <==>
              Cooled(c, events) && (Probes(c, events) == 0 || FreedSinceProbe(c, events))
    ensures Granted(c, Run(c, events), e) ==> !Monotone(events + [e])
  {
    GrantedIff(c, events, e);
    if Cooled(c, events) && Monotone(events + [e]) {
      CooledMeansLate(c, events, e);
    }
  }

  /** While a probe runs, the next check is let through exactly if some task has ended
      uncounted since the last admission. */
  lemma NextProbeIff(c: Settings, events: seq<Event>, check: Event)
    requires c.failureThreshold >= 1 && RunningProbes(c, events) != {} && check.Admit?
    ensures Granted(c, Run(c, events), check) <==> FreedSinceProbe(c, events)
  {
    hide Run;
    RunningProbesWereAdmitted(c, events);
    FlagByHistory(c, events);
  }

  lemma {:induction false} RunningProbesWereAdmitted(c: Settings, events: seq<Event>)
    requires RunningProbes(c, events) != {}
    ensures Probes(c, events) > 0 && Run(c, events).breaker.state == HalfOpen
  {
    if RunningProbes(c, Before(events)) != {} {
      RunningProbesWereAdmitted(c, Before(events));
    }
  }

  /** At `j` a task asks to run while a probe runs and a task has ended uncounted since the
      last admission. */
  predicate SecondProbeAsks(c: Settings, events: seq<Event>, j: nat)
    requires j < |events|
  {
    events[j].Admit? && RunningProbes(c, events[..j]) != {} && FreedSinceProbe(c, events[..j])
  }

  predicate OneProbeAt(c: Settings, events: seq<Event>, j: nat)
    requires j <= |events|
  {
    |RunningProbes(c, events[..j])| <= 1
  }

  /** One step from at most one running probe. */
  lemma OneProbeStep(c: Settings, events: seq<Event>, j: nat)
    requires j < |events| && c.failureThreshold >= 1 && Feasible(c, events[..j + 1]) && OneProbeAt(c, events, j)
    ensures OneProbeAt(c, events, j + 1) <==> !SecondProbeAsks(c, events, j)
  {
    hide StateByHistory;
    var now, next := events[..j], events[..j + 1];
    assert Before(next) == now && Last(next) == events[j];
    var probes := RunningProbes(c, now);
    RunningProbesAreLimited(c, now);
    if events[j].Admit? && probes != {} {
      RunningProbesWereAdmitted(c, now);
      NextProbeIff(c, now, events[j]);
      assert events[j].task !in probes;
    }
    OneLess(probes, events[j]);
  }

  lemma OneLess(probes: set<TaskId>, e: Event)
    requires |probes| <= 1
    ensures e.Admit? && e.task !in probes ==> |probes + {e.task}| == |probes| + 1
    ensures e.FailUncounted? ==> |probes - {e.task}| <= 1
    ensures probes == {} <==> |probes| == 0
  {
    if e.FailUncounted? {
      WithoutOne(probes, e.task);
    }
  }

  lemma {:induction false} FeasiblePrefix(c: Settings, events: seq<Event>, j: nat)
    requires Feasible(c, events) && j <= |events|
    ensures Feasible(c, events[..j])
  {
    if j < |events| {
      FeasiblePrefix(c, Before(events), j);
      assert Before(events)[..j] == events[..j];
    } else {
      assert events[..j] == events;
    }
  }

  lemma {:induction false} OneProbeUpTo(c: Settings, events: seq<Event>, n: nat)
    requires c.failureThreshold >= 1 && Feasible(c, events) && n <= |events|
    ensures (forall j :: 0 <= j <= n ==> OneProbeAt(c, events, j)) <==> (forall j :: 0 <= j < n ==> !SecondProbeAsks(c, events, j))
  {
    hide RunningProbes, Feasible, FreedSinceProbe, OneProbeAt, SecondProbeAsks;
    if n == 0 {
      NoProbeAtFirst(c, events);
    } else {
      OneProbeUpTo(c, events, n - 1);
      FeasiblePrefix(c, events, n);
      if OneProbeAt(c, events, n - 1) {
        OneProbeStep(c, events, n - 1);
      }
    }
  }

  lemma NoProbeAtFirst(c: Settings, events: seq<Event>)
    ensures OneProbeAt(c, events, 0)
  {
    assert events[..0] == [];
  }

  /** Never more than one probe runs at a time, exactly if no task asks to run while a probe
      runs and a task has ended uncounted since the last admission. */
  lemma SingleProbeIff(c: Settings, events: seq<Event>)
    requires c.failureThreshold >= 1 && Feasible(c, events)
    ensures (forall j :: 0 <= j <= |events| ==> OneProbeAt(c, events, j))
            <==> (forall j :: 0 <= j < |events| ==> !SecondProbeAsks(c, events, j))
  {
    OneProbeUpTo(c, events, |events|);
  }

  /** Which admission set the probe flag last. */
  function Prober(c: Settings, events: seq<Event>): Option<TaskId> {
    if |events| == 0 then None
    else if Granted(c, Run(c, Before(events)), Last(events)) && Run(c, events).breaker.probe then Some(Last(events).task)
    else Prober(c, Before(events))
  }

  /** A set flag has a running task, and whichever way that task ends clears the flag. */
  lemma {:induction false} FlagHasARunningTask(c: Settings, events: seq<Event>)
    requires c.failureThreshold >= 1 && Feasible(c, events) && Run(c, events).breaker.probe
    ensures Prober(c, events).Some? && Prober(c, events).value in RunningProbes(c, events)
  {
    BreakerIsItsHistory(c, events);
    BreakerIsItsHistory(c, Before(events));
    if !Granted(c, Run(c, Before(events)), Last(events)) {
      FlagHasARunningTask(c, Before(events));
    }
  }

  /** Half-open never gets stuck: a check is let through now, or a task is running whose
      every way of ending lets the next check through or reopens the circuit. */
  lemma HalfOpenMovesOn(c: Settings, events: seq<Event>, check: Event, end: Event)
    requires c.failureThreshold >= 1 && Feasible(c, events) && Run(c, events).breaker.state == HalfOpen
    requires check.Admit?
    ensures Granted(c, Run(c, events), check)
            || (&& Prober(c, events).Some? && Prober(c, events).value in Run(c, events).running
                && ((end.Succeed? || end.Fail? || end.FailUncounted?) && end.task == Prober(c, events).value
                    ==> Granted(c, Run(c, events + [end]), check) || (end.Fail? && Run(c, events + [end]).breaker.state == Open)))
  {
    if Run(c, events).breaker.probe {
      FlagHasARunningTask(c, events);
      RunningProbesAreLimited(c, events);
      assert Before(events + [end]) == events;
    }
  }

  // ---- why the side conditions are there ----

  const QUICK := Settings(1, 10)

  lemma RunNext(c: Settings, events: seq<Event>, e: Event)
    requires Feasible(c, events) && Enabled(Run(c, events), e)
    ensures Feasible(c, events + [e]) && Run(c, events + [e]) == Apply(c, Run(c, events), e)
    ensures RunningProbes(c, events + [e])
            == if Run(c, events + [e]).breaker.state != HalfOpen then {}
               else if e.Admit? && Granted(c, Run(c, events), e) then RunningProbes(c, events) + {e.task}
               else if e.FailUncounted? then RunningProbes(c, events) - {e.task}
               else RunningProbes(c, events)
  {
    assert Before(events + [e]) == events;
  }

  /** Two tasks run, one of them fails and opens the circuit. */
  function Opened(): seq<Event> {
    [] + [Admit(0, 0)] + [Admit(1, 0)] + [Fail(0, 0)]
  }

  lemma OpenedRuns()
    ensures Feasible(QUICK, Opened()) && |Opened()| == 3
    ensures var s := Run(QUICK, Opened());
            s.running == {1} && s.breaker.state == Open && s.breaker.openedAt == 0 && !s.breaker.probe
  {
    var e0: seq<Event> := [];
    RunNext(QUICK, e0, Admit(0, 0));
    RunNext(QUICK, e0 + [Admit(0, 0)], Admit(1, 0));
    RunNext(QUICK, e0 + [Admit(0, 0)] + [Admit(1, 0)], Fail(0, 0));
  }

  /** An older task that ends uncounted makes room for a second probe. */
  lemma OlderTaskMayAddAProbe()
    ensures exists events :: Feasible(QUICK, events) && |RunningProbes(QUICK, events)| == 2
  {
    hide Run, Feasible;
    OpenedRuns();
    var e1 := Opened() + [Admit(2, 10)];
    RunNext(QUICK, Opened(), Admit(2, 10));
    RunNext(QUICK, e1, FailUncounted(1));
    RunNext(QUICK, e1 + [FailUncounted(1)], Admit(3, 10));
    var events := e1 + [FailUncounted(1)] + [Admit(3, 10)];
    assert RunningProbes(QUICK, Opened()) == {};
    assert RunningProbes(QUICK, events) == {2, 3};
  }

  /** If the clock goes back, a task is admitted inside the cooldown. */
  lemma ClockBackAdmitsEarly()
    ensures exists events: seq<Event> ::
              && Feasible(QUICK, events) && |events| == 5 && events[2] == Fail(0, 0)
              && events[4] == Admit(2, 5) && Admits(QUICK, events, 4)
  {
    OpenedRuns();
    RunNext(QUICK, Opened(), Queue(10));
    var e1 := Opened() + [Queue(10)];
    RunNext(QUICK, e1, Admit(2, 5));
    var events := e1 + [Admit(2, 5)];
    assert events[..4] == e1;
    assert events[2] == Opened()[2];
  }

  // ---- what the listener was told ----

  /** The notified changes form one path from closed to `last`, made of the five steps
      the breaker has, and it opens only with enough failures. */
  predicate Path(c: Settings, changes: seq<Change>, last: Circuit) {
    if |changes| == 0 then last == Closed
    else
      var change := changes[|changes| - 1];
      && Path(c, changes[..|changes| - 1], change.before)
      && change.after == last
      && change.before != last
      && (last == HalfOpen ==> change.before == Open)
      && (last == Open ==> change.failures >= c.failureThreshold)
  }

  lemma PathStep(c: Settings, b: Breaker, next: Circuit)
    requires Path(c, b.changes, b.state)
    requires next == HalfOpen ==> b.state == Open || b.state == next
    requires next == Open ==> b.failures >= c.failureThreshold
    ensures Path(c, Transition(c, b, next).changes, next)
  {
    var after := Transition(c, b, next);
    if b.state != next {
      assert after.changes[..|after.changes| - 1] == b.changes;
    }
  }

  lemma StepKeepsPath(c: Settings, s: System, e: Event)
    requires c.failureThreshold >= 1 && Path(c, s.breaker.changes, s.breaker.state)
    requires s.breaker.state != Closed ==> s.breaker.failures >= c.failureThreshold
    ensures var b := Apply(c, s, e).breaker; Path(c, b.changes, b.state)
  {
    hide Path;
    var b := s.breaker;
    match e
    case Succeed(_) => PathStep(c, b.(probe := false, failures := 0), Closed);
    case Fail(_, now) =>
      var counted := b.(probe := false, failures := b.failures + 1, openedAt := now);
      if counted.failures >= c.failureThreshold {
        PathStep(c, counted, Open);
      }
    case FailUncounted(_) =>
    case _ =>
      if b.state == Open {
        PathStep(c, b, HalfOpen);
      }
  }

  lemma {:induction false} NotificationsFormAPath(c: Settings, events: seq<Event>)
    requires c.failureThreshold >= 1
    ensures var b := Run(c, events).breaker; Path(c, b.changes, b.state)
  {
    hide Apply, StateByHistory, LastFailureAt;
    if |events| > 0 {
      NotificationsFormAPath(c, Before(events));
      BreakerIsItsHistory(c, Before(events));
      StepKeepsPath(c, Run(c, Before(events)), Last(events));
    }
  }

  /** What the listener must have been told: each change of state, with the failures counted
      by then and, if it opened, the end of the cooldown that the last one began. */
  function ChangesByHistory(c: Settings, events: seq<Event>): seq<Change> {
    if |events| == 0 then []
    else
      var earlier := ChangesByHistory(c, Before(events));
      var was, now := StateByHistory(c, Before(events)), StateByHistory(c, events);
      if was == now then earlier
      else
        earlier + [Change(was, now, FailuresSinceSuccess(events),
                          if now == Open then LastFailureAt(events) + c.cooldownMs else 0)]
  }

  lemma StepNotifies(c: Settings, s: System, e: Event)
    ensures var was, now := s.breaker, Apply(c, s, e).breaker;
            now.changes
            == if was.state == now.state then was.changes
               else was.changes + [Change(was.state, now.state, now.failures,
                                          if now.state == Open then now.openedAt + c.cooldownMs else 0)]
  {
  }

  /** Exactly that, once for each change and in order. */
  lemma {:induction false} NotificationsAreHistory(c: Settings, events: seq<Event>)
    requires c.failureThreshold >= 1
    ensures Run(c, events).breaker.changes == ChangesByHistory(c, events)
  {
    hide Apply, StateByHistory, LastFailureAt, FailuresSinceSuccess;
    if |events| > 0 {
      NotificationsAreHistory(c, Before(events));
      BreakerIsItsHistory(c, Before(events));
      BreakerIsItsHistory(c, events);
      StepNotifies(c, Run(c, Before(events)), Last(events));
    }
  }
}
