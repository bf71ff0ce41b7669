/** One read request from its first attempt to its last: what an attempt may wait for,
    when a failure is tried again, and how one deadline bounds it all.  The clock is
    whole milliseconds; timers fire on time and code between waits takes none. */
module ReadRetry {
  import opened Options
  import opened ReadRetryPolicy

  /** Only `RetryableError` is tried again: HTTP 429, 5xx and the listed network errors,
      among them a request timeout. */
  datatype Ending = Success | RetryableError | FatalError | AdmissionTimeout | CircuitOpen

  /** What the world has in store for one attempt. */
  datatype Try = Try(
    laneWait: nat, refused: bool, classWait: nat, globalWait: nat, upstream: nat, ending: Ending, draw: real)

  datatype Limits = Limits(queueTimeoutMs: nat, requestTimeoutMs: nat)

  /** `slotAt` is when the lane slot was taken; it is given back at the end.  `callAt` is
      when the upstream call began. */
  datatype Attempt = Attempt(start: int, end: int, slotAt: Option<int>, callAt: Option<int>, ending: Ending)

  function Max(a: int, b: int): int { if a > b then a else b }

  function Min(a: int, b: int): int { if a < b then a else b }

  /** A missing or non-positive budget means no deadline. */
  function Deadline(now: int, budget: Option<int>): Option<int> {
    if budget.Some? && budget.value > 0 then Some(now + budget.value) else None
  }

  // ---- one attempt ----

  predicate Expired(deadline: Option<int>, now: int) { deadline.Some? && deadline.value - now <= 0 }

  function QueueTimeout(l: Limits, deadline: Option<int>, now: int): int {
    match deadline
    case None => l.queueTimeoutMs
    case Some(d) => Max(1, Min(l.queueTimeoutMs, d - now))
  }

  datatype Stage = Passed(at: int) | Failed(at: int)

  /** A wait for a slot or a token that is cut off by its timeout. */
  function Wait(l: Limits, deadline: Option<int>, now: int, wait: nat): Stage {
    if Expired(deadline, now) then Failed(now)
    else if wait <= QueueTimeout(l, deadline, now) then Passed(now + wait)
    else Failed(now + QueueTimeout(l, deadline, now))
  }

  function RequestTimeout(l: Limits, deadline: Option<int>, now: int): int {
    match deadline
    case None => Max(1, l.requestTimeoutMs)
    case Some(d) => Max(1, Min(l.requestTimeoutMs, Max(1, d - now)))
  }

  function Call(l: Limits, deadline: Option<int>, start: int, slotAt: int, now: int, t: Try): Attempt {
    if Expired(deadline, now) then Attempt(start, now, Some(slotAt), None, AdmissionTimeout)
    else
      var timeout := RequestTimeout(l, deadline, now);
      if t.upstream <= timeout then Attempt(start, now + t.upstream, Some(slotAt), Some(now), t.ending)
      else Attempt(start, now + timeout, Some(slotAt), Some(now), RetryableError)
  }

  /** An attempt through its lane and both rate limiters. */
  function RunRead(l: Limits, budget: Option<int>, start: int, t: Try): Attempt {
    var deadline := Deadline(start, budget);
    match Wait(l, deadline, start, t.laneWait)
    case Failed(at) => Attempt(start, at, None, None, AdmissionTimeout)
    case Passed(slotAt) =>
      if t.refused then Attempt(start, slotAt, Some(slotAt), None, CircuitOpen)
      else
        match Wait(l, deadline, slotAt, t.classWait)
        case Failed(at) => Attempt(start, at, Some(slotAt), None, AdmissionTimeout)
        case Passed(classAt) =>
          match Wait(l, deadline, classAt, t.globalWait)
          case Failed(at) => Attempt(start, at, Some(slotAt), None, AdmissionTimeout)
          case Passed(globalAt) => Call(l, deadline, start, slotAt, globalAt, t)
  }

  /** Waiting and calling together stay within the budget that the attempt was given, and
      the call begins strictly before it is used up. */
  lemma AttemptFitsItsBudget(l: Limits, budget: int, start: int, t: Try)
    requires budget > 0
    ensures var a := RunRead(l, Some(budget), start, t);
            && a.start == start <= a.end <= start + budget
            && (a.callAt.Some? ==> start <= a.callAt.value < start + budget)
            && (a.slotAt.Some? ==> start <= a.slotAt.value <= a.end)
  {
    var deadline := Deadline(start, Some(budget));
    WaitFits(l, deadline, start, t.laneWait);
    var lane := Wait(l, deadline, start, t.laneWait);
    if lane.Passed? {
      WaitFits(l, deadline, lane.at, t.classWait);
      var own := Wait(l, deadline, lane.at, t.classWait);
      if own.Passed? {
        WaitFits(l, deadline, own.at, t.globalWait);
      }
    }
  }

  lemma WaitFits(l: Limits, deadline: Option<int>, now: int, wait: nat)
    requires deadline.Some? && now <= deadline.value
    ensures now <= Wait(l, deadline, now, wait).at <= deadline.value
  {}

  /** Without a budget the queue and request timeouts alone bound an attempt. */
  lemma AttemptWithoutBudget(l: Limits, start: int, t: Try)
    ensures var a := RunRead(l, None, start, t);
            start <= a.end <= start + 3 * l.queueTimeoutMs + Max(1, l.requestTimeoutMs)
  {}

  // ---- how an attempt ends, exactly ----

  /** A wait that begins at `at` ends in what it waits for: within the queue timeout, and
      with time left when it begins and none overdrawn when it ends. */
  predicate GetsIn(l: Limits, deadline: Option<int>, at: int, wait: nat) {
    match deadline
    case None => wait <= l.queueTimeoutMs
    case Some(d) => at < d && at + wait <= d && (wait <= l.queueTimeoutMs || wait <= 1)
  }

  /** The attempt gets its slot, is not refused and gets both tokens, and there is time left
      to call. */
  predicate IsCalled(l: Limits, deadline: Option<int>, start: int, t: Try) {
    var slotAt := start + t.laneWait;
    var classAt := slotAt + t.classWait;
    var globalAt := classAt + t.globalWait;
    && GetsIn(l, deadline, start, t.laneWait) && !t.refused
    && GetsIn(l, deadline, slotAt, t.classWait)
    && GetsIn(l, deadline, classAt, t.globalWait)
    && (deadline.Some? ==> globalAt < deadline.value)
  }

  /** The upstream answers a call made at `at` in time. */
  predicate AnswersInTime(l: Limits, deadline: Option<int>, at: int, t: Try) {
    && (t.upstream <= l.requestTimeoutMs || t.upstream <= 1)
    && (deadline.Some? ==> at + t.upstream <= deadline.value)
  }

  predicate EndsAsAnswered(l: Limits, deadline: Option<int>, start: int, t: Try) {
    IsCalled(l, deadline, start, t) && AnswersInTime(l, deadline, start + t.laneWait + t.classWait + t.globalWait, t)
  }

  lemma WaitGetsIn(l: Limits, deadline: Option<int>, at: int, wait: nat)
    ensures GetsIn(l, deadline, at, wait) <==> Wait(l, deadline, at, wait).Passed?
    ensures GetsIn(l, deadline, at, wait) ==> Wait(l, deadline, at, wait).at == at + wait
  {
  }

  lemma CallIsAnswered(l: Limits, deadline: Option<int>, start: int, slotAt: int, now: int, t: Try)
    ensures var a := Call(l, deadline, start, slotAt, now, t);
            && a.start == start && a.slotAt == Some(slotAt)
            && (if deadline.Some? && deadline.value <= now then a.callAt == None && a.ending == AdmissionTimeout
                else
                  && a.callAt == Some(now)
                  && (if AnswersInTime(l, deadline, now, t) then a.ending == t.ending && a.end == now + t.upstream
                      else a.ending == RetryableError))
  {
  }

  /** Each ending and when it comes: as the upstream answered if the attempt was called and
      answered in time; retryable also if the call was cut off; open circuit also if it was
      refused in its slot; and an admission timeout also if some wait, or the time before the
      call, was too long. */
  lemma AttemptEndsExactly(l: Limits, budget: Option<int>, start: int, t: Try)
    ensures var a, d := RunRead(l, budget, start, t), Deadline(start, budget);
            var slotAt := start + t.laneWait;
            var callAt := slotAt + t.classWait + t.globalWait;
            var slot, called, answered :=
              GetsIn(l, d, start, t.laneWait), IsCalled(l, d, start, t), EndsAsAnswered(l, d, start, t);
            && a.start == start
            && a.slotAt == (if slot then Some(slotAt) else None)
            && a.callAt == (if called then Some(callAt) else None)
            && (a.ending == Success <==> answered && t.ending == Success)
            && (a.ending == FatalError <==> answered && t.ending == FatalError)
            && (a.ending == RetryableError <==> called && (!answered || t.ending == RetryableError))
            && (a.ending == CircuitOpen <==> (slot && t.refused) || (answered && t.ending == CircuitOpen))
            && (a.ending == AdmissionTimeout
                <==> !slot || (!t.refused && !called) || (answered && t.ending == AdmissionTimeout))
            && (answered ==> a.end == callAt + t.upstream)
            && (slot && t.refused ==> a.end == slotAt)
  {
    hide Wait, Call, GetsIn, AnswersInTime, Deadline;
    var d := Deadline(start, budget);
    var slotAt := start + t.laneWait;
    var classAt := slotAt + t.classWait;
    WaitGetsIn(l, d, start, t.laneWait);
    WaitGetsIn(l, d, slotAt, t.classWait);
    WaitGetsIn(l, d, classAt, t.globalWait);
    CallIsAnswered(l, d, start, slotAt, classAt + t.globalWait, t);
  }

  /** A call that is cut off ends when its timeout is over, which with a budget is the
      deadline at the latest; and a wait that is cut off likewise. */
  lemma CutOffEndsAt(l: Limits, budget: Option<int>, start: int, t: Try)
    ensures var a, d := RunRead(l, budget, start, t), Deadline(start, budget);
            var callAt := start + t.laneWait + t.classWait + t.globalWait;
            && (IsCalled(l, d, start, t) && !EndsAsAnswered(l, d, start, t) ==>
                  var timeout := if l.requestTimeoutMs > 1 then l.requestTimeoutMs else 1;
                  a.end == if d.Some? && d.value < callAt + timeout then d.value else callAt + timeout)
            && (!GetsIn(l, d, start, t.laneWait) ==>
                  var timeout := if d.Some? && l.queueTimeoutMs < 1 then 1 else l.queueTimeoutMs;
                  a.end == if d.Some? && d.value < start + timeout then d.value else start + timeout)
            && (a.slotAt.Some? && !t.refused && !GetsIn(l, d, start + t.laneWait, t.classWait) ==>
                  var timeout := if d.Some? && l.queueTimeoutMs < 1 then 1 else l.queueTimeoutMs;
                  var asked := start + t.laneWait;
                  a.end == if d.Some? && d.value < asked + timeout then d.value else asked + timeout)
            && (a.slotAt.Some? && !t.refused && GetsIn(l, d, start + t.laneWait, t.classWait)
                && !GetsIn(l, d, start + t.laneWait + t.classWait, t.globalWait) ==>
                  var timeout := if d.Some? && l.queueTimeoutMs < 1 then 1 else l.queueTimeoutMs;
                  var asked := start + t.laneWait + t.classWait;
                  a.end == if d.Some? && d.value < asked + timeout then d.value else asked + timeout)
  {
  }

  // ---- the retry loop, around any task ----

  datatype RetryOptions = RetryOptions(maxRetries: int, baseDelayMs: int, overallTimeoutMs: Option<int>)

  /** What attempt number `n` does when it starts at a given time. */
  type Task = (nat, int) -> Attempt

  type DrawSource = nat -> real

  function Retries(o: RetryOptions): nat { Max(0, o.maxRetries) }

  function Base(o: RetryOptions): nat { Max(0, o.baseDelayMs) }

  function Delay(o: RetryOptions, draw: DrawSource, attempt: nat): int {
    BackoffDelay(Base(o), attempt, draw(attempt))
  }

  predicate TriesAgain(o: RetryOptions, draw: DrawSource, deadline: Option<int>, attempt: nat, a: Attempt) {
    && attempt < Retries(o)
    && a.ending == RetryableError
    && !(deadline.Some? && a.end + Delay(o, draw, attempt) >= deadline.value)
  }

  /** The attempts from attempt number `attempt` on. */
  function Attempts(o: RetryOptions, task: Task, draw: DrawSource, deadline: Option<int>, attempt: nat, now: int): (trace: seq<Attempt>)
    ensures |trace| > 0 && trace[0] == task(attempt, now)
    decreases Retries(o) - attempt
  {
    var a := task(attempt, now);
    if TriesAgain(o, draw, deadline, attempt, a) then
      [a] + Attempts(o, task, draw, deadline, attempt + 1, a.end + Delay(o, draw, attempt))
    else [a]
  }

  method RunWithReadRetry(o: RetryOptions, task: Task, draw: DrawSource, start: int) returns (trace: seq<Attempt>)
    ensures trace == Attempts(o, task, draw, Deadline(start, o.overallTimeoutMs), 0, start)
  {
    var maxRetries: nat := Max(0, o.maxRetries);
    var deadline := Deadline(start, o.overallTimeoutMs);
    var attempt: nat, now := 0, start;
    trace := [];
    while true
      invariant attempt <= maxRetries
      invariant trace + Attempts(o, task, draw, deadline, attempt, now)
                == Attempts(o, task, draw, Deadline(start, o.overallTimeoutMs), 0, start)
      decreases maxRetries - attempt
    {
      var a := task(attempt, now);
      trace := trace + [a];
      if a.ending == Success {
        return;
      }
      var shouldRetry := attempt < maxRetries && a.ending == RetryableError;
      if !shouldRetry {
        return;
      }
      var waitMs := Delay(o, draw, attempt);
      if deadline.Some? && a.end + waitMs >= deadline.value {
        return;
      }
      now := a.end + waitMs;
      attempt := attempt + 1;
    }
  }

  lemma {:induction false} AttemptsAreLimited(o: RetryOptions, task: Task, draw: DrawSource, deadline: Option<int>, attempt: nat, now: int)
    requires attempt <= Retries(o)
    ensures attempt + |Attempts(o, task, draw, deadline, attempt, now)| <= Retries(o) + 1
    decreases Retries(o) - attempt
  {
    var a := task(attempt, now);
    if TriesAgain(o, draw, deadline, attempt, a) {
      AttemptsAreLimited(o, task, draw, deadline, attempt + 1, a.end + Delay(o, draw, attempt));
    }
  }

  /** Every attempt but the last failed in a way that is tried again, and the next one
      starts when its delay after that attempt's end is over, in time for the deadline. */
  lemma {:induction false} NextAttempt(o: RetryOptions, task: Task, draw: DrawSource, deadline: Option<int>, attempt: nat, now: int, k: nat)
    requires attempt <= Retries(o)
    requires k + 1 < |Attempts(o, task, draw, deadline, attempt, now)|
    ensures var trace := Attempts(o, task, draw, deadline, attempt, now);
            var next := trace[k].end + Delay(o, draw, attempt + k);
            && trace[k].ending == RetryableError
            && trace[k + 1] == task(attempt + k + 1, next)
            && (deadline.Some? ==> next < deadline.value)
    decreases k
  {
    if k > 0 {
      var next := task(attempt, now).end + Delay(o, draw, attempt);
      NextAttempt(o, task, draw, deadline, attempt + 1, next, k - 1);
    }
  }

  // ---- the request ----

  /** The budget handed to an attempt: what remains, but at least one millisecond. */
  function Remaining(deadline: Option<int>, now: int): Option<int> {
    match deadline case None => None case Some(d) => Some(Max(1, d - now))
  }

  function ReadTask(l: Limits, world: nat -> Try, deadline: Option<int>): Task {
    (n: nat, now: int) => RunRead(l, Remaining(deadline, now), now, world(n))
  }

  function Draws(world: nat -> Try): DrawSource {
    (n: nat) => world(n).draw
  }

  function Request(l: Limits, o: RetryOptions, world: nat -> Try, start: int): seq<Attempt> {
    var deadline := Deadline(start, o.overallTimeoutMs);
    Attempts(o, ReadTask(l, world, deadline), Draws(world), deadline, 0, start)
  }

  /** At most one attempt more than the retries. */
  lemma RequestAttemptsAreLimited(l: Limits, o: RetryOptions, world: nat -> Try, start: int)
    ensures 1 <= |Request(l, o, world, start)| <= Retries(o) + 1
  {
    var deadline := Deadline(start, o.overallTimeoutMs);
    AttemptsAreLimited(o, ReadTask(l, world, deadline), Draws(world), deadline, 0, start);
  }

  /** An attempt starts when it is told to and takes its slot, if any, before it ends. */
  ghost predicate Sound(task: Task) {
    forall n: nat, t: int ::
      var a := task(n, t);
      a.start == t <= a.end && (a.slotAt.Some? ==> t <= a.slotAt.value <= a.end)
  }

  lemma SlotIsTakenWithin(l: Limits, budget: Option<int>, start: int, t: Try)
    ensures var a := RunRead(l, budget, start, t);
            a.start == start <= a.end && (a.slotAt.Some? ==> start <= a.slotAt.value <= a.end)
  {}

  lemma ReadTaskIsSound(l: Limits, world: nat -> Try, deadline: Option<int>)
    ensures Sound(ReadTask(l, world, deadline))
  {
    forall n: nat, t: int
      ensures var a := ReadTask(l, world, deadline)(n, t);
              a.start == t <= a.end && (a.slotAt.Some? ==> t <= a.slotAt.value <= a.end)
    {
      SlotIsTakenWithin(l, Remaining(deadline, t), t, world(n));
    }
  }

  /** An attempt holds its lane slot from taking it to its own end, where the lane's
      `finally` gives it back. */
  predicate HoldsSlot(a: Attempt, x: int) {
    a.slotAt.Some? && a.slotAt.value <= x < a.end
  }

  lemma {:induction false} AttemptsInOrder(o: RetryOptions, task: Task, draw: DrawSource, deadline: Option<int>, start: int, i: nat, j: nat)
    requires Sound(task) && forall n: nat :: Draw(draw(n))
    requires i < j < |Attempts(o, task, draw, deadline, 0, start)|
    ensures var trace := Attempts(o, task, draw, deadline, 0, start);
            trace[i].end <= trace[j].start
    decreases j
  {
    hide Attempts, BackoffDelay, TriesAgain;
    var trace := Attempts(o, task, draw, deadline, 0, start);
    NextAttempt(o, task, draw, deadline, 0, start, j - 1);
    DelayBound(Base(o), j - 1, draw(j - 1));
    if i < j - 1 {
      AttemptsInOrder(o, task, draw, deadline, start, i, j - 1);
      AttemptIsSound(o, task, draw, deadline, start, j - 1);
    }
  }

  lemma AttemptIsSound(o: RetryOptions, task: Task, draw: DrawSource, deadline: Option<int>, start: int, k: nat)
    requires Sound(task) && k < |Attempts(o, task, draw, deadline, 0, start)|
    ensures var a := Attempts(o, task, draw, deadline, 0, start)[k];
            a.start <= a.end && (a.slotAt.Some? ==> a.start <= a.slotAt.value <= a.end)
  {
    hide Attempts, BackoffDelay;
    if k > 0 {
      NextAttempt(o, task, draw, deadline, 0, start, k - 1);
    }
  }

  lemma NoSlotInDelay(o: RetryOptions, task: Task, draw: DrawSource, deadline: Option<int>, start: int, k: nat, j: nat, x: int)
    requires Sound(task) && forall n: nat :: Draw(draw(n))
    requires k + 1 < |Attempts(o, task, draw, deadline, 0, start)| && j < |Attempts(o, task, draw, deadline, 0, start)|
    requires var trace := Attempts(o, task, draw, deadline, 0, start); trace[k].end <= x < trace[k + 1].start
    ensures !HoldsSlot(Attempts(o, task, draw, deadline, 0, start)[j], x)
  {
    hide Attempts, Sound;
    AttemptIsSound(o, task, draw, deadline, start, j);
    if j < k {
      AttemptsInOrder(o, task, draw, deadline, start, j, k);
      AttemptIsSound(o, task, draw, deadline, start, k);
    } else if j > k + 1 {
      AttemptsInOrder(o, task, draw, deadline, start, k + 1, j);
      AttemptIsSound(o, task, draw, deadline, start, k + 1);
    }
  }

  /** No slot is held while a request backs off: at no time between the end of one attempt
      and the start of the next does any of its attempts hold a lane slot. */
  lemma NoSlotWhileBackingOff(l: Limits, o: RetryOptions, world: nat -> Try, start: int, k: nat, j: nat, x: int)
    requires forall n: nat :: Draw(world(n).draw)
    requires k + 1 < |Request(l, o, world, start)| && j < |Request(l, o, world, start)|
    requires var trace := Request(l, o, world, start); trace[k].end <= x < trace[k + 1].start
    ensures !HoldsSlot(Request(l, o, world, start)[j], x)
  {
    hide RunRead, Attempts;
    var deadline := Deadline(start, o.overallTimeoutMs);
    ReadTaskIsSound(l, world, deadline);
    NoSlotInDelay(o, ReadTask(l, world, deadline), Draws(world), deadline, start, k, j, x);
  }

  /** When attempt `k` starts: in time for the deadline. */
  lemma AttemptStartsInTime(o: RetryOptions, task: Task, draw: DrawSource, d: int, start: int, k: nat) returns (at: int)
    requires start < d && k < |Attempts(o, task, draw, Some(d), 0, start)|
    ensures at < d && Attempts(o, task, draw, Some(d), 0, start)[k] == task(k, at)
  {
    hide Attempts, BackoffDelay;
    at := start;
    if k > 0 {
      NextAttempt(o, task, draw, Some(d), 0, start, k - 1);
      at := Attempts(o, task, draw, Some(d), 0, start)[k - 1].end + Delay(o, draw, k - 1);
    }
  }

  lemma ReadTaskFitsItsBudget(l: Limits, world: nat -> Try, d: int, at: int, k: nat)
    requires at < d
    ensures var a := ReadTask(l, world, Some(d))(k, at);
            a.start < d && a.end <= d && (a.callAt.Some? ==> a.callAt.value < d)
  {
    hide RunRead;
    AttemptFitsItsBudget(l, d - at, at, world(k));
    assert Remaining(Some(d), at) == Some(d - at);
  }

  /** With a total budget, every attempt begins strictly before the deadline and all of it,
      lane wait, token waits and upstream call, is over by the deadline. */
  lemma RequestMeetsItsDeadline(l: Limits, o: RetryOptions, world: nat -> Try, start: int, k: nat)
    requires o.overallTimeoutMs.Some? && o.overallTimeoutMs.value > 0
    requires k < |Request(l, o, world, start)|
    ensures var a, d := Request(l, o, world, start)[k], start + o.overallTimeoutMs.value;
            a.start < d && a.end <= d && (a.callAt.Some? ==> a.callAt.value < d)
  {
    hide RunRead, Attempts, ReadTask;
    var d := start + o.overallTimeoutMs.value;
    var at := AttemptStartsInTime(o, ReadTask(l, world, Some(d)), Draws(world), d, start, k);
    ReadTaskFitsItsBudget(l, world, d, at, k);
  }

  // ---- when the request succeeds ----

  /** When attempt `n` begins if all before it fail retryably, and what comes of it. */
  ghost function NthStart(l: Limits, o: RetryOptions, world: nat -> Try, start: int, n: nat): int
    decreases n, 0
  {
    if n == 0 then start else NthAttempt(l, o, world, start, n - 1).end + Delay(o, Draws(world), n - 1)
  }

  ghost function NthAttempt(l: Limits, o: RetryOptions, world: nat -> Try, start: int, n: nat): Attempt
    decreases n, 1
  {
    var at := NthStart(l, o, world, start, n);
    RunRead(l, Remaining(Deadline(start, o.overallTimeoutMs), at), at, world(n))
  }

  /** Attempt `n` fails retryably, and the delay after it is over before the deadline. */
  ghost predicate GoesOn(l: Limits, o: RetryOptions, world: nat -> Try, start: int, n: nat) {
    && NthAttempt(l, o, world, start, n).ending == RetryableError
    && (o.overallTimeoutMs.Some? && o.overallTimeoutMs.value > 0 ==>
          NthStart(l, o, world, start, n + 1) < start + o.overallTimeoutMs.value)
  }

  /** There is a retry left for attempt `n`, and all before it have gone on. */
  ghost predicate IsReached(l: Limits, o: RetryOptions, world: nat -> Try, start: int, n: nat) {
    n <= Retries(o) && forall i :: 0 <= i < n ==> GoesOn(l, o, world, start, i)
  }

  /** Attempt `n` is called, answered in time and answered well. */
  ghost predicate NthSucceeds(l: Limits, o: RetryOptions, world: nat -> Try, start: int, n: nat) {
    var at := NthStart(l, o, world, start, n);
    && EndsAsAnswered(l, Deadline(at, Remaining(Deadline(start, o.overallTimeoutMs), at)), at, world(n))
    && world(n).ending == Success
  }

  lemma {:induction false} LastAttemptStops(o: RetryOptions, task: Task, draw: DrawSource, deadline: Option<int>, attempt: nat, now: int)
    requires attempt <= Retries(o)
    ensures var trace := Attempts(o, task, draw, deadline, attempt, now);
            var last := |trace| - 1;
            !TriesAgain(o, draw, deadline, attempt + last, trace[last])
    decreases Retries(o) - attempt
  {
    hide BackoffDelay;
    var a := task(attempt, now);
    if TriesAgain(o, draw, deadline, attempt, a) {
      LastAttemptStops(o, task, draw, deadline, attempt + 1, a.end + Delay(o, draw, attempt));
    }
  }

  lemma {:induction false} NthIsMade(l: Limits, o: RetryOptions, world: nat -> Try, start: int, n: nat)
    requires n < |Request(l, o, world, start)|
    ensures Request(l, o, world, start)[n] == NthAttempt(l, o, world, start, n) && IsReached(l, o, world, start, n)
  {
    hide RunRead, Attempts, Delay, Draws;
    RequestAttemptsAreLimited(l, o, world, start);
    if n > 0 {
      var deadline := Deadline(start, o.overallTimeoutMs);
      NthIsMade(l, o, world, start, n - 1);
      NextAttempt(o, ReadTask(l, world, deadline), Draws(world), deadline, 0, start, n - 1);
      assert NthStart(l, o, world, start, n) == Request(l, o, world, start)[n - 1].end + Delay(o, Draws(world), n - 1);
      assert GoesOn(l, o, world, start, n - 1);
    }
  }

  lemma ReachedNext(l: Limits, o: RetryOptions, world: nat -> Try, start: int, n: nat)
    requires IsReached(l, o, world, start, n + 1)
    ensures n < Retries(o) && NthAttempt(l, o, world, start, n).ending == RetryableError
    ensures var next := NthAttempt(l, o, world, start, n).end + Delay(o, Draws(world), n);
            o.overallTimeoutMs.Some? && o.overallTimeoutMs.value > 0 ==> next < start + o.overallTimeoutMs.value
  {
    hide RunRead, Delay, Draws, Retries;
    assert GoesOn(l, o, world, start, n);
  }

  lemma ReachedBefore(l: Limits, o: RetryOptions, world: nat -> Try, start: int, n: nat, m: nat)
    requires IsReached(l, o, world, start, n) && m <= n
    ensures IsReached(l, o, world, start, m)
  {
    hide GoesOn;
  }

  /** The attempts made are exactly those that are reached. */
  lemma MadeIffReached(l: Limits, o: RetryOptions, world: nat -> Try, start: int, n: nat)
    ensures n < |Request(l, o, world, start)| <==> IsReached(l, o, world, start, n)
  {
    hide RunRead, Attempts, BackoffDelay, IsReached, NthAttempt;
    var trace := Request(l, o, world, start);
    var deadline := Deadline(start, o.overallTimeoutMs);
    RequestAttemptsAreLimited(l, o, world, start);
    if n < |trace| {
      NthIsMade(l, o, world, start, n);
    } else if IsReached(l, o, world, start, n) {
      var last := |trace| - 1;
      NthIsMade(l, o, world, start, last);
      LastAttemptStops(o, ReadTask(l, world, deadline), Draws(world), deadline, 0, start);
      ReachedBefore(l, o, world, start, n, last + 1);
      ReachedNext(l, o, world, start, last);
    }
  }

  lemma NthSucceedsIff(l: Limits, o: RetryOptions, world: nat -> Try, start: int, n: nat)
    ensures NthAttempt(l, o, world, start, n).ending == Success <==> NthSucceeds(l, o, world, start, n)
  {
    hide RunRead, EndsAsAnswered, IsCalled, GetsIn;
    var at := NthStart(l, o, world, start, n);
    AttemptEndsExactly(l, Remaining(Deadline(start, o.overallTimeoutMs), at), at, world(n));
  }

  /** The request ends well exactly if some attempt that is reached does. */
  lemma RequestSucceedsIff(l: Limits, o: RetryOptions, world: nat -> Try, start: int)
    ensures var trace := Request(l, o, world, start);
            |trace| > 0 && (trace[|trace| - 1].ending == Success
                            <==> exists n :: IsReached(l, o, world, start, n) && NthSucceeds(l, o, world, start, n))
  {
    hide RunRead, Attempts, NthSucceeds, IsReached, Request;
    var trace := Request(l, o, world, start);
    RequestAttemptsAreLimited(l, o, world, start);
    var last := |trace| - 1;
    NthIsMade(l, o, world, start, last);
    NthSucceedsIff(l, o, world, start, last);
    MadeIffReached(l, o, world, start, last);
    forall n: nat | IsReached(l, o, world, start, n) && NthSucceeds(l, o, world, start, n) ensures n == last {
      MadeIffReached(l, o, world, start, n);
      NthIsMade(l, o, world, start, n);
      NthSucceedsIff(l, o, world, start, n);
      if n < last {
        EarlierFailed(l, o, world, start, n, last);
      }
    }
  }

  lemma EarlierFailed(l: Limits, o: RetryOptions, world: nat -> Try, start: int, n: nat, last: nat)
    requires IsReached(l, o, world, start, last) && n < last
    ensures NthAttempt(l, o, world, start, n).ending == RetryableError
  {
    hide NthAttempt, NthStart;
    assert GoesOn(l, o, world, start, n);
  }

  /** The client's request.  Its attempts are at most one more than the retries; each but the
      last failed in a way that is tried again, and the next starts when its delay is over;
      and with a budget all of them start before the deadline and are over by it.  It ends
      well exactly if some attempt that is reached is answered well and in time. */
  method RunReadRequest(l: Limits, o: RetryOptions, world: nat -> Try, start: int) returns (trace: seq<Attempt>)
    ensures trace == Request(l, o, world, start)
    ensures 1 <= |trace| <= Retries(o) + 1 && trace[0].start == start
    ensures forall k {:trigger trace[k + 1]} :: 0 <= k < |trace| - 1 ==>
              trace[k].ending == RetryableError && trace[k + 1].start == trace[k].end + Delay(o, Draws(world), k)
    ensures o.overallTimeoutMs.Some? && o.overallTimeoutMs.value > 0 ==>
              forall k :: 0 <= k < |trace| ==>
                trace[k].start < start + o.overallTimeoutMs.value && trace[k].end <= start + o.overallTimeoutMs.value
    ensures trace[|trace| - 1].ending == Success
            <==> exists n :: IsReached(l, o, world, start, n) && NthSucceeds(l, o, world, start, n)
  {
    hide RunRead, Attempts, BackoffDelay;
    var deadline := Deadline(start, o.overallTimeoutMs);
    trace := RunWithReadRetry(o, ReadTask(l, world, deadline), Draws(world), start);
    RequestAttemptsAreLimited(l, o, world, start);
    RequestSucceedsIff(l, o, world, start);
    ReadTaskIsSound(l, world, deadline);
    forall k | 0 <= k < |trace| - 1
      ensures trace[k].ending == RetryableError && trace[k + 1].start == trace[k].end + Delay(o, Draws(world), k)
    {
      NextAttempt(o, ReadTask(l, world, deadline), Draws(world), deadline, 0, start, k);
    }
    if o.overallTimeoutMs.Some? && o.overallTimeoutMs.value > 0 {
      forall k | 0 <= k < |trace|
        ensures trace[k].start < start + o.overallTimeoutMs.value && trace[k].end <= start + o.overallTimeoutMs.value
      {
        RequestMeetsItsDeadline(l, o, world, start, k);
      }
    }
  }

  // ---- the budget is enough ----

  function FirstDraws(draw: DrawSource, n: nat): seq<real> {
    seq(n, i requires 0 <= i => draw(i))
  }

  predicate TakesAtMost(trace: seq<Attempt>, timeoutMs: nat) {
    forall k :: 0 <= k < |trace| ==> trace[k].end - trace[k].start <= timeoutMs
  }

  lemma DelaysExtend(o: RetryOptions, draw: DrawSource, n: nat)
    ensures BackoffTotal(Base(o), FirstDraws(draw, n + 1)) == BackoffTotal(Base(o), FirstDraws(draw, n)) + Delay(o, draw, n)
  {
    assert FirstDraws(draw, n + 1)[..n] == FirstDraws(draw, n);
  }

  /** When attempt number `attempt` may start if all before it kept to the timeout. */
  function Latest(o: RetryOptions, draw: DrawSource, start: int, timeoutMs: nat, attempt: nat): int {
    start + attempt * timeoutMs + BackoffTotal(Base(o), FirstDraws(draw, attempt))
  }

  lemma LatestStep(o: RetryOptions, draw: DrawSource, start: int, timeoutMs: nat, attempt: nat)
    ensures Latest(o, draw, start, timeoutMs, attempt + 1)
            == Latest(o, draw, start, timeoutMs, attempt) + timeoutMs + Delay(o, draw, attempt)
  {
    DelaysExtend(o, draw, attempt);
    assert (attempt + 1) * timeoutMs == attempt * timeoutMs + timeoutMs;
  }

  /** Attempts that each keep to the timeout leave room for the delay after them. */
  lemma {:induction false} DeadlineNeverCutsOff(o: RetryOptions, task: Task, draw: DrawSource, start: int, d: int, timeoutMs: nat, attempt: nat, now: int)
    requires attempt <= Retries(o) && now <= Latest(o, draw, start, timeoutMs, attempt)
    requires forall n: nat :: n <= Retries(o) ==> Latest(o, draw, start, timeoutMs, n) < d
    requires Sound(task)
    requires TakesAtMost(Attempts(o, task, draw, Some(d), attempt, now), timeoutMs)
    ensures var trace := Attempts(o, task, draw, Some(d), attempt, now);
            attempt + |trace| == Retries(o) + 1 || trace[|trace| - 1].ending != RetryableError
    decreases Retries(o) - attempt
  {
    hide Latest, BackoffDelay, Delay;
    var a := task(attempt, now);
    var trace := Attempts(o, task, draw, Some(d), attempt, now);
    assert trace[0].end - trace[0].start <= timeoutMs;
    if attempt < Retries(o) && a.ending == RetryableError {
      var next := a.end + Delay(o, draw, attempt);
      LatestStep(o, draw, start, timeoutMs, attempt);
      var rest := Attempts(o, task, draw, Some(d), attempt + 1, next);
      assert next < d;
      assert trace == [a] + rest;
      forall k | 0 <= k < |rest| ensures rest[k].end - rest[k].start <= timeoutMs {
        assert rest[k] == trace[k + 1];
      }
      DeadlineNeverCutsOff(o, task, draw, start, d, timeoutMs, attempt + 1, next);
    }
  }

  /** The options that the client builds from a policy. */
  function OptionsOf(p: Policy): RetryOptions {
    RetryOptions(p.maxRetries, p.retryBaseDelayMs, Some(p.totalBudgetMs))
  }

  lemma PolicyLeavesTime(i: PolicyInput, draw: DrawSource, start: int, n: nat)
    requires ResolveMutationReadPolicy(i).Accepted? && i.timeoutMs > 0 && n <= i.maxRetries
    requires forall k: nat :: Draw(draw(k))
    ensures var p := ResolveMutationReadPolicy(i).policy;
            Latest(OptionsOf(p), draw, start, p.timeoutMs, n) < start + p.totalBudgetMs
  {
    hide BackoffTotal, MaximumBackoffBudget;
    AcceptedPolicyHasRoom(i, FirstDraws(draw, n));
    assert n * i.timeoutMs < i.timeoutMs * (i.maxRetries + 1);
  }

  lemma PolicyNeverCutsOff(i: PolicyInput, task: Task, draw: DrawSource, start: int)
    requires ResolveMutationReadPolicy(i).Accepted? && i.timeoutMs > 0 && Sound(task)
    requires forall n: nat :: Draw(draw(n))
    requires var p := ResolveMutationReadPolicy(i).policy;
             TakesAtMost(Attempts(OptionsOf(p), task, draw, Some(start + p.totalBudgetMs), 0, start), i.timeoutMs)
    ensures var p := ResolveMutationReadPolicy(i).policy;
            var trace := Attempts(OptionsOf(p), task, draw, Some(start + p.totalBudgetMs), 0, start);
            |trace| == i.maxRetries + 1 || trace[|trace| - 1].ending != RetryableError
  {
    var p := ResolveMutationReadPolicy(i).policy;
    var o, d := OptionsOf(p), start + p.totalBudgetMs;
    forall n: nat | n <= Retries(o) ensures Latest(o, draw, start, p.timeoutMs, n) < d {
      PolicyLeavesTime(i, draw, start, n);
    }
    assert Latest(o, draw, start, p.timeoutMs, 0) == start;
    DeadlineNeverCutsOff(o, task, draw, start, d, p.timeoutMs, 0, start);
  }

  lemma PolicyHasADeadline(i: PolicyInput, start: int)
    requires ResolveMutationReadPolicy(i).Accepted? && i.timeoutMs > 0
    ensures var p := ResolveMutationReadPolicy(i).policy;
            Deadline(start, Some(p.totalBudgetMs)) == Some(start + p.totalBudgetMs)
  {
    AcceptedPolicyHasRoom(i, []);
    assert i.timeoutMs * (i.maxRetries + 1) > 0;
  }

  /** Under an accepted policy, a request whose attempts each take at most the timeout is
      never cut off by its deadline: it stops only with a success, with an error that is
      not tried again, or with all retries used. */
  lemma AcceptedBudgetIsEnough(l: Limits, i: PolicyInput, world: nat -> Try, start: int)
    requires ResolveMutationReadPolicy(i).Accepted? && i.timeoutMs > 0
    requires forall n: nat :: Draw(world(n).draw)
    requires TakesAtMost(Request(l, OptionsOf(ResolveMutationReadPolicy(i).policy), world, start), i.timeoutMs)
    ensures var trace := Request(l, OptionsOf(ResolveMutationReadPolicy(i).policy), world, start);
            |trace| == i.maxRetries + 1 || trace[|trace| - 1].ending != RetryableError
  {
    hide MinimumTotalBudget, Attempts, RunRead, BackoffDelay;
    var deadline := Deadline(start, Some(ResolveMutationReadPolicy(i).policy.totalBudgetMs));
    PolicyHasADeadline(i, start);
    ReadTaskIsSound(l, world, deadline);
    PolicyNeverCutsOff(i, ReadTask(l, world, deadline), Draws(world), start);
  }
}
