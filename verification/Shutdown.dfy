/** Graceful shutdown: one sequence of effects with waits in it, a checkpoint that flushes
    early when the drains are slow, and a timer that ends the process if the sequence
    gets stuck. */
module Shutdown {
  datatype Wait = Server | MutationQueue | CallbackQueue

  datatype Settlement = NotBegun | Pending | Resolved | Rejected

  datatype Stage =
    | Idle | CloseMutationAdmission | CloseSse | StopHttpAndBackground | WaitForDrain
    | DrainCheckpointFlush | FlushRegistries | CloseServiceStores | CloseSqlite | Done

  datatype Cause = Sequence | ForceTimer

  datatype Effect =
    | MutationAdmissionClosed | CallbackAdmissionClosed | SseClosed | BackgroundStopped
    | Begun(wait: Wait) | Settled(wait: Wait, ok: bool)
    | CheckpointReached | FlushBegun | FlushEnded
    | StoresCloseBegun | StoresClosed | SqliteCloseBegun | SqliteClosed
    | Exited(code: int, cause: Cause)

  /** `failed` says that a call in the sequence has thrown, so that nothing follows. */
  datatype State = State(
    shuttingDown: bool,
    stage: Stage,
    failed: bool,
    checkpointed: bool,
    timerArmed: bool,
    server: Settlement,
    mutation: Settlement,
    callback: Settlement,
    exitCode: int,
    exited: bool,
    log: seq<Effect>)

  const START: State := State(false, Idle, false, false, false, NotBegun, NotBegun, NotBegun, 0, false, [])

  /** What the handler does before its first wait, in order. */
  const OPENING: seq<Effect> :=
    [MutationAdmissionClosed, CallbackAdmissionClosed, SseClosed, Begun(Server), BackgroundStopped,
     Begun(MutationQueue), Begun(CallbackQueue)]

  function StageAfter(done: nat): Stage {
    if done < 2 then CloseMutationAdmission
    else if done == 2 then CloseSse
    else if done < 5 then StopHttpAndBackground
    else WaitForDrain
  }

  function If(begun: bool): Settlement { if begun then Pending else NotBegun }

  /** After the first `n` effects of the opening. */
  function Opened(code: int, n: nat): State
    requires n <= |OPENING|
  {
    State(true, StageAfter(n), false, false, true, If(n > 3), If(n > 5), If(n > 6), code, false, OPENING[..n])
  }

  lemma OpenedOneMore(code: int, n: nat)
    requires n < |OPENING|
    ensures var s, next := Opened(code, n), OPENING[n];
            Opened(code, n + 1)
            == s.(stage := StageAfter(n + 1), log := s.log + [next],
                  server := if next == Begun(Server) then Pending else s.server,
                  mutation := if next == Begun(MutationQueue) then Pending else s.mutation,
                  callback := if next == Begun(CallbackQueue) then Pending else s.callback)
  {
    hide StageAfter;
    assert OPENING[..n + 1] == OPENING[..n] + [OPENING[n]];
  }

  /** A signal, of which the first starts the sequence; its opening may throw after `done`
      of its effects. */
  function OnSignal(s: State, code: int, done: nat): State {
    if s.shuttingDown then s
    else
      var n := if done < |OPENING| then done else |OPENING|;
      Opened(code, n).(failed := n < |OPENING|)
  }

  function Of(s: State, w: Wait): Settlement {
    match w case Server => s.server case MutationQueue => s.mutation case CallbackQueue => s.callback
  }

  function WithSettlement(s: State, w: Wait, x: Settlement): State {
    match w
    case Server => s.(server := x)
    case MutationQueue => s.(mutation := x)
    case CallbackQueue => s.(callback := x)
  }

  /** The wait for all three goes on, fails with the first rejection, or is over. */
  function Proceed(s: State): State {
    if s.server == Rejected || s.mutation == Rejected || s.callback == Rejected then s.(failed := true)
    else if s.server == Resolved && s.mutation == Resolved && s.callback == Resolved then
      s.(stage := FlushRegistries, log := s.log + [FlushBegun])
    else s
  }

  function OnSettled(s: State, w: Wait, ok: bool): State {
    var t := WithSettlement(s, w, if ok then Resolved else Rejected).(log := s.log + [Settled(w, ok)]);
    if s.stage == WaitForDrain && !s.failed then Proceed(t) else t
  }

  function OnCheckpoint(s: State): State {
    if s.stage == WaitForDrain && !s.failed && !s.checkpointed then
      s.(stage := DrainCheckpointFlush, checkpointed := true, log := s.log + [CheckpointReached, FlushBegun])
    else s
  }

  function OnFlushed(s: State, ok: bool): State {
    if !ok then s.(failed := true)
    else if s.stage == DrainCheckpointFlush then
      Proceed(s.(stage := WaitForDrain, log := s.log + [FlushEnded]))
    else s.(stage := CloseServiceStores, log := s.log + [FlushEnded, StoresCloseBegun])
  }

  function OnStoresClosed(s: State, ok: bool): State {
    if !ok then s.(failed := true)
    else s.(stage := CloseSqlite, log := s.log + [StoresClosed, SqliteCloseBegun])
  }

  function OnSqliteClosed(s: State, ok: bool): State {
    if !ok then s.(failed := true)
    else
      s.(stage := Done, timerArmed := false, exited := true,
         log := s.log + [SqliteClosed, Exited(s.exitCode, Sequence)])
  }

  function OnForceTimer(s: State): State {
    s.(timerArmed := false, exited := true, log := s.log + [Exited(1, ForceTimer)])
  }

  // ---- the handler object ----

  class GracefulShutdownHandler {
    var shuttingDown: bool
    var stage: Stage
    var failed: bool
    var checkpointed: bool
    var forceExitTimerArmed: bool
    var server: Settlement
    var mutation: Settlement
    var callback: Settlement
    var exitCode: int
    var exited: bool
    ghost var log: seq<Effect>

    ghost function Value(): State
      reads this
    {
      State(shuttingDown, stage, failed, checkpointed, forceExitTimerArmed, server, mutation, callback, exitCode, exited, log)
    }

    constructor ()
      ensures Value() == START
    {
      shuttingDown, stage, failed, checkpointed, forceExitTimerArmed := false, Idle, false, false, false;
      server, mutation, callback, exitCode, exited, log := NotBegun, NotBegun, NotBegun, 0, false, [];
    }

    /** The call at place `n` of the opening. */
    method OpeningCall(code: int, n: nat)
      requires n < |OPENING| && Value() == Opened(code, n)
      modifies this
      ensures Value() == Opened(code, n + 1)
    {
      hide StageAfter, Opened;
      OpenedOneMore(code, n);
      if OPENING[n] == Begun(Server) {
        server := Pending;
      } else if OPENING[n] == Begun(MutationQueue) {
        mutation := Pending;
      } else if OPENING[n] == Begun(CallbackQueue) {
        callback := Pending;
      }
      log := log + [OPENING[n]];
      stage := StageAfter(n + 1);
    }

    /** The opening runs call by call and stops where one throws. */
    method Begin(code: int, done: nat)
      requires !exited && (!shuttingDown ==> Value() == START)
      modifies this
      ensures Value() == OnSignal(old(Value()), code, done)
    {
      hide StageAfter;
      if shuttingDown {
        return;
      }
      shuttingDown, exitCode, forceExitTimerArmed := true, code, true;
      stage := StageAfter(0);
      assert Value() == Opened(code, 0);
      var n := 0;
      while n < |OPENING| && n < done
        invariant n <= |OPENING| && n <= done
        invariant Value() == Opened(code, n)
      {
        OpeningCall(code, n);
        n := n + 1;
      }
      failed := n < |OPENING|;
    }

    method ContinueAfterSettlement()
      modifies this
      ensures Value() == Proceed(old(Value()))
    {
      if server == Rejected || mutation == Rejected || callback == Rejected {
        failed := true;
      } else if server == Resolved && mutation == Resolved && callback == Resolved {
        stage := FlushRegistries;
        log := log + [FlushBegun];
      }
    }

    method WaitSettled(w: Wait, ok: bool)
      modifies this
      ensures Value() == OnSettled(old(Value()), w, ok)
    {
      var x := if ok then Resolved else Rejected;
      match w {
        case Server => server := x;
        case MutationQueue => mutation := x;
        case CallbackQueue => callback := x;
      }
      log := log + [Settled(w, ok)];
      if stage == WaitForDrain && !failed {
        ContinueAfterSettlement();
      }
    }

    method DrainCheckpointFired()
      modifies this
      ensures Value() == OnCheckpoint(old(Value()))
    {
      if stage == WaitForDrain && !failed && !checkpointed {
        stage, checkpointed := DrainCheckpointFlush, true;
        log := log + [CheckpointReached, FlushBegun];
      }
    }

    method RegistriesFlushed(ok: bool)
      modifies this
      ensures Value() == OnFlushed(old(Value()), ok)
    {
      if !ok {
        failed := true;
      } else if stage == DrainCheckpointFlush {
        stage := WaitForDrain;
        log := log + [FlushEnded];
        ContinueAfterSettlement();
      } else {
        stage := CloseServiceStores;
        log := log + [FlushEnded, StoresCloseBegun];
      }
    }

    method ServiceStoresClosed(ok: bool)
      modifies this
      ensures Value() == OnStoresClosed(old(Value()), ok)
    {
      if ok {
        stage := CloseSqlite;
        log := log + [StoresClosed, SqliteCloseBegun];
      } else {
        failed := true;
      }
    }

    method SqliteHasClosed(ok: bool)
      modifies this
      ensures Value() == OnSqliteClosed(old(Value()), ok)
    {
      if ok {
        stage, forceExitTimerArmed, exited := Done, false, true;
        log := log + [SqliteClosed, Exited(exitCode, Sequence)];
      } else {
        failed := true;
      }
    }

    method ForceExitTimerFired()
      modifies this
      ensures Value() == OnForceTimer(old(Value()))
    {
      forceExitTimerArmed, exited := false, true;
      log := log + [Exited(1, ForceTimer)];
    }
  }

  // ---- runs ----

  datatype Event =
    | Signal(code: int, done: nat)
    | Settle(wait: Wait, ok: bool)
    | Checkpoint
    | Flushed(ok: bool)
    | StoresDone(ok: bool)
    | SqliteDone(ok: bool)
    | ForceExit

  /** Nothing happens once the process has exited. */
  predicate Enabled(s: State, e: Event) {
    && !s.exited
    && match e
       case Signal(_, _) => true
       case Settle(w, _) => Of(s, w) == Pending
       case Checkpoint => s.shuttingDown
       case Flushed(_) => !s.failed && (s.stage == DrainCheckpointFlush || s.stage == FlushRegistries)
       case StoresDone(_) => !s.failed && s.stage == CloseServiceStores
       case SqliteDone(_) => !s.failed && s.stage == CloseSqlite
       case ForceExit => s.timerArmed
  }

  function Apply(s: State, e: Event): State {
    match e
    case Signal(code, done) => OnSignal(s, code, done)
    case Settle(w, ok) => OnSettled(s, w, ok)
    case Checkpoint => OnCheckpoint(s)
    case Flushed(ok) => OnFlushed(s, ok)
    case StoresDone(ok) => OnStoresClosed(s, ok)
    case SqliteDone(ok) => OnSqliteClosed(s, ok)
    case ForceExit => OnForceTimer(s)
  }

  function Run(s: State, events: seq<Event>): State
    decreases |events|
  {
    if |events| == 0 then s else Run(Apply(s, events[0]), events[1..])
  }

  ghost predicate Feasible(s: State, events: seq<Event>)
    decreases |events|
  {
    |events| > 0 ==> Enabled(s, events[0]) && Feasible(Apply(s, events[0]), events[1..])
  }
}
