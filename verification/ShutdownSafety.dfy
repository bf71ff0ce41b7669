/** The order that every shutdown keeps, whatever settles, fails or is signalled when. */
module ShutdownSafety {
  import opened Shutdown

  // ---- what must have happened before an effect ----

  predicate AllSettled(log: seq<Effect>) {
    Settled(Server, true) in log && Settled(MutationQueue, true) in log && Settled(CallbackQueue, true) in log
  }

  predicate AdmissionClosed(log: seq<Effect>) {
    MutationAdmissionClosed in log && CallbackAdmissionClosed in log
  }

  /** A flush that began after everything had settled. */
  predicate FinalFlushBegun(log: seq<Effect>) {
    exists i :: 0 <= i < |log| && log[i] == FlushBegun && AllSettled(log[..i])
  }

  /** ... and one such that has ended. */
  predicate FinalFlushEnded(log: seq<Effect>) {
    exists i :: 0 <= i < |log| && log[i] == FlushEnded && FinalFlushBegun(log[..i])
  }

  predicate StoresClosedLast(log: seq<Effect>) {
    exists i :: 0 <= i < |log| && log[i] == StoresClosed && FinalFlushEnded(log[..i])
  }

  predicate SqliteClosedLast(log: seq<Effect>) {
    exists i :: 0 <= i < |log| && log[i] == SqliteClosed && StoresClosedLast(log[..i])
  }

  predicate Justified(log: seq<Effect>, e: Effect, code: int) {
    match e
    case SseClosed => AdmissionClosed(log)
    case Begun(_) => AdmissionClosed(log) && SseClosed in log
    case FlushBegun => CheckpointReached in log || AllSettled(log)
    case StoresCloseBegun => FinalFlushEnded(log)
    case SqliteCloseBegun => StoresClosedLast(log)
    case Exited(c, Sequence) => c == code && SqliteClosedLast(log)
    case Exited(c, ForceTimer) => c == 1
    case _ => true
  }

  predicate HasExited(log: seq<Effect>) {
    exists i :: 0 <= i < |log| && log[i].Exited?
  }

  /** Every effect is justified by those before it, and an exit is the last. */
  predicate Orderly(log: seq<Effect>, code: int) {
    forall i :: 0 <= i < |log| ==> Justified(log[..i], log[i], code) && !HasExited(log[..i])
  }

  lemma OrderlyNext(log: seq<Effect>, e: Effect, code: int)
    requires Orderly(log, code) && Justified(log, e, code) && !HasExited(log)
    ensures Orderly(log + [e], code)
    ensures HasExited(log + [e]) <==> e.Exited?
  {
    var next := log + [e];
    assert next[|log|] == e;
    forall i | 0 <= i < |next| ensures Justified(next[..i], next[i], code) && !HasExited(next[..i]) {
      assert next[..i] == log[..i];
      assert i == |log| ==> log[..i] == log;
    }
  }

  /** What has happened stays so. */
  lemma Kept(log: seq<Effect>, e: Effect)
    ensures AllSettled(log) ==> AllSettled(log + [e])
    ensures FinalFlushBegun(log) ==> FinalFlushBegun(log + [e])
    ensures FinalFlushEnded(log) ==> FinalFlushEnded(log + [e])
    ensures StoresClosedLast(log) ==> StoresClosedLast(log + [e])
    ensures SqliteClosedLast(log) ==> SqliteClosedLast(log + [e])
  {
    var next := log + [e];
    forall i | 0 <= i < |log| ensures next[i] == log[i] && next[..i] == log[..i] {}
    if FinalFlushBegun(log) {
      var i :| 0 <= i < |log| && log[i] == FlushBegun && AllSettled(log[..i]);
      assert next[i] == FlushBegun && AllSettled(next[..i]);
    }
    if FinalFlushEnded(log) {
      var i :| 0 <= i < |log| && log[i] == FlushEnded && FinalFlushBegun(log[..i]);
      assert next[i] == FlushEnded && FinalFlushBegun(next[..i]);
    }
    if StoresClosedLast(log) {
      var i :| 0 <= i < |log| && log[i] == StoresClosed && FinalFlushEnded(log[..i]);
      assert next[i] == StoresClosed && FinalFlushEnded(next[..i]);
    }
    if SqliteClosedLast(log) {
      var i :| 0 <= i < |log| && log[i] == SqliteClosed && StoresClosedLast(log[..i]);
      assert next[i] == SqliteClosed && StoresClosedLast(next[..i]);
    }
  }

  lemma Advanced(log: seq<Effect>)
    ensures AllSettled(log) ==> FinalFlushBegun(log + [FlushBegun])
    ensures FinalFlushBegun(log) ==> FinalFlushEnded(log + [FlushEnded])
    ensures FinalFlushEnded(log) ==> StoresClosedLast(log + [StoresClosed])
    ensures StoresClosedLast(log) ==> SqliteClosedLast(log + [SqliteClosed])
  {
    assert forall e: Effect :: (log + [e])[|log|] == e && (log + [e])[..|log|] == log;
  }

  // ---- the invariant ----

  predicate Known(log: seq<Effect>, w: Wait, x: Settlement) {
    x == Resolved ==> Settled(w, true) in log
  }

  /** How far the log shows the sequence to have come. */
  predicate Reached(log: seq<Effect>, stage: Stage) {
    match stage
    case FlushRegistries => FinalFlushBegun(log)
    case CloseServiceStores => FinalFlushEnded(log)
    case CloseSqlite => StoresClosedLast(log)
    case Done => SqliteClosedLast(log)
    case _ => true
  }

  predicate Inv(s: State) {
    && Orderly(s.log, s.exitCode)
    && (HasExited(s.log) <==> s.exited)
    && (s.timerArmed <==> s.shuttingDown && !s.exited)
    && (!s.shuttingDown ==> s.log == [] && s.stage == Idle && !s.exited
                            && s.server == NotBegun && s.mutation == NotBegun && s.callback == NotBegun)
    && (s.shuttingDown ==> s.stage != Idle)
    && Reached(s.log, s.stage)
    && (s.stage == Done ==> s.exited)
    && Known(s.log, Server, s.server) && Known(s.log, MutationQueue, s.mutation) && Known(s.log, CallbackQueue, s.callback)
  }

  /** The sequence moves on by one effect. */
  lemma Log(s: State, e: Effect, stage: Stage)
    requires Inv(s) && s.shuttingDown && !s.exited && !e.Exited? && Justified(s.log, e, s.exitCode)
    requires stage != Done && stage != Idle && Reached(s.log + [e], stage)
    ensures Inv(s.(log := s.log + [e], stage := stage))
  {
    OrderlyNext(s.log, e, s.exitCode);
  }

  lemma {:induction false} OpeningIsOrderly(n: nat, code: int)
    requires n <= |OPENING|
    ensures Orderly(OPENING[..n], code) && !HasExited(OPENING[..n])
  {
    if n > 0 {
      OpeningIsOrderly(n - 1, code);
      assert OPENING[..n] == OPENING[..n - 1] + [OPENING[n - 1]];
      var log := OPENING[..n - 1];
      assert n > 2 ==> log[0] == MutationAdmissionClosed && log[1] == CallbackAdmissionClosed;
      assert n > 3 ==> log[2] == SseClosed;
      OrderlyNext(log, OPENING[n - 1], code);
    }
  }

  /** The stage whose call makes an effect of the opening. */
  function StageOf(e: Effect): Stage {
    match e
    case MutationAdmissionClosed => CloseMutationAdmission
    case CallbackAdmissionClosed => CloseMutationAdmission
    case SseClosed => CloseSse
    case Begun(Server) => StopHttpAndBackground
    case BackgroundStopped => StopHttpAndBackground
    case _ => WaitForDrain
  }

  /** An opening that throws is left in the stage of the call that threw, with all effects
      before that call and none after it, and goes no further. */
  lemma OpeningStopsWhereItThrows(code: int, done: nat)
    requires done < |OPENING|
    ensures var s := OnSignal(START, code, done);
            && s.failed && s.shuttingDown && s.timerArmed && s.exitCode == code
            && s.stage == StageOf(OPENING[done]) && s.log == OPENING[..done]
            && (s.server == Pending <==> Begun(Server) in s.log)
            && (s.mutation == Pending <==> Begun(MutationQueue) in s.log)
            && (s.callback == Pending <==> Begun(CallbackQueue) in s.log)
  {
    hide StageAfter, StageOf;
    StageOfCall(done);
    BegunByThen(done, Server, 3);
    BegunByThen(done, MutationQueue, 5);
    BegunByThen(done, CallbackQueue, 6);
  }

  lemma StageOfCall(done: nat)
    requires done < |OPENING|
    ensures StageAfter(done) == StageOf(OPENING[done])
  {
  }

  lemma BegunByThen(done: nat, w: Wait, at: nat)
    requires done < |OPENING| && at < |OPENING| && OPENING[at] == Begun(w)
    ensures Begun(w) in OPENING[..done] <==> done > at
  {
    var log := OPENING[..done];
    assert forall i :: 0 <= i < done ==> log[i] == OPENING[i];
    if done > at {
      assert log[at] == Begun(w);
    }
  }

  lemma ProceedKeepsInv(s: State)
    requires Inv(s) && s.shuttingDown && !s.exited && s.stage == WaitForDrain
    ensures Inv(Proceed(s))
  {
    hide Orderly, HasExited, FinalFlushEnded, StoresClosedLast, SqliteClosedLast;
    if s.server == Resolved && s.mutation == Resolved && s.callback == Resolved {
      Advanced(s.log);
      Log(s, FlushBegun, FlushRegistries);
    }
  }

  lemma SettleKeepsInv(s: State, w: Wait, ok: bool)
    requires Inv(s) && Enabled(s, Settle(w, ok))
    ensures Inv(OnSettled(s, w, ok))
  {
    hide Orderly, HasExited, AllSettled, FinalFlushBegun, FinalFlushEnded, StoresClosedLast, SqliteClosedLast, Proceed;
    var e := Settled(w, ok);
    Kept(s.log, e);
    OrderlyNext(s.log, e, s.exitCode);
    var t := WithSettlement(s, w, if ok then Resolved else Rejected).(log := s.log + [e]);
    assert Inv(t);
    if s.stage == WaitForDrain && !s.failed {
      ProceedKeepsInv(t);
    }
  }

  lemma CheckpointKeepsInv(s: State)
    requires Inv(s) && Enabled(s, Checkpoint)
    ensures Inv(OnCheckpoint(s))
  {
    if s.stage == WaitForDrain && !s.failed && !s.checkpointed {
      Log(s, CheckpointReached, WaitForDrain);
      var t := s.(log := s.log + [CheckpointReached], checkpointed := true);
      Log(t, FlushBegun, DrainCheckpointFlush);
      assert s.log + [CheckpointReached, FlushBegun] == t.log + [FlushBegun];
    }
  }

  /** ... or by two. */
  lemma LogTwo(s: State, a: Effect, b: Effect, stage: Stage)
    requires Inv(s) && s.shuttingDown && !s.exited && !a.Exited? && !b.Exited?
    requires Justified(s.log, a, s.exitCode) && Justified(s.log + [a], b, s.exitCode)
    requires Reached(s.log + [a] + [b], stage) && stage != Done && stage != Idle
    ensures Inv(s.(log := s.log + [a, b], stage := stage))
  {
    Log(s, a, WaitForDrain);
    Log(s.(log := s.log + [a], stage := WaitForDrain), b, stage);
    assert s.log + [a] + [b] == s.log + [a, b];
  }

  lemma FlushLeadsOn(log: seq<Effect>)
    requires FinalFlushBegun(log)
    ensures FinalFlushEnded(log + [FlushEnded]) && FinalFlushEnded(log + [FlushEnded] + [StoresCloseBegun])
  {
    Advanced(log);
    Kept(log + [FlushEnded], StoresCloseBegun);
  }

  lemma StoresLeadOn(log: seq<Effect>)
    requires FinalFlushEnded(log)
    ensures StoresClosedLast(log + [StoresClosed]) && StoresClosedLast(log + [StoresClosed] + [SqliteCloseBegun])
  {
    Advanced(log);
    Kept(log + [StoresClosed], SqliteCloseBegun);
  }

  lemma FlushedKeepsInv(s: State, ok: bool)
    requires Inv(s) && Enabled(s, Flushed(ok))
    ensures Inv(OnFlushed(s, ok))
  {
    if ok && s.stage == DrainCheckpointFlush {
      Log(s, FlushEnded, WaitForDrain);
      ProceedKeepsInv(s.(stage := WaitForDrain, log := s.log + [FlushEnded]));
    } else if ok {
      FlushLeadsOn(s.log);
      LogTwo(s, FlushEnded, StoresCloseBegun, CloseServiceStores);
    }
  }

  lemma StoresDoneKeepsInv(s: State, ok: bool)
    requires Inv(s) && Enabled(s, StoresDone(ok))
    ensures Inv(OnStoresClosed(s, ok))
  {
    if ok {
      StoresLeadOn(s.log);
      LogTwo(s, StoresClosed, SqliteCloseBegun, CloseSqlite);
    }
  }

  lemma ExitKeepsInv(s: State, e: Effect, stage: Stage)
    requires Inv(s) && s.shuttingDown && !s.exited && e.Exited? && Justified(s.log, e, s.exitCode)
    requires Reached(s.log, stage) && stage != Idle
    ensures Inv(s.(timerArmed := false, exited := true, stage := stage, log := s.log + [e]))
  {
    Kept(s.log, e);
    OrderlyNext(s.log, e, s.exitCode);
  }

  lemma SqliteDoneKeepsInv(s: State, ok: bool)
    requires Inv(s) && Enabled(s, SqliteDone(ok))
    ensures Inv(OnSqliteClosed(s, ok))
  {
    hide Orderly, HasExited, AllSettled, FinalFlushBegun, FinalFlushEnded, StoresClosedLast, SqliteClosedLast;
    if ok {
      Advanced(s.log);
      Log(s, SqliteClosed, WaitForDrain);
      var exit := Exited(s.exitCode, Sequence);
      ExitKeepsInv(s.(log := s.log + [SqliteClosed], stage := WaitForDrain), exit, Done);
      assert s.log + [SqliteClosed] + [exit] == s.log + [SqliteClosed, exit];
    }
  }

  lemma StepKeepsInv(s: State, e: Event)
    requires Inv(s) && Enabled(s, e)
    ensures Inv(Apply(s, e))
  {
    match e
    case Signal(code, done) =>
      if !s.shuttingDown {
        var n := if done < |OPENING| then done else |OPENING|;
        OpeningIsOrderly(n, code);
      }
    case Settle(w, ok) => SettleKeepsInv(s, w, ok);
    case Checkpoint => CheckpointKeepsInv(s);
    case Flushed(ok) => FlushedKeepsInv(s, ok);
    case StoresDone(ok) => StoresDoneKeepsInv(s, ok);
    case SqliteDone(ok) => SqliteDoneKeepsInv(s, ok);
    case ForceExit => ExitKeepsInv(s, Exited(1, ForceTimer), s.stage);
  }

  lemma {:induction false} RunKeepsInv(s: State, events: seq<Event>)
    requires Inv(s) && Feasible(s, events)
    ensures Inv(Run(s, events))
    decreases |events|
  {
    if |events| > 0 {
      StepKeepsInv(s, events[0]);
      RunKeepsInv(Apply(s, events[0]), events[1..]);
    }
  }

  /** A checkpoint fires in the run while the sequence waits and has not failed. */
  predicate CheckpointComes(s: State, events: seq<Event>)
    decreases |events|
  {
    |events| > 0 &&
    ((events[0].Checkpoint? && s.stage == WaitForDrain && !s.failed) || CheckpointComes(Apply(s, events[0]), events[1..]))
  }

  function Checkpoints(log: seq<Effect>): nat {
    if |log| == 0 then 0 else Checkpoints(log[..|log| - 1]) + if log[|log| - 1] == CheckpointReached then 1 else 0
  }

  predicate Checkpointed(s: State) {
    Checkpoints(s.log) == if s.checkpointed then 1 else 0
  }

  lemma CheckpointsMore(log: seq<Effect>, e: Effect)
    ensures Checkpoints(log + [e]) == Checkpoints(log) + if e == CheckpointReached then 1 else 0
  {
    assert (log + [e])[..|log|] == log;
  }

  lemma CheckpointsMoreTwo(log: seq<Effect>, e: Effect, f: Effect)
    ensures Checkpoints(log + [e, f])
            == Checkpoints(log) + (if e == CheckpointReached then 1 else 0) + if f == CheckpointReached then 1 else 0
  {
    CheckpointsMore(log, e);
    CheckpointsMore(log + [e], f);
    assert log + [e] + [f] == log + [e, f];
  }

  lemma {:induction false} OpeningHasNoCheckpoint(n: nat)
    requires n <= |OPENING|
    ensures Checkpoints(OPENING[..n]) == 0
  {
    if n > 0 {
      OpeningHasNoCheckpoint(n - 1);
      CheckpointsMore(OPENING[..n - 1], OPENING[n - 1]);
      assert OPENING[..n] == OPENING[..n - 1] + [OPENING[n - 1]];
    }
  }

  lemma CheckpointStep(s: State, e: Event)
    requires Inv(s) && Enabled(s, e) && Checkpointed(s) && (!s.shuttingDown ==> !s.checkpointed)
    ensures var t := Apply(s, e);
            && Checkpointed(t) && (!t.shuttingDown ==> !t.checkpointed)
            && (t.checkpointed <==> s.checkpointed || (e.Checkpoint? && s.stage == WaitForDrain && !s.failed))
  {
    hide Orderly, HasExited, Reached, Known, Checkpoints, StageAfter;
    match e
    case Signal(code, done) => OpeningHasNoCheckpoint(if done < |OPENING| then done else |OPENING|);
    case Settle(w, ok) =>
      CheckpointsMore(s.log, Settled(w, ok));
      CheckpointsMore(s.log + [Settled(w, ok)], FlushBegun);
    case Checkpoint => CheckpointsMoreTwo(s.log, CheckpointReached, FlushBegun);
    case Flushed(_) =>
      CheckpointsMore(s.log, FlushEnded);
      CheckpointsMore(s.log + [FlushEnded], FlushBegun);
      CheckpointsMoreTwo(s.log, FlushEnded, StoresCloseBegun);
    case StoresDone(_) => CheckpointsMoreTwo(s.log, StoresClosed, SqliteCloseBegun);
    case SqliteDone(_) => CheckpointsMoreTwo(s.log, SqliteClosed, Exited(s.exitCode, Sequence));
    case ForceExit => CheckpointsMore(s.log, Exited(1, ForceTimer));
  }

  lemma {:induction false} CheckpointedByRun(s: State, events: seq<Event>)
    requires Inv(s) && Feasible(s, events) && Checkpointed(s) && (!s.shuttingDown ==> !s.checkpointed)
    ensures Checkpointed(Run(s, events))
    ensures Run(s, events).checkpointed <==> s.checkpointed || CheckpointComes(s, events)
    decreases |events|
  {
    hide Inv, Checkpointed, Apply, Enabled;
    if |events| > 0 {
      StepKeepsInv(s, events[0]);
      CheckpointStep(s, events[0]);
      CheckpointedByRun(Apply(s, events[0]), events[1..]);
    }
  }

  // ---- the theorems ----

  /** The early flush is made at most once, and exactly in the runs in which the drains are
      slow: a checkpoint comes while the sequence waits for them. */
  lemma EarlyFlushIff(events: seq<Event>)
    requires Feasible(START, events)
    ensures Checkpoints(Run(START, events).log) == if CheckpointComes(START, events) then 1 else 0
  {
    CheckpointedByRun(START, events);
  }

  /** Whenever the SQLite close begins, the stores have been closed after a registry flush
      that ended, that began after the server's close and both drains had resolved. */
  lemma SqliteClosesLast(events: seq<Event>, i: nat)
    requires Feasible(START, events) && i < |Run(START, events).log| && Run(START, events).log[i] == SqliteCloseBegun
    ensures StoresClosedLast(Run(START, events).log[..i])
  {
    RunKeepsInv(START, events);
    assert Justified(Run(START, events).log[..i], SqliteCloseBegun, Run(START, events).exitCode);
  }

  lemma ExitIsLast(log: seq<Effect>, code: int, i: nat)
    requires Orderly(log, code) && i < |log| && log[i].Exited?
    ensures i == |log| - 1
  {
    if i < |log| - 1 {
      ExitShows(log, i, |log| - 1);
    }
  }

  lemma ExitShows(log: seq<Effect>, i: nat, n: nat)
    requires i < n <= |log| && log[i].Exited?
    ensures HasExited(log[..n])
  {
    assert log[..n][i].Exited?;
  }

  /** The process exits once at most; with the requested code only when SQLite has been
      closed as above, and with 1 when the timer ends it. */
  lemma ExitIsJustified(events: seq<Event>, i: nat)
    requires Feasible(START, events) && i < |Run(START, events).log| && Run(START, events).log[i].Exited?
    ensures var s := Run(START, events);
            && i == |s.log| - 1
            && (s.log[i].cause == Sequence ==> s.log[i].code == s.exitCode && SqliteClosedLast(s.log[..i]))
            && (s.log[i].cause == ForceTimer ==> s.log[i].code == 1)
  {
    RunKeepsInv(START, events);
    var s := Run(START, events);
    assert Justified(s.log[..i], s.log[i], s.exitCode);
    ExitIsLast(s.log, s.exitCode, i);
  }

  /** A shutdown that has begun and not exited can always be ended by the timer, so no
      failure or hang in the sequence keeps the process alive past it. */
  lemma ForceTimerIsArmed(events: seq<Event>)
    requires Feasible(START, events)
    ensures var s := Run(START, events);
            s.shuttingDown && !s.exited ==>
              Enabled(s, ForceExit) && Apply(s, ForceExit).log == s.log + [Exited(1, ForceTimer)]
  {
    RunKeepsInv(START, events);
  }

  /** Once a call has thrown, only the timer ends the process. */
  lemma FailedStep(s: State, e: Event)
    requires s.shuttingDown && s.failed && s.stage != Done && Enabled(s, e)
    ensures var t := Apply(s, e);
            if e == ForceExit then t.exited && |t.log| > 0 && t.log[|t.log| - 1] == Exited(1, ForceTimer)
            else t.shuttingDown && t.failed && t.stage != Done && !t.exited
  {
  }

  lemma {:induction false} FailedRunsEndByForce(s: State, events: seq<Event>)
    requires Inv(s) && s.shuttingDown && s.failed && s.stage != Done && Feasible(s, events)
    requires !s.exited
    ensures var t := Run(s, events);
            t.exited ==> |t.log| > 0 && t.log[|t.log| - 1] == Exited(1, ForceTimer)
    decreases |events|
  {
    hide Inv;
    if |events| > 0 {
      StepKeepsInv(s, events[0]);
      FailedStep(s, events[0]);
      if events[0] == ForceExit {
        assert |events[1..]| == 0;
      } else {
        FailedRunsEndByForce(Apply(s, events[0]), events[1..]);
      }
    }
  }

  // ---- the sequence itself never stalls ----

  predicate Moving(s: State) {
    s.shuttingDown && !s.failed && !s.exited ==>
      && s.server != NotBegun && s.mutation != NotBegun && s.callback != NotBegun
      && match s.stage
         case WaitForDrain => s.server == Pending || s.mutation == Pending || s.callback == Pending
         case DrainCheckpointFlush => true
         case FlushRegistries => true
         case CloseServiceStores => true
         case CloseSqlite => true
         case _ => false
  }

  lemma ProceedKeepsMoving(s: State)
    requires s.stage == WaitForDrain && s.server != NotBegun && s.mutation != NotBegun && s.callback != NotBegun
    ensures Moving(Proceed(s))
  {}

  lemma SettleKeepsMoving(s: State, w: Wait, ok: bool)
    requires Moving(s)
    ensures Moving(OnSettled(s, w, ok))
  {
    var t := WithSettlement(s, w, if ok then Resolved else Rejected).(log := s.log + [Settled(w, ok)]);
    if s.stage == WaitForDrain && !s.failed && s.shuttingDown && !s.exited {
      ProceedKeepsMoving(t);
    }
  }

  lemma StepKeepsMoving(s: State, e: Event)
    requires Moving(s) && Enabled(s, e)
    ensures Moving(Apply(s, e))
  {
    match e
    case Settle(w, ok) => SettleKeepsMoving(s, w, ok);
    case Flushed(ok) =>
      if ok && s.stage == DrainCheckpointFlush && s.shuttingDown {
        ProceedKeepsMoving(s.(stage := WaitForDrain, log := s.log + [FlushEnded]));
      }
    case _ =>
  }

  lemma {:induction false} RunKeepsMoving(s: State, events: seq<Event>)
    requires Moving(s) && Feasible(s, events)
    ensures Moving(Run(s, events))
    decreases |events|
  {
    if |events| > 0 {
      StepKeepsMoving(s, events[0]);
      RunKeepsMoving(Apply(s, events[0]), events[1..]);
    }
  }

  /** Unless a call has thrown, a shutdown always waits for something that can still end. */
  lemma SequenceNeverStalls(events: seq<Event>)
    requires Feasible(START, events)
    ensures var s := Run(START, events);
            s.shuttingDown && !s.failed && !s.exited ==>
              || (exists w :: Enabled(s, Settle(w, true)))
              || Enabled(s, Flushed(true)) || Enabled(s, StoresDone(true)) || Enabled(s, SqliteDone(true))
  {
    RunKeepsMoving(START, events);
    var s := Run(START, events);
    if s.shuttingDown && !s.failed && !s.exited && s.stage == WaitForDrain {
      var w := if s.server == Pending then Server else if s.mutation == Pending then MutationQueue else CallbackQueue;
      assert Enabled(s, Settle(w, true));
    }
  }

  /** The events without the signals that come after the first. */
  function FirstSignalOnly(s: State, events: seq<Event>): seq<Event>
    decreases |events|
  {
    if |events| == 0 then []
    else
      (if events[0].Signal? && s.shuttingDown then [] else [events[0]])
      + FirstSignalOnly(Apply(s, events[0]), events[1..])
  }

  /** Further signals change nothing. */
  lemma {:induction false} RepeatedSignalsAreIgnored(s: State, events: seq<Event>)
    ensures Run(s, FirstSignalOnly(s, events)) == Run(s, events)
    decreases |events|
  {
    if |events| > 0 {
      var next := Apply(s, events[0]);
      RepeatedSignalsAreIgnored(next, events[1..]);
      if events[0].Signal? && s.shuttingDown {
        assert FirstSignalOnly(s, events) == FirstSignalOnly(next, events[1..]);
      } else {
        assert FirstSignalOnly(s, events)[1..] == FirstSignalOnly(next, events[1..]);
      }
    }
  }
}
