/** How the protocol uses the service's own operations, and a concrete run in which a clock
    that goes back lets one mutation id start two workers. */
module DispatchExamples {
  import opened Options
  import opened ReportTask
  import opened ReportTaskStore
  import opened DispatchProtocol
  import opened DispatchSafety
  import opened DispatchOnce
  import opened DispatchTwice

  /** Each event changes memory exactly as the service method of the same name does. */
  lemma EventsRunTheService(cfg: Config, s: System, e: Event)
    requires Enabled(s, e)
    requires forall id :: id in s.phase ==> Find(s.mem.tasks, id).Some?
    ensures var mem := Apply(cfg, s, e).mem;
            match e
            case EnqueueTask(input, id, now, blocked, accepting) =>
              mem == Enqueue(s.mem, input, id, now, blocked, accepting, cfg.limit).1
            case WaitForSync(id, now) => mem == Update(s.mem, id, RunningPatch(now), cfg.limit)
            case BeginDispatch(id, now) => mem == Update(s.mem, id, RunningPatch(now), cfg.limit)
            case WorkerProgress(id) => mem == Update(s.mem, id, Patch(None, None, None, None), cfg.limit)
            case WorkerSucceeds(id, now) => mem == Update(s.mem, id, SuccessPatch(now), cfg.limit)
            case WorkerFails(id, now, error, indeterminate) =>
              mem == Update(s.mem, id, FailurePatch(now, error, indeterminate), cfg.limit)
            case RefuseDispatch(id, now, indeterminate) =>
              mem == Update(s.mem, id, FailurePatch(now, PersistenceFailed, indeterminate), cfg.limit)
            case Observe(formId, entryId, ids, now) => mem == Acknowledge(s.mem, formId, entryId, ids, now)
            case CrashAndRestart(now) =>
              mem == if s.disk.Saved? then Load(s.disk.tasks, s.disk.barrier, now, cfg.limit) else EMPTY_MEMORY
            case _ => mem == s.mem
  {
    if e.WorkerProgress? {
      assert PatchTasks(s.mem.tasks, e.id, Patch(None, None, None, None)) == s.mem.tasks;
    }
  }

  // ---- a clock that goes back ----

  const M: MutationId := "m"
  const ROOMY := Config(10)

  function FirstTask(status: Status, updatedAt: nat, error: ErrorCode): Task {
    Task(1, M, "", CreateReport, NoKind, "f", "e", status, 10, updatedAt, false, None, error)
  }

  /** The service boots on a snapshot holding one pending task made at time 10. */
  function Booting(): System {
    System(EMPTY_MEMORY, map[], [], None, 0, Saved([FirstTask(Pending, 10, NoError)], true),
           History(map[1 := RequestOf(FirstTask(Pending, 10, NoError))], {}, {}, multiset{}, multiset{}, multiset{}))
  }

  lemma BootReload()
    ensures Reload(Booting().disk.tasks, true, 11)
            == Memory([FirstTask(Failed, 11, RecoveredAfterRestart)], map[M := 1])
  {
    var q := Booting().disk.tasks;
    assert UniqueIds(q);
    SetAllKeepsList(q);
    assert q[..0] == [];
    assert Recover(q, true, 11) == [FirstTask(Failed, 11, RecoveredAfterRestart)];
    assert IndexAll(q) == map[M := 1];
  }

  lemma SnapshotOfOne(t: Task, owner: map<MutationId, TaskId>)
    ensures Snapshot(Memory([t], owner)) == [t] && LastOf([t], t.mid) == Some(t)
  {
    assert [t][..0] == [];
  }

  /** At time 5 the same request comes again, and the recovered task, made at time 10, may
      run again. */
  lemma SecondRequestIsDatedBack()
    ensures Initial(Booting())
    ensures var booted := Apply(ROOMY, Booting(), CrashAndRestart(11));
            DatedBack(booted, Repeat(M, 2, 5), M) && |booted.mem.tasks| == 1 && booted.hist == Booting().hist
  {
    hide Reload, Prune, Snapshot, Apply;
    var first := FirstTask(Failed, 11, RecoveredAfterRestart);
    BootReload();
    RunKeepsInv(ROOMY, Booting(), []);
    assert Run(ROOMY, Booting(), []) == Booting();
    RestartedShape(ROOMY, Booting(), 11);
    SnapshotOfOne(first, map[M := 1]);
    assert Find([first], 1) == Some(first);
  }

  lemma {:induction false} RunSplit(cfg: Config, s: System, a: seq<Event>, b: seq<Event>)
    ensures Run(cfg, s, a + b) == Run(cfg, Run(cfg, s, a), b)
  {
    hide Apply;
    if |b| == 0 {
      assert a + b == a;
    } else {
      assert (a + b)[..|a + b| - 1] == a + b[..|b| - 1];
      RunSplit(cfg, s, a, b[..|b| - 1]);
    }
  }

  lemma RunOfTwo(cfg: Config, s: System, e: Event, f: Event)
    ensures Run(cfg, s, [e, f]) == Apply(cfg, Apply(cfg, s, e), f)
  {
    hide Apply;
    assert [e, f][..1] == [e] && [e][..0] == [];
    assert Run(cfg, s, [e]) == Apply(cfg, s, e);
  }

  /** With a clock that goes back once, two workers start for `M` with nothing acknowledged
      and nothing pruned. */
  lemma ClockMayNotGoBack()
    ensures Initial(Booting())
    ensures exists events: seq<Event> ::
              Run(ROOMY, Booting(), events).hist.starts == multiset{M, M}
              && Run(ROOMY, Booting(), events).hist.acks == multiset{}
              && Run(ROOMY, Booting(), events).hist.prunes == multiset{}
  {
    hide Apply, Inv, DatedBack, Run, Repeat;
    var boot, again := CrashAndRestart(11), Repeat(M, 2, 5);
    SecondRequestIsDatedBack();
    var booted := Apply(ROOMY, Booting(), boot);
    RunKeepsInvOfOne(boot);
    DatedBackStartsTwo(ROOMY, booted, again, M);
    var events :| StartsTwo(ROOMY, booted, Apply(ROOMY, booted, again), M, events)
                  && QuietSince(booted, Run(ROOMY, Apply(ROOMY, booted, again), events), multiset{M, M});
    RunOfTwo(ROOMY, Booting(), boot, again);
    RunSplit(ROOMY, Booting(), [boot, again], events);
    assert Run(ROOMY, Booting(), [boot, again] + events).hist.starts == multiset{M, M};
  }

  lemma RunKeepsInvOfOne(e: Event)
    requires Initial(Booting())
    ensures Inv(Apply(ROOMY, Booting(), e))
  {
    hide Apply, Inv;
    RunKeepsInv(ROOMY, Booting(), []);
    assert Run(ROOMY, Booting(), []) == Booting();
    ApplyKeepsInv(ROOMY, Booting(), e);
  }
}
