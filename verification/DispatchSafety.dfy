/** Every event keeps the protocol invariant, so it holds at every crash point of every
    run, whatever the clock does; the dispatch barrier and the recovery verdict follow
    from it. */
module DispatchSafety {
  import opened Options
  import opened ReportTask
  import opened ReportTaskStore
  import opened DispatchProtocol

  lemma PhasesFrame(s: System, s': System)
    requires PhasesOk(s) && s'.mem == s.mem && s'.phase == s.phase
    ensures PhasesOk(s')
  {
    forall id | id in s.phase ensures LiveTaskOk(s', id) {
      assert LiveTaskOk(s, id);
    }
  }

  // ---- pruning ----

  lemma PruneFacts(mem: Memory, limit: nat)
    requires UniqueIds(mem.tasks) && IndexIsSound(mem)
    ensures var victims := Victims(mem.tasks, limit);
            && Prune(mem, limit).tasks == Without(mem.tasks, Ids(victims))
            && (forall t :: t in victims ==> t in mem.tasks && IsPrunable(t))
            && (forall m :: m in Prune(mem, limit).owner <==> m in mem.owner && mem.owner[m] !in Ids(victims))
            && (forall m :: m in Prune(mem, limit).owner ==> Prune(mem, limit).owner[m] == mem.owner[m])
    ensures IndexIsSound(Prune(mem, limit))
  {
    var victims := Victims(mem.tasks, limit);
    VictimFacts(mem.tasks, limit);
    DropAllFacts(mem, victims);
    forall m | m in Prune(mem, limit).owner
      ensures LastOf(Prune(mem, limit).tasks, m) == LastOf(mem.tasks, m)
    {
      WithoutKeepsLast(mem.tasks, Ids(victims), m);
    }
  }

  /** Finding a task that survived; pruned ids are exactly the victims' ids. */
  lemma PruneFind(mem: Memory, limit: nat, id: TaskId)
    requires UniqueIds(mem.tasks) && IndexIsSound(mem)
    ensures id !in Ids(Victims(mem.tasks, limit)) ==> Find(Prune(mem, limit).tasks, id) == Find(mem.tasks, id)
    ensures id in Ids(Victims(mem.tasks, limit)) ==>
              Find(mem.tasks, id).Some? && IsPrunable(Find(mem.tasks, id).value)
  {
    var victims := Victims(mem.tasks, limit);
    PruneFacts(mem, limit);
    WithoutKeepsFind(mem.tasks, Ids(victims), id);
    if id in Ids(victims) {
      var v :| v in victims && v.id == id;
      MemberIsFound(mem.tasks, v);
    }
  }

  lemma PruneKeepsInv(cfg: Config, s: System)
    requires Inv(s)
    ensures Inv(PruneStep(cfg, s))
  {
    var s' := PruneStep(cfg, s);
    var gone := Ids(Victims(s.mem.tasks, cfg.limit));
    PruneFacts(s.mem, cfg.limit);
    WithoutFacts(s.mem.tasks, gone);
    forall id | id in s.phase ensures LiveTaskOk(s', id) {
      assert LiveTaskOk(s, id);
      PruneFind(s.mem, cfg.limit, id);
    }
    forall id | id in s'.hist.started && id !in s'.hist.pruned ensures Remembers(s'.mem.tasks, id) {
      PruneFind(s.mem, cfg.limit, id);
    }
  }

  lemma ScheduleKeepsInv(s: System)
    requires Inv(s)
    ensures Inv(Schedule(s))
  {
    PhasesFrame(s, Schedule(s));
  }

  // ---- accepting a task ----

  /** Forgetting who is in charge of `m`, as `enqueue` does before a re-run. */
  ghost function Unindexed(s: System, m: MutationId): System {
    s.(mem := s.mem.(owner := s.mem.owner - {m}))
  }

  /** Storing a fresh pending task and queueing its run. */
  ghost function Inserted(s: System, t: Task): System {
    s.(mem := Memory(s.mem.tasks + [t], if t.mid != "" then s.mem.owner[t.mid := t.id] else s.mem.owner),
       phase := s.phase[t.id := Queued],
       hist := s.hist.(used := s.hist.used[t.id := RequestOf(t)]))
  }

  lemma UnindexKeepsLive(s: System, m: MutationId, id: TaskId)
    requires PhasesOk(s) && id in s.phase
    requires m in s.mem.owner ==>
               Find(s.mem.tasks, s.mem.owner[m]).Some? && IsRetryable(Find(s.mem.tasks, s.mem.owner[m]).value)
    ensures LiveTaskOk(Unindexed(s, m), id)
  {
    assert LiveTaskOk(s, id);
  }

  lemma UnindexKeepsInv(s: System, m: MutationId)
    requires Inv(s)
    requires m in s.mem.owner ==>
               Find(s.mem.tasks, s.mem.owner[m]).Some? && IsRetryable(Find(s.mem.tasks, s.mem.owner[m]).value)
    ensures Inv(Unindexed(s, m))
  {
    var s' := Unindexed(s, m);
    forall id | id in s.phase ensures LiveTaskOk(s', id) {
      UnindexKeepsLive(s, m, id);
    }
    assert PhasesOk(s');
    assert IndexIsSound(s'.mem);
  }

  lemma ListGrows(s: System, t: Task)
    requires ListOk(s, s.mem.tasks)
    requires t.id !in s.hist.used
    ensures ListOk(Inserted(s, t), s.mem.tasks + [t])
  {
    var q := s.mem.tasks;
    assert forall i :: 0 <= i < |q| ==> q[i] in q;
  }

  lemma InsertKeepsStarted(s: System, t: Task)
    requires Inv(s) && t.id !in s.hist.used
    ensures StartedOk(Inserted(s, t))
  {
    var s' := Inserted(s, t);
    AppendFacts(s.mem.tasks, t);
    forall id | id in s.hist.started && id !in s.hist.pruned ensures Remembers(s'.mem.tasks, id) {
      FindIsMember(s.mem.tasks, id);
    }
  }

  lemma InsertKeepsIndex(s: System, t: Task)
    requires Inv(s)
    requires t.mid !in s.mem.owner
    ensures IndexIsSound(Inserted(s, t).mem)
  {
    AppendFacts(s.mem.tasks, t);
  }

  lemma InsertKeepsLive(s: System, t: Task, id: TaskId)
    requires Inv(s) && t.id !in s.hist.used && id in s.phase
    requires t.mid !in s.mem.owner
    ensures id != t.id && LiveTaskOk(Inserted(s, t), id)
  {
    AppendFacts(s.mem.tasks, t);
    FindIsMember(s.mem.tasks, id);
    assert LiveTaskOk(s, id);
  }

  lemma InsertKeepsPhases(s: System, t: Task)
    requires Inv(s) && t.id !in s.hist.used && t.status == Pending && HasNoVerdict(t)
    requires t.mid !in s.mem.owner
    ensures PhasesOk(Inserted(s, t))
  {
    var s' := Inserted(s, t);
    forall id | id in s'.phase ensures LiveTaskOk(s', id) {
      if id == t.id {
        AppendFacts(s.mem.tasks, t);
      } else {
        InsertKeepsLive(s, t, id);
      }
    }
  }

  lemma InsertKeepsInv(s: System, t: Task)
    requires Inv(s)
    requires t.id !in s.hist.used && t.status == Pending && HasNoVerdict(t)
    requires t.mid !in s.mem.owner
    ensures Inv(Inserted(s, t))
  {
    var s' := Inserted(s, t);
    ListGrows(s, t);
    InsertKeepsIndex(s, t);
    InsertKeepsPhases(s, t);
    InsertKeepsStarted(s, t);
    assert BarrierOk(s') by {
      forall id | id in s.phase ensures id != t.id {
        InsertKeepsLive(s, t, id);
      }
    }
  }

  lemma AdmitKeepsInv(s: System, input: Input, id: TaskId, now: nat, blocked: bool, accepting: bool)
    requires Inv(s) && id !in s.hist.used
    ensures Inv(AdmitStep(s, input, id, now, blocked, accepting))
  {
    hide FingerprintsClash, IsRetryable, JobsOk, BarrierOk, StartedOk;
    var (r, mem) := Admit(s.mem, input, id, now, blocked, accepting);
    if input.mid != "" && input.mid in s.mem.owner {
      LastOfIsMember(s.mem.tasks, input.mid);
      MemberIsFound(s.mem.tasks, LastOf(s.mem.tasks, input.mid).value);
    }
    if !r.FingerprintConflict? && !r.Existing? {
      UnindexKeepsInv(s, input.mid);
      var s1 := Unindexed(s, input.mid);
      assert input.mid == "" ==> s1 == s by {
        assert "" !in s.mem.owner;
        assert s.mem.owner - {""} == s.mem.owner;
      }
      if r.Accepted? {
        InsertKeepsInv(s1, r.task);
      }
    }
  }

  // ---- status changes ----

  lemma PatchFind(q: seq<Task>, id: TaskId, patch: Patch, x: TaskId)
    ensures Find(PatchTasks(q, id, patch), x)
            == if Find(q, x).Some? then Some(PatchOne(Find(q, x).value, id, patch)) else None
  {
    MapFacts(q, t => PatchOne(t, id, patch));
    assert MapTasks(q, t => PatchOne(t, id, patch)) == PatchTasks(q, id, patch);
  }

  lemma PatchLast(q: seq<Task>, id: TaskId, patch: Patch, m: MutationId)
    ensures LastOf(PatchTasks(q, id, patch), m)
            == if LastOf(q, m).Some? then Some(PatchOne(LastOf(q, m).value, id, patch)) else None
  {
    MapFacts(q, t => PatchOne(t, id, patch));
    assert MapTasks(q, t => PatchOne(t, id, patch)) == PatchTasks(q, id, patch);
  }

  lemma PatchKeepsList(s: System, id: TaskId, patch: Patch)
    requires ListOk(s, s.mem.tasks)
    ensures ListOk(s, PatchTasks(s.mem.tasks, id, patch))
  {
    var q := s.mem.tasks;
    var r := PatchTasks(q, id, patch);
    MapFacts(q, t => PatchOne(t, id, patch));
    assert MapTasks(q, t => PatchOne(t, id, patch)) == r;
    forall t | t in r ensures t.id in s.hist.used && s.hist.used[t.id] == RequestOf(t) {
      var i :| 0 <= i < |r| && r[i] == t;
      assert q[i] in q;
    }
  }

  lemma PatchKeepsIndex(s: System, id: TaskId, patch: Patch)
    requires IndexIsSound(s.mem)
    ensures IndexIsSound(Patched(s, id, patch).mem)
  {
    forall m | m in s.mem.owner
      ensures LastOf(PatchTasks(s.mem.tasks, id, patch), m).Some?
      ensures LastOf(PatchTasks(s.mem.tasks, id, patch), m).value.id == s.mem.owner[m]
    {
      PatchLast(s.mem.tasks, id, patch, m);
    }
  }

  lemma PatchKeepsStarted(s: System, id: TaskId, patch: Patch)
    requires StartedOk(s) && patch.status.Some? && patch.status.value != Pending
    ensures StartedOk(Patched(s, id, patch))
  {
    forall x | x in s.hist.started && x !in s.hist.pruned
      ensures Remembers(PatchTasks(s.mem.tasks, id, patch), x)
    {
      PatchFind(s.mem.tasks, id, patch, x);
    }
  }

  /** Only live tasks are unfinished after the patched task's new status is set. */
  lemma PatchKeepsCover(s: System, id: TaskId, patch: Patch, live: set<TaskId>)
    requires PhasesOk(s) && patch.status.Some?
    requires s.phase.Keys - {id} <= live
    requires id in live || patch.status.value in {Success, Failed}
    ensures UnfinishedAreLive(PatchTasks(s.mem.tasks, id, patch), live)
  {
    var q := s.mem.tasks;
    var r := PatchTasks(q, id, patch);
    forall t | t in r && !IsTerminal(t) ensures t.id in live {
      var i :| 0 <= i < |r| && r[i] == t;
      assert q[i] in q;
    }
  }

  /** Marking a queued task as running, while it waits or when it gets its slot. */
  ghost function Marked(s: System, id: TaskId, now: nat, phase: Phase): System {
    Patched(s, id, RunningPatch(now)).(phase := s.phase[id := phase])
  }

  lemma MarkKeepsPhases(s: System, id: TaskId, now: nat, phase: Phase)
    requires PhasesOk(s) && InPhase(s, id, Queued)
    ensures PhasesOk(Marked(s, id, now, phase))
  {
    var s' := Marked(s, id, now, phase);
    PatchKeepsCover(s, id, RunningPatch(now), s'.phase.Keys);
    forall x | x in s'.phase ensures LiveTaskOk(s', x) {
      PatchFind(s.mem.tasks, id, RunningPatch(now), x);
      assert LiveTaskOk(s, x);
    }
  }

  lemma MarkKeepsInv(s: System, id: TaskId, now: nat, phase: Phase)
    requires Inv(s) && InPhase(s, id, Queued)
    requires phase == Queued || phase == AwaitingBarrier(s.nextJob)
    ensures Inv(Marked(s, id, now, phase))
  {
    var s' := Marked(s, id, now, phase);
    PatchKeepsList(s, id, RunningPatch(now));
    PatchKeepsIndex(s, id, RunningPatch(now));
    PatchKeepsStarted(s, id, RunningPatch(now));
    MarkKeepsPhases(s, id, now, phase);
  }

  lemma SettleKeepsPhases(s: System, id: TaskId, patch: Patch)
    requires PhasesOk(s) && id in s.phase && patch.status.Some? && patch.status.value in {Success, Failed}
    ensures PhasesOk(Settle(s, id, patch))
  {
    var s' := Settle(s, id, patch);
    PatchKeepsCover(s, id, patch, s'.phase.Keys);
    forall x | x in s'.phase ensures LiveTaskOk(s', x) {
      PatchFind(s.mem.tasks, id, patch, x);
      assert LiveTaskOk(s, x);
    }
  }

  /** The patch of a finished task: no worker and no refused dispatch produces the
      recovery verdict. */
  ghost predicate IsFinalPatch(patch: Patch) {
    && patch.status.Some? && patch.status.value in {Success, Failed}
    && (patch.status.value == Failed ==> patch.error.Some? && patch.error.value != RecoveredAfterRestart)
  }

  lemma SettleKeepsInv(s: System, id: TaskId, patch: Patch)
    requires Inv(s) && id in s.phase && IsFinalPatch(patch)
    ensures Inv(Settle(s, id, patch))
  {
    var s' := Settle(s, id, patch);
    PatchKeepsList(s, id, patch);
    PatchKeepsIndex(s, id, patch);
    PatchKeepsStarted(s, id, patch);
    SettleKeepsPhases(s, id, patch);
  }

  // ---- observations ----

  ghost function Acked(q: seq<Task>, formId: string, entryId: string, ids: set<TaskId>, at: nat): seq<Task> {
    MapTasks(q, t => AckOne(t, formId, entryId, ids, at))
  }

  lemma AckFind(q: seq<Task>, formId: string, entryId: string, ids: set<TaskId>, at: nat, x: TaskId)
    ensures Find(Acked(q, formId, entryId, ids, at), x)
            == if Find(q, x).Some? then Some(AckOne(Find(q, x).value, formId, entryId, ids, at)) else None
  {
    MapFacts(q, t => AckOne(t, formId, entryId, ids, at));
    assert MapTasks(q, t => AckOne(t, formId, entryId, ids, at)) == Acked(q, formId, entryId, ids, at);
  }

  lemma AckLast(q: seq<Task>, formId: string, entryId: string, ids: set<TaskId>, at: nat, m: MutationId)
    ensures LastOf(Acked(q, formId, entryId, ids, at), m)
            == if LastOf(q, m).Some? then Some(AckOne(LastOf(q, m).value, formId, entryId, ids, at)) else None
  {
    MapFacts(q, t => AckOne(t, formId, entryId, ids, at));
    assert MapTasks(q, t => AckOne(t, formId, entryId, ids, at)) == Acked(q, formId, entryId, ids, at);
  }

  lemma AckKeepsList(s: System, formId: string, entryId: string, ids: set<TaskId>, at: nat)
    requires ListOk(s, s.mem.tasks) && PhasesOk(s)
    ensures ListOk(s, Acked(s.mem.tasks, formId, entryId, ids, at))
    ensures UnfinishedAreLive(Acked(s.mem.tasks, formId, entryId, ids, at), s.phase.Keys)
  {
    var q := s.mem.tasks;
    var r := Acked(q, formId, entryId, ids, at);
    MapFacts(q, t => AckOne(t, formId, entryId, ids, at));
    assert MapTasks(q, t => AckOne(t, formId, entryId, ids, at)) == r;
    forall t | t in r
      ensures t.id in s.hist.used && s.hist.used[t.id] == RequestOf(t) && (!IsTerminal(t) ==> t.id in s.phase)
    {
      var i :| 0 <= i < |r| && r[i] == t;
      assert q[i] in q;
    }
  }

  lemma ObserveKeepsPhases(s: System, formId: string, entryId: string, ids: set<TaskId>, now: nat)
    requires PhasesOk(s) && ListsOk(s) && entryId != ""
    ensures PhasesOk(ObserveStep(s, formId, entryId, ids, now))
  {
    var s' := ObserveStep(s, formId, entryId, ids, now);
    AckKeepsList(s, formId, entryId, ids, now);
    assert s'.mem.tasks == Acked(s.mem.tasks, formId, entryId, ids, now);
    forall x | x in s'.phase ensures LiveTaskOk(s', x) {
      AckFind(s.mem.tasks, formId, entryId, ids, now, x);
      assert LiveTaskOk(s, x);
    }
  }

  lemma ObserveKeepsInv(s: System, formId: string, entryId: string, ids: set<TaskId>, now: nat)
    requires Inv(s)
    ensures Inv(ObserveStep(s, formId, entryId, ids, now))
  {
    var s' := ObserveStep(s, formId, entryId, ids, now);
    if entryId == "" {
      assert s' == s;
    } else {
      AckKeepsList(s, formId, entryId, ids, now);
      assert s'.mem.tasks == Acked(s.mem.tasks, formId, entryId, ids, now);
      ObserveKeepsPhases(s, formId, entryId, ids, now);
      forall m | m in s.mem.owner
        ensures LastOf(s'.mem.tasks, m).Some? && LastOf(s'.mem.tasks, m).value.id == s.mem.owner[m]
      {
        AckLast(s.mem.tasks, formId, entryId, ids, now, m);
      }
      forall x | x in s.hist.started && x !in s.hist.pruned ensures Remembers(s'.mem.tasks, x) {
        AckFind(s.mem.tasks, formId, entryId, ids, now, x);
      }
    }
  }

  // ---- snapshots ----

  /** A snapshot holds the tasks that memory holds, each as memory has it. */
  lemma SnapshotFacts(s: System)
    requires ListOk(s, s.mem.tasks)
    ensures ImageOk(s, Snapshot(s.mem))
  {
    SortKeepsUnique(s.mem.tasks, CreatedAt);
    StableSortSorts(s.mem.tasks, CreatedAt);
  }

  lemma SnapshotFind(q: seq<Task>, id: TaskId)
    requires UniqueIds(q)
    ensures Find(StableSortBy(q, CreatedAt), id) == Find(q, id)
  {
    var r := StableSortBy(q, CreatedAt);
    SortKeepsUnique(q, CreatedAt);
    FindIsMember(q, id);
    FindIsMember(r, id);
    if Find(q, id).Some? {
      MemberIsFound(r, Find(q, id).value);
    }
  }

  ghost function Taken(s: System): System
    requires |s.jobs| > 0
  {
    s.(writing := Some(Writing(s.jobs[0], Snapshot(s.mem))), jobs := s.jobs[1..])
  }

  lemma TakeKeepsBarrier(s: System)
    requires ListsOk(s) && PhasesOk(s) && BarrierOk(s) && |s.jobs| > 0
    ensures BarrierOk(Taken(s))
  {
    forall id | id in s.phase && s.phase[id] != Queued ensures ShowsRunning(Snapshot(s.mem), id) {
      assert LiveTaskOk(s, id);
      SnapshotFind(s.mem.tasks, id);
    }
  }

  lemma TakeKeepsStarted(s: System)
    requires ListsOk(s) && StartedOk(s) && |s.jobs| > 0
    ensures StartedOk(Taken(s))
  {
    forall id | id in s.hist.started && id !in s.hist.pruned ensures Remembers(Snapshot(s.mem), id) {
      SnapshotFind(s.mem.tasks, id);
    }
  }

  lemma TakeKeepsInv(s: System)
    requires Inv(s) && s.writing.None? && |s.jobs| > 0
    ensures Inv(Taken(s))
  {
    hide Snapshot, SortedByCreation;
    var s' := Taken(s);
    TakeKeepsBarrier(s);
    TakeKeepsStarted(s);
    SnapshotFacts(s);
    assert s.jobs[0] in s.jobs;
    assert forall j :: j in s'.jobs ==> j in s.jobs;
    PhasesFrame(s, s');
  }

  lemma SettleJobKeepsPhases(s: System, job: Job, outcome: Phase)
    requires PhasesOk(s) && outcome in {BarrierPassed, BarrierFailed}
    ensures PhasesOk(s.(phase := SettleJob(s.phase, job, outcome)))
  {
    var s' := s.(phase := SettleJob(s.phase, job, outcome));
    forall id | id in s'.phase ensures LiveTaskOk(s', id) {
      assert LiveTaskOk(s, id);
    }
  }

  lemma SettleJobKeepsInv(s: System, job: Job, outcome: Phase)
    requires Inv(s) && outcome in {BarrierPassed, BarrierFailed}
    requires outcome == BarrierPassed ==>
               forall id :: id in s.phase && s.phase[id] == AwaitingBarrier(job) ==>
                 s.disk.Saved? && ShowsRunning(s.disk.tasks, id) && s.writing.None?
    ensures Inv(s.(phase := SettleJob(s.phase, job, outcome)))
  {
    var s' := s.(phase := SettleJob(s.phase, job, outcome));
    SettleJobKeepsPhases(s, job, outcome);
  }

  lemma WriteKeepsInv(s: System, s': System)
    requires Inv(s)
    requires s' == s.(writing := None, jobs := s'.jobs, disk := s'.disk)
    requires forall j :: j in s'.jobs ==> j in s.jobs
    requires s'.disk == s.disk || (s.writing.Some? && s'.disk == Saved(s.writing.value.tasks, true))
    ensures Inv(s')
  {
    PhasesFrame(s, s');
  }

  lemma CommitKeepsInv(s: System)
    requires Inv(s) && s.writing.Some?
    ensures Inv(s.(disk := Saved(s.writing.value.tasks, true), writing := None,
                   phase := SettleJob(s.phase, s.writing.value.job, BarrierPassed)))
  {
    var s' := s.(disk := Saved(s.writing.value.tasks, true), writing := None);
    WriteKeepsInv(s, s');
    SettleJobKeepsInv(s', s.writing.value.job, BarrierPassed);
  }

  lemma FailKeepsInv(s: System)
    requires Inv(s)
    ensures Inv(FailStep(s))
  {
    if s.writing.Some? {
      WriteKeepsInv(s, s.(writing := None));
      SettleJobKeepsInv(s.(writing := None), s.writing.value.job, BarrierFailed);
    } else if |s.jobs| > 0 {
      WriteKeepsInv(s, s.(jobs := s.jobs[1..]));
      SettleJobKeepsInv(s.(jobs := s.jobs[1..]), s.jobs[0], BarrierFailed);
    }
  }

  // ---- starting a worker ----

  lemma StartKeepsInv(s: System, id: TaskId)
    requires Inv(s) && InPhase(s, id, BarrierPassed)
    ensures Inv(StartStep(s, id))
  {
    var s' := StartStep(s, id);
    forall x | x in s'.phase ensures LiveTaskOk(s', x) {
      assert LiveTaskOk(s, x);
    }
    assert LiveTaskOk(s, id);
  }

  // ---- crash and restart ----

  lemma ReloadFacts(q: seq<Task>, barrier: bool, now: nat)
    requires UniqueIds(q)
    ensures var r := Reload(q, barrier, now);
            && UniqueIds(r.tasks)
            && (SortedByCreation(q) ==> SortedByCreation(r.tasks))
            && IndexIsSound(r)
            && UnfinishedAreLive(r.tasks, {})
            && |r.tasks| == |q|
            && (forall i :: 0 <= i < |q| ==> r.tasks[i] == RecoverOne(q[i], barrier, now))
            && (forall m :: m in r.owner <==> m != "" && LastOf(q, m).Some?)
  {
    hide LastOf, Find, SetAll, IndexAll, MapTasks;
    SetAllKeepsList(q);
    IndexAllIsLast(q);
    MapFacts(q, t => RecoverOne(t, barrier, now));
    assert MapTasks(q, t => RecoverOne(t, barrier, now)) == Recover(q, barrier, now);
  }

  lemma ReloadFind(q: seq<Task>, barrier: bool, now: nat, id: TaskId)
    requires UniqueIds(q)
    ensures Find(Reload(q, barrier, now).tasks, id)
            == if Find(q, id).Some? then Some(RecoverOne(Find(q, id).value, barrier, now)) else None
  {
    SetAllKeepsList(q);
    MapFacts(q, t => RecoverOne(t, barrier, now));
    assert MapTasks(q, t => RecoverOne(t, barrier, now)) == Recover(q, barrier, now);
  }

  lemma RestartKeepsList(s: System, now: nat)
    requires s.disk.Saved? && ListOk(s, s.disk.tasks)
    ensures ListOk(RestartStep(s, now), RestartStep(s, now).mem.tasks)
  {
    hide Reload, Recover;
    var s' := RestartStep(s, now);
    var q := s.disk.tasks;
    ReloadFacts(q, s.disk.barrier, now);
    forall t | t in s'.mem.tasks
      ensures t.id in s.hist.used && s.hist.used[t.id] == RequestOf(t)
    {
      var i :| 0 <= i < |q| && s'.mem.tasks[i] == t;
      assert q[i] in q;
    }
  }

  lemma RestartKeepsStarted(s: System, now: nat)
    requires StartedOk(s) && (s.disk.Saved? ==> UniqueIds(s.disk.tasks))
    ensures StartedOk(RestartStep(s, now))
  {
    forall id | id in s.hist.started && id !in s.hist.pruned
      ensures Remembers(RestartStep(s, now).mem.tasks, id)
    {
      ReloadFind(s.disk.tasks, s.disk.barrier, now, id);
    }
  }

  lemma RestartKeepsInv(s: System, now: nat)
    requires Inv(s)
    ensures Inv(RestartStep(s, now))
  {
    var s' := RestartStep(s, now);
    RestartKeepsStarted(s, now);
    if s.disk.Saved? {
      RestartKeepsList(s, now);
      ReloadFacts(s.disk.tasks, s.disk.barrier, now);
    }
  }

  // ---- whole runs ----

  lemma ApplyKeepsInv(cfg: Config, s: System, e: Event)
    requires Inv(s)
    ensures Inv(Apply(cfg, s, e))
  {
    hide Inv, Prune, AdmitStep, Settle, ObserveStep, RestartStep, Schedule, PruneStep, DispatchStep, FailStep, Snapshot;
    if Enabled(s, e) {
      match e
      case EnqueueTask(input, id, now, blocked, accepting) =>
        AdmitKeepsInv(s, input, id, now, blocked, accepting);
        ThenPruneKeepsInv(cfg, AdmitStep(s, input, id, now, blocked, accepting));
      case WaitForSync(id, now) => WaitKeepsInv(cfg, s, id, now);
      case BeginDispatch(id, now) => DispatchKeepsInv(cfg, s, id, now);
      case TakeSnapshot => TakeKeepsInv(s);
      case CommitSnapshot => CommitKeepsInv(s);
      case FailPersist => FailKeepsInv(s);
      case StartWorker(id) => StartKeepsInv(s, id);
      case WorkerProgress(id) =>
        ThenPruneKeepsInv(cfg, s);
      case WorkerSucceeds(id, now) => SettleEventKeepsInv(cfg, s, id, SuccessPatch(now));
      case WorkerFails(id, now, error, indeterminate) =>
        SettleEventKeepsInv(cfg, s, id, FailurePatch(now, error, indeterminate));
      case RefuseDispatch(id, now, indeterminate) =>
        SettleEventKeepsInv(cfg, s, id, FailurePatch(now, PersistenceFailed, indeterminate));
      case Observe(formId, entryId, ids, now) =>
        ObserveKeepsInv(s, formId, entryId, ids, now);
        ScheduleKeepsInv(ObserveStep(s, formId, entryId, ids, now));
      case CrashAndRestart(now) =>
        RestartKeepsInv(s, now);
        ThenPruneKeepsInv(cfg, RestartStep(s, now));
    }
  }

  lemma ThenPruneKeepsInv(cfg: Config, s: System)
    requires Inv(s)
    ensures Inv(Schedule(PruneStep(cfg, s)))
  {
    hide Inv, PruneStep;
    PruneKeepsInv(cfg, s);
    ScheduleKeepsInv(PruneStep(cfg, s));
  }

  lemma WaitKeepsInv(cfg: Config, s: System, id: TaskId, now: nat)
    requires Inv(s) && InPhase(s, id, Queued)
    ensures Inv(Schedule(PruneStep(cfg, Patched(s, id, RunningPatch(now)))))
  {
    hide Inv, PruneStep, Schedule;
    MarkKeepsInv(s, id, now, Queued);
    assert s.phase[id := Queued] == s.phase;
    assert Patched(s, id, RunningPatch(now)) == Marked(s, id, now, Queued);
    ThenPruneKeepsInv(cfg, Marked(s, id, now, Queued));
  }

  lemma SettleEventKeepsInv(cfg: Config, s: System, id: TaskId, patch: Patch)
    requires Inv(s) && id in s.phase && IsFinalPatch(patch)
    ensures Inv(Schedule(PruneStep(cfg, Settle(s, id, patch))))
  {
    hide Inv, Settle;
    SettleKeepsInv(s, id, patch);
    ThenPruneKeepsInv(cfg, Settle(s, id, patch));
  }

  /** The job a dispatch waits for is scheduled in the same step, and no write under
      way can be that job. */
  lemma DispatchKeepsInv(cfg: Config, s: System, id: TaskId, now: nat)
    requires Inv(s) && InPhase(s, id, Queued)
    ensures Inv(Schedule(PruneStep(cfg, DispatchStep(s, id, now))))
  {
    hide Inv, PruneStep, Schedule;
    MarkKeepsInv(s, id, now, AwaitingBarrier(s.nextJob));
    assert DispatchStep(s, id, now) == Marked(s, id, now, AwaitingBarrier(s.nextJob));
    ThenPruneKeepsInv(cfg, DispatchStep(s, id, now));
  }

  lemma {:induction false} RunFromKeepsInv(cfg: Config, s: System, events: seq<Event>)
    requires Inv(s)
    ensures Inv(Run(cfg, s, events))
  {
    hide Inv, Apply;
    if |events| > 0 {
      RunFromKeepsInv(cfg, s, events[..|events| - 1]);
      ApplyKeepsInv(cfg, Run(cfg, s, events[..|events| - 1]), events[|events| - 1]);
    }
  }

  /** In every run, however the clock jumps. */
  lemma RunKeepsInv(cfg: Config, s: System, events: seq<Event>)
    requires Initial(s)
    ensures Inv(Run(cfg, s, events))
  {
    RunFromKeepsInv(cfg, s, events);
  }

  // ---- the guarantees ----

  /** The dispatch barrier is sound: whenever the process may crash, a started task
      that was never pruned is on disk, and the reload that follows never calls it a
      task that certainly did not write. */
  lemma BarrierIsSound(cfg: Config, s: System, events: seq<Event>, id: TaskId, now: nat)
    requires Initial(s)
    requires id in Run(cfg, s, events).hist.started && id !in Run(cfg, s, events).hist.pruned
    ensures var d := Run(cfg, s, events).disk;
            && d.Saved?
            && Find(d.tasks, id).Some?
            && var before := Find(d.tasks, id).value;
            && Find(Reload(d.tasks, d.barrier, now).tasks, id) == Some(RecoverOne(before, d.barrier, now))
            && (RecoverOne(before, d.barrier, now) != before ==>
                  RecoverOne(before, d.barrier, now).writeIndeterminate)
  {
    RunKeepsInv(cfg, s, events);
    var d := Run(cfg, s, events).disk;
    assert Remembers(d.tasks, id);
    ReloadFind(d.tasks, d.barrier, now, id);
  }

  /** Read the other way: what a reload clears, or does not find, never started. */
  lemma ClearedNeverStarted(cfg: Config, s: System, events: seq<Event>, id: TaskId, now: nat)
    requires Initial(s)
    requires id !in Run(cfg, s, events).hist.pruned
    requires var d := Run(cfg, s, events).disk;
             || d.Absent?
             || Find(d.tasks, id).None?
             || (!IsTerminal(Find(d.tasks, id).value)
                 && !RecoverOne(Find(d.tasks, id).value, d.barrier, now).writeIndeterminate)
    ensures id !in Run(cfg, s, events).hist.started
  {
    if id in Run(cfg, s, events).hist.started {
      BarrierIsSound(cfg, s, events, id, now);
    }
  }

  /** A snapshot written without the barrier never clears an interrupted task. */
  lemma NoBarrierNoVerdict(q: seq<Task>, now: nat, t: Task)
    requires UniqueIds(q) && t in q && !IsTerminal(t)
    ensures Find(Reload(q, false, now).tasks, t.id).Some?
    ensures Find(Reload(q, false, now).tasks, t.id).value.writeIndeterminate
    ensures !IsRetryable(Find(Reload(q, false, now).tasks, t.id).value)
  {
    MemberIsFound(q, t);
    ReloadFind(q, false, now, t.id);
  }
}
