/** What the records say.  Accepted work is stored as it was asked for; a worker's end, a
    dispatch and an observation change exactly their own fields of exactly their own record;
    and a schedule mutation whose write may have happened stays on record, over any run with
    crashes, until an observation names it. */
module DispatchRecords {
  import opened Options
  import opened ReportTask
  import opened ReportTaskStore
  import opened DispatchProtocol
  import opened DispatchSafety
  import opened DispatchOnce

  // ---- one record changes ----

  /** Pruning takes records away and changes none. */
  lemma PruneOnlyDrops(cfg: Config, s: System)
    requires Inv(s)
    ensures var after := Schedule(PruneStep(cfg, s)).mem.tasks;
            && (forall t :: t in after ==> t in s.mem.tasks)
            && (forall t :: t in s.mem.tasks && t !in after ==> IsTerminal(t) && !IsUnresolved(t))
  {
    hide Prune, Victims, IsTerminal, IsUnresolved;
    var gone := Ids(Victims(s.mem.tasks, cfg.limit));
    PruneFacts(s.mem, cfg.limit);
    forall t | t in s.mem.tasks && t.id in gone ensures IsTerminal(t) && !IsUnresolved(t) {
      PruneFind(s.mem, cfg.limit, t.id);
      MemberIsFound(s.mem.tasks, t);
    }
  }

  /** `after` is `before` with the record of `id` turned into `now`, less some finished
      records that need no observation. */
  ghost predicate OneChanged(before: seq<Task>, after: seq<Task>, id: TaskId, now: Task) {
    && (forall t :: t in after && t.id == id ==> t == now)
    && (forall t :: t in after && t.id != id ==> t in before)
    && (forall t :: t in before && t.id != id && t !in after ==> IsTerminal(t) && !IsUnresolved(t))
    && (now !in after ==> IsTerminal(now) && !IsUnresolved(now))
  }

  lemma PatchedMembers(s: System, id: TaskId, patch: Patch)
    requires UniqueIds(s.mem.tasks) && Find(s.mem.tasks, id).Some?
    ensures OneChanged(s.mem.tasks, Patched(s, id, patch).mem.tasks, id, ApplyPatch(Find(s.mem.tasks, id).value, patch))
    ensures ApplyPatch(Find(s.mem.tasks, id).value, patch) in Patched(s, id, patch).mem.tasks
  {
    var q, r := s.mem.tasks, Patched(s, id, patch).mem.tasks;
    var now := ApplyPatch(Find(q, id).value, patch);
    FindIsMember(q, id);
    forall i | 0 <= i < |q| ensures r[i] == if q[i].id == id then now else q[i] {
      assert q[i] in q;
      MemberIsFound(q, q[i]);
    }
    forall t | t in q ensures (if t.id == id then now else t) in r {
      var i :| 0 <= i < |q| && q[i] == t;
      assert r[i] in r;
    }
    forall t | t in r ensures if t.id == id then t == now else t in q {
      var i :| 0 <= i < |r| && r[i] == t;
      assert q[i] in q;
    }
  }

  lemma ThenPruned(cfg: Config, before: seq<Task>, next: System, id: TaskId, now: Task)
    requires Inv(next) && OneChanged(before, next.mem.tasks, id, now) && now in next.mem.tasks
    ensures OneChanged(before, Schedule(PruneStep(cfg, next)).mem.tasks, id, now)
  {
    hide Inv, IsTerminal, IsUnresolved, PruneStep, Schedule;
    PruneOnlyDrops(cfg, next);
  }

  /** A worker's end, or a dispatch refused for want of its barrier: the record, if it is
      still stored, has exactly the outcome that was reported and is otherwise as it was, and
      so is every other record. */
  lemma WorkerEndIsRecorded(cfg: Config, s: System, e: Event)
    requires Inv(s) && Enabled(s, e) && (e.WorkerSucceeds? || e.WorkerFails? || e.RefuseDispatch?)
    ensures Find(s.mem.tasks, e.id).Some?
    ensures var t := Find(s.mem.tasks, e.id).value;
            OneChanged(s.mem.tasks, Apply(cfg, s, e).mem.tasks, e.id,
              match e
              case WorkerSucceeds(_, now) =>
                t.(status := Success, updatedAt := now, writeIndeterminate := false, error := NoError)
              case WorkerFails(_, now, error, indeterminate) =>
                t.(status := Failed, updatedAt := now, writeIndeterminate := indeterminate, error := error)
              case RefuseDispatch(_, now, indeterminate) =>
                t.(status := Failed, updatedAt := now, writeIndeterminate := indeterminate, error := PersistenceFailed)
              case _ => t)
  {
    hide Inv, PruneStep, Schedule, OneChanged, Patched, IsTerminal;
    LiveHasNoVerdict(s, e.id);
    var patch := if e.WorkerSucceeds? then SuccessPatch(e.now)
                 else if e.WorkerFails? then FailurePatch(e.now, e.error, e.indeterminate)
                 else FailurePatch(e.now, PersistenceFailed, e.indeterminate);
    SettleKeepsInv(s, e.id, patch);
    PatchedMembers(s, e.id, patch);
    ThenPruned(cfg, s.mem.tasks, Settle(s, e.id, patch), e.id, ApplyPatch(Find(s.mem.tasks, e.id).value, patch));
  }

  lemma LiveHasNoVerdict(s: System, id: TaskId)
    requires Inv(s) && id in s.phase
    ensures UniqueIds(s.mem.tasks)
    ensures Find(s.mem.tasks, id).Some? && Find(s.mem.tasks, id).value.id == id
    ensures !IsTerminal(Find(s.mem.tasks, id).value) && HasNoVerdict(Find(s.mem.tasks, id).value)
  {
    assert LiveTaskOk(s, id);
  }

  /** Waiting for a sync and being dispatched mark the record as running at that time and
      change nothing else; progress changes nothing at all. */
  lemma RunningIsRecorded(cfg: Config, s: System, e: Event)
    requires Inv(s) && Enabled(s, e) && (e.WaitForSync? || e.BeginDispatch? || e.WorkerProgress?)
    ensures Find(s.mem.tasks, e.id).Some?
    ensures var t := Find(s.mem.tasks, e.id).value;
            var now := if e.WorkerProgress? then t else t.(status := Running, updatedAt := e.now);
            OneChanged(s.mem.tasks, Apply(cfg, s, e).mem.tasks, e.id, now) && now in Apply(cfg, s, e).mem.tasks
  {
    hide Inv, PruneStep, Schedule, Patched, IsTerminal, IsUnresolved;
    LiveHasNoVerdict(s, e.id);
    var t := Find(s.mem.tasks, e.id).value;
    if e.WorkerProgress? {
      SameRecords(s, e.id);
      ThenPruned(cfg, s.mem.tasks, s, e.id, t);
    } else {
      var phase := if e.WaitForSync? then Queued else AwaitingBarrier(s.nextJob);
      MarkKeepsInv(s, e.id, e.now, phase);
      MarkedIsTheStep(s, e.id, e.now);
      PatchedMembers(s, e.id, RunningPatch(e.now));
      ThenPruned(cfg, s.mem.tasks, Marked(s, e.id, e.now, phase), e.id, ApplyPatch(t, RunningPatch(e.now)));
    }
    if !e.WorkerProgress? {
      RunningIsUnfinished(t, e);
    }
  }

  lemma RunningIsUnfinished(t: Task, e: Event)
    requires (e.WaitForSync? || e.BeginDispatch?)
    ensures !IsTerminal(t.(status := Running, updatedAt := e.now))
  {
  }

  lemma SameRecords(s: System, id: TaskId)
    requires UniqueIds(s.mem.tasks) && Find(s.mem.tasks, id).Some?
    ensures OneChanged(s.mem.tasks, s.mem.tasks, id, Find(s.mem.tasks, id).value)
    ensures Find(s.mem.tasks, id).value in s.mem.tasks
  {
    FindIsMember(s.mem.tasks, id);
    forall t | t in s.mem.tasks && t.id == id ensures t == Find(s.mem.tasks, id).value {
      MemberIsFound(s.mem.tasks, t);
    }
  }

  // ---- accepted work ----

  /** Accepted work is stored as what was asked for, unfinished and without a verdict, and no
      other record is touched but by pruning. */
  lemma AcceptedWorkIsStored(cfg: Config, s: System, e: Event)
    requires Inv(s) && Accepts(s, e)
    ensures var after, i := Apply(cfg, s, e).mem.tasks, e.input;
            var t := Task(e.id, i.mid, i.fingerprint, i.taskType, i.kind, i.formId, i.entryId,
                          Pending, e.now, e.now, false, None, NoError);
            t in after && OneChanged(s.mem.tasks, after, e.id, t)
  {
    hide Inv, PruneStep, Schedule, IsUnresolved, Find;
    var next := AdmitStep(s, e.input, e.id, e.now, e.blocked, e.accepting);
    var i := e.input;
    var t := Task(e.id, i.mid, i.fingerprint, i.taskType, i.kind, i.formId, i.entryId,
                  Pending, e.now, e.now, false, None, NoError);
    AdmitKeepsInv(s, e.input, e.id, e.now, e.blocked, e.accepting);
    NewIdIsNotStored(s, e.id);
    assert next.mem.tasks == s.mem.tasks + [t];
    ThenPruned(cfg, s.mem.tasks, next, e.id, t);
  }

  lemma NewIdIsNotStored(s: System, id: TaskId)
    requires Inv(s) && id !in s.hist.used
    ensures forall t :: t in s.mem.tasks ==> t.id != id
  {
  }

  /** In every run with any crashes, what is stored, saved or being saved carries the request
      it was accepted for. */
  lemma RecordsCarryTheirRequest(cfg: Config, start: System, before: seq<Event>, e: Event, events: seq<Event>, t: Task)
    requires Initial(start) && Accepts(Run(cfg, start, before), e) && t.id == e.id
    requires var s := Run(cfg, Apply(cfg, Run(cfg, start, before), e), events);
             || t in s.mem.tasks || (s.disk.Saved? && t in s.disk.tasks)
             || (s.writing.Some? && t in s.writing.value.tasks)
    ensures t.mid == e.input.mid && t.fingerprint == e.input.fingerprint && t.createdAt == e.now
    ensures t.taskType == e.input.taskType && t.kind == e.input.kind
    ensures t.formId == e.input.formId && t.entryId == e.input.entryId
  {
    hide Run, Apply, JobsOk, PhasesOk, BarrierOk, StartedOk;
    var s := Apply(cfg, Run(cfg, start, before), e);
    RunKeepsInv(cfg, start, before);
    ApplyKeepsInv(cfg, Run(cfg, start, before), e);
    RunFromKeepsInv(cfg, s, events);
    AcceptedIsUsed(cfg, Run(cfg, start, before), e);
    UsedStays(cfg, s, events, e.id);
  }

  lemma AcceptedIsUsed(cfg: Config, s: System, e: Event)
    requires Accepts(s, e)
    ensures e.id in Apply(cfg, s, e).hist.used && Apply(cfg, s, e).hist.used[e.id] == Request(e.input, e.now)
  {
    hide Admit;
  }

  lemma UsedStaysOneStep(cfg: Config, s: System, e: Event, id: TaskId)
    requires id in s.hist.used
    ensures id in Apply(cfg, s, e).hist.used && Apply(cfg, s, e).hist.used[id] == s.hist.used[id]
  {
    hide Admit;
  }

  lemma {:induction false} UsedStays(cfg: Config, s: System, events: seq<Event>, id: TaskId)
    requires id in s.hist.used
    ensures id in Run(cfg, s, events).hist.used && Run(cfg, s, events).hist.used[id] == s.hist.used[id]
  {
    hide Apply;
    if |events| > 0 {
      UsedStays(cfg, s, events[..|events| - 1], id);
      UsedStaysOneStep(cfg, Run(cfg, s, events[..|events| - 1]), events[|events| - 1], id);
    }
  }

  // ---- observations ----

  /** A failed schedule mutation of which nobody knows whether it was written. */
  predicate NeedsObservation(t: Task) {
    && t.taskType == UpdateReport
    && t.kind in {UpdateStartSchedule, UpdateSortOrder, UpdateUrgent, UpdateMainMachine, UpdatePlannedEndDate}
    && t.status == Failed && t.observedAt == None
    && (t.writeIndeterminate || t.error == IndeterminateCode)
  }

  predicate NamedBy(t: Task, formId: string, entryId: string, ids: set<TaskId>) {
    entryId != "" && t.id in ids && t.formId == formId && t.entryId == entryId
  }

  /** An observation resolves exactly the records it names that need one: they are stamped and
      no longer in doubt, and every other field and record stays as it was. */
  lemma ObservationResolves(cfg: Config, s: System, formId: string, entryId: string, ids: set<TaskId>, now: nat)
    ensures var before, after := s.mem.tasks, Apply(cfg, s, Observe(formId, entryId, ids, now)).mem.tasks;
            && |after| == |before|
            && forall i :: 0 <= i < |before| ==>
                 after[i] == if NamedBy(before[i], formId, entryId, ids) && NeedsObservation(before[i])
                             then before[i].(observedAt := Some(now), writeIndeterminate := false, updatedAt := now)
                             else before[i]
    ensures forall t :: t in Apply(cfg, s, Observe(formId, entryId, ids, now)).mem.tasks ==>
              !(NamedBy(t, formId, entryId, ids) && NeedsObservation(t))
    ensures Apply(cfg, s, Observe(formId, entryId, ids, now)).mem.owner == s.mem.owner
  {
    hide NeedsObservation, AckOne, Acknowledge;
    var before, after := s.mem.tasks, Apply(cfg, s, Observe(formId, entryId, ids, now)).mem.tasks;
    ObservedMemory(cfg, s, formId, entryId, ids, now);
    AcknowledgedRecords(s.mem, formId, entryId, ids, now);
    forall i | 0 <= i < |before|
      ensures after[i] == if NamedBy(before[i], formId, entryId, ids) && NeedsObservation(before[i])
                          then before[i].(observedAt := Some(now), writeIndeterminate := false, updatedAt := now)
                          else before[i]
      ensures !(NamedBy(after[i], formId, entryId, ids) && NeedsObservation(after[i]))
    {
      ObservedRecord(before[i], formId, entryId, ids, now);
    }
  }

  lemma ObservedMemory(cfg: Config, s: System, formId: string, entryId: string, ids: set<TaskId>, now: nat)
    ensures Apply(cfg, s, Observe(formId, entryId, ids, now)).mem == Acknowledge(s.mem, formId, entryId, ids, now)
  {
    hide Acknowledge, AcknowledgedTasks, Mids;
  }

  lemma AcknowledgedRecords(mem: Memory, formId: string, entryId: string, ids: set<TaskId>, at: nat)
    ensures var after := Acknowledge(mem, formId, entryId, ids, at);
            && after.owner == mem.owner && |after.tasks| == |mem.tasks|
            && forall i :: 0 <= i < |mem.tasks| ==>
                 after.tasks[i] == if entryId == "" then mem.tasks[i] else AckOne(mem.tasks[i], formId, entryId, ids, at)
  {
    hide AckOne;
  }

  lemma ObservedRecord(t: Task, formId: string, entryId: string, ids: set<TaskId>, at: nat)
    ensures var after := if entryId == "" then t else AckOne(t, formId, entryId, ids, at);
            && !(NamedBy(after, formId, entryId, ids) && NeedsObservation(after))
            && after == if NamedBy(t, formId, entryId, ids) && NeedsObservation(t)
                        then t.(observedAt := Some(at), writeIndeterminate := false, updatedAt := at) else t
  {
  }

  lemma {:induction false} NothingAcknowledged(q: seq<Task>, formId: string, entryId: string, ids: set<TaskId>)
    requires forall t :: t in q ==> !(NamedBy(t, formId, entryId, ids) && NeedsObservation(t))
    ensures AcknowledgedTasks(q, formId, entryId, ids) == []
  {
    if |q| > 0 {
      assert forall t :: t in q[..|q| - 1] ==> t in q;
      assert q[|q| - 1] in q;
      NothingAcknowledged(q[..|q| - 1], formId, entryId, ids);
    }
  }

  /** Observing the same once more acknowledges nothing and changes nothing. */
  lemma ObservingTwiceIsOnce(cfg: Config, s: System, formId: string, entryId: string, ids: set<TaskId>, now: nat, later: nat)
    ensures var once := Apply(cfg, s, Observe(formId, entryId, ids, now));
            Apply(cfg, once, Observe(formId, entryId, ids, later)) == once
  {
    hide NeedsObservation, NamedBy, AcknowledgedTasks;
    var once := Apply(cfg, s, Observe(formId, entryId, ids, now));
    var twice := Apply(cfg, once, Observe(formId, entryId, ids, later));
    ObservationResolves(cfg, s, formId, entryId, ids, now);
    ObservationResolves(cfg, once, formId, entryId, ids, later);
    NothingAcknowledged(once.mem.tasks, formId, entryId, ids);
    assert twice.mem.tasks == once.mem.tasks;
    assert once.hist.acks + multiset{} == once.hist.acks;
  }

  // ---- a restart ----

  /** What a record on disk says after a restart: work that was not finished has failed by
      being recovered, and may have been written unless the disk shows that it was never
      dispatched, which it does only under the barrier. */
  function AfterRestart(t: Task, barrier: bool, now: nat): Task {
    match t.status
    case Pending => t.(status := Failed, error := RecoveredAfterRestart, updatedAt := now, writeIndeterminate := !barrier)
    case Running => t.(status := Failed, error := RecoveredAfterRestart, updatedAt := now, writeIndeterminate := true)
    case _ => t
  }

  /** After a restart memory holds what the disk held, each record with its verdict, less some
      finished records that need no observation. */
  lemma RestartIsRecorded(cfg: Config, s: System, now: nat)
    requires Inv(s) && s.disk.Saved?
    ensures var saved, after := s.disk.tasks, Apply(cfg, s, CrashAndRestart(now)).mem.tasks;
            && (forall u :: u in after ==> exists t :: t in saved && u == AfterRestart(t, s.disk.barrier, now))
            && (forall t :: t in saved && AfterRestart(t, s.disk.barrier, now) !in after ==>
                  !NeedsObservation(AfterRestart(t, s.disk.barrier, now)))
  {
    hide Inv, PruneStep, Schedule, Reload, NeedsObservation, IsUnresolved;
    RestartKeepsInv(s, now);
    ReloadedRecords(s, now);
    PruneOnlyDrops(cfg, RestartStep(s, now));
    forall t | t in s.disk.tasks && AfterRestart(t, s.disk.barrier, now) !in Apply(cfg, s, CrashAndRestart(now)).mem.tasks
      ensures !NeedsObservation(AfterRestart(t, s.disk.barrier, now))
    {
      UnresolvedNeedsObservation(AfterRestart(t, s.disk.barrier, now));
    }
  }

  lemma UnresolvedNeedsObservation(t: Task)
    ensures NeedsObservation(t) <==> IsUnresolved(t)
  {
  }

  lemma ReloadedRecords(s: System, now: nat)
    requires Inv(s) && s.disk.Saved?
    ensures var saved, after := s.disk.tasks, RestartStep(s, now).mem.tasks;
            && (forall u :: u in after ==> exists t :: t in saved && u == AfterRestart(t, s.disk.barrier, now))
            && (forall t :: t in saved ==> AfterRestart(t, s.disk.barrier, now) in after)
  {
    hide Reload;
    var saved, after := s.disk.tasks, RestartStep(s, now).mem.tasks;
    ReloadFacts(saved, s.disk.barrier, now);
    forall u | u in after ensures exists t :: t in saved && u == AfterRestart(t, s.disk.barrier, now) {
      var i :| 0 <= i < |after| && after[i] == u;
      assert saved[i] in saved;
    }
    forall t | t in saved ensures AfterRestart(t, s.disk.barrier, now) in after {
      var i :| 0 <= i < |saved| && saved[i] == t;
      assert after[i] in after;
    }
  }

  // ---- counting ----

  lemma {:induction false} AcknowledgedOnce(q: seq<Task>, formId: string, entryId: string, ids: set<TaskId>)
    requires UniqueIds(q)
    ensures UniqueIds(AcknowledgedTasks(q, formId, entryId, ids))
  {
    if |q| > 0 && entryId != "" {
      AcknowledgedOnce(q[..|q| - 1], formId, entryId, ids);
      FrontIsOther(q);
      var rest := AcknowledgedTasks(q[..|q| - 1], formId, entryId, ids);
      forall i | 0 <= i < |rest| ensures rest[i].id != q[|q| - 1].id {
        assert rest[i] in rest;
      }
    }
  }

  lemma {:induction false} MidsPerTask(q: seq<Task>)
    ensures |Mids(q)| == |q|
  {
    if |q| > 0 {
      MidsPerTask(q[..|q| - 1]);
    }
  }

  lemma PruneConserves(cfg: Config, s: System)
    requires Inv(s)
    ensures var t := PruneStep(cfg, s); |t.mem.tasks| + |t.hist.prunes| == |s.mem.tasks| + |s.hist.prunes|
  {
    hide Prune, StableSortBy, Prunable;
    PruneDeletesVictims(s.mem, cfg.limit);
    MidsPerTask(Victims(s.mem.tasks, cfg.limit));
  }

  lemma ReloadCount(s: System, now: nat)
    requires Inv(s) && s.disk.Saved?
    ensures |RestartStep(s, now).mem.tasks| == |s.disk.tasks|
  {
    ReloadFacts(s.disk.tasks, s.disk.barrier, now);
  }

  lemma WorkConserves(cfg: Config, s: System, e: Event)
    requires Inv(s) && Enabled(s, e)
    requires e.WaitForSync? || e.BeginDispatch? || e.WorkerSucceeds? || e.WorkerFails? || e.RefuseDispatch?
    ensures var t := Apply(cfg, s, e);
            |t.mem.tasks| + |t.hist.prunes| == |s.mem.tasks| + |s.hist.prunes|
  {
    hide Inv, PruneStep, IsFinalPatch;
    if e.WaitForSync? || e.BeginDispatch? {
      var phase := if e.WaitForSync? then Queued else AwaitingBarrier(s.nextJob);
      MarkKeepsInv(s, e.id, e.now, phase);
      MarkedIsTheStep(s, e.id, e.now);
      PruneConserves(cfg, Marked(s, e.id, e.now, phase));
    } else {
      var patch := if e.WorkerSucceeds? then SuccessPatch(e.now)
                   else if e.WorkerFails? then FailurePatch(e.now, e.error, e.indeterminate)
                   else FailurePatch(e.now, PersistenceFailed, e.indeterminate);
      EndPatchIsFinal(s, e);
      SettleKeepsInv(s, e.id, patch);
      PruneConserves(cfg, Settle(s, e.id, patch));
    }
  }

  lemma EndPatchIsFinal(s: System, e: Event)
    requires Enabled(s, e)
    ensures e.WorkerSucceeds? ==> IsFinalPatch(SuccessPatch(e.now))
    ensures e.WorkerFails? ==> IsFinalPatch(FailurePatch(e.now, e.error, e.indeterminate))
    ensures e.RefuseDispatch? ==> IsFinalPatch(FailurePatch(e.now, PersistenceFailed, e.indeterminate))
  {
  }

  /** No record is lost or counted twice: a step adds the accepted record and takes away what
      it counts as pruned; a restart begins with what the disk holds. */
  lemma RecordsAreConserved(cfg: Config, s: System, e: Event)
    requires Inv(s) && Enabled(s, e)
    ensures var t := Apply(cfg, s, e);
            |t.mem.tasks| + |t.hist.prunes|
            == |s.hist.prunes| + (if e.CrashAndRestart? then (if s.disk.Saved? then |s.disk.tasks| else 0)
                                  else |s.mem.tasks| + Bit(Accepts(s, e)))
  {
    hide Inv, PruneStep, Reload, PatchTasks;
    match e
    case EnqueueTask(input, id, now, blocked, accepting) =>
      AdmitKeepsInv(s, input, id, now, blocked, accepting);
      PruneConserves(cfg, AdmitStep(s, input, id, now, blocked, accepting));
    case CrashAndRestart(now) =>
      RestartKeepsInv(s, now);
      if s.disk.Saved? {
        ReloadCount(s, now);
        PruneConserves(cfg, RestartStep(s, now));
      }
    case WorkerProgress(_) => PruneConserves(cfg, s);
    case Observe(_, _, _, _) =>
    case TakeSnapshot =>
    case CommitSnapshot =>
    case FailPersist =>
    case StartWorker(_) =>
    case _ => WorkConserves(cfg, s, e);
  }

  // ---- a write in doubt stays on record ----

  /** The image shows the record in doubt, or running without a verdict, which a reload turns
      into in doubt. */
  ghost predicate HoldsDoubt(q: seq<Task>, id: TaskId) {
    && Find(q, id).Some?
    && (NeedsObservation(Find(q, id).value) || ShowsRunning(q, id))
  }

  /** Wherever a crash may strike, task `id` is on record as in doubt. */
  ghost predicate InDoubt(s: System, id: TaskId) {
    && id !in s.phase && id in s.hist.used && IsScheduleMutation(s.hist.used[id].input)
    && Find(s.mem.tasks, id).Some? && NeedsObservation(Find(s.mem.tasks, id).value)
    && s.disk.Saved? && HoldsDoubt(s.disk.tasks, id)
    && (s.writing.Some? ==> HoldsDoubt(s.writing.value.tasks, id))
  }

  predicate IsScheduleMutation(input: Input) {
    input.taskType == UpdateReport
    && input.kind in {UpdateStartSchedule, UpdateSortOrder, UpdateUrgent, UpdateMainMachine, UpdatePlannedEndDate}
  }

  lemma RequestIsOnRecord(s: System, id: TaskId)
    requires Inv(s) && Find(s.mem.tasks, id).Some?
    ensures id in s.hist.used && s.hist.used[id] == RequestOf(Find(s.mem.tasks, id).value)
  {
    FindIsMember(s.mem.tasks, id);
  }

  lemma ImagesShowRunning(s: System, id: TaskId)
    requires Inv(s) && InPhase(s, id, WorkerRunning)
    ensures s.disk.Saved? && HoldsDoubt(s.disk.tasks, id)
    ensures s.writing.Some? ==> HoldsDoubt(s.writing.value.tasks, id)
  {
  }

  lemma StoredIsFound(s: System, t: Task)
    requires Inv(s) && t in s.mem.tasks
    ensures Find(s.mem.tasks, t.id) == Some(t)
  {
    MemberIsFound(s.mem.tasks, t);
  }

  lemma EndedShape(cfg: Config, s: System, e: Event)
    requires Enabled(s, e) && e.WorkerFails?
    ensures var t := Apply(cfg, s, e);
            e.id !in t.phase && t.disk == s.disk && t.writing == s.writing && t.hist.used == s.hist.used
  {
  }

  lemma FailureIsInDoubt(cfg: Config, s: System, e: Event)
    requires Inv(s) && Enabled(s, e) && e.WorkerFails? && (e.indeterminate || e.error == IndeterminateCode)
    requires e.id in s.hist.used && IsScheduleMutation(s.hist.used[e.id].input)
    ensures InDoubt(Apply(cfg, s, e), e.id)
  {
    hide Inv, PruneStep, Schedule, Find, HoldsDoubt;
    WorkerEndIsRecorded(cfg, s, e);
    LiveHasNoVerdict(s, e.id);
    RequestIsOnRecord(s, e.id);
    ApplyKeepsInv(cfg, s, e);
    EndedShape(cfg, s, e);
    ImagesShowRunning(s, e.id);
    var after := Apply(cfg, s, e).mem.tasks;
    var now := Find(s.mem.tasks, e.id).value.(status := Failed, updatedAt := e.now, writeIndeterminate := e.indeterminate, error := e.error);
    assert now in after;
    StoredIsFound(Apply(cfg, s, e), now);
  }

  // What the steps leave of a record in doubt.

  lemma DoubtSurvivesPrune(cfg: Config, s: System, id: TaskId)
    requires Inv(s) && InDoubt(s, id)
    ensures InDoubt(Schedule(PruneStep(cfg, s)), id)
  {
    hide Prune, Victims;
    PruneFind(s.mem, cfg.limit, id);
  }

  lemma DoubtSurvivesPatch(s: System, s': System, x: TaskId, patch: Patch, id: TaskId)
    requires InDoubt(s, id) && x in s.phase
    requires s'.mem == Patched(s, x, patch).mem && s'.disk == s.disk && s'.writing == s.writing && s'.hist == s.hist
    requires s'.phase.Keys <= s.phase.Keys
    ensures InDoubt(s', id)
  {
    PatchFind(s.mem.tasks, x, patch, id);
    FindIsMember(s.mem.tasks, id);
  }

  lemma DoubtSurvivesWork(cfg: Config, s: System, e: Event, id: TaskId)
    requires Inv(s) && InDoubt(s, id) && Enabled(s, e)
    requires e.WaitForSync? || e.BeginDispatch? || e.WorkerSucceeds? || e.WorkerFails? || e.RefuseDispatch?
    ensures InDoubt(Apply(cfg, s, e), id)
  {
    hide Inv, PruneStep, Schedule, InDoubt, IsFinalPatch, PatchTasks;
    if e.WaitForSync? || e.BeginDispatch? {
      var phase := if e.WaitForSync? then Queued else AwaitingBarrier(s.nextJob);
      MarkKeepsInv(s, e.id, e.now, phase);
      MarkedIsTheStep(s, e.id, e.now);
      DoubtSurvivesPatch(s, Marked(s, e.id, e.now, phase), e.id, RunningPatch(e.now), id);
      DoubtSurvivesPrune(cfg, Marked(s, e.id, e.now, phase), id);
    } else {
      var patch := if e.WorkerSucceeds? then SuccessPatch(e.now)
                   else if e.WorkerFails? then FailurePatch(e.now, e.error, e.indeterminate)
                   else FailurePatch(e.now, PersistenceFailed, e.indeterminate);
      EndPatchIsFinal(s, e);
      SettleKeepsInv(s, e.id, patch);
      DoubtSurvivesPatch(s, Settle(s, e.id, patch), e.id, patch, id);
      DoubtSurvivesPrune(cfg, Settle(s, e.id, patch), id);
    }
  }

  lemma DoubtSurvivesAdmission(cfg: Config, s: System, e: Event, id: TaskId)
    requires Inv(s) && InDoubt(s, id) && Enabled(s, e) && e.EnqueueTask?
    ensures InDoubt(Apply(cfg, s, e), id)
  {
    hide Inv, PruneStep, Schedule, HoldsDoubt, NeedsObservation;
    AdmitKeepsInv(s, e.input, e.id, e.now, e.blocked, e.accepting);
    AppendFacts(s.mem.tasks, NewTask(e.input, e.id, e.now));
    DoubtSurvivesPrune(cfg, AdmitStep(s, e.input, e.id, e.now, e.blocked, e.accepting), id);
  }

  lemma DoubtSurvivesWriting(cfg: Config, s: System, e: Event, id: TaskId)
    requires Inv(s) && InDoubt(s, id) && Enabled(s, e)
    requires e.TakeSnapshot? || e.CommitSnapshot? || e.FailPersist? || e.StartWorker?
    ensures InDoubt(Apply(cfg, s, e), id)
  {
    hide NeedsObservation;
    SnapshotShows(s, id);
  }

  /** A reload turns an image that shows a record running into one that shows it in doubt. */
  lemma DoubtSurvivesCrash(cfg: Config, s: System, now: nat, id: TaskId)
    requires Inv(s) && InDoubt(s, id)
    ensures InDoubt(Apply(cfg, s, CrashAndRestart(now)), id)
  {
    hide Inv, PruneStep, Schedule, Reload;
    var t := Find(s.disk.tasks, id).value;
    RestartKeepsInv(s, now);
    DiskIsUnique(s, id);
    ReloadFind(s.disk.tasks, s.disk.barrier, now, id);
    DoubtSurvivesPrune(cfg, RestartStep(s, now), id);
  }

  lemma DiskIsUnique(s: System, id: TaskId)
    requires Inv(s) && s.disk.Saved? && Find(s.disk.tasks, id).Some?
    ensures UniqueIds(s.disk.tasks) && Find(s.disk.tasks, id).value.id == id
    ensures id in s.hist.used && s.hist.used[id] == RequestOf(Find(s.disk.tasks, id).value)
  {
    FindIsMember(s.disk.tasks, id);
  }

  /** The observation names a record by its own request. */
  predicate Names(s: System, e: Event, id: TaskId) {
    && e.Observe? && id in e.ids && id in s.hist.used
    && e.entryId != "" && e.formId == s.hist.used[id].input.formId && e.entryId == s.hist.used[id].input.entryId
  }

  lemma DoubtAndObservation(cfg: Config, s: System, e: Event, id: TaskId)
    requires Inv(s) && InDoubt(s, id) && e.Observe?
    ensures InDoubt(Apply(cfg, s, e), id) <==> !Names(s, e, id)
    ensures Names(s, e, id) ==> Find(Apply(cfg, s, e).mem.tasks, id).Some?
                                && !NeedsObservation(Find(Apply(cfg, s, e).mem.tasks, id).value)
                                && Apply(cfg, s, e).hist.acks[s.hist.used[id].input.mid] > s.hist.acks[s.hist.used[id].input.mid]
  {
    hide Inv, NeedsObservation, HoldsDoubt, AckOne, Acknowledge, AcknowledgedTasks, Mids;
    var t := Find(s.mem.tasks, id).value;
    FindIsMember(s.mem.tasks, id);
    RequestIsOnRecord(s, id);
    ObservedState(cfg, s, e);
    AcknowledgedFind(s.mem, e.formId, e.entryId, e.ids, e.now, id);
    ObservedRecord(t, e.formId, e.entryId, e.ids, e.now);
    ObservedDoubt(t, e.now);
    if Names(s, e, id) {
      NamedIsAcknowledged(t, e.formId, e.entryId, e.ids);
      AckIsCounted(s, e.formId, e.entryId, e.ids, e.now, t);
    }
  }

  lemma ObservedState(cfg: Config, s: System, e: Event)
    requires e.Observe?
    ensures var t, o := Apply(cfg, s, e), ObserveStep(s, e.formId, e.entryId, e.ids, e.now);
            && t.mem == o.mem == Acknowledge(s.mem, e.formId, e.entryId, e.ids, e.now)
            && t.hist == o.hist && t.hist.used == s.hist.used && t.phase == s.phase && t.disk == s.disk && t.writing == s.writing
  {
    hide Acknowledge, AcknowledgedTasks, Mids;
  }

  lemma AcknowledgedFind(mem: Memory, formId: string, entryId: string, ids: set<TaskId>, at: nat, id: TaskId)
    requires Find(mem.tasks, id).Some?
    ensures var t := Find(mem.tasks, id).value;
            Find(Acknowledge(mem, formId, entryId, ids, at).tasks, id)
            == Some(if entryId == "" then t else AckOne(t, formId, entryId, ids, at))
  {
    hide AckOne;
    if entryId != "" {
      AckFind(mem.tasks, formId, entryId, ids, at, id);
      assert Acked(mem.tasks, formId, entryId, ids, at) == Acknowledge(mem, formId, entryId, ids, at).tasks;
    }
  }

  lemma ObservedDoubt(t: Task, at: nat)
    ensures !NeedsObservation(t.(observedAt := Some(at), writeIndeterminate := false, updatedAt := at))
  {
  }

  lemma NamedIsAcknowledged(t: Task, formId: string, entryId: string, ids: set<TaskId>)
    requires NamedBy(t, formId, entryId, ids) && NeedsObservation(t)
    ensures IsAcknowledged(t, formId, entryId, ids)
  {
  }

  lemma DoubtAfterStepIff(cfg: Config, s: System, e: Event, id: TaskId)
    requires Inv(s) && InDoubt(s, id)
    ensures InDoubt(Apply(cfg, s, e), id) <==> !Names(s, e, id)
  {
    hide Inv, InDoubt, PruneStep, Schedule, AdmitStep, RestartStep, Patched;
    if Enabled(s, e) {
      match e
      case Observe(_, _, _, _) => DoubtAndObservation(cfg, s, e, id);
      case EnqueueTask(_, _, _, _, _) => DoubtSurvivesAdmission(cfg, s, e, id);
      case CrashAndRestart(now) => DoubtSurvivesCrash(cfg, s, now, id);
      case WorkerProgress(_) => DoubtSurvivesPrune(cfg, s, id);
      case TakeSnapshot => DoubtSurvivesWriting(cfg, s, e, id);
      case CommitSnapshot => DoubtSurvivesWriting(cfg, s, e, id);
      case FailPersist => DoubtSurvivesWriting(cfg, s, e, id);
      case StartWorker(_) => DoubtSurvivesWriting(cfg, s, e, id);
      case _ => DoubtSurvivesWork(cfg, s, e, id);
    }
  }

  ghost predicate InDoubtAt(cfg: Config, s: System, events: seq<Event>, id: TaskId, j: nat)
    requires j <= |events|
  {
    InDoubt(Run(cfg, s, events[..j]), id)
  }

  ghost predicate NamedAt(cfg: Config, s: System, events: seq<Event>, id: TaskId, j: nat)
    requires j < |events|
  {
    Names(Run(cfg, s, events[..j]), events[j], id)
  }

  lemma DoubtNext(cfg: Config, s: System, events: seq<Event>, id: TaskId, j: nat)
    requires Inv(s) && j < |events| && InDoubtAt(cfg, s, events, id, j)
    ensures InDoubtAt(cfg, s, events, id, j + 1) <==> !NamedAt(cfg, s, events, id, j)
  {
    hide Inv, InDoubt, Names, Apply;
    assert events[..j + 1][..j] == events[..j];
    RunFromKeepsInv(cfg, s, events[..j]);
    DoubtAfterStepIff(cfg, Run(cfg, s, events[..j]), events[j], id);
  }

  lemma DoubtAtStart(cfg: Config, s: System, events: seq<Event>, id: TaskId)
    requires InDoubt(s, id)
    ensures InDoubtAt(cfg, s, events, id, 0)
  {
    assert events[..0] == [];
  }

  lemma {:induction false} DoubtUpTo(cfg: Config, s: System, events: seq<Event>, id: TaskId, n: nat)
    requires Inv(s) && InDoubt(s, id) && n <= |events|
    ensures (forall j :: 0 <= j <= n ==> InDoubtAt(cfg, s, events, id, j))
            <==> (forall j :: 0 <= j < n ==> !NamedAt(cfg, s, events, id, j))
  {
    hide Inv, InDoubtAt, NamedAt;
    if n > 0 {
      DoubtUpTo(cfg, s, events, id, n - 1);
      if InDoubtAt(cfg, s, events, id, n - 1) {
        DoubtNext(cfg, s, events, id, n - 1);
      }
    } else {
      DoubtAtStart(cfg, s, events, id);
    }
  }

  /** A schedule mutation whose worker failed with the write in doubt: over any run from
      there, with any crashes at any point and any clock, it stays stored and in need of an
      observation exactly as long as no observation names it. */
  lemma InDoubtUntilObserved(cfg: Config, start: System, before: seq<Event>, e: Event, events: seq<Event>)
    requires Initial(start) && e.WorkerFails? && Enabled(Run(cfg, start, before), e)
    requires e.indeterminate || e.error == IndeterminateCode
    requires var used := Run(cfg, start, before).hist.used; e.id in used && IsScheduleMutation(used[e.id].input)
    ensures var s := Apply(cfg, Run(cfg, start, before), e);
            (forall j :: 0 <= j <= |events| ==> InDoubtAt(cfg, s, events, e.id, j))
            <==> (forall j :: 0 <= j < |events| ==> !NamedAt(cfg, s, events, e.id, j))
  {
    hide Inv, InDoubt, InDoubtAt, NamedAt, Apply;
    RunKeepsInv(cfg, start, before);
    FailureIsInDoubt(cfg, Run(cfg, start, before), e);
    ApplyKeepsInv(cfg, Run(cfg, start, before), e);
    DoubtUpTo(cfg, Apply(cfg, Run(cfg, start, before), e), events, e.id, |events|);
  }

  /** And whenever it is in doubt, observing the entry and form it was asked for resolves it
      and is counted. */
  lemma ObservationFindsIt(cfg: Config, start: System, events: seq<Event>, id: TaskId, now: nat)
    requires Initial(start) && InDoubt(Run(cfg, start, events), id)
    requires Run(cfg, start, events).hist.used[id].input.entryId != ""
    ensures var s := Run(cfg, start, events);
            var i := s.hist.used[id].input;
            var t := Apply(cfg, s, Observe(i.formId, i.entryId, {id}, now));
            && Find(t.mem.tasks, id).Some? && !NeedsObservation(Find(t.mem.tasks, id).value)
            && t.hist.acks[i.mid] > s.hist.acks[i.mid]
  {
    hide Inv, NeedsObservation, HoldsDoubt, Apply, Run;
    var s := Run(cfg, start, events);
    var i := s.hist.used[id].input;
    RunKeepsInv(cfg, start, events);
    DoubtAndObservation(cfg, s, Observe(i.formId, i.entryId, {id}, now), id);
  }
}
