/** At-most-once dispatch.  The starts of a mutation id are bounded in every run in which
    no accepted work is dated before a newer, retryable record of its own id; and where
    such work is accepted the bound is gone (`DispatchExamples`). */
module DispatchOnce {
  import opened Options
  import opened ReportTask
  import opened ReportTaskStore
  import opened DispatchProtocol
  import opened DispatchSafety

  // ---- where new work may start ----

  /** In this process a new worker may still start for `m`. */
  ghost predicate OpenInMemory(s: System, m: MutationId) {
    m !in s.mem.owner
    || (s.mem.owner[m] in s.phase && s.phase[s.mem.owner[m]] != WorkerRunning)
    || (Find(s.mem.tasks, s.mem.owner[m]).Some? && IsRetryable(Find(s.mem.tasks, s.mem.owner[m]).value))
  }

  /** After a reload of `q` a new worker could start for `m`. */
  ghost predicate OpenAfterReload(q: seq<Task>, barrier: bool, m: MutationId) {
    LastOf(q, m).None? || IsRetryable(RecoverOne(LastOf(q, m).value, barrier, 0))
  }

  /** That a reload of `q` would let `m` run again has nothing to do with task `id`. */
  ghost predicate OpenElsewhere(q: seq<Task>, barrier: bool, m: MutationId, id: TaskId) {
    LastOf(q, m).Some? && LastOf(q, m).value.id != id && IsRetryable(RecoverOne(LastOf(q, m).value, barrier, 0))
  }

  /** What is in charge of `m` is accepted and its worker has not started. */
  ghost predicate Awaits(s: System, m: MutationId) {
    m in s.mem.owner && s.mem.owner[m] in s.phase && s.phase[s.mem.owner[m]] != WorkerRunning
  }

  // ---- credit ----

  /** `base` is the allowance at the moment the counting begins. */
  function Allowance(h: History, m: MutationId, base: int): int {
    base + h.acks[m] + h.prunes[m]
  }

  function Bit(b: bool): nat { if b then 1 else 0 }

  ghost predicate ImageCredit(h: History, q: seq<Task>, barrier: bool, m: MutationId, base: int) {
    h.starts[m] + Bit(OpenAfterReload(q, barrier, m)) <= Allowance(h, m, base)
  }

  /** Should `id` start, the image `q` is still paid for. */
  ghost predicate Reserved(h: History, q: seq<Task>, barrier: bool, m: MutationId, id: TaskId, base: int) {
    h.starts[m] + 1 + Bit(OpenElsewhere(q, barrier, m, id)) <= Allowance(h, m, base)
  }

  /** Past the barrier a start is paid for together with what the disk and the write under
      way would allow after a crash. */
  ghost predicate BarrierReserved(s: System, m: MutationId, base: int)
    requires Awaits(s, m)
  {
    var id := s.mem.owner[m];
    match s.phase[id]
    case AwaitingBarrier(j) =>
      s.writing.Some? && s.writing.value.job == j ==> Reserved(s.hist, s.writing.value.tasks, true, m, id, base)
    case BarrierPassed =>
      && (s.disk.Saved? ==> Reserved(s.hist, s.disk.tasks, s.disk.barrier, m, id, base))
      && (s.writing.Some? ==> Reserved(s.hist, s.writing.value.tasks, true, m, id, base))
    case _ => true
  }

  ghost predicate ReservedOk(s: System, m: MutationId, base: int) {
    Awaits(s, m) ==>
      Reserved(s.hist, Snapshot(s.mem), true, m, s.mem.owner[m], base) && BarrierReserved(s, m, base)
  }

  /** Wherever a crash may strike, the starts so far plus those still possible stay within
      the allowance. */
  ghost predicate CreditOk(s: System, m: MutationId, base: int) {
    && s.hist.starts[m] + Bit(OpenInMemory(s, m)) <= Allowance(s.hist, m, base)
    && ImageCredit(s.hist, Snapshot(s.mem), true, m, base)
    && (s.disk.Absent? ==> s.hist.starts[m] + 1 <= Allowance(s.hist, m, base))
    && (s.disk.Saved? ==> ImageCredit(s.hist, s.disk.tasks, s.disk.barrier, m, base))
    && (s.writing.Some? ==> ImageCredit(s.hist, s.writing.value.tasks, true, m, base))
    && ReservedOk(s, m, base)
  }

  /** The phase asks for no more than before, or for nothing yet. */
  ghost predicate NoLater(s: System, s': System, id: TaskId)
    requires id in s.phase && id in s'.phase
  {
    match s'.phase[id]
    case Queued => true
    case BarrierFailed => true
    case AwaitingBarrier(j) => s'.phase[id] == s.phase[id] || (s.writing.Some? ==> s.writing.value.job != j)
    case _ => s'.phase[id] == s.phase[id]
  }

  /** A step in memory that starts nothing keeps the credit if it opens `m` nowhere without
      raising the allowance of `m`. */
  lemma CreditFrame(s: System, s': System, m: MutationId, base: int)
    requires CreditOk(s, m, base)
    requires s'.disk == s.disk && s'.writing == s.writing && s'.hist.starts == s.hist.starts
    requires s'.hist.acks[m] + s'.hist.prunes[m] >= s.hist.acks[m] + s.hist.prunes[m]
    requires var richer := s'.hist.acks[m] + s'.hist.prunes[m] > s.hist.acks[m] + s.hist.prunes[m];
             && (OpenInMemory(s', m) ==> OpenInMemory(s, m) || richer)
             && (OpenAfterReload(Snapshot(s'.mem), true, m) ==> OpenAfterReload(Snapshot(s.mem), true, m) || richer)
             && (Awaits(s', m) ==>
                   && Awaits(s, m) && s'.mem.owner[m] == s.mem.owner[m] && NoLater(s, s', s.mem.owner[m])
                   && (OpenElsewhere(Snapshot(s'.mem), true, m, s.mem.owner[m]) ==>
                         OpenElsewhere(Snapshot(s.mem), true, m, s.mem.owner[m]) || richer))
    ensures CreditOk(s', m, base)
  {
    hide OpenInMemory, OpenAfterReload, OpenElsewhere, Snapshot;
  }

  lemma ScheduleKeepsCredit(s: System, m: MutationId, base: int)
    requires CreditOk(s, m, base)
    ensures CreditOk(Schedule(s), m, base)
  {
    CreditFrame(s, Schedule(s), m, base);
  }

  lemma {:induction false} MidsHasMember(q: seq<Task>, t: Task)
    requires t in q
    ensures Mids(q)[t.mid] >= 1
  {
    if q[|q| - 1] != t {
      MidsHasMember(q[..|q| - 1], t);
    }
  }

  // ---- who a snapshot leaves in charge ----

  /** It is the one made last of those that memory holds. */
  lemma SnapshotLastIsNewest(s: System, m: MutationId, t: Task)
    requires ListOk(s, s.mem.tasks) && t in s.mem.tasks && t.mid == m
    ensures var newest := LastOf(Snapshot(s.mem), m);
            newest.Some? && newest.value in s.mem.tasks && newest.value.mid == m && t.createdAt <= newest.value.createdAt
  {
    SortKeepsUnique(s.mem.tasks, CreatedAt);
    StableSortSorts(s.mem.tasks, CreatedAt);
    LastIsLatest(Snapshot(s.mem), m, t);
    LastOfIsMember(Snapshot(s.mem), m);
  }

  lemma {:induction false} LastIsLatest(q: seq<Task>, m: MutationId, t: Task)
    requires SortedBy(q, CreatedAt) && t in q && t.mid == m
    ensures LastOf(q, m).Some? && t.createdAt <= LastOf(q, m).value.createdAt
  {
    var last := q[|q| - 1];
    if last.mid == m {
      var i :| 0 <= i < |q| && q[i] == t;
      assert CreatedAt(q[i]) <= CreatedAt(last);
    } else {
      assert t in q[..|q| - 1];
      LastIsLatest(q[..|q| - 1], m, t);
    }
  }

  lemma SnapshotLastIsStored(s: System, m: MutationId)
    requires ListOk(s, s.mem.tasks)
    ensures var newest := LastOf(Snapshot(s.mem), m);
            newest.Some? ==> newest.value in s.mem.tasks && newest.value.mid == m
  {
    SortKeepsUnique(s.mem.tasks, CreatedAt);
    LastOfIsMember(Snapshot(s.mem), m);
  }

  lemma SnapshotOfPatched(s: System, id: TaskId, patch: Patch, m: MutationId)
    ensures LastOf(Snapshot(Patched(s, id, patch).mem), m)
            == if LastOf(Snapshot(s.mem), m).Some?
               then Some(PatchOne(LastOf(Snapshot(s.mem), m).value, id, patch)) else None
  {
    var f := t => PatchOne(t, id, patch);
    assert MapTasks(s.mem.tasks, f) == PatchTasks(s.mem.tasks, id, patch);
    SortMap(s.mem.tasks, f, CreatedAt);
    MapLast(Snapshot(s.mem), f, m);
  }

  lemma SnapshotOfAcked(s: System, formId: string, entryId: string, ids: set<TaskId>, at: nat, m: MutationId)
    requires entryId != ""
    ensures LastOf(Snapshot(Acknowledge(s.mem, formId, entryId, ids, at)), m)
            == if LastOf(Snapshot(s.mem), m).Some?
               then Some(AckOne(LastOf(Snapshot(s.mem), m).value, formId, entryId, ids, at)) else None
  {
    var f := t => AckOne(t, formId, entryId, ids, at);
    assert MapTasks(s.mem.tasks, f) == Acknowledge(s.mem, formId, entryId, ids, at).tasks;
    SortMap(s.mem.tasks, f, CreatedAt);
    MapLast(Snapshot(s.mem), f, m);
  }

  lemma SnapshotOfInserted(s: System, t: Task, m: MutationId)
    ensures LastOf(Snapshot(Inserted(s, t).mem), m)
            == if t.mid == m && (LastOf(Snapshot(s.mem), m).None? || LastOf(Snapshot(s.mem), m).value.createdAt <= t.createdAt)
               then Some(t) else LastOf(Snapshot(s.mem), m)
  {
    assert (s.mem.tasks + [t])[..|s.mem.tasks|] == s.mem.tasks;
    StableSortSorts(s.mem.tasks, CreatedAt);
    InsertLast(Snapshot(s.mem), t, CreatedAt, m);
  }

  // ---- pruning ----

  lemma SnapshotOfPruned(cfg: Config, s: System, m: MutationId)
    requires Inv(s)
    ensures var before, after := LastOf(Snapshot(s.mem), m), LastOf(Snapshot(PruneStep(cfg, s).mem), m);
            after == before || PruneStep(cfg, s).hist.prunes[m] > s.hist.prunes[m]
  {
    hide Prune, Victims, Find, IsPrunable;
    var victims := Victims(s.mem.tasks, cfg.limit);
    var before := LastOf(Snapshot(s.mem), m);
    PruneFacts(s.mem, cfg.limit);
    SortWithout(s.mem.tasks, Ids(victims), CreatedAt);
    if before.Some? && before.value.id in Ids(victims) {
      SnapshotLastIsStored(s, m);
      var v :| v in victims && v.id == before.value.id;
      MemberIsFound(s.mem.tasks, v);
      MemberIsFound(s.mem.tasks, before.value);
      MidsHasMember(victims, v);
    } else {
      WithoutKeepsLast(Snapshot(s.mem), Ids(victims), m);
    }
  }

  lemma PruneOpensByCredit(cfg: Config, s: System, m: MutationId)
    requires Inv(s) && m != ""
    ensures OpenInMemory(PruneStep(cfg, s), m) ==>
              OpenInMemory(s, m) || PruneStep(cfg, s).hist.prunes[m] > s.hist.prunes[m]
  {
    var victims := Victims(s.mem.tasks, cfg.limit);
    var s' := PruneStep(cfg, s);
    PruneFacts(s.mem, cfg.limit);
    if OpenInMemory(s', m) && !OpenInMemory(s, m) {
      var id := s.mem.owner[m];
      PruneFind(s.mem, cfg.limit, id);
      assert m !in s'.mem.owner;
      var v :| v in victims && v.id == id;
      IndexedTaskHasMid(s.mem, m, v);
      MidsHasMember(victims, v);
    }
  }

  lemma PruneKeepsCredit(cfg: Config, s: System, m: MutationId, base: int)
    requires Inv(s) && m != "" && CreditOk(s, m, base)
    ensures CreditOk(PruneStep(cfg, s), m, base)
  {
    hide Inv, Victims, Prune, Snapshot, OpenInMemory;
    var s' := PruneStep(cfg, s);
    assert s'.hist.prunes[m] >= s.hist.prunes[m];
    SnapshotOfPruned(cfg, s, m);
    PruneOpensByCredit(cfg, s, m);
    PruneOwner(cfg, s, m);
    CreditFrame(s, s', m, base);
  }

  lemma PruneOwner(cfg: Config, s: System, m: MutationId)
    requires Inv(s)
    ensures var owner := PruneStep(cfg, s).mem.owner;
            m in owner ==> m in s.mem.owner && owner[m] == s.mem.owner[m]
  {
    PruneFacts(s.mem, cfg.limit);
  }

  lemma ThenPruneKeepsCredit(cfg: Config, s: System, m: MutationId, base: int)
    requires Inv(s) && m != "" && CreditOk(s, m, base)
    ensures CreditOk(Schedule(PruneStep(cfg, s)), m, base)
  {
    hide Inv, CreditOk, PruneStep;
    PruneKeepsCredit(cfg, s, m, base);
    ScheduleKeepsCredit(PruneStep(cfg, s), m, base);
  }

  // ---- accepting a task ----

  /** Some stored record of `m` is dated after `now`, the newest of them, and it may run
      again: a reload will put that one in charge, not work accepted now. */
  predicate PredatesRetryable(mem: Memory, m: MutationId, now: nat) {
    var newest := LastOf(Snapshot(mem), m);
    newest.Some? && IsRetryable(newest.value) && now < newest.value.createdAt
  }

  /** In terms of what is stored: that record is a newest one of `m`, and where no record of
      `m` is dated after `now` there is none. */
  lemma PredatesInWords(s: System, m: MutationId, now: nat)
    requires ListOk(s, s.mem.tasks)
    ensures PredatesRetryable(s.mem, m, now) ==>
              exists t :: && t in s.mem.tasks && t.mid == m && IsRetryable(t) && now < t.createdAt
                          && forall u :: u in s.mem.tasks && u.mid == m ==> u.createdAt <= t.createdAt
    ensures (forall t :: t in s.mem.tasks && t.mid == m ==> t.createdAt <= now) ==> !PredatesRetryable(s.mem, m, now)
  {
    hide Snapshot, IsRetryable;
    SnapshotLastIsStored(s, m);
    var newest := LastOf(Snapshot(s.mem), m);
    forall u | u in s.mem.tasks && u.mid == m ensures newest.Some? && u.createdAt <= newest.value.createdAt {
      SnapshotLastIsNewest(s, m, u);
    }
  }

  lemma UnindexKeepsCredit(s: System, m: MutationId, k: MutationId, base: int)
    requires CreditOk(s, k, base)
    requires m in s.mem.owner ==>
               Find(s.mem.tasks, s.mem.owner[m]).Some? && IsRetryable(Find(s.mem.tasks, s.mem.owner[m]).value)
    ensures CreditOk(Unindexed(s, m), k, base)
  {
    hide LastOf;
    CreditFrame(s, Unindexed(s, m), k, base);
  }

  lemma InsertOther(s: System, t: Task, m: MutationId, base: int)
    requires Inv(s) && t.id !in s.hist.used && m != t.mid && CreditOk(s, m, base)
    ensures CreditOk(Inserted(s, t), m, base)
  {
    hide Snapshot;
    var s' := Inserted(s, t);
    SnapshotOfInserted(s, t, m);
    AppendFacts(s.mem.tasks, t);
    if m in s.mem.owner {
      LastOfIsMember(s.mem.tasks, m);
      assert s.mem.owner[m] != t.id;
    }
    CreditFrame(s, s', m, base);
  }

  /** Nothing live has `m` while nothing is in charge of it. */
  lemma UnownedIsFinished(s: System, m: MutationId, t: Task)
    requires Inv(s) && m != "" && m !in s.mem.owner && t in s.mem.tasks && t.mid == m
    ensures IsTerminal(t)
  {
    if !IsTerminal(t) {
      assert LiveTaskOk(s, t.id);
      MemberIsFound(s.mem.tasks, t);
    }
  }

  lemma NewestIsFinished(s: System, m: MutationId)
    requires Inv(s) && m != "" && m !in s.mem.owner
    ensures var newest := LastOf(Snapshot(s.mem), m); newest.Some? ==> IsTerminal(newest.value)
  {
    SnapshotLastIsStored(s, m);
    if LastOf(Snapshot(s.mem), m).Some? {
      UnownedIsFinished(s, m, LastOf(Snapshot(s.mem), m).value);
    }
  }

  lemma InsertOwn(s: System, t: Task, m: MutationId, base: int)
    requires Inv(s) && t.mid == m && m != "" && m !in s.mem.owner && CreditOk(s, m, base)
    requires !PredatesRetryable(s.mem, m, t.createdAt)
    ensures CreditOk(Inserted(s, t), m, base)
  {
    hide Snapshot, Inv;
    SnapshotOfInserted(s, t, m);
    NewestIsFinished(s, m);
  }

  lemma AdmitKeepsCredit(s: System, input: Input, id: TaskId, now: nat, blocked: bool, accepting: bool,
                         m: MutationId, base: int)
    requires Inv(s) && id !in s.hist.used && m != "" && CreditOk(s, m, base)
    requires Admit(s.mem, input, id, now, blocked, accepting).0.Accepted? && input.mid == m ==>
               !PredatesRetryable(s.mem, m, now)
    ensures CreditOk(AdmitStep(s, input, id, now, blocked, accepting), m, base)
  {
    hide FingerprintsClash, IsRetryable, JobsOk, BarrierOk, StartedOk, CreditOk, Snapshot;
    var (r, mem) := Admit(s.mem, input, id, now, blocked, accepting);
    if input.mid != "" && input.mid in s.mem.owner {
      LastOfIsMember(s.mem.tasks, input.mid);
      MemberIsFound(s.mem.tasks, LastOf(s.mem.tasks, input.mid).value);
    }
    if !r.FingerprintConflict? && !r.Existing? {
      UnindexKeepsInv(s, input.mid);
      UnindexKeepsCredit(s, input.mid, m, base);
      var s1 := Unindexed(s, input.mid);
      assert input.mid == "" ==> s1 == s by {
        assert "" !in s.mem.owner;
        assert s.mem.owner - {""} == s.mem.owner;
      }
      if r.Accepted? {
        UnindexedPredates(s, input.mid, m, now);
        if input.mid == m {
          InsertOwn(s1, r.task, m, base);
        } else {
          InsertOther(s1, r.task, m, base);
        }
      }
    }
  }

  lemma UnindexedPredates(s: System, k: MutationId, m: MutationId, now: nat)
    ensures PredatesRetryable(Unindexed(s, k).mem, m, now) == PredatesRetryable(s.mem, m, now)
  {
  }

  // ---- status changes ----

  lemma MarkKeepsCredit(s: System, id: TaskId, now: nat, phase: Phase, m: MutationId, base: int)
    requires Inv(s) && InPhase(s, id, Queued) && CreditOk(s, m, base)
    requires phase == Queued || phase == AwaitingBarrier(s.nextJob)
    ensures CreditOk(Marked(s, id, now, phase), m, base)
  {
    hide Snapshot, StartedOk, BarrierOk, ListsOk;
    var s' := Marked(s, id, now, phase);
    SnapshotOfPatched(s, id, RunningPatch(now), m);
    if m in s.mem.owner {
      PatchFind(s.mem.tasks, id, RunningPatch(now), s.mem.owner[m]);
      FindIsMember(s.mem.tasks, s.mem.owner[m]);
    }
    CreditFrame(s, s', m, base);
  }

  /** A finished task never reopens its mutation id: only recovery gives that verdict. */
  lemma SettleKeepsCredit(s: System, id: TaskId, patch: Patch, m: MutationId, base: int)
    requires Inv(s) && id in s.phase && IsFinalPatch(patch) && CreditOk(s, m, base)
    ensures CreditOk(Settle(s, id, patch), m, base)
  {
    hide Snapshot, StartedOk, BarrierOk, ListsOk;
    var s' := Settle(s, id, patch);
    SnapshotOfPatched(s, id, patch, m);
    if m in s.mem.owner {
      PatchFind(s.mem.tasks, id, patch, s.mem.owner[m]);
      FindIsMember(s.mem.tasks, s.mem.owner[m]);
    }
    CreditFrame(s, s', m, base);
  }

  // ---- observations ----

  /** An acknowledged record of `m` raises its allowance. */
  lemma AckIsCounted(s: System, formId: string, entryId: string, ids: set<TaskId>, now: nat, t: Task)
    requires t in s.mem.tasks && entryId != "" && IsAcknowledged(t, formId, entryId, ids)
    ensures ObserveStep(s, formId, entryId, ids, now).hist.acks[t.mid] > s.hist.acks[t.mid]
  {
    hide IsAcknowledged;
    MidsHasMember(AcknowledgedTasks(s.mem.tasks, formId, entryId, ids), t);
  }

  lemma AckOpensByCredit(s: System, formId: string, entryId: string, ids: set<TaskId>, now: nat, m: MutationId)
    requires Inv(s) && entryId != ""
    ensures var s' := ObserveStep(s, formId, entryId, ids, now);
            OpenInMemory(s', m) ==> OpenInMemory(s, m) || s'.hist.acks[m] > s.hist.acks[m]
  {
    hide PhasesOk, StartedOk, BarrierOk, IsAcknowledged, IsRetryable;
    var s' := ObserveStep(s, formId, entryId, ids, now);
    if m in s.mem.owner {
      var t := LastOf(s.mem.tasks, m).value;
      LastOfIsMember(s.mem.tasks, m);
      MemberIsFound(s.mem.tasks, t);
      AckFind(s.mem.tasks, formId, entryId, ids, now, t.id);
      assert s'.mem.tasks == Acked(s.mem.tasks, formId, entryId, ids, now);
      if IsAcknowledged(t, formId, entryId, ids) {
        AckIsCounted(s, formId, entryId, ids, now, t);
      }
    }
  }

  lemma SnapshotOfObserved(s: System, formId: string, entryId: string, ids: set<TaskId>, now: nat, m: MutationId)
    requires Inv(s) && entryId != ""
    ensures var s' := ObserveStep(s, formId, entryId, ids, now);
            LastOf(Snapshot(s'.mem), m) == LastOf(Snapshot(s.mem), m) || s'.hist.acks[m] > s.hist.acks[m]
  {
    hide PhasesOk, StartedOk, BarrierOk, IsAcknowledged, Snapshot;
    SnapshotOfAcked(s, formId, entryId, ids, now, m);
    SnapshotLastIsStored(s, m);
    var newest := LastOf(Snapshot(s.mem), m);
    if newest.Some? && IsAcknowledged(newest.value, formId, entryId, ids) {
      AckIsCounted(s, formId, entryId, ids, now, newest.value);
    }
  }

  lemma ObserveKeepsCredit(s: System, formId: string, entryId: string, ids: set<TaskId>, now: nat,
                           m: MutationId, base: int)
    requires Inv(s) && CreditOk(s, m, base)
    ensures CreditOk(ObserveStep(s, formId, entryId, ids, now), m, base)
  {
    hide Inv, OpenInMemory, Snapshot;
    var s' := ObserveStep(s, formId, entryId, ids, now);
    if entryId == "" {
      assert s' == s;
    } else {
      AckOpensByCredit(s, formId, entryId, ids, now, m);
      SnapshotOfObserved(s, formId, entryId, ids, now, m);
      CreditFrame(s, s', m, base);
    }
  }

  // ---- snapshots ----

  lemma TakeKeepsCredit(s: System, m: MutationId, base: int)
    requires s.writing.None? && |s.jobs| > 0 && CreditOk(s, m, base)
    ensures CreditOk(Taken(s), m, base)
  {
    hide Snapshot, OpenAfterReload, OpenElsewhere;
  }

  lemma CommitKeepsCredit(s: System, m: MutationId, base: int)
    requires s.writing.Some? && CreditOk(s, m, base)
    ensures CreditOk(s.(disk := Saved(s.writing.value.tasks, true), writing := None,
                        phase := SettleJob(s.phase, s.writing.value.job, BarrierPassed)), m, base)
  {
    hide Snapshot, OpenAfterReload, OpenElsewhere;
  }

  lemma FailKeepsCredit(s: System, m: MutationId, base: int)
    requires CreditOk(s, m, base)
    ensures CreditOk(FailStep(s), m, base)
  {
    hide Snapshot, OpenAfterReload, OpenElsewhere;
  }

  // ---- starting a worker ----

  /** An image that shows `id` as running is not reopened by `id` itself. */
  lemma RunningIsClosed(s: System, q: seq<Task>, barrier: bool, id: TaskId, m: MutationId)
    requires ListOk(s, q) && ShowsRunning(q, id) && Find(q, id).value.mid == m
    ensures OpenAfterReload(q, barrier, m) ==> OpenElsewhere(q, barrier, m, id)
  {
    FindIsMember(q, id);
    LastOfIsMember(q, m);
    if LastOf(q, m).Some? && LastOf(q, m).value.id == id {
      MemberIsFound(q, LastOf(q, m).value);
    }
  }

  /** The mutation id of a stored task is the same in every list. */
  lemma SameMid(s: System, q: seq<Task>, id: TaskId)
    requires ListOk(s, s.mem.tasks) && ListOk(s, q) && Find(s.mem.tasks, id).Some? && Find(q, id).Some?
    ensures Find(q, id).value.mid == Find(s.mem.tasks, id).value.mid
  {
    FindIsMember(s.mem.tasks, id);
    FindIsMember(q, id);
  }

  lemma StartClosesImages(s: System, id: TaskId, m: MutationId)
    requires Inv(s) && InPhase(s, id, BarrierPassed)
    requires Find(s.mem.tasks, id).Some? && Find(s.mem.tasks, id).value.mid == m
    ensures s.disk.Saved?
    ensures OpenAfterReload(s.disk.tasks, s.disk.barrier, m) ==> OpenElsewhere(s.disk.tasks, s.disk.barrier, m, id)
    ensures s.writing.Some? && OpenAfterReload(s.writing.value.tasks, true, m) ==>
              OpenElsewhere(s.writing.value.tasks, true, m, id)
    ensures OpenAfterReload(Snapshot(s.mem), true, m) ==> OpenElsewhere(Snapshot(s.mem), true, m, id)
  {
    hide Snapshot, OpenAfterReload, OpenElsewhere;
    assert LiveTaskOk(s, id);
    SameMid(s, s.disk.tasks, id);
    RunningIsClosed(s, s.disk.tasks, s.disk.barrier, id, m);
    if s.writing.Some? {
      SameMid(s, s.writing.value.tasks, id);
      RunningIsClosed(s, s.writing.value.tasks, true, id, m);
    }
    SnapshotFacts(s);
    SnapshotShows(s, id);
    RunningIsClosed(s, Snapshot(s.mem), true, id, m);
  }

  lemma SnapshotShows(s: System, id: TaskId)
    requires UniqueIds(s.mem.tasks)
    ensures Find(Snapshot(s.mem), id) == Find(s.mem.tasks, id)
  {
    SnapshotFind(s.mem.tasks, id);
  }

  /** Whoever is in charge of a mutation id was made for it. */
  lemma OwnerHasMid(s: System, m: MutationId)
    requires Inv(s) && m in s.mem.owner
    ensures Find(s.mem.tasks, s.mem.owner[m]).Some? && Find(s.mem.tasks, s.mem.owner[m]).value.mid == m
  {
    LastOfIsMember(s.mem.tasks, m);
    MemberIsFound(s.mem.tasks, LastOf(s.mem.tasks, m).value);
  }

  /** The start spends the one start that memory still allowed, and what a crash could still
      allow was reserved beside it. */
  lemma StartKeepsCredit(s: System, id: TaskId, m: MutationId, base: int)
    requires Inv(s) && InPhase(s, id, BarrierPassed) && m != "" && CreditOk(s, m, base)
    ensures CreditOk(StartStep(s, id), m, base)
  {
    hide Snapshot, OpenAfterReload, OpenElsewhere, Inv, LiveTaskOk;
    LiveOwns(s, id);
    if Find(s.mem.tasks, id).value.mid == m {
      StartClosesImages(s, id, m);
    } else if m in s.mem.owner {
      OwnerHasMid(s, m);
    }
  }

  lemma LiveOwns(s: System, id: TaskId)
    requires Inv(s) && id in s.phase
    ensures Find(s.mem.tasks, id).Some? && !IsTerminal(Find(s.mem.tasks, id).value)
    ensures var m := Find(s.mem.tasks, id).value.mid; m != "" ==> m in s.mem.owner && s.mem.owner[m] == id
  {
    assert LiveTaskOk(s, id);
  }

  // ---- crash and restart ----

  /** The disk is in order of creation, so a snapshot of what was reloaded from it lists
      the tasks as the disk does. */
  lemma SnapshotOfReloaded(s: System, now: nat, m: MutationId)
    requires Inv(s) && s.disk.Saved?
    ensures LastOf(Snapshot(RestartStep(s, now).mem), m)
            == if LastOf(s.disk.tasks, m).Some?
               then Some(RecoverOne(LastOf(s.disk.tasks, m).value, s.disk.barrier, now)) else None
  {
    var q, f := s.disk.tasks, t => RecoverOne(t, s.disk.barrier, now);
    SetAllKeepsList(q);
    ReloadFacts(q, s.disk.barrier, now);
    StableSortKeepsSorted(RestartStep(s, now).mem.tasks, CreatedAt);
    assert MapTasks(q, f) == Recover(q, s.disk.barrier, now);
    MapLast(q, f, m);
  }

  lemma ReloadedOwner(s: System, now: nat, m: MutationId)
    requires Inv(s) && s.disk.Saved? && m != ""
    ensures var mem := RestartStep(s, now).mem;
            && (m in mem.owner <==> LastOf(s.disk.tasks, m).Some?)
            && (m in mem.owner ==>
                  Find(mem.tasks, mem.owner[m]) == Some(RecoverOne(LastOf(s.disk.tasks, m).value, s.disk.barrier, now)))
  {
    var q := s.disk.tasks;
    ReloadFacts(q, s.disk.barrier, now);
    IndexAllIsLast(q);
    LastOfIsMember(q, m);
    if LastOf(q, m).Some? {
      MemberIsFound(q, LastOf(q, m).value);
      ReloadFind(q, s.disk.barrier, now, LastOf(q, m).value.id);
    }
  }

  lemma RestartKeepsCredit(s: System, now: nat, m: MutationId, base: int)
    requires Inv(s) && m != "" && CreditOk(s, m, base)
    ensures CreditOk(RestartStep(s, now), m, base)
  {
    hide Inv, Snapshot, Reload, Find;
    if s.disk.Saved? {
      SnapshotOfReloaded(s, now, m);
      ReloadedOwner(s, now, m);
    } else {
      SnapshotOfNothing();
    }
  }

  lemma SnapshotOfNothing()
    ensures Snapshot(EMPTY_MEMORY) == []
  {
  }

  // ---- whole runs ----

  /** The code accepts the work. */
  predicate Accepts(s: System, e: Event) {
    && e.EnqueueTask? && Enabled(s, e)
    && Admit(s.mem, e.input, e.id, e.now, e.blocked, e.accepting).0.Accepted?
  }

  /** Work for `m` is accepted at a time before the newest stored record of `m`, which is
      retryable.  A caller can read this off memory and the clock before the call. */
  predicate DatedBack(s: System, e: Event, m: MutationId) {
    Accepts(s, e) && e.input.mid == m && PredatesRetryable(s.mem, m, e.now)
  }

  predicate NeverDatedBack(cfg: Config, s: System, events: seq<Event>, m: MutationId) {
    |events| > 0 ==>
      && NeverDatedBack(cfg, s, events[..|events| - 1], m)
      && !DatedBack(Run(cfg, s, events[..|events| - 1]), events[|events| - 1], m)
  }

  lemma WorkKeepsCredit(cfg: Config, s: System, e: Event, m: MutationId, base: int)
    requires Inv(s) && m != "" && CreditOk(s, m, base) && Enabled(s, e)
    requires e.WaitForSync? || e.BeginDispatch? || e.WorkerSucceeds? || e.WorkerFails? || e.RefuseDispatch?
    ensures CreditOk(Apply(cfg, s, e), m, base)
  {
    hide Inv, CreditOk, PruneStep, Schedule, Settle, Patched;
    if e.WaitForSync? || e.BeginDispatch? {
      var phase := if e.WaitForSync? then Queued else AwaitingBarrier(s.nextJob);
      var next := Marked(s, e.id, e.now, phase);
      MarkedIsTheStep(s, e.id, e.now);
      MarkKeepsInv(s, e.id, e.now, phase);
      MarkKeepsCredit(s, e.id, e.now, phase, m, base);
      ThenPruneKeepsCredit(cfg, next, m, base);
    } else {
      var patch := if e.WorkerSucceeds? then SuccessPatch(e.now)
                   else if e.WorkerFails? then FailurePatch(e.now, e.error, e.indeterminate)
                   else FailurePatch(e.now, PersistenceFailed, e.indeterminate);
      SettleKeepsInv(s, e.id, patch);
      SettleKeepsCredit(s, e.id, patch, m, base);
      ThenPruneKeepsCredit(cfg, Settle(s, e.id, patch), m, base);
    }
  }

  lemma MarkedIsTheStep(s: System, id: TaskId, now: nat)
    requires InPhase(s, id, Queued)
    ensures Marked(s, id, now, Queued) == Patched(s, id, RunningPatch(now))
    ensures Marked(s, id, now, AwaitingBarrier(s.nextJob)) == DispatchStep(s, id, now)
  {
    assert s.phase[id := Queued] == s.phase;
  }

  lemma ApplyKeepsCredit(cfg: Config, s: System, e: Event, m: MutationId, base: int)
    requires Inv(s) && m != "" && CreditOk(s, m, base) && !DatedBack(s, e, m)
    ensures CreditOk(Apply(cfg, s, e), m, base)
  {
    hide Inv, CreditOk, PruneStep, AdmitStep, ObserveStep, RestartStep, Schedule, PredatesRetryable;
    if Enabled(s, e) {
      match e
      case EnqueueTask(input, id, now, blocked, accepting) =>
        var next := AdmitStep(s, input, id, now, blocked, accepting);
        AdmitKeepsInv(s, input, id, now, blocked, accepting);
        AdmitKeepsCredit(s, input, id, now, blocked, accepting, m, base);
        ThenPruneKeepsCredit(cfg, next, m, base);
      case TakeSnapshot => TakeKeepsCredit(s, m, base);
      case CommitSnapshot => CommitKeepsCredit(s, m, base);
      case FailPersist => FailKeepsCredit(s, m, base);
      case StartWorker(id) => StartKeepsCredit(s, id, m, base);
      case WorkerProgress(id) => ThenPruneKeepsCredit(cfg, s, m, base);
      case Observe(formId, entryId, ids, now) =>
        ObserveKeepsCredit(s, formId, entryId, ids, now, m, base);
        ScheduleKeepsCredit(ObserveStep(s, formId, entryId, ids, now), m, base);
      case CrashAndRestart(now) =>
        RestartKeepsInv(s, now);
        RestartKeepsCredit(s, now, m, base);
        ThenPruneKeepsCredit(cfg, RestartStep(s, now), m, base);
      case _ => WorkKeepsCredit(cfg, s, e, m, base);
    }
  }

  lemma {:induction false} RunKeepsCredit(cfg: Config, s: System, events: seq<Event>, m: MutationId, base: int)
    requires Inv(s) && m != "" && CreditOk(s, m, base) && NeverDatedBack(cfg, s, events, m)
    ensures Inv(Run(cfg, s, events)) && CreditOk(Run(cfg, s, events), m, base)
  {
    hide Inv, CreditOk, Apply, DatedBack;
    if |events| > 0 {
      var front, e := events[..|events| - 1], events[|events| - 1];
      RunKeepsCredit(cfg, s, front, m, base);
      ApplyKeepsInv(cfg, Run(cfg, s, front), e);
      ApplyKeepsCredit(cfg, Run(cfg, s, front), e, m, base);
    }
  }

  // ---- the guarantees ----

  /** At most once over crashes.  In any run, from any snapshot, with any clock, in which no
      work for the mutation id is accepted dated before a newer retryable record of it, the
      workers started for it number at most one, plus one for each acknowledged observation
      of a task with that id, plus one for each such task pruned. */
  lemma AtMostOnce(cfg: Config, s: System, events: seq<Event>, m: MutationId)
    requires Initial(s) && m != "" && NeverDatedBack(cfg, s, events, m)
    ensures var h := Run(cfg, s, events).hist;
            h.starts[m] <= 1 + h.acks[m] + h.prunes[m]
  {
    hide Inv;
    RunKeepsInv(cfg, s, []);
    assert Run(cfg, s, []) == s;
    RunKeepsCredit(cfg, s, events, m, 1);
  }

  lemma AwaitedIsNotRetryable(s: System, m: MutationId)
    requires Inv(s)
    ensures Awaits(s, m) ==> m != "" && Lookup(s.mem, m).Some? && !IsRetryable(Lookup(s.mem, m).value)
  {
    if Awaits(s, m) {
      assert LiveTaskOk(s, s.mem.owner[m]);
    }
  }

  /** Work that is accepted finds nothing live for its mutation id. */
  lemma AcceptedFindsNothingLive(s: System, e: Event)
    requires Inv(s) && Accepts(s, e) && e.input.mid != ""
    ensures !Awaits(s, e.input.mid)
  {
    hide Inv, Awaits;
    AwaitedIsNotRetryable(s, e.input.mid);
  }

  /** The same from any acceptance on, counting from there: in any run whatever came before
      it, what is accepted with a date that is not before a newer retryable record starts at
      most one worker for its id, plus one for each acknowledgement and pruning since. */
  lemma AtMostOnceSince(cfg: Config, s: System, before: seq<Event>, e: Event, events: seq<Event>)
    requires Initial(s) && Accepts(Run(cfg, s, before), e) && e.input.mid != ""
    requires NeverDatedBack(cfg, Run(cfg, s, before), [e] + events, e.input.mid)
    ensures var m, h, later := e.input.mid, Run(cfg, s, before).hist, Run(cfg, Run(cfg, s, before), [e] + events).hist;
            later.starts[m] + h.acks[m] + h.prunes[m] <= h.starts[m] + 1 + later.acks[m] + later.prunes[m]
  {
    hide Inv, Run;
    var now, m := Run(cfg, s, before), e.input.mid;
    var started: int, allowed: int := now.hist.starts[m], now.hist.acks[m] + now.hist.prunes[m];
    RunKeepsInv(cfg, s, before);
    AcceptedFindsNothingLive(now, e);
    RunKeepsCredit(cfg, now, [e] + events, m, 1 + started - allowed);
  }
}
