/** How long a mutation id stays refused to a different operation, over whole runs with
    crashes: exactly until a step that forgets the record the refusal rests on. */
module DispatchRefusal {
  import opened Options
  import opened ReportTask
  import opened ReportTaskStore
  import opened EnqueueContract
  import opened DispatchProtocol
  import opened DispatchSafety

  /** The record in charge of the other operation's mutation id is a different operation's. */
  predicate Refuses(mem: Memory, other: Input) {
    InCharge(mem, other).Some? && FingerprintsClash(InCharge(mem, other).value, other)
  }

  lemma RefusedMeansConflict(mem: Memory, other: Input, id: TaskId, now: nat, blocked: bool, accepting: bool)
    ensures Refuses(mem, other) <==> Admit(mem, other, id, now, blocked, accepting).0.FingerprintConflict?
  {
  }

  predicate IsStored(mem: Memory, id: TaskId) { Find(mem.tasks, id).Some? }

  /** The record that is in charge of `m` is stored no longer. */
  predicate LosesOwner(before: Memory, after: Memory, m: MutationId) {
    m in before.owner && !IsStored(after, before.owner[m])
  }

  /** The steps that end a refusal: a request with the same mutation id that may run the
      record again and is held back or says nothing of its operation; a crash before the
      record was saved as the last of its id; and pruning the record. */
  predicate Forgets(cfg: Config, s: System, e: Event, other: Input) {
    && Enabled(s, e)
    && match e
       case CrashAndRestart(_) =>
         !(&& s.disk.Saved? && LastOf(s.disk.tasks, other.mid).Some?
           && FingerprintsClash(LastOf(s.disk.tasks, other.mid).value, other)
           && IsStored(Apply(cfg, s, e).mem, LastOf(s.disk.tasks, other.mid).value.id))
       case EnqueueTask(input, _, _, blocked, accepting) =>
         if input.mid == other.mid then
           MayRun(s.mem, input) && (HeldBack(input, blocked, accepting) || input.fingerprint == "")
         else LosesOwner(s.mem, Apply(cfg, s, e).mem, other.mid)
       case _ => LosesOwner(s.mem, Apply(cfg, s, e).mem, other.mid)
  }

  // ---- one step ----

  lemma LookupAfterPrune(mem: Memory, limit: nat, m: MutationId)
    requires UniqueIds(mem.tasks) && IndexIsSound(mem) && m != "" && m in mem.owner
    ensures Lookup(Prune(mem, limit), m)
            == if IsStored(Prune(mem, limit), mem.owner[m]) then Lookup(mem, m) else None
  {
    hide Victims, IsPrunable;
    PruneFacts(mem, limit);
    WithoutKeepsFind(mem.tasks, Ids(Victims(mem.tasks, limit)), mem.owner[m]);
  }

  /** Pruning, whatever the step changed before it. */
  lemma PruneForgets(cfg: Config, next: System, other: Input)
    requires Inv(next) && InCharge(next.mem, other).Some?
    ensures var after := Schedule(PruneStep(cfg, next)).mem;
            Refuses(after, other) <==> Refuses(next.mem, other) && IsStored(after, next.mem.owner[other.mid])
  {
    hide Prune, Victims, FingerprintsClash, Find;
    LookupAfterPrune(next.mem, cfg.limit, other.mid);
  }

  lemma PatchedRefuses(s: System, id: TaskId, patch: Patch, other: Input)
    requires Refuses(s.mem, other)
    ensures Refuses(Patched(s, id, patch).mem, other)
  {
    PatchFind(s.mem.tasks, id, patch, s.mem.owner[other.mid]);
  }

  lemma AckedRefuses(s: System, formId: string, entryId: string, ids: set<TaskId>, now: nat, other: Input)
    requires Refuses(s.mem, other)
    ensures var mem := Acknowledge(s.mem, formId, entryId, ids, now);
            Refuses(mem, other) && IsStored(mem, s.mem.owner[other.mid])
  {
    if entryId != "" {
      AckFind(s.mem.tasks, formId, entryId, ids, now, s.mem.owner[other.mid]);
      assert Acked(s.mem.tasks, formId, entryId, ids, now) == Acknowledge(s.mem, formId, entryId, ids, now).tasks;
    }
  }

  /** A request under another mutation id. */
  lemma OtherIdRefuses(s: System, e: Event, other: Input)
    requires Inv(s) && Refuses(s.mem, other) && e.EnqueueTask? && Enabled(s, e) && e.input.mid != other.mid
    ensures var mem := AdmitStep(s, e.input, e.id, e.now, e.blocked, e.accepting).mem;
            Refuses(mem, other) && mem.owner[other.mid] == s.mem.owner[other.mid]
            && IsStored(mem, s.mem.owner[other.mid])
  {
    hide FingerprintsClash, IsRetryable, PhasesOk, BarrierOk, StartedOk, JobsOk, IndexIsSound, SortedByCreation, LastOf, Find, UniqueIds, IsScheduleKind;
    var id := s.mem.owner[other.mid];
    FindIsMember(s.mem.tasks, id);
    AppendFacts(s.mem.tasks, NewTask(e.input, e.id, e.now));
  }

  lemma OtherIdStep(cfg: Config, s: System, e: Event, other: Input)
    requires Inv(s) && Refuses(s.mem, other) && e.EnqueueTask? && Enabled(s, e) && e.input.mid != other.mid
    ensures Refuses(Apply(cfg, s, e).mem, other) <==> IsStored(Apply(cfg, s, e).mem, s.mem.owner[other.mid])
  {
    hide Inv, FingerprintsClash, AdmitStep, PruneStep, Schedule, IsStored;
    var next := AdmitStep(s, e.input, e.id, e.now, e.blocked, e.accepting);
    OtherIdRefuses(s, e, other);
    AdmitKeepsInv(s, e.input, e.id, e.now, e.blocked, e.accepting);
    PruneForgets(cfg, next, other);
  }

  /** A request under the same mutation id; what it queues is not pruned in the same step. */
  lemma OwnIdStep(cfg: Config, s: System, e: Event, other: Input)
    requires Inv(s) && Refuses(s.mem, other) && e.EnqueueTask? && Enabled(s, e) && e.input.mid == other.mid
    ensures Refuses(Apply(cfg, s, e).mem, other)
            <==> !(MayRun(s.mem, e.input) && (HeldBack(e.input, e.blocked, e.accepting) || e.input.fingerprint == ""))
  {
    hide Inv, FingerprintsClash, Admit, PruneStep, Schedule, IsStored, HeldBack, MayRun;
    var next := AdmitStep(s, e.input, e.id, e.now, e.blocked, e.accepting);
    var mem := Admit(s.mem, e.input, e.id, e.now, e.blocked, e.accepting).1;
    UsedIsStored(s, e.id);
    ConflictKeptIff(s.mem, e.input, other, e.id, e.now, e.blocked, e.accepting, 0, 0, false, false);
    RefusedMeansConflict(mem, other, 0, 0, false, false);
    if Admit(s.mem, e.input, e.id, e.now, e.blocked, e.accepting).0.Accepted? {
      AdmitKeepsInv(s, e.input, e.id, e.now, e.blocked, e.accepting);
      ThenPruneKeepsInv(cfg, next);
      AcceptedIsInCharge(s, e);
      PruneForgets(cfg, next, other);
      PruneKeepsPhases(cfg, next);
      LiveIsStored(Schedule(PruneStep(cfg, next)), e.id);
    }
  }

  lemma PruneKeepsPhases(cfg: Config, s: System)
    ensures Schedule(PruneStep(cfg, s)).phase == s.phase
  {
  }

  lemma UsedIsStored(s: System, id: TaskId)
    requires Inv(s) && id !in s.hist.used
    ensures UniqueIds(s.mem.tasks) && id !in Ids(s.mem.tasks)
  {
    FindIsMember(s.mem.tasks, id);
  }

  lemma AcceptedIsInCharge(s: System, e: Event)
    requires Inv(s) && e.EnqueueTask? && Enabled(s, e) && e.input.mid != ""
    requires Admit(s.mem, e.input, e.id, e.now, e.blocked, e.accepting).0.Accepted?
    ensures var next := AdmitStep(s, e.input, e.id, e.now, e.blocked, e.accepting);
            && e.input.mid in next.mem.owner && next.mem.owner[e.input.mid] == e.id
            && InCharge(next.mem, e.input).Some? && e.id in next.phase
  {
    AppendFacts(s.mem.tasks, NewTask(e.input, e.id, e.now));
  }

  lemma LiveIsStored(s: System, id: TaskId)
    requires Inv(s) && id in s.phase
    ensures IsStored(s.mem, id)
  {
    assert LiveTaskOk(s, id);
  }

  lemma RestartStepRefuses(cfg: Config, s: System, now: nat, other: Input)
    requires Inv(s) && other.mid != ""
    ensures var last := if s.disk.Saved? then LastOf(s.disk.tasks, other.mid) else None;
            Refuses(Apply(cfg, s, CrashAndRestart(now)).mem, other) <==>
              last.Some? && FingerprintsClash(last.value, other)
              && IsStored(Apply(cfg, s, CrashAndRestart(now)).mem, last.value.id)
  {
    hide Inv, Reload, Prune, Victims, LastOf, Find, PruneStep;
    if s.disk.Saved? {
      var next := RestartStep(s, now);
      RestartKeepsInv(s, now);
      RestartLookup(s, now, other.mid);
      if InCharge(next.mem, other).Some? {
        PruneForgets(cfg, next, other);
      } else {
        PruneAddsNobody(cfg, next, other.mid);
      }
    }
  }

  lemma RestartLookup(s: System, now: nat, m: MutationId)
    requires Inv(s) && s.disk.Saved? && m != ""
    ensures var mem, last := RestartStep(s, now).mem, LastOf(s.disk.tasks, m);
            && Lookup(mem, m) == (if last.Some? then Some(RecoverOne(last.value, s.disk.barrier, now)) else None)
            && (m in mem.owner <==> last.Some?)
            && (last.Some? ==> mem.owner[m] == last.value.id)
  {
    LookupAfterReload(s.disk.tasks, s.disk.barrier, now, m);
    IndexAllIsLast(s.disk.tasks);
  }

  lemma PruneAddsNobody(cfg: Config, s: System, m: MutationId)
    requires Inv(s) && m !in s.mem.owner
    ensures m !in PruneStep(cfg, s).mem.owner
  {
    PruneFacts(s.mem, cfg.limit);
  }

  lemma WorkStep(cfg: Config, s: System, e: Event, other: Input)
    requires Inv(s) && Refuses(s.mem, other) && Enabled(s, e)
    requires e.WaitForSync? || e.BeginDispatch? || e.WorkerSucceeds? || e.WorkerFails? || e.RefuseDispatch?
    ensures Refuses(Apply(cfg, s, e).mem, other) <==> IsStored(Apply(cfg, s, e).mem, s.mem.owner[other.mid])
  {
    hide Inv, FingerprintsClash, PruneStep, Schedule, IsStored, PatchTasks, IsFinalPatch;
    if e.WaitForSync? || e.BeginDispatch? {
      var phase := if e.WaitForSync? then Queued else AwaitingBarrier(s.nextJob);
      MarkKeepsInv(s, e.id, e.now, phase);
      assert s.phase[e.id := Queued] == s.phase || e.BeginDispatch?;
      PatchedRefuses(s, e.id, RunningPatch(e.now), other);
      PruneForgets(cfg, Marked(s, e.id, e.now, phase), other);
    } else {
      var patch := if e.WorkerSucceeds? then SuccessPatch(e.now)
                   else if e.WorkerFails? then FailurePatch(e.now, e.error, e.indeterminate)
                   else FailurePatch(e.now, PersistenceFailed, e.indeterminate);
      SettlePatchIsFinal(s, e);
      SettleKeepsInv(s, e.id, patch);
      PatchedRefuses(s, e.id, patch, other);
      PruneForgets(cfg, Settle(s, e.id, patch), other);
    }
  }

  lemma SettlePatchIsFinal(s: System, e: Event)
    requires Enabled(s, e)
    ensures e.WorkerSucceeds? ==> IsFinalPatch(SuccessPatch(e.now))
    ensures e.WorkerFails? ==> IsFinalPatch(FailurePatch(e.now, e.error, e.indeterminate))
    ensures e.RefuseDispatch? ==> IsFinalPatch(FailurePatch(e.now, PersistenceFailed, e.indeterminate))
  {
  }

  /** One step keeps a refusal exactly if it does not forget it. */
  lemma RefusedAfterStepIff(cfg: Config, s: System, e: Event, other: Input)
    requires Inv(s) && Refuses(s.mem, other)
    ensures Refuses(Apply(cfg, s, e).mem, other) <==> !Forgets(cfg, s, e, other)
  {
    hide Inv, FingerprintsClash, PruneStep, AdmitStep, RestartStep, Reload, Patched;
    if Enabled(s, e) {
      match e
      case CrashAndRestart(now) => RestartStepRefuses(cfg, s, now, other);
      case EnqueueTask(input, _, _, _, _) =>
        if input.mid == other.mid {
          OwnIdStep(cfg, s, e, other);
        } else {
          OtherIdStep(cfg, s, e, other);
        }
      case Observe(formId, entryId, ids, now) => AckedRefuses(s, formId, entryId, ids, now, other);
      case WorkerProgress(_) => PruneForgets(cfg, s, other);
      case TakeSnapshot =>
      case CommitSnapshot =>
      case FailPersist =>
      case StartWorker(_) =>
      case _ => WorkStep(cfg, s, e, other);
    }
  }

  // ---- whole runs ----

  ghost predicate RefusedAt(cfg: Config, s: System, events: seq<Event>, other: Input, j: nat)
    requires j <= |events|
  {
    Refuses(Run(cfg, s, events[..j]).mem, other)
  }

  ghost predicate ForgottenAt(cfg: Config, s: System, events: seq<Event>, other: Input, j: nat)
    requires j < |events|
  {
    Forgets(cfg, Run(cfg, s, events[..j]), events[j], other)
  }

  lemma RefusedNext(cfg: Config, s: System, events: seq<Event>, other: Input, j: nat)
    requires Inv(s) && j < |events| && RefusedAt(cfg, s, events, other, j)
    ensures RefusedAt(cfg, s, events, other, j + 1) <==> !ForgottenAt(cfg, s, events, other, j)
  {
    hide Inv, Refuses, Forgets, Apply;
    assert events[..j + 1][..j] == events[..j];
    RunFromKeepsInv(cfg, s, events[..j]);
    RefusedAfterStepIff(cfg, Run(cfg, s, events[..j]), events[j], other);
  }

  lemma RefusedAtStart(cfg: Config, s: System, events: seq<Event>, other: Input)
    requires Refuses(s.mem, other)
    ensures RefusedAt(cfg, s, events, other, 0)
  {
    assert events[..0] == [];
  }

  lemma {:induction false} RefusedUpTo(cfg: Config, s: System, events: seq<Event>, other: Input, n: nat)
    requires Inv(s) && Refuses(s.mem, other) && n <= |events|
    ensures (forall j :: 0 <= j <= n ==> RefusedAt(cfg, s, events, other, j))
            <==> (forall j :: 0 <= j < n ==> !ForgottenAt(cfg, s, events, other, j))
  {
    hide Inv, RefusedAt, ForgottenAt;
    if n > 0 {
      RefusedUpTo(cfg, s, events, other, n - 1);
      if RefusedAt(cfg, s, events, other, n - 1) {
        RefusedNext(cfg, s, events, other, n - 1);
      }
    } else {
      RefusedAtStart(cfg, s, events, other);
    }
  }

  /** In any run, from any state that a run has reached, with any crashes: the different
      operation is refused all the time exactly if no step forgets. */
  lemma RefusedThroughoutIff(cfg: Config, start: System, before: seq<Event>, events: seq<Event>, other: Input)
    requires Initial(start) && Refuses(Run(cfg, start, before).mem, other)
    ensures var s := Run(cfg, start, before);
            (forall j :: 0 <= j <= |events| ==> RefusedAt(cfg, s, events, other, j))
            <==> (forall j :: 0 <= j < |events| ==> !ForgottenAt(cfg, s, events, other, j))
  {
    hide Inv, RefusedAt, ForgottenAt, Refuses;
    RunKeepsInv(cfg, start, before);
    RefusedUpTo(cfg, Run(cfg, start, before), events, other, |events|);
  }
}
