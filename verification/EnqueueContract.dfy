/** What `enqueue` promises its callers. */
module EnqueueContract {
  import opened Options
  import opened ReportTask
  import opened ReportTaskStore

  /** The record in charge of the input's mutation id, if the index knows one. */
  function InCharge(mem: Memory, input: Input): Option<Task> { Lookup(mem, input.mid) }

  predicate MayRun(mem: Memory, input: Input) {
    match InCharge(mem, input)
    case None => true
    case Some(t) => IsRetryable(t) && !FingerprintsClash(t, input)
  }

  predicate HeldBack(input: Input, blocked: bool, accepting: bool) {
    (input.taskType == UpdateReport && IsScheduleKind(input.kind) && blocked) || !accepting
  }

  /** When an enqueue queues new work, and that it then takes charge of its mutation id
      and leaves every other record and every other id alone. */
  lemma AcceptedIff(mem: Memory, input: Input, id: TaskId, now: nat, blocked: bool, accepting: bool)
    requires UniqueIds(mem.tasks) && id !in Ids(mem.tasks)
    ensures var (r, after) := Admit(mem, input, id, now, blocked, accepting);
            && (r.Accepted? <==> MayRun(mem, input) && !HeldBack(input, blocked, accepting))
            && (r.Accepted? ==>
                  && after.tasks == mem.tasks + [r.task] && r.task.id == id && r.task.status == Pending
                  && (input.mid != "" ==> InCharge(after, input) == Some(r.task)))
            && (!r.Accepted? ==> after.tasks == mem.tasks)
            && (forall m :: m != input.mid ==> (m in after.owner <==> m in mem.owner))
            && (forall m :: m != input.mid && m in mem.owner ==> after.owner[m] == mem.owner[m])
  {
    var (r, after) := Admit(mem, input, id, now, blocked, accepting);
    if r.Accepted? {
      assert after.tasks[..|after.tasks| - 1] == mem.tasks;
    }
  }

  /** The record says that it was made for another operation than the request. */
  predicate IsOtherOperation(t: Task, input: Input) {
    t.fingerprint != input.fingerprint && "" !in [t.fingerprint, input.fingerprint]
  }

  /** The work of the record is known not to have been done: a restart found it not begun. */
  predicate IsUndone(t: Task) {
    t.status == Failed && !t.writeIndeterminate && t.error == RecoveredAfterRestart
  }

  predicate IsHeldBack(input: Input, blocked: bool) {
    && blocked && input.taskType == UpdateReport
    && input.kind in {UpdateStartSchedule, UpdateSortOrder, UpdateUrgent, UpdateMainMachine, UpdatePlannedEndDate}
  }

  /** The answer to a request, in the order in which the reasons count: another operation has
      the mutation id; the record in charge answers for it unless its work is undone; a
      schedule mutation waits for the outcome of others; the queue takes no more. */
  lemma EnqueueAnswers(mem: Memory, input: Input, id: TaskId, now: nat, blocked: bool, accepting: bool, limit: nat)
    requires UniqueIds(mem.tasks) && IndexIsSound(mem)
    ensures var (r, after) := Enqueue(mem, input, id, now, blocked, accepting, limit);
            var t := if input.mid in mem.owner then LastOf(mem.tasks, input.mid) else None;
            if t.Some? && IsOtherOperation(t.value, input) then r == FingerprintConflict && after == mem
            else if t.Some? && !IsUndone(t.value) then r == Existing(t.value) && after == mem
            else
              && r == (if IsHeldBack(input, blocked) then ScheduleBlocked
                       else if !accepting then QueueClosed
                       else Accepted(Task(id, input.mid, input.fingerprint, input.taskType, input.kind, input.formId,
                                          input.entryId, Pending, now, now, false, None, NoError)))
              && (!r.Accepted? ==> after.tasks == mem.tasks && after.owner == mem.owner - {input.mid})
  {
    hide Prune, UniqueIds, Find;
    if input.mid in mem.owner {
      LastOfIsMember(mem.tasks, input.mid);
      MemberIsFound(mem.tasks, LastOf(mem.tasks, input.mid).value);
    }
  }

  /** Asking again with the same mutation id, whatever else has changed around it, returns
      the record that the first request made and changes nothing. */
  lemma RepeatReturnsTheSameRecord(mem: Memory, input: Input, id: TaskId, now: nat, blocked: bool, accepting: bool,
                                   later: TaskId, thenNow: nat, blockedThen: bool, acceptingThen: bool)
    requires UniqueIds(mem.tasks) && id !in Ids(mem.tasks) && input.mid != ""
    requires Admit(mem, input, id, now, blocked, accepting).0.Accepted?
    ensures var (r, after) := Admit(mem, input, id, now, blocked, accepting);
            Admit(after, input, later, thenNow, blockedThen, acceptingThen) == (Existing(r.task), after)
  {
    AcceptedIff(mem, input, id, now, blocked, accepting);
  }

  /** A mutation id that is refused to a different operation stays refused to it over a
      further request, unless that request may run the record again and is held back, or
      runs it again without saying which operation it is. */
  lemma ConflictKeptIff(mem: Memory, input: Input, other: Input, id: TaskId, now: nat, blocked: bool, accepting: bool,
                        later: TaskId, thenNow: nat, blockedThen: bool, acceptingThen: bool)
    requires UniqueIds(mem.tasks) && id !in Ids(mem.tasks) && input.mid != "" && other.mid == input.mid
    requires InCharge(mem, input).Some? && FingerprintsClash(InCharge(mem, input).value, other)
    ensures Admit(mem, other, later, thenNow, blockedThen, acceptingThen).0.FingerprintConflict?
    ensures var (_, after) := Admit(mem, input, id, now, blocked, accepting);
            Admit(after, other, later, thenNow, blockedThen, acceptingThen).0.FingerprintConflict?
            <==> !(MayRun(mem, input) && (HeldBack(input, blocked, accepting) || input.fingerprint == ""))
  {
    AcceptedIff(mem, input, id, now, blocked, accepting);
    var (r, after) := Admit(mem, input, id, now, blocked, accepting);
    assert r.Accepted? ==> InCharge(after, input) == Some(r.task) && InCharge(after, other) == Some(r.task);
    assert !r.Accepted? && MayRun(mem, input) ==> InCharge(after, other).None?;
  }

  /** Work under other mutation ids ends a refusal only by pruning the record it rests on. */
  lemma ConflictOutlivesPruningIff(mem: Memory, limit: nat, other: Input, later: TaskId, now: nat, blocked: bool, accepting: bool)
    requires UniqueIds(mem.tasks) && IndexIsSound(mem)
    requires InCharge(mem, other).Some? && FingerprintsClash(InCharge(mem, other).value, other)
    ensures Admit(Prune(mem, limit), other, later, now, blocked, accepting).0.FingerprintConflict?
            <==> InCharge(mem, other).value !in Victims(mem.tasks, limit)
  {
    hide Victims, FingerprintsClash;
    var victims, t := Victims(mem.tasks, limit), InCharge(mem, other).value;
    VictimFacts(mem.tasks, limit);
    DropAllFacts(mem, victims);
    FindIsMember(mem.tasks, mem.owner[other.mid]);
    WithoutKeepsFind(mem.tasks, Ids(victims), t.id);
    if t.id in Ids(victims) {
      var v :| v in victims && v.id == t.id;
      MemberIsFound(mem.tasks, v);
    }
  }

  lemma LookupAfterReload(q: seq<Task>, barrier: bool, restart: nat, m: MutationId)
    requires UniqueIds(q) && m != ""
    ensures Lookup(Reload(q, barrier, restart), m)
            == if LastOf(q, m).Some? then Some(RecoverOne(LastOf(q, m).value, barrier, restart)) else None
  {
    hide SetAll, IndexAll, Find, LastOf, MapTasks, RecoverOne;
    var f := t => RecoverOne(t, barrier, restart);
    SetAllKeepsList(q);
    IndexAllIsLast(q);
    assert MapTasks(q, f) == Recover(q, barrier, restart);
    LastOfIsMember(q, m);
    if LastOf(q, m).Some? {
      RecoverKeepsKeys(barrier, restart);
      MemberIsFound(q, LastOf(q, m).value);
      MapFind(q, f, LastOf(q, m).value.id);
    }
  }

  lemma RecoverKeepsKeys(barrier: bool, restart: nat)
    ensures KeepsKeys(t => RecoverOne(t, barrier, restart))
  {
  }

  /** A crash ends a refusal exactly if the last record that the snapshot on disk has for the
      mutation id, if it has one, is not of another operation. */
  lemma ConflictAfterReloadIff(q: seq<Task>, barrier: bool, restart: nat, other: Input, id: TaskId, now: nat, blocked: bool, accepting: bool)
    requires UniqueIds(q) && other.mid != ""
    ensures Admit(Reload(q, barrier, restart), other, id, now, blocked, accepting).0.FingerprintConflict?
            <==> LastOf(q, other.mid).Some? && FingerprintsClash(LastOf(q, other.mid).value, other)
  {
    hide Reload, LastOf, Lookup;
    LookupAfterReload(q, barrier, restart, other.mid);
  }

  /** In the first of those cases the different operation is let in under the same mutation
      id, although the record is still there. */
  lemma HeldBackRerunForgetsTheFingerprint(mem: Memory, input: Input, other: Input, id: TaskId, now: nat, blocked: bool, accepting: bool)
    requires UniqueIds(mem.tasks) && id !in Ids(mem.tasks)
    requires InCharge(mem, input).Some? && MayRun(mem, input) && HeldBack(input, blocked, accepting)
    requires other.mid == input.mid && FingerprintsClash(InCharge(mem, input).value, other)
    ensures Admit(mem, other, id, now, false, true).0.FingerprintConflict?
    ensures var (_, after) := Admit(mem, input, id, now, blocked, accepting);
            && InCharge(mem, input).value in after.tasks
            && Admit(after, other, id, now, false, true).0.Accepted?
  {
    FindIsMember(mem.tasks, mem.owner[input.mid]);
    var (_, after) := Admit(mem, input, id, now, blocked, accepting);
    assert InCharge(after, other).None?;
  }

  /** In the second it is answered with the record of the re-run, which is another
      operation's. */
  lemma AnonymousRerunAnswersAnyOperation(mem: Memory, input: Input, other: Input, id: TaskId, now: nat,
                                          later: TaskId, thenNow: nat, blockedThen: bool, acceptingThen: bool)
    requires UniqueIds(mem.tasks) && id !in Ids(mem.tasks) && input.mid != "" && other.mid == input.mid
    requires InCharge(mem, input).Some? && MayRun(mem, input) && input.fingerprint == ""
    requires FingerprintsClash(InCharge(mem, input).value, other)
    ensures var (r, after) := Admit(mem, input, id, now, false, true);
            && r.Accepted?
            && Admit(after, other, later, thenNow, blockedThen, acceptingThen) == (Existing(r.task), after)
  {
    AcceptedIff(mem, input, id, now, false, true);
  }
}
