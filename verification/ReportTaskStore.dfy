/** The in-memory half of the report task service: what each operation does to
    the `tasks` Map and to the index from mutation ids to task ids.  The functions
    give the new memory; the class below computes it step by step. */
module ReportTaskStore {
  import opened Options
  import opened ReportTask

  datatype Memory = Memory(tasks: seq<Task>, owner: map<MutationId, TaskId>)

  const EMPTY_MEMORY := Memory([], map[])

  datatype Input = Input(
    mid: MutationId,
    fingerprint: string,
    taskType: TaskType,
    kind: OperationKind,
    formId: string,
    entryId: string)

  datatype EnqueueResult =
    | FingerprintConflict
    | Existing(task: Task)
    | ScheduleBlocked
    | QueueClosed
    | Accepted(task: Task)

  datatype Patch = Patch(
    status: Option<Status>,
    updatedAt: Option<nat>,
    writeIndeterminate: Option<bool>,
    error: Option<ErrorCode>)

  // ---- pruning ----

  function UpdatedAt(t: Task): nat { t.updatedAt }

  function CreatedAt(t: Task): nat { t.createdAt }

  predicate IsPrunable(t: Task) {
    IsTerminal(t) && !IsUnresolved(t)
  }

  function Prunable(q: seq<Task>): (r: seq<Task>)
    ensures forall t :: t in r <==> t in q && IsPrunable(t)
  {
    if |q| == 0 then []
    else
      var rest := Prunable(q[..|q| - 1]);
      if IsPrunable(q[|q| - 1]) then rest + [q[|q| - 1]] else rest
  }

  function VictimCount(q: seq<Task>, limit: nat): (k: nat)
    ensures k <= |StableSortBy(Prunable(q), UpdatedAt)|
  {
    var candidates := |StableSortBy(Prunable(q), UpdatedAt)|;
    if |q| <= limit then 0
    else if |q| - limit <= candidates then |q| - limit
    else candidates
  }

  /** What a pruning pass deletes, in the order it deletes them. */
  function Victims(q: seq<Task>, limit: nat): seq<Task> {
    StableSortBy(Prunable(q), UpdatedAt)[..VictimCount(q, limit)]
  }

  function Drop(mem: Memory, t: Task): Memory {
    Memory(
      Without(mem.tasks, {t.id}),
      if t.mid != "" && t.mid in mem.owner && mem.owner[t.mid] == t.id
      then mem.owner - {t.mid} else mem.owner)
  }

  function DropAll(mem: Memory, victims: seq<Task>): Memory {
    if |victims| == 0 then mem
    else Drop(DropAll(mem, victims[..|victims| - 1]), victims[|victims| - 1])
  }

  function Prune(mem: Memory, limit: nat): Memory {
    DropAll(mem, Victims(mem.tasks, limit))
  }

  lemma {:induction false} PrunableFacts(q: seq<Task>)
    requires UniqueIds(q)
    ensures UniqueIds(Prunable(q))
  {
    if |q| > 0 {
      var front := q[..|q| - 1];
      PrunableFacts(front);
      forall t | t in Prunable(front) ensures t.id != q[|q| - 1].id {
        var j :| 0 <= j < |front| && front[j] == t;
        assert q[j] == t;
      }
    }
  }

  lemma AppendKeepsUnique(q: seq<Task>, t: Task)
    requires UniqueIds(q) && forall x :: x in q ==> x.id != t.id
    ensures UniqueIds(q + [t])
  {
    forall i | 0 <= i < |q| ensures q[i].id != t.id {
      assert q[i] in q;
    }
  }

  lemma PrefixIsUnique(q: seq<Task>, n: nat)
    requires UniqueIds(q) && n <= |q|
    ensures UniqueIds(q[..n])
  {
  }

  lemma FrontIsOther(q: seq<Task>)
    requires UniqueIds(q) && |q| > 0
    ensures UniqueIds(q[..|q| - 1]) && q[|q| - 1].id !in Ids(q[..|q| - 1])
    ensures forall t :: t in q[..|q| - 1] ==> t.id != q[|q| - 1].id
  {
    forall t | t in q[..|q| - 1] ensures t.id != q[|q| - 1].id {
      var j :| 0 <= j < |q| - 1 && q[j] == t;
    }
  }

  lemma {:induction false} InsertKeepsUnique(q: seq<Task>, t: Task, key: Task -> nat)
    requires UniqueIds(q) && t.id !in Ids(q)
    ensures UniqueIds(InsertBy(q, t, key))
  {
    hide UniqueIds;
    assert forall x :: x in q ==> x.id in Ids(q);
    if |q| == 0 || key(q[|q| - 1]) <= key(t) {
      assert InsertBy(q, t, key) == q + [t];
      AppendKeepsUnique(q, t);
    } else {
      var front, last := q[..|q| - 1], q[|q| - 1];
      var r := InsertBy(front, t, key);
      assert last in q && forall x :: x in front ==> x in q;
      FrontIsOther(q);
      InsertKeepsUnique(front, t, key);
      forall x | x in r ensures x.id != last.id {
        assert x in multiset(r);
      }
      AppendKeepsUnique(r, last);
    }
  }

  lemma {:induction false} SortKeepsUnique(q: seq<Task>, key: Task -> nat)
    requires UniqueIds(q)
    ensures UniqueIds(StableSortBy(q, key))
    ensures forall t :: t in StableSortBy(q, key) <==> t in q
  {
    if |q| > 0 {
      var front := q[..|q| - 1];
      SortKeepsUnique(front, key);
      var r := StableSortBy(front, key);
      forall t | t in r ensures t.id != q[|q| - 1].id {
        var j :| 0 <= j < |front| && front[j] == t;
        assert q[j] == t;
      }
      InsertKeepsUnique(r, q[|q| - 1], key);
    }
    assert forall t :: t in StableSortBy(q, key) <==> t in multiset(StableSortBy(q, key));
    assert forall t :: t in q <==> t in multiset(q);
  }

  lemma CandidateFacts(q: seq<Task>)
    requires UniqueIds(q)
    ensures UniqueIds(StableSortBy(Prunable(q), UpdatedAt))
    ensures forall t :: t in StableSortBy(Prunable(q), UpdatedAt) <==> t in q && IsPrunable(t)
    ensures SortedBy(StableSortBy(Prunable(q), UpdatedAt), UpdatedAt)
  {
    PrunableFacts(q);
    SortKeepsUnique(Prunable(q), UpdatedAt);
    StableSortSorts(Prunable(q), UpdatedAt);
  }

  lemma VictimFacts(q: seq<Task>, limit: nat)
    requires UniqueIds(q)
    ensures UniqueIds(Victims(q, limit))
    ensures forall t :: t in Victims(q, limit) ==> t in q && IsPrunable(t)
  {
    CandidateFacts(q);
  }

  lemma {:induction false} DropAllTasks(mem: Memory, victims: seq<Task>)
    ensures DropAll(mem, victims).tasks == Without(mem.tasks, Ids(victims))
  {
    if |victims| == 0 {
      WithoutNone(mem.tasks, {});
      assert Ids(victims) == {};
    } else {
      var front := victims[..|victims| - 1];
      var last := victims[|victims| - 1];
      DropAllTasks(mem, front);
      assert victims == front + [last];
      AppendFacts(front, last);
      WithoutTwice(mem.tasks, Ids(front), {last.id});
    }
  }

  lemma IndexedTaskHasMid(mem: Memory, m: MutationId, t: Task)
    requires UniqueIds(mem.tasks) && IndexIsSound(mem)
    requires m in mem.owner && t in mem.tasks && mem.owner[m] == t.id
    ensures t.mid == m
  {
    LastOfIsMember(mem.tasks, m);
    MemberIsFound(mem.tasks, LastOf(mem.tasks, m).value);
    MemberIsFound(mem.tasks, t);
  }

  lemma IdsOfLast(victims: seq<Task>)
    requires |victims| > 0
    ensures Ids(victims) == Ids(victims[..|victims| - 1]) + {victims[|victims| - 1].id}
  {
    assert victims == victims[..|victims| - 1] + [victims[|victims| - 1]];
  }

  lemma {:induction false} DropAllOwner(mem: Memory, victims: seq<Task>)
    requires forall t, m :: t in victims && m in mem.owner && mem.owner[m] == t.id ==> t.mid == m && m != ""
    ensures forall m :: m in DropAll(mem, victims).owner <==> m in mem.owner && mem.owner[m] !in Ids(victims)
    ensures forall m :: m in DropAll(mem, victims).owner ==> DropAll(mem, victims).owner[m] == mem.owner[m]
  {
    if |victims| == 0 {
      assert Ids(victims) == {};
    } else {
      assert forall t :: t in victims[..|victims| - 1] ==> t in victims;
      DropAllOwner(mem, victims[..|victims| - 1]);
      IdsOfLast(victims);
      assert victims[|victims| - 1] in victims;
    }
  }

  /** What a pruning pass leaves: the deleted tasks are gone, and an index entry
      goes exactly when its target goes. */
  lemma DropAllFacts(mem: Memory, victims: seq<Task>)
    requires forall t :: t in victims ==> t in mem.tasks
    requires UniqueIds(mem.tasks)
    requires IndexIsSound(mem)
    ensures DropAll(mem, victims).tasks == Without(mem.tasks, Ids(victims))
    ensures forall m :: m in DropAll(mem, victims).owner <==> m in mem.owner && mem.owner[m] !in Ids(victims)
    ensures forall m :: m in DropAll(mem, victims).owner ==> DropAll(mem, victims).owner[m] == mem.owner[m]
  {
    forall t, m | t in victims && m in mem.owner && mem.owner[m] == t.id ensures t.mid == m && m != "" {
      IndexedTaskHasMid(mem, m, t);
    }
    DropAllTasks(mem, victims);
    DropAllOwner(mem, victims);
  }

  lemma {:induction false} WithoutCount(q: seq<Task>, victims: seq<Task>)
    requires UniqueIds(q) && UniqueIds(victims)
    requires forall t :: t in victims ==> t in q
    ensures |Without(q, Ids(victims))| == |q| - |victims|
  {
    hide UniqueIds, Find;
    if |victims| == 0 {
      assert Ids(victims) == {};
      WithoutNone(q, {});
    } else {
      var front := victims[..|victims| - 1];
      var last := victims[|victims| - 1];
      assert forall t :: t in front ==> t in victims;
      FrontIsOther(victims);
      WithoutCount(q, front);
      IdsOfLast(victims);
      WithoutTwice(q, Ids(front), {last.id});
      WithoutFacts(q, Ids(front));
      assert last in q;
      MemberIsFound(q, last);
      WithoutKeepsFind(q, Ids(front), last.id);
      WithoutOneCount(Without(q, Ids(front)), last.id);
    }
  }

  /** The state of the pruning loop after `i` deletions. */
  lemma DropPrefixFacts(mem: Memory, completed: seq<Task>, i: nat)
    requires UniqueIds(mem.tasks) && UniqueIds(completed) && i <= |completed|
    requires forall t :: t in completed ==> t in mem.tasks
    ensures i > 0 ==> DropAll(mem, completed[..i]) == Drop(DropAll(mem, completed[..i - 1]), completed[i - 1])
    ensures UniqueIds(DropAll(mem, completed[..i]).tasks)
    ensures |DropAll(mem, completed[..i]).tasks| == |mem.tasks| - i
  {
    hide UniqueIds, Ids, Drop;
    PrefixIsUnique(completed, i);
    DropAllTasks(mem, completed[..i]);
    WithoutFacts(mem.tasks, Ids(completed[..i]));
    WithoutCount(mem.tasks, completed[..i]);
    if i > 0 {
      assert completed[..i][..i - 1] == completed[..i - 1];
    }
  }

  /** A pruning pass deletes its victims and nothing else. */
  lemma PruneDeletesVictims(mem: Memory, limit: nat)
    requires UniqueIds(mem.tasks) && IndexIsSound(mem)
    ensures var after := Prune(mem, limit).tasks;
            && |after| == |mem.tasks| - VictimCount(mem.tasks, limit)
            && forall t :: t in mem.tasks ==> (t in after <==> t !in Victims(mem.tasks, limit))
    ensures forall t :: t in Prune(mem, limit).tasks ==> t in mem.tasks
  {
    var q := mem.tasks;
    var victims := Victims(q, limit);
    VictimFacts(q, limit);
    DropAllFacts(mem, victims);
    WithoutCount(q, victims);
    forall t | t in q ensures t.id in Ids(victims) <==> t in victims {
      if t.id in Ids(victims) {
        var v :| v in victims && v.id == t.id;
        MemberIsFound(q, t);
        MemberIsFound(q, v);
      }
    }
  }

  /** Victims are the least recently updated of those that may go. */
  lemma VictimsAreOldest(q: seq<Task>, limit: nat, gone: Task, kept: Task)
    requires gone in Victims(q, limit) && kept in q && kept !in Victims(q, limit) && IsPrunable(kept)
    requires UniqueIds(q)
    ensures gone.updatedAt <= kept.updatedAt
  {
    CandidateFacts(q);
  }

  /** Pruning reaches the limit or runs out of tasks it may delete; it never
      deletes live or unresolved work, and it deletes the oldest updates first. */
  lemma PruneBoundsHistory(mem: Memory, limit: nat)
    requires UniqueIds(mem.tasks) && IndexIsSound(mem)
    ensures var after := Prune(mem, limit).tasks;
            && (|after| <= limit || forall t :: t in after ==> !IsPrunable(t))
            && (|after| < limit ==> after == mem.tasks)
            && (forall t :: t in mem.tasks && !IsPrunable(t) ==> t in after)
            && (forall gone, kept :: gone in mem.tasks && gone !in after && kept in after && IsPrunable(kept)
                                     ==> gone.updatedAt <= kept.updatedAt)
  {
    var q := mem.tasks;
    var after := Prune(mem, limit).tasks;
    PruneDeletesVictims(mem, limit);
    VictimFacts(q, limit);
    forall gone, kept | gone in q && gone !in after && kept in after && IsPrunable(kept)
      ensures gone.updatedAt <= kept.updatedAt
    {
      VictimsAreOldest(q, limit, gone, kept);
    }
    if |after| > limit {
      CandidateFacts(q);
      assert Victims(q, limit) == StableSortBy(Prunable(q), UpdatedAt);
    }
  }

  // ---- the operations ----

  /** The index only ever points at the newest stored task of its mutation id. */
  ghost predicate IndexIsSound(mem: Memory) {
    forall m :: m in mem.owner ==>
      && m != ""
      && LastOf(mem.tasks, m).Some?
      && LastOf(mem.tasks, m).value.id == mem.owner[m]
  }

  function Lookup(mem: Memory, m: MutationId): Option<Task> {
    if m != "" && m in mem.owner then Find(mem.tasks, mem.owner[m]) else None
  }

  function NewTask(input: Input, id: TaskId, now: nat): Task {
    Task(id, input.mid, input.fingerprint, input.taskType, input.kind, input.formId, input.entryId,
         Pending, now, now, false, None, NoError)
  }

  predicate FingerprintsClash(t: Task, input: Input) {
    input.fingerprint != "" && t.fingerprint != "" && t.fingerprint != input.fingerprint
  }

  /** `enqueue` up to the pruning pass.  `blocked` is the registry's answer about
      unresolved schedule mutations and `accepting` the mutation queue's; neither is
      part of this model. */
  function Admit(mem: Memory, input: Input, id: TaskId, now: nat, blocked: bool, accepting: bool)
    : (EnqueueResult, Memory)
  {
    var existing := Lookup(mem, input.mid);
    if existing.Some? && FingerprintsClash(existing.value, input) then
      (FingerprintConflict, mem)
    else if existing.Some? && !IsRetryable(existing.value) then
      (Existing(existing.value), mem)
    else
      var owner := if input.mid != "" then mem.owner - {input.mid} else mem.owner;
      if input.taskType == UpdateReport && IsScheduleKind(input.kind) && blocked then
        (ScheduleBlocked, mem.(owner := owner))
      else if !accepting then
        (QueueClosed, mem.(owner := owner))
      else
        var t := NewTask(input, id, now);
        (Accepted(t),
         Memory(mem.tasks + [t], if input.mid != "" then owner[input.mid := id] else owner))
  }

  function Enqueue(mem: Memory, input: Input, id: TaskId, now: nat, blocked: bool, accepting: bool, limit: nat)
    : (EnqueueResult, Memory)
  {
    var (r, admitted) := Admit(mem, input, id, now, blocked, accepting);
    (r, if r.Accepted? then Prune(admitted, limit) else admitted)
  }

  function ApplyPatch(t: Task, patch: Patch): Task {
    t.(status := if patch.status.Some? then patch.status.value else t.status,
       updatedAt := if patch.updatedAt.Some? then patch.updatedAt.value else t.updatedAt,
       writeIndeterminate :=
         if patch.writeIndeterminate.Some? then patch.writeIndeterminate.value else t.writeIndeterminate,
       error := if patch.error.Some? then patch.error.value else t.error)
  }

  function PatchOne(t: Task, id: TaskId, patch: Patch): Task {
    if t.id == id then ApplyPatch(t, patch) else t
  }

  function PatchTasks(q: seq<Task>, id: TaskId, patch: Patch): seq<Task> {
    MapTasks(q, t => PatchOne(t, id, patch))
  }

  function Update(mem: Memory, id: TaskId, patch: Patch, limit: nat): Memory {
    if Find(mem.tasks, id).None? then mem
    else Prune(mem.(tasks := PatchTasks(mem.tasks, id, patch)), limit)
  }

  function RunningPatch(now: nat): Patch {
    Patch(Some(Running), Some(now), None, None)
  }

  function SuccessPatch(now: nat): Patch {
    Patch(Some(Success), Some(now), None, None)
  }

  function FailurePatch(now: nat, error: ErrorCode, indeterminate: bool): Patch {
    Patch(Some(Failed), Some(now), Some(indeterminate), Some(error))
  }

  predicate IsAcknowledged(t: Task, formId: string, entryId: string, ids: set<TaskId>) {
    t.id in ids && t.formId == formId && t.entryId == entryId && IsUnresolved(t)
  }

  function AckOne(t: Task, formId: string, entryId: string, ids: set<TaskId>, at: nat): Task {
    if IsAcknowledged(t, formId, entryId, ids)
    then t.(writeIndeterminate := false, observedAt := Some(at), updatedAt := at)
    else t
  }

  function Acknowledge(mem: Memory, formId: string, entryId: string, ids: set<TaskId>, at: nat): Memory {
    if entryId == "" then mem
    else mem.(tasks := MapTasks(mem.tasks, t => AckOne(t, formId, entryId, ids, at)))
  }

  function AcknowledgedTasks(q: seq<Task>, formId: string, entryId: string, ids: set<TaskId>): (r: seq<Task>)
    ensures forall t :: t in r <==> t in q && entryId != "" && IsAcknowledged(t, formId, entryId, ids)
  {
    if |q| == 0 || entryId == "" then []
    else
      var rest := AcknowledgedTasks(q[..|q| - 1], formId, entryId, ids);
      if IsAcknowledged(q[|q| - 1], formId, entryId, ids) then rest + [q[|q| - 1]] else rest
  }

  function AcknowledgedUpTo(q: seq<Task>, i: nat, formId: string, entryId: string, ids: set<TaskId>): nat
    requires i <= |q|
  {
    |AcknowledgedTasks(q[..i], formId, entryId, ids)|
  }

  lemma AcknowledgedOneMore(q: seq<Task>, i: nat, formId: string, entryId: string, ids: set<TaskId>)
    requires i < |q| && entryId != ""
    ensures AcknowledgedUpTo(q, i + 1, formId, entryId, ids)
            == AcknowledgedUpTo(q, i, formId, entryId, ids) + if IsAcknowledged(q[i], formId, entryId, ids) then 1 else 0
  {
    hide IsAcknowledged;
    assert q[..i + 1][..i] == q[..i];
  }

  lemma AcknowledgedEnds(q: seq<Task>, formId: string, entryId: string, ids: set<TaskId>)
    ensures AcknowledgedUpTo(q, 0, formId, entryId, ids) == 0
    ensures AcknowledgedUpTo(q, |q|, formId, entryId, ids) == |AcknowledgedTasks(q, formId, entryId, ids)|
  {
    assert q[..|q|] == q;
  }

  lemma NothingToAcknowledge(mem: Memory, formId: string, ids: set<TaskId>, at: nat)
    ensures Acknowledge(mem, formId, "", ids, at) == mem
  {
  }

  lemma NotAcknowledgedStays(t: Task, formId: string, entryId: string, ids: set<TaskId>, at: nat)
    requires !IsAcknowledged(t, formId, entryId, ids)
    ensures AckOne(t, formId, entryId, ids, at) == t
  {
  }

  lemma AcknowledgeIsPointwise(mem: Memory, formId: string, entryId: string, ids: set<TaskId>, at: nat, after: seq<Task>)
    requires UniqueIds(mem.tasks) && entryId != "" && |after| == |mem.tasks|
    requires forall k :: 0 <= k < |after| ==> after[k] == AckOne(mem.tasks[k], formId, entryId, ids, at)
    ensures Acknowledge(mem, formId, entryId, ids, at) == mem.(tasks := after) && UniqueIds(after)
  {
    hide IsAcknowledged;
    assert MapTasks(mem.tasks, t => AckOne(t, formId, entryId, ids, at)) == after;
  }

  function Max(a: nat, b: nat): (m: nat)
    ensures m >= a && m >= b && (m == a || m == b)
  {
    if a >= b then a else b
  }

  // ---- loading a snapshot ----

  function SetTask(q: seq<Task>, t: Task): seq<Task> {
    if Find(q, t.id).Some? then MapTasks(q, (x: Task) => if x.id == t.id then t else x) else q + [t]
  }

  function SetAll(saved: seq<Task>): seq<Task> {
    if |saved| == 0 then [] else SetTask(SetAll(saved[..|saved| - 1]), saved[|saved| - 1])
  }

  function IndexAll(saved: seq<Task>): map<MutationId, TaskId> {
    if |saved| == 0 then map[]
    else
      var index := IndexAll(saved[..|saved| - 1]);
      var t := saved[|saved| - 1];
      if t.mid != "" then index[t.mid := t.id] else index
  }

  /** The verdict about one task found in a snapshot after a restart.  A task that
      was only pending is known not to have written, but only when the snapshot was
      made by code that holds workers back until "running" is on disk. */
  function RecoverOne(t: Task, barrier: bool, now: nat): Task {
    if t.status == Pending || t.status == Running then
      t.(status := Failed, updatedAt := now,
         writeIndeterminate := t.status == Running || !barrier, error := RecoveredAfterRestart)
    else t
  }

  function Recover(q: seq<Task>, barrier: bool, now: nat): seq<Task> {
    MapTasks(q, t => RecoverOne(t, barrier, now))
  }

  /** The memory a reload builds, before its pruning pass. */
  function Reload(saved: seq<Task>, barrier: bool, now: nat): Memory {
    Memory(Recover(SetAll(saved), barrier, now), IndexAll(saved))
  }

  function Load(saved: seq<Task>, barrier: bool, now: nat, limit: nat): Memory {
    Prune(Reload(saved, barrier, now), limit)
  }

  /** The list that `persistToDisk` serialises. */
  function Snapshot(mem: Memory): seq<Task> {
    StableSortBy(mem.tasks, CreatedAt)
  }

  lemma SetTaskFacts(q: seq<Task>, t: Task)
    requires UniqueIds(q)
    ensures UniqueIds(SetTask(q, t))
  {
    FindIsMember(q, t.id);
    if Find(q, t.id).Some? {
      var r := SetTask(q, t);
      assert forall i :: 0 <= i < |q| ==> r[i].id == q[i].id;
    } else {
      forall i | 0 <= i < |q| ensures q[i].id != t.id {
        assert q[i] in q;
      }
    }
  }

  lemma {:induction false} SetAllKeepsUnique(saved: seq<Task>)
    ensures UniqueIds(SetAll(saved))
  {
    if |saved| > 0 {
      SetAllKeepsUnique(saved[..|saved| - 1]);
      SetTaskFacts(SetAll(saved[..|saved| - 1]), saved[|saved| - 1]);
    }
  }

  lemma {:induction false} SetAllKeepsList(saved: seq<Task>)
    requires UniqueIds(saved)
    ensures SetAll(saved) == saved
  {
    if |saved| > 0 {
      var front := saved[..|saved| - 1];
      var t := saved[|saved| - 1];
      SetAllKeepsList(front);
      assert saved == front + [t];
      FindIsMember(front, t.id);
    }
  }

  lemma {:induction false} IndexAllIsLast(saved: seq<Task>)
    ensures forall m :: m in IndexAll(saved) <==> m != "" && LastOf(saved, m).Some?
    ensures forall m :: m in IndexAll(saved) ==> IndexAll(saved)[m] == LastOf(saved, m).value.id
  {
    if |saved| > 0 {
      IndexAllIsLast(saved[..|saved| - 1]);
    }
  }

  // ---- the service object ----

  class CreateReportTaskService {
    const historyLimit: nat
    var tasks: seq<Task>
    var taskIdByClientMutationId: map<MutationId, TaskId>
    /** How many snapshot writes have been chained so far. */
    var scheduledPersists: nat

    ghost predicate Valid()
      reads this
    {
      UniqueIds(tasks)
    }

    ghost function State(): Memory
      reads this
    {
      Memory(tasks, taskIdByClientMutationId)
    }

    constructor (historyLimit: nat)
      ensures Valid() && State() == EMPTY_MEMORY && this.historyLimit == historyLimit
      ensures scheduledPersists == 0
    {
      this.historyLimit := historyLimit;
      tasks, taskIdByClientMutationId, scheduledPersists := [], map[], 0;
    }

    method SchedulePersist()
      modifies this`scheduledPersists
      ensures scheduledPersists == old(scheduledPersists) + 1
    {
      scheduledPersists := scheduledPersists + 1;
    }

    method PruneHistory()
      requires Valid()
      modifies this`tasks, this`taskIdByClientMutationId
      ensures Valid() && State() == Prune(old(State()), historyLimit)
    {
      ghost var before := State();
      if |tasks| <= historyLimit {
        return;
      }
      var completed := StableSortBy(Prunable(tasks), UpdatedAt);
      var i := 0;
      CandidateFacts(tasks);
      DropPrefixFacts(before, completed, 0);
      while i < |completed| && |tasks| > historyLimit
        invariant 0 <= i <= |completed|
        invariant State() == DropAll(before, completed[..i])
        invariant Valid() && |tasks| == |before.tasks| - i
        invariant i <= |before.tasks| - historyLimit
        invariant forall t :: t in completed ==> t in before.tasks
        decreases |completed| - i
      {
        DropPrefixFacts(before, completed, i + 1);
        var task := completed[i];
        tasks := Without(tasks, {task.id});
        if task.mid != "" && task.mid in taskIdByClientMutationId && taskIdByClientMutationId[task.mid] == task.id {
          taskIdByClientMutationId := taskIdByClientMutationId - {task.mid};
        }
        i := i + 1;
      }
      assert i == VictimCount(before.tasks, historyLimit);
    }

    method UpdateTask(id: TaskId, patch: Patch)
      requires Valid()
      modifies this
      ensures Valid() && State() == Update(old(State()), id, patch, historyLimit)
      ensures scheduledPersists == old(scheduledPersists) + (if old(Find(tasks, id)).Some? then 1 else 0)
    {
      FindIsMember(tasks, id);
      var found := Find(tasks, id);
      if found.None? {
        return;
      }
      ghost var q := tasks;
      tasks := SetTask(tasks, ApplyPatch(found.value, patch));
      forall i | 0 <= i < |q| && q[i].id == id ensures q[i] == found.value {
        MemberIsFound(q, q[i]);
      }
      assert tasks == PatchTasks(q, id, patch);
      PruneHistory();
      SchedulePersist();
    }

    method MarkWaitingForSync(id: TaskId, now: nat)
      requires Valid()
      modifies this
      ensures Valid() && State() == Update(old(State()), id, RunningPatch(now), historyLimit)
    {
      UpdateTask(id, RunningPatch(now));
    }

    /** The synchronous first part of `runTask`: everything before the dispatch
        barrier is awaited.  `found` is false when it is gone. */
    method BeginDispatch(id: TaskId, now: nat) returns (found: bool)
      requires Valid()
      modifies this
      ensures Valid() && State() == Update(old(State()), id, RunningPatch(now), historyLimit)
      ensures found == old(Find(tasks, id)).Some?
      ensures scheduledPersists == old(scheduledPersists) + (if found then 1 else 0)
    {
      found := Find(tasks, id).Some?;
      if found {
        UpdateTask(id, RunningPatch(now));
      }
    }

    method EnqueueTask(input: Input, id: TaskId, now: nat, blocked: bool, accepting: bool)
      returns (r: EnqueueResult)
      requires Valid() && id !in Ids(tasks)
      modifies this
      ensures Valid()
      ensures (r, State()) == Enqueue(old(State()), input, id, now, blocked, accepting, historyLimit)
      ensures scheduledPersists == old(scheduledPersists) + (if r.Accepted? then 1 else 0)
    {
      if input.mid != "" && input.mid in taskIdByClientMutationId {
        var existing := Find(tasks, taskIdByClientMutationId[input.mid]);
        if existing.Some? {
          if FingerprintsClash(existing.value, input) {
            return FingerprintConflict;
          }
          if !IsRetryable(existing.value) {
            return Existing(existing.value);
          }
        }
        taskIdByClientMutationId := taskIdByClientMutationId - {input.mid};
      }
      assert input.mid != "" ==> taskIdByClientMutationId == old(taskIdByClientMutationId) - {input.mid};
      if input.taskType == UpdateReport && IsScheduleKind(input.kind) && blocked {
        return ScheduleBlocked;
      }
      if !accepting {
        return QueueClosed;
      }
      var task := NewTask(input, id, now);
      forall i | 0 <= i < |tasks| ensures tasks[i].id != id {
        assert tasks[i] in tasks;
      }
      tasks := tasks + [task];
      if input.mid != "" {
        taskIdByClientMutationId := taskIdByClientMutationId[input.mid := id];
      }
      PruneHistory();
      SchedulePersist();
      return Accepted(task);
    }

    /** `registryCount` is what the registry of tasks answers to the same observation. */
    method AcknowledgeScheduleMutationObservation(formId: string, entryId: string, ids: set<TaskId>, at: nat, registryCount: nat)
      returns (count: nat)
      requires Valid()
      modifies this
      ensures Valid() && State() == Acknowledge(old(State()), formId, entryId, ids, at)
      ensures var acknowledged := |AcknowledgedTasks(old(tasks), formId, entryId, ids)|;
              && count == (if entryId == "" then 0 else Max(acknowledged, registryCount))
              && scheduledPersists == old(scheduledPersists) + (if acknowledged > 0 then 1 else 0)
    {
      hide LastOf, Find, IsAcknowledged, AcknowledgedUpTo, AckOne, Acknowledge, UniqueIds, Victims, Max;
      count := 0;
      if entryId == "" {
        NothingToAcknowledge(State(), formId, ids, at);
        return;
      }
      ghost var q := tasks;
      AcknowledgedEnds(q, formId, entryId, ids);
      for i := 0 to |tasks|
        invariant |tasks| == |q| && taskIdByClientMutationId == old(taskIdByClientMutationId)
        invariant scheduledPersists == old(scheduledPersists)
        invariant forall k :: 0 <= k < i ==> tasks[k] == AckOne(q[k], formId, entryId, ids, at)
        invariant forall k :: i <= k < |q| ==> tasks[k] == q[k]
        invariant count == AcknowledgedUpTo(q, i, formId, entryId, ids)
      {
        AcknowledgedOneMore(q, i, formId, entryId, ids);
        if IsAcknowledged(tasks[i], formId, entryId, ids) {
          tasks := tasks[i := AckOne(tasks[i], formId, entryId, ids, at)];
          count := count + 1;
        } else {
          NotAcknowledgedStays(tasks[i], formId, entryId, ids, at);
        }
      }
      AcknowledgeIsPointwise(old(State()), formId, entryId, ids, at, tasks);
      if count > 0 {
        SchedulePersist();
      }
      count := Max(count, registryCount);
    }

    method RecoverInterruptedTasks(hasDispatchBarrier: bool, now: nat) returns (recovered: nat)
      requires Valid()
      modifies this`tasks
      ensures Valid() && tasks == Recover(old(tasks), hasDispatchBarrier, now)
      ensures recovered == 0 <==> forall t :: t in old(tasks) ==> IsTerminal(t)
    {
      recovered := 0;
      ghost var q := tasks;
      for i := 0 to |tasks|
        invariant |tasks| == |q|
        invariant forall k :: 0 <= k < i ==> tasks[k] == RecoverOne(q[k], hasDispatchBarrier, now)
        invariant forall k :: i <= k < |q| ==> tasks[k] == q[k]
        invariant recovered == 0 <==> forall k :: 0 <= k < i ==> IsTerminal(q[k])
      {
        if tasks[i].status == Pending || tasks[i].status == Running {
          recovered := recovered + 1;
          tasks := tasks[i := RecoverOne(tasks[i], hasDispatchBarrier, now)];
        }
      }
    }

    /** Restart from a valid snapshot; `saved` and `barrier` are its contents. */
    method LoadFromDisk(saved: seq<Task>, barrier: bool, now: nat)
      requires State() == EMPTY_MEMORY
      modifies this
      ensures Valid() && State() == Load(saved, barrier, now, historyLimit)
      ensures scheduledPersists == old(scheduledPersists) + 1
    {
      for i := 0 to |saved|
        invariant tasks == SetAll(saved[..i]) && taskIdByClientMutationId == IndexAll(saved[..i])
        invariant scheduledPersists == old(scheduledPersists)
      {
        assert saved[..i + 1][..i] == saved[..i];
        var task := saved[i];
        tasks := SetTask(tasks, task);
        if task.mid != "" {
          taskIdByClientMutationId := taskIdByClientMutationId[task.mid := task.id];
        }
      }
      assert saved[..|saved|] == saved;
      SetAllKeepsUnique(saved);
      var _ := RecoverInterruptedTasks(barrier, now);
      PruneHistory();
      SchedulePersist();
    }

    /** The contents `persistToDisk` writes; taking it changes nothing. */
    method TakeSnapshot() returns (saved: seq<Task>)
      ensures saved == Snapshot(State())
    {
      saved := StableSortBy(tasks, CreatedAt);
    }
  }
}
