/** The report task record and the insertion-ordered list of tasks that the
    service's `tasks` Map iterates over.  A JavaScript Map keeps insertion order
    and `set` on an existing key keeps the key's place, so the Map is modelled as
    a sequence of tasks with pairwise different ids. */
module ReportTask {
  import opened Options

  type TaskId = nat

  /** A client mutation id after trimming; the empty string means "none". */
  type MutationId = string

  datatype Status = Pending | Running | Success | Failed

  datatype TaskType = CreateReport | UpdateReport | UpdateDowntime | DeleteDowntime

  datatype OperationKind =
    | NoKind
    | UpdateReportRow
    | UpdateStartSchedule
    | UpdateSortOrder
    | UpdateUrgent
    | UpdateMainMachine
    | UpdatePlannedEndDate
    | CloseWorkOrder
    | ReopenWorkOrder

  /** `IndeterminateCode` stands for every code ending in "_INDETERMINATE". */
  datatype ErrorCode =
    | NoError
    | RecoveredAfterRestart
    | PersistenceFailed
    | IndeterminateCode
    | OtherCode(code: string)

  datatype Task = Task(
    id: TaskId,
    mid: MutationId,
    fingerprint: string,
    taskType: TaskType,
    kind: OperationKind,
    formId: string,
    entryId: string,
    status: Status,
    createdAt: nat,
    updatedAt: nat,
    writeIndeterminate: bool,
    observedAt: Option<nat>,
    error: ErrorCode)

  predicate IsScheduleKind(kind: OperationKind) {
    kind in {UpdateStartSchedule, UpdateSortOrder, UpdateUrgent, UpdateMainMachine, UpdatePlannedEndDate}
  }

  predicate IsTerminal(t: Task) {
    t.status == Success || t.status == Failed
  }

  /** A failed schedule mutation whose outcome nobody has observed yet. */
  predicate IsUnresolved(t: Task) {
    && t.taskType == UpdateReport
    && IsScheduleKind(t.kind)
    && t.status == Failed
    && t.observedAt.None?
    && (t.writeIndeterminate || t.error == IndeterminateCode)
  }

  /** The verdict that lets a later enqueue with the same mutation id run again. */
  predicate IsRetryable(t: Task) {
    t.status == Failed && t.error == RecoveredAfterRestart && !t.writeIndeterminate
  }

  predicate UniqueIds(q: seq<Task>) {
    forall i, j :: 0 <= i < j < |q| ==> q[i].id != q[j].id
  }

  predicate SortedByCreation(q: seq<Task>) {
    forall i, j :: 0 <= i < j < |q| ==> q[i].createdAt <= q[j].createdAt
  }

  function Ids(q: seq<Task>): set<TaskId> {
    set t | t in q :: t.id
  }

  function Find(q: seq<Task>, id: TaskId): Option<Task> {
    if |q| == 0 then None
    else if q[|q| - 1].id == id then Some(q[|q| - 1])
    else Find(q[..|q| - 1], id)
  }

  /** Which of a list's tasks a reload leaves in charge of mutation id `m`. */
  function LastOf(q: seq<Task>, m: MutationId): Option<Task> {
    if |q| == 0 then None
    else if q[|q| - 1].mid == m then Some(q[|q| - 1])
    else LastOf(q[..|q| - 1], m)
  }

  function MapTasks(q: seq<Task>, f: Task -> Task): (r: seq<Task>)
    ensures |r| == |q|
    ensures forall i :: 0 <= i < |q| ==> r[i] == f(q[i])
  {
    if |q| == 0 then [] else MapTasks(q[..|q| - 1], f) + [f(q[|q| - 1])]
  }

  /** What `Map.delete` on each of `gone` leaves. */
  function Without(q: seq<Task>, gone: set<TaskId>): (r: seq<Task>)
    ensures forall t :: t in r <==> t in q && t.id !in gone
  {
    if |q| == 0 then []
    else
      var rest := Without(q[..|q| - 1], gone);
      if q[|q| - 1].id in gone then rest else rest + [q[|q| - 1]]
  }

  /** Keeps identity and ownership: only such updates ever reach a stored task. */
  ghost predicate KeepsKeys(f: Task -> Task) {
    forall t: Task ::
      f(t).id == t.id && f(t).mid == t.mid && f(t).createdAt == t.createdAt
  }

  lemma {:induction false} FindIsMember(q: seq<Task>, id: TaskId)
    ensures Find(q, id).Some? ==> Find(q, id).value in q && Find(q, id).value.id == id
    ensures id in Ids(q) <==> Find(q, id).Some?
  {
    if |q| > 0 {
      FindIsMember(q[..|q| - 1], id);
      assert q == q[..|q| - 1] + [q[|q| - 1]];
    }
  }

  lemma {:induction false} MemberIsFound(q: seq<Task>, t: Task)
    requires UniqueIds(q) && t in q
    ensures Find(q, t.id) == Some(t)
  {
    if q[|q| - 1].id != t.id {
      MemberIsFound(q[..|q| - 1], t);
    } else {
      var i :| 0 <= i < |q| && q[i] == t;
    }
  }

  lemma {:induction false} LastOfIsMember(q: seq<Task>, m: MutationId)
    ensures LastOf(q, m).Some? ==> LastOf(q, m).value in q && LastOf(q, m).value.mid == m
    ensures LastOf(q, m).None? ==> forall t :: t in q ==> t.mid != m
  {
    if |q| > 0 {
      LastOfIsMember(q[..|q| - 1], m);
      assert q == q[..|q| - 1] + [q[|q| - 1]];
    }
  }

  lemma AppendFacts(q: seq<Task>, t: Task)
    ensures forall id :: Find(q + [t], id) == if t.id == id then Some(t) else Find(q, id)
    ensures forall m :: LastOf(q + [t], m) == if t.mid == m then Some(t) else LastOf(q, m)
    ensures Ids(q + [t]) == Ids(q) + {t.id}
  {
    assert (q + [t])[..|q|] == q;
    assert forall x :: x in q + [t] <==> x in q || x == t;
  }

  lemma {:induction false} MapFind(q: seq<Task>, f: Task -> Task, id: TaskId)
    requires KeepsKeys(f)
    ensures Find(MapTasks(q, f), id) == if Find(q, id).Some? then Some(f(Find(q, id).value)) else None
  {
    if |q| > 0 {
      MapFind(q[..|q| - 1], f, id);
      assert MapTasks(q, f)[..|q| - 1] == MapTasks(q[..|q| - 1], f);
    }
  }

  lemma {:induction false} MapLast(q: seq<Task>, f: Task -> Task, m: MutationId)
    requires KeepsKeys(f)
    ensures LastOf(MapTasks(q, f), m) == if LastOf(q, m).Some? then Some(f(LastOf(q, m).value)) else None
  {
    if |q| > 0 {
      MapLast(q[..|q| - 1], f, m);
      assert MapTasks(q, f)[..|q| - 1] == MapTasks(q[..|q| - 1], f);
    }
  }

  lemma MapIds(q: seq<Task>, f: Task -> Task)
    requires KeepsKeys(f)
    ensures Ids(MapTasks(q, f)) == Ids(q)
  {
    var r := MapTasks(q, f);
    forall id ensures id in Ids(r) <==> id in Ids(q) {
      if id in Ids(r) {
        var t :| t in r && t.id == id;
        var i :| 0 <= i < |r| && r[i] == t;
        assert q[i] in q;
      }
      if id in Ids(q) {
        var t :| t in q && t.id == id;
        var i :| 0 <= i < |q| && q[i] == t;
        assert r[i] in r;
      }
    }
  }

  lemma MapFacts(q: seq<Task>, f: Task -> Task)
    requires KeepsKeys(f)
    ensures forall id :: Find(MapTasks(q, f), id) ==
                         if Find(q, id).Some? then Some(f(Find(q, id).value)) else None
    ensures forall m :: LastOf(MapTasks(q, f), m) ==
                        if LastOf(q, m).Some? then Some(f(LastOf(q, m).value)) else None
    ensures UniqueIds(q) ==> UniqueIds(MapTasks(q, f))
    ensures SortedByCreation(q) ==> SortedByCreation(MapTasks(q, f))
    ensures Ids(MapTasks(q, f)) == Ids(q)
  {
    hide MapTasks, Find, LastOf, Ids;
    MapIds(q, f);
    forall id {
      MapFind(q, f, id);
    }
    forall m {
      MapLast(q, f, m);
    }
  }

  lemma {:induction false} WithoutUnique(q: seq<Task>, gone: set<TaskId>)
    requires UniqueIds(q)
    ensures UniqueIds(Without(q, gone))
  {
    if |q| > 0 {
      var front := q[..|q| - 1];
      WithoutUnique(front, gone);
      var rest := Without(front, gone);
      forall i | 0 <= i < |rest| ensures rest[i].id != q[|q| - 1].id {
        assert rest[i] in front;
        var j :| 0 <= j < |front| && front[j] == rest[i];
        assert q[j] == rest[i];
      }
    }
  }

  lemma {:induction false} WithoutSorted(q: seq<Task>, gone: set<TaskId>)
    requires SortedByCreation(q)
    ensures SortedByCreation(Without(q, gone))
  {
    if |q| > 0 {
      var front := q[..|q| - 1];
      WithoutSorted(front, gone);
      var rest := Without(front, gone);
      forall i | 0 <= i < |rest| ensures rest[i].createdAt <= q[|q| - 1].createdAt {
        assert rest[i] in front;
        var j :| 0 <= j < |front| && front[j] == rest[i];
        assert q[j] == rest[i];
      }
    }
  }

  lemma WithoutFacts(q: seq<Task>, gone: set<TaskId>)
    ensures UniqueIds(q) ==> UniqueIds(Without(q, gone))
    ensures SortedByCreation(q) ==> SortedByCreation(Without(q, gone))
  {
    hide *;
    if UniqueIds(q) {
      WithoutUnique(q, gone);
    }
    if SortedByCreation(q) {
      WithoutSorted(q, gone);
    }
  }

  /** Deleting tasks never changes who is in charge unless it deletes that task. */
  lemma {:induction false} WithoutKeepsLast(q: seq<Task>, gone: set<TaskId>, m: MutationId)
    requires LastOf(q, m).Some? ==> LastOf(q, m).value.id !in gone
    ensures LastOf(Without(q, gone), m) == LastOf(q, m)
  {
    if |q| > 0 {
      var front := q[..|q| - 1];
      var rest := Without(front, gone);
      if q[|q| - 1].mid != m {
        WithoutKeepsLast(front, gone, m);
      }
      if q[|q| - 1].id !in gone {
        assert (rest + [q[|q| - 1]])[..|rest|] == rest;
      }
    }
  }

  lemma {:induction false} WithoutKeepsFind(q: seq<Task>, gone: set<TaskId>, id: TaskId)
    ensures Find(Without(q, gone), id) == if id in gone then None else Find(q, id)
  {
    if |q| > 0 {
      var front := q[..|q| - 1];
      var rest := Without(front, gone);
      WithoutKeepsFind(front, gone, id);
      if q[|q| - 1].id !in gone {
        assert (rest + [q[|q| - 1]])[..|rest|] == rest;
      }
    }
  }

  lemma {:induction false} WithoutTwice(q: seq<Task>, a: set<TaskId>, b: set<TaskId>)
    ensures Without(Without(q, a), b) == Without(q, a + b)
  {
    if |q| > 0 {
      var rest := Without(q[..|q| - 1], a);
      WithoutTwice(q[..|q| - 1], a, b);
      if q[|q| - 1].id !in a {
        assert (rest + [q[|q| - 1]])[..|rest|] == rest;
      }
    }
  }

  lemma {:induction false} WithoutNone(q: seq<Task>, gone: set<TaskId>)
    requires Ids(q) !! gone
    ensures Without(q, gone) == q
  {
    if |q| > 0 {
      assert q == q[..|q| - 1] + [q[|q| - 1]];
      assert forall t :: t in q[..|q| - 1] ==> t in q;
      WithoutNone(q[..|q| - 1], gone);
      assert q[|q| - 1] in q;
    }
  }

  /** Each deleted id takes exactly one task away. */
  lemma {:induction false} WithoutOneCount(q: seq<Task>, id: TaskId)
    requires UniqueIds(q)
    ensures |Without(q, {id})| == |q| - (if Find(q, id).Some? then 1 else 0)
  {
    if |q| > 0 {
      var front := q[..|q| - 1];
      if q[|q| - 1].id == id {
        assert Ids(front) !! {id};
        WithoutNone(front, {id});
      } else {
        WithoutOneCount(front, id);
      }
    }
  }

  // ---- stable sorting, as Array.prototype.sort does it ----

  function InsertBy(q: seq<Task>, t: Task, key: Task -> nat): (r: seq<Task>)
    ensures multiset(r) == multiset(q) + multiset{t}
  {
    if |q| == 0 then [t]
    else if key(q[|q| - 1]) <= key(t) then q + [t]
    else
      assert q == q[..|q| - 1] + [q[|q| - 1]];
      InsertBy(q[..|q| - 1], t, key) + [q[|q| - 1]]
  }

  function StableSortBy(q: seq<Task>, key: Task -> nat): (r: seq<Task>)
    ensures multiset(r) == multiset(q)
  {
    if |q| == 0 then []
    else
      assert q == q[..|q| - 1] + [q[|q| - 1]];
      InsertBy(StableSortBy(q[..|q| - 1], key), q[|q| - 1], key)
  }

  predicate SortedBy(q: seq<Task>, key: Task -> nat) {
    forall i, j :: 0 <= i < j < |q| ==> key(q[i]) <= key(q[j])
  }

  lemma {:induction false} InsertKeepsSorted(q: seq<Task>, t: Task, key: Task -> nat)
    requires SortedBy(q, key)
    ensures SortedBy(InsertBy(q, t, key), key)
  {
    if |q| > 0 && key(q[|q| - 1]) > key(t) {
      var front := q[..|q| - 1];
      var r := InsertBy(front, t, key);
      InsertKeepsSorted(front, t, key);
      forall i | 0 <= i < |r| ensures key(r[i]) <= key(q[|q| - 1]) {
        assert r[i] in multiset(r);
        assert r[i] in front || r[i] == t;
      }
    }
  }

  lemma {:induction false} StableSortSorts(q: seq<Task>, key: Task -> nat)
    ensures SortedBy(StableSortBy(q, key), key)
  {
    if |q| > 0 {
      StableSortSorts(q[..|q| - 1], key);
      InsertKeepsSorted(StableSortBy(q[..|q| - 1], key), q[|q| - 1], key);
    }
  }

  lemma InsertAtEnd(q: seq<Task>, t: Task, key: Task -> nat)
    requires |q| > 0 ==> key(q[|q| - 1]) <= key(t)
    ensures InsertBy(q, t, key) == q + [t]
  {}

  /** Stability in the form the protocol needs: an ordered list is left alone. */
  lemma {:induction false} StableSortKeepsSorted(q: seq<Task>, key: Task -> nat)
    requires SortedBy(q, key)
    ensures StableSortBy(q, key) == q
  {
    hide InsertBy;
    if |q| > 0 {
      var front, t := q[..|q| - 1], q[|q| - 1];
      assert key(q[|q| - 1]) <= key(t);
      calc {
        StableSortBy(q, key);
      ==
        InsertBy(StableSortBy(front, key), t, key);
      ==  { StableSortKeepsSorted(front, key); }
        InsertBy(front, t, key);
      ==  { InsertAtEnd(front, t, key); }
        front + [t];
      ==
        q;
      }
    }
  }

  // ---- sorting and the other operations on lists ----

  /** Who is last for a mutation id after an insertion: the new task, unless an earlier
      task of that id is dated after it. */
  lemma {:induction false} InsertLast(q: seq<Task>, t: Task, key: Task -> nat, m: MutationId)
    requires SortedBy(q, key)
    ensures LastOf(InsertBy(q, t, key), m)
            == if t.mid == m && (LastOf(q, m).None? || key(LastOf(q, m).value) <= key(t)) then Some(t) else LastOf(q, m)
  {
    if |q| == 0 {
      assert [t][..0] == [];
    } else {
      var front, last := q[..|q| - 1], q[|q| - 1];
      LastOfIsMember(q, m);
      if key(last) <= key(t) {
        assert (q + [t])[..|q|] == q;
      } else {
        var r := InsertBy(front, t, key);
        InsertLast(front, t, key, m);
        assert (r + [last])[..|r|] == r;
      }
    }
  }

  lemma {:induction false} InsertMap(q: seq<Task>, t: Task, f: Task -> Task, key: Task -> nat)
    requires forall x :: key(f(x)) == key(x)
    ensures InsertBy(MapTasks(q, f), f(t), key) == MapTasks(InsertBy(q, t, key), f)
  {
    if |q| == 0 {
      assert MapTasks([t], f) == [f(t)];
    } else {
      var front, last := q[..|q| - 1], q[|q| - 1];
      assert MapTasks(q, f) == MapTasks(front, f) + [f(last)];
      if key(last) <= key(t) {
        assert (q + [t])[..|q|] == q;
      } else {
        var r := InsertBy(front, t, key);
        InsertMap(front, t, f, key);
        assert (r + [last])[..|r|] == r;
        assert (MapTasks(front, f) + [f(last)])[..|front|] == MapTasks(front, f);
      }
    }
  }

  /** Updates that keep the key may come before or after the sort. */
  lemma {:induction false} SortMap(q: seq<Task>, f: Task -> Task, key: Task -> nat)
    requires forall x :: key(f(x)) == key(x)
    ensures StableSortBy(MapTasks(q, f), key) == MapTasks(StableSortBy(q, key), f)
  {
    if |q| > 0 {
      var front, last := q[..|q| - 1], q[|q| - 1];
      var mapped := MapTasks(front, f);
      assert MapTasks(q, f) == mapped + [f(last)];
      assert (mapped + [f(last)])[..|mapped|] == mapped;
      SortMap(front, f, key);
      InsertMap(StableSortBy(front, key), last, f, key);
    }
  }

  lemma WithoutAppend(q: seq<Task>, t: Task, gone: set<TaskId>)
    ensures Without(q + [t], gone) == if t.id in gone then Without(q, gone) else Without(q, gone) + [t]
  {
    assert (q + [t])[..|q|] == q;
  }

  lemma InsertBefore(q: seq<Task>, last: Task, t: Task, key: Task -> nat)
    requires key(last) > key(t)
    ensures InsertBy(q + [last], t, key) == InsertBy(q, t, key) + [last]
  {
    assert (q + [last])[..|q|] == q;
  }

  lemma RestEndsEarlier(q: seq<Task>, t: Task, gone: set<TaskId>, key: Task -> nat)
    requires SortedBy(q, key) && (|q| == 0 || key(q[|q| - 1]) <= key(t))
    ensures var rest := Without(q, gone); |rest| > 0 ==> key(rest[|rest| - 1]) <= key(t)
  {
    var rest := Without(q, gone);
    if |rest| > 0 {
      assert rest[|rest| - 1] in q;
    }
  }

  lemma {:induction false} InsertWithout(q: seq<Task>, t: Task, gone: set<TaskId>, key: Task -> nat)
    requires SortedBy(q, key)
    ensures Without(InsertBy(q, t, key), gone)
            == if t.id in gone then Without(q, gone) else InsertBy(Without(q, gone), t, key)
  {
    hide InsertBy, Without;
    if |q| == 0 || key(q[|q| - 1]) <= key(t) {
      InsertAtEnd(q, t, key);
      WithoutAppend(q, t, gone);
      RestEndsEarlier(q, t, gone, key);
      InsertAtEnd(Without(q, gone), t, key);
    } else {
      var front, last := q[..|q| - 1], q[|q| - 1];
      assert q == front + [last];
      InsertWithout(front, t, gone, key);
      InsertBefore(front, last, t, key);
      WithoutAppend(InsertBy(front, t, key), last, gone);
      WithoutAppend(front, last, gone);
      InsertBefore(Without(front, gone), last, t, key);
    }
  }

  /** So may deletions. */
  lemma {:induction false} SortWithout(q: seq<Task>, gone: set<TaskId>, key: Task -> nat)
    ensures StableSortBy(Without(q, gone), key) == Without(StableSortBy(q, key), gone)
  {
    if |q| > 0 {
      var front, last := q[..|q| - 1], q[|q| - 1];
      assert q == front + [last];
      SortWithout(front, gone, key);
      StableSortSorts(front, key);
      InsertWithout(StableSortBy(front, key), last, gone, key);
      WithoutAppend(front, last, gone);
      if last.id !in gone {
        var rest := Without(front, gone);
        assert (rest + [last])[..|rest|] == rest;
      }
    }
  }
}
