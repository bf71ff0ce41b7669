/** The report service as a protocol between memory, the snapshot file and the
    workers.  An event is one piece of code between two awaits; a run is any
    sequence of events, with any number of crashes.  Events that the code cannot
    take in a state leave it unchanged, so every event list is a run. */
module DispatchProtocol {
  import opened Options
  import opened ReportTask
  import opened ReportTaskStore

  type Job = nat

  /** Where an accepted task stands in this process.  `AwaitingBarrier(j)`: marked
      running, waiting for snapshot write `j`.  A crash forgets all of it. */
  datatype Phase =
    | Queued
    | AwaitingBarrier(job: Job)
    | BarrierPassed
    | BarrierFailed
    | WorkerRunning

  datatype Disk = Absent | Saved(tasks: seq<Task>, barrier: bool)

  datatype Writing = Writing(job: Job, tasks: seq<Task>)

  /** A request as it was accepted, and when. */
  datatype Request = Request(input: Input, at: nat)

  /** The request that a stored task says it was made for. */
  function RequestOf(t: Task): Request {
    Request(Input(t.mid, t.fingerprint, t.taskType, t.kind, t.formId, t.entryId), t.createdAt)
  }

  /** What has happened so far; `used` gives the request each task was made for. */
  datatype History = History(
    used: map<TaskId, Request>,
    started: set<TaskId>,
    pruned: set<TaskId>,
    starts: multiset<MutationId>,
    acks: multiset<MutationId>,
    prunes: multiset<MutationId>)

  /** `jobs` and `writing` are the persist chain: writes run one at a time, in the
      order they were scheduled, and serialise memory when they run. */
  datatype System = System(
    mem: Memory,
    phase: map<TaskId, Phase>,
    jobs: seq<Job>,
    writing: Option<Writing>,
    nextJob: Job,
    disk: Disk,
    hist: History)

  datatype Config = Config(limit: nat)

  datatype Event =
    | EnqueueTask(input: Input, id: TaskId, now: nat, blocked: bool, accepting: bool)
    | WaitForSync(id: TaskId, now: nat)
    | BeginDispatch(id: TaskId, now: nat)
    | TakeSnapshot
    | CommitSnapshot
    | FailPersist
    | StartWorker(id: TaskId)
    | WorkerProgress(id: TaskId)
    | WorkerSucceeds(id: TaskId, now: nat)
    | WorkerFails(id: TaskId, now: nat, error: ErrorCode, indeterminate: bool)
    | RefuseDispatch(id: TaskId, now: nat, indeterminate: bool)
    | Observe(formId: string, entryId: string, ids: set<TaskId>, now: nat)
    | CrashAndRestart(now: nat)

  function Mids(q: seq<Task>): multiset<MutationId> {
    if |q| == 0 then multiset{} else Mids(q[..|q| - 1]) + multiset{q[|q| - 1].mid}
  }

  predicate InPhase(s: System, id: TaskId, p: Phase) {
    id in s.phase && s.phase[id] == p
  }

  /** No event asks anything of the clock: readings may go back at any time. */
  predicate Enabled(s: System, e: Event) {
    match e
    case EnqueueTask(_, id, _, _, _) => id !in s.hist.used
    case WaitForSync(id, _) => InPhase(s, id, Queued)
    case BeginDispatch(id, _) => InPhase(s, id, Queued)
    case TakeSnapshot => s.writing.None? && |s.jobs| > 0
    case CommitSnapshot => s.writing.Some?
    case FailPersist => s.writing.Some? || |s.jobs| > 0
    case StartWorker(id) => InPhase(s, id, BarrierPassed)
    case WorkerProgress(id) => InPhase(s, id, WorkerRunning)
    case WorkerSucceeds(id, _) => InPhase(s, id, WorkerRunning)
    // No worker raises the recovery code itself.
    case WorkerFails(id, _, error, _) => InPhase(s, id, WorkerRunning) && error != RecoveredAfterRestart
    case RefuseDispatch(id, _, _) => InPhase(s, id, BarrierFailed)
    case _ => true
  }

  function Schedule(s: System): System {
    s.(jobs := s.jobs + [s.nextJob], nextJob := s.nextJob + 1)
  }

  function PruneStep(cfg: Config, s: System): System {
    var victims := Victims(s.mem.tasks, cfg.limit);
    s.(mem := Prune(s.mem, cfg.limit),
       hist := s.hist.(pruned := s.hist.pruned + Ids(victims), prunes := s.hist.prunes + Mids(victims)))
  }

  function Patched(s: System, id: TaskId, patch: Patch): System {
    s.(mem := s.mem.(tasks := PatchTasks(s.mem.tasks, id, patch)))
  }

  /** Settling a snapshot write wakes those that wait for it. */
  function SettleJob(phase: map<TaskId, Phase>, job: Job, outcome: Phase): map<TaskId, Phase> {
    map id | id in phase :: if phase[id] == AwaitingBarrier(job) then outcome else phase[id]
  }

  function Settle(s: System, id: TaskId, patch: Patch): System {
    Patched(s, id, patch).(phase := s.phase - {id})
  }

  function ObserveStep(s: System, formId: string, entryId: string, ids: set<TaskId>, now: nat): System {
    s.(mem := Acknowledge(s.mem, formId, entryId, ids, now),
       hist := s.hist.(acks := s.hist.acks + Mids(AcknowledgedTasks(s.mem.tasks, formId, entryId, ids))))
  }

  function AdmitStep(s: System, input: Input, id: TaskId, now: nat, blocked: bool, accepting: bool): System {
    var (r, mem) := Admit(s.mem, input, id, now, blocked, accepting);
    if r.Accepted? then
      s.(mem := mem, phase := s.phase[id := Queued], hist := s.hist.(used := s.hist.used[id := Request(input, now)]))
    else s.(mem := mem)
  }

  /** The part of memory that a restart rebuilds; everything else is lost. */
  function RestartStep(s: System, now: nat): System {
    s.(mem := if s.disk.Saved? then Reload(s.disk.tasks, s.disk.barrier, now) else EMPTY_MEMORY,
       phase := map[], jobs := [], writing := None)
  }

  function DispatchStep(s: System, id: TaskId, now: nat): System {
    Patched(s, id, RunningPatch(now)).(phase := s.phase[id := AwaitingBarrier(s.nextJob)])
  }

  function StartStep(s: System, id: TaskId): System {
    var t := Find(s.mem.tasks, id);
    s.(phase := s.phase[id := WorkerRunning],
       hist := s.hist.(started := s.hist.started + {id},
                       starts := s.hist.starts + (if t.Some? then multiset{t.value.mid} else multiset{})))
  }

  function FailStep(s: System): System {
    if s.writing.Some? then
      s.(writing := None, phase := SettleJob(s.phase, s.writing.value.job, BarrierFailed))
    else if |s.jobs| > 0 then
      s.(jobs := s.jobs[1..], phase := SettleJob(s.phase, s.jobs[0], BarrierFailed))
    else s
  }

  function Apply(cfg: Config, s: System, e: Event): System {
    if !Enabled(s, e) then s
    else
      match e
      case EnqueueTask(input, id, now, blocked, accepting) =>
        var next := AdmitStep(s, input, id, now, blocked, accepting);
        if Admit(s.mem, input, id, now, blocked, accepting).0.Accepted?
        then Schedule(PruneStep(cfg, next)) else next
      case WaitForSync(id, now) =>
        Schedule(PruneStep(cfg, Patched(s, id, RunningPatch(now))))
      case BeginDispatch(id, now) => Schedule(PruneStep(cfg, DispatchStep(s, id, now)))
      case TakeSnapshot =>
        s.(writing := Some(Writing(s.jobs[0], Snapshot(s.mem))), jobs := s.jobs[1..])
      case CommitSnapshot =>
        s.(disk := Saved(s.writing.value.tasks, true), writing := None,
           phase := SettleJob(s.phase, s.writing.value.job, BarrierPassed))
      case FailPersist => FailStep(s)
      case StartWorker(id) => StartStep(s, id)
      case WorkerProgress(id) => Schedule(PruneStep(cfg, s))
      case WorkerSucceeds(id, now) =>
        Schedule(PruneStep(cfg, Settle(s, id, SuccessPatch(now))))
      case WorkerFails(id, now, error, indeterminate) =>
        Schedule(PruneStep(cfg, Settle(s, id, FailurePatch(now, error, indeterminate))))
      case RefuseDispatch(id, now, indeterminate) =>
        Schedule(PruneStep(cfg, Settle(s, id, FailurePatch(now, PersistenceFailed, indeterminate))))
      case Observe(formId, entryId, ids, now) =>
        var next := ObserveStep(s, formId, entryId, ids, now);
        if |AcknowledgedTasks(s.mem.tasks, formId, entryId, ids)| > 0 then Schedule(next) else next
      case CrashAndRestart(now) =>
        var next := RestartStep(s, now);
        if s.disk.Saved? then Schedule(PruneStep(cfg, next)) else next
  }

  function Run(cfg: Config, s: System, events: seq<Event>): System {
    if |events| == 0 then s
    else Apply(cfg, Run(cfg, s, events[..|events| - 1]), events[|events| - 1])
  }

  /** The first start of the service: nothing in memory, and on disk either nothing
      or a snapshot left by this or an older version of the code. */
  ghost predicate Initial(s: System) {
    && s.mem == EMPTY_MEMORY && s.phase == map[] && s.jobs == [] && s.writing == None
    && s.hist.started == {} && s.hist.pruned == {}
    && s.hist.starts == multiset{} && s.hist.acks == multiset{} && s.hist.prunes == multiset{}
    && (s.disk.Saved? ==> ImageOk(s, s.disk.tasks))
  }

  // ---- invariant ----

  ghost predicate ListOk(s: System, q: seq<Task>) {
    && UniqueIds(q)
    && forall t :: t in q ==> t.id in s.hist.used && s.hist.used[t.id] == RequestOf(t)
  }

  /** A snapshot is written in order of creation, whatever order memory is in. */
  ghost predicate ImageOk(s: System, q: seq<Task>) {
    ListOk(s, q) && SortedByCreation(q)
  }

  ghost predicate ListsOk(s: System) {
    && ListOk(s, s.mem.tasks)
    && (s.disk.Saved? ==> ImageOk(s, s.disk.tasks))
    && (s.writing.Some? ==> ImageOk(s, s.writing.value.tasks))
  }

  ghost predicate JobsOk(s: System) {
    && (s.writing.Some? ==> s.writing.value.job < s.nextJob)
    && (forall j :: j in s.jobs ==> j < s.nextJob)
  }

  predicate HasNoVerdict(t: Task) {
    !t.writeIndeterminate && t.observedAt == None && t.error == NoError
  }

  /** A task that is live in this process is stored, not finished, without a verdict, and in
      charge of its mutation id. */
  ghost predicate LiveTaskOk(s: System, id: TaskId)
    requires id in s.phase
  {
    && Find(s.mem.tasks, id).Some?
    && var t := Find(s.mem.tasks, id).value;
    && t.id == id
    && !IsTerminal(t) && HasNoVerdict(t)
    && (s.phase[id] != Queued ==> t.status == Running)
    && (t.mid != "" ==> t.mid in s.mem.owner && s.mem.owner[t.mid] == id)
  }

  ghost predicate UnfinishedAreLive(q: seq<Task>, live: set<TaskId>) {
    forall t {:trigger t in q, IsTerminal(t)} :: t in q && !IsTerminal(t) ==> t.id in live
  }

  ghost predicate PhasesOk(s: System) {
    && (forall id {:trigger LiveTaskOk(s, id)} :: id in s.phase ==> LiveTaskOk(s, id))
    && UnfinishedAreLive(s.mem.tasks, s.phase.Keys)
  }

  ghost predicate ShowsRunning(q: seq<Task>, id: TaskId) {
    Find(q, id).Some? && Find(q, id).value.status == Running && HasNoVerdict(Find(q, id).value)
  }

  /** The dispatch barrier: past it, the disk and any write under way show "running". */
  ghost predicate BarrierOk(s: System) {
    forall id :: id in s.phase ==>
      match s.phase[id]
      case AwaitingBarrier(j) =>
        s.writing.Some? && s.writing.value.job == j ==> ShowsRunning(s.writing.value.tasks, id)
      case BarrierPassed =>
        s.disk.Saved? && ShowsRunning(s.disk.tasks, id) && (s.writing.Some? ==> ShowsRunning(s.writing.value.tasks, id))
      case WorkerRunning =>
        s.disk.Saved? && ShowsRunning(s.disk.tasks, id) && (s.writing.Some? ==> ShowsRunning(s.writing.value.tasks, id))
      case _ => true
  }

  /** `q` remembers that `id` went past "pending". */
  ghost predicate Remembers(q: seq<Task>, id: TaskId) {
    Find(q, id).Some? && Find(q, id).value.status != Pending
  }

  ghost predicate StartedOk(s: System) {
    forall id :: id in s.hist.started && id !in s.hist.pruned ==>
      && Remembers(s.mem.tasks, id)
      && s.disk.Saved? && Remembers(s.disk.tasks, id)
      && (s.writing.Some? ==> Remembers(s.writing.value.tasks, id))
  }

  ghost predicate Inv(s: System) {
    && ListsOk(s)
    && JobsOk(s)
    && IndexIsSound(s.mem)
    && PhasesOk(s)
    && BarrierOk(s)
    && StartedOk(s)
  }
}
