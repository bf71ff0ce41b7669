/** Where at-most-once ends.  Work accepted with a date before a newer retryable record of
    its mutation id can always be followed by a second worker for that id, with nothing
    acknowledged and nothing pruned; and no other accepted work can. */
module DispatchTwice {
  import opened Options
  import opened ReportTask
  import opened ReportTaskStore
  import opened DispatchProtocol
  import opened DispatchSafety
  import opened DispatchOnce

  // ---- continuations ----

  /** A run in which no work for `m` is accepted dated back leads from `s` to `t`. */
  ghost predicate Leads(cfg: Config, s: System, t: System, m: MutationId) {
    exists events: seq<Event> :: LeadsBy(cfg, s, t, m, events)
  }

  predicate LeadsBy(cfg: Config, s: System, t: System, m: MutationId, events: seq<Event>) {
    Run(cfg, s, events) == t && NeverDatedBack(cfg, s, events, m)
  }

  lemma LeadsToItself(cfg: Config, s: System, m: MutationId)
    ensures Leads(cfg, s, s, m)
  {
    assert LeadsBy(cfg, s, s, m, []);
  }

  lemma LeadsNext(cfg: Config, s: System, t: System, m: MutationId, e: Event)
    requires Leads(cfg, s, t, m) && !DatedBack(t, e, m)
    ensures Leads(cfg, s, Apply(cfg, t, e), m)
  {
    hide Apply, DatedBack;
    var events :| LeadsBy(cfg, s, t, m, events);
    assert (events + [e])[..|events|] == events;
    assert LeadsBy(cfg, s, Apply(cfg, t, e), m, events + [e]);
  }

  lemma NoPruneBelowLimit(cfg: Config, s: System)
    requires |s.mem.tasks| <= cfg.limit
    ensures PruneStep(cfg, s) == s
  {
    assert Victims(s.mem.tasks, cfg.limit) == [];
    assert s.hist.pruned + {} == s.hist.pruned && s.hist.prunes + multiset{} == s.hist.prunes;
  }

  // ---- accepted work can start ----

  /** Memory with the accepted task marked as running. */
  function RunningMemory(s: System, e: Event): seq<Task>
    requires e.EnqueueTask?
  {
    PatchTasks(s.mem.tasks + [NewTask(e.input, e.id, e.now)], e.id, RunningPatch(e.now))
  }

  /** `t` has gone on from `s` without acknowledging or pruning anything. */
  ghost predicate QuietSince(s: System, t: System, starts: multiset<MutationId>) {
    t.hist.acks == s.hist.acks && t.hist.prunes == s.hist.prunes && t.hist.starts == s.hist.starts + starts
  }

  lemma AcceptedShape(cfg: Config, s: System, e: Event)
    requires Accepts(s, e) && |s.mem.tasks| + 1 <= cfg.limit
    ensures var s1 := Apply(cfg, s, e);
            && s1.mem.tasks == s.mem.tasks + [NewTask(e.input, e.id, e.now)]
            && InPhase(s1, e.id, Queued)
            && s1.hist.used == s.hist.used[e.id := Request(e.input, e.now)]
            && QuietSince(s, s1, multiset{})
  {
    hide Prune, Victims, LastOf;
    NoPruneBelowLimit(cfg, AdmitStep(s, e.input, e.id, e.now, e.blocked, e.accepting));
  }

  lemma DispatchedShape(cfg: Config, s: System, id: TaskId, now: nat)
    requires InPhase(s, id, Queued) && |s.mem.tasks| <= cfg.limit
    ensures var s1 := Apply(cfg, s, BeginDispatch(id, now));
            && s1.mem.tasks == PatchTasks(s.mem.tasks, id, RunningPatch(now))
            && InPhase(s1, id, AwaitingBarrier(s.nextJob))
            && s1.jobs == s.jobs + [s.nextJob] && s1.writing == s.writing
            && s1.hist == s.hist
  {
    hide Prune, Victims, LastOf;
    NoPruneBelowLimit(cfg, DispatchStep(s, id, now));
  }

  /** Writes that `id` does not wait for fail, one after the other, until only its own is left. */
  lemma DrainJobs(cfg: Config, from: System, s: System, m: MutationId, id: TaskId, job: Job, before: seq<Job>) returns (t: System)
    requires Leads(cfg, from, s, m) && InPhase(s, id, AwaitingBarrier(job))
    requires s.jobs == before + [job] && job !in before && (s.writing.Some? ==> s.writing.value.job != job)
    ensures Leads(cfg, from, t, m) && InPhase(t, id, AwaitingBarrier(job))
    ensures t == s.(writing := None, jobs := [job], phase := t.phase)
    decreases |before|, if s.writing.Some? then 1 else 0
  {
    hide Leads;
    t := s;
    if s.writing.Some? {
      LeadsNext(cfg, from, s, m, FailPersist);
      t := DrainJobs(cfg, from, FailStep(s), m, id, job, before);
    } else if |before| > 0 {
      assert s.jobs[0] == before[0] && s.jobs[1..] == before[1..] + [job];
      LeadsNext(cfg, from, s, m, FailPersist);
      t := DrainJobs(cfg, from, FailStep(s), m, id, job, before[1..]);
    }
  }

  /** The write that `id` waits for succeeds, and its worker starts. */
  lemma WriteAndStart(cfg: Config, from: System, s: System, m: MutationId, id: TaskId, job: Job) returns (t: System)
    requires Leads(cfg, from, s, m) && InPhase(s, id, AwaitingBarrier(job))
    requires s.writing.None? && s.jobs == [job]
    requires Find(s.mem.tasks, id).Some? && Find(s.mem.tasks, id).value.mid == m
    ensures Leads(cfg, from, t, m)
    ensures t.mem == s.mem && t.disk == Saved(Snapshot(s.mem), true)
    ensures t.hist.used == s.hist.used && QuietSince(s, t, multiset{m})
  {
    hide Leads, Snapshot;
    var s1 := Apply(cfg, s, TakeSnapshot);
    LeadsNext(cfg, from, s, m, TakeSnapshot);
    var s2 := Apply(cfg, s1, CommitSnapshot);
    LeadsNext(cfg, from, s1, m, CommitSnapshot);
    assert InPhase(s2, id, BarrierPassed);
    t := Apply(cfg, s2, StartWorker(id));
    LeadsNext(cfg, from, s2, m, StartWorker(id));
  }

  lemma RunningMemoryFacts(s: System, e: Event)
    requires e.EnqueueTask?
    ensures Find(RunningMemory(s, e), e.id).Some? && Find(RunningMemory(s, e), e.id).value.mid == e.input.mid
    ensures |RunningMemory(s, e)| == |s.mem.tasks| + 1
  {
    var q := s.mem.tasks + [NewTask(e.input, e.id, e.now)];
    AppendFacts(s.mem.tasks, NewTask(e.input, e.id, e.now));
    PatchFind(q, e.id, RunningPatch(e.now), e.id);
  }

  /** Whatever else is going on, accepted work can go on to start its worker, and the disk
      then shows memory as it is. */
  lemma AcceptedWorkStarts(cfg: Config, from: System, s: System, e: Event) returns (t: System)
    requires Inv(s) && Accepts(s, e) && |s.mem.tasks| + 1 <= cfg.limit
    requires Leads(cfg, from, Apply(cfg, s, e), e.input.mid)
    ensures Leads(cfg, from, t, e.input.mid)
    ensures t.mem.tasks == RunningMemory(s, e) && t.disk == Saved(Snapshot(t.mem), true)
    ensures t.hist.used == s.hist.used[e.id := Request(e.input, e.now)] && QuietSince(s, t, multiset{e.input.mid})
  {
    hide Leads, Inv, Apply, Snapshot;
    var m := e.input.mid;
    var s1 := Apply(cfg, s, e);
    AcceptedShape(cfg, s, e);
    ApplyKeepsInv(cfg, s, e);
    var s2 := Apply(cfg, s1, BeginDispatch(e.id, e.now));
    DispatchedShape(cfg, s1, e.id, e.now);
    LeadsNext(cfg, from, s1, m, BeginDispatch(e.id, e.now));
    RunningMemoryFacts(s, e);
    OwnJobIsNew(s1);
    var s3 := DrainJobs(cfg, from, s2, m, e.id, s1.nextJob, s1.jobs);
    t := WriteAndStart(cfg, from, s3, m, e.id, s1.nextJob);
  }

  lemma OwnJobIsNew(s: System)
    requires Inv(s)
    ensures s.nextJob !in s.jobs && (s.writing.Some? ==> s.writing.value.job != s.nextJob)
  {
  }

  // ---- the second start ----

  lemma {:induction false} FreshId(used: set<TaskId>) returns (id: TaskId)
    ensures forall x :: x in used ==> x < id
  {
    id := 0;
    if used != {} {
      var x :| x in used;
      var below := FreshId(used - {x});
      id := if below > x then below else x + 1;
      assert used == (used - {x}) + {x};
    }
  }

  /** The snapshot of memory with the accepted task still lists the newer record last. */
  lemma NewerRecordStaysLast(s: System, e: Event, mem: Memory)
    requires e.EnqueueTask? && DatedBack(s, e, e.input.mid) && Inv(s) && mem.tasks == RunningMemory(s, e)
    ensures LastOf(Snapshot(mem), e.input.mid) == LastOf(Snapshot(s.mem), e.input.mid)
  {
    var m, t := e.input.mid, NewTask(e.input, e.id, e.now);
    var inserted := Inserted(s, t);
    SnapshotOfInserted(s, t, m);
    SnapshotLastIsStored(s, m);
    SnapshotOfPatched(inserted, e.id, RunningPatch(e.now), m);
    SameTasksSameSnapshot(Patched(inserted, e.id, RunningPatch(e.now)).mem, mem);
  }

  lemma SameTasksSameSnapshot(a: Memory, b: Memory)
    requires a.tasks == b.tasks
    ensures Snapshot(a) == Snapshot(b)
  {
  }

  /** The request that repeats mutation id `m` after the restart. */
  function Repeat(m: MutationId, id: TaskId, now: nat): Event {
    EnqueueTask(Input(m, "", CreateReport, NoKind, "", ""), id, now, false, true)
  }

  lemma RestartedShape(cfg: Config, s: System, now: nat)
    requires Inv(s) && s.disk.Saved? && |s.disk.tasks| <= cfg.limit
    ensures var r := Apply(cfg, s, CrashAndRestart(now));
            && r.mem == RestartStep(s, now).mem && r.hist == s.hist && |r.mem.tasks| == |s.disk.tasks|
  {
    hide Reload, Recover, Prune, Victims;
    ReloadFacts(s.disk.tasks, s.disk.barrier, now);
    NoPruneBelowLimit(cfg, RestartStep(s, now));
  }

  /** A restart puts the newer record in charge, and a repeated request may run again. */
  lemma RestartReopens(cfg: Config, s: System, m: MutationId, newest: Task) returns (repeat: Event)
    requires Inv(s) && m != "" && s.disk.Saved? && |s.disk.tasks| <= cfg.limit
    requires LastOf(s.disk.tasks, m) == Some(newest) && IsRetryable(newest)
    ensures repeat.EnqueueTask? && repeat.input.mid == m
    ensures var r := Apply(cfg, s, CrashAndRestart(0)); Accepts(r, repeat) && !DatedBack(r, repeat, m)
  {
    hide Inv, Snapshot, Apply, Find;
    RestartedShape(cfg, s, 0);
    ReloadedOwner(s, 0, m);
    SnapshotOfReloaded(s, 0, m);
    var id := FreshId(s.hist.used.Keys);
    repeat := Repeat(m, id, newest.createdAt);
  }

  ghost predicate StartsTwo(cfg: Config, s: System, after: System, m: MutationId, events: seq<Event>) {
    && NeverDatedBack(cfg, after, events, m)
    && var t := Run(cfg, after, events);
    && t.hist.starts[m] == s.hist.starts[m] + 2
    && t.hist.acks[m] == s.hist.acks[m] && t.hist.prunes[m] == s.hist.prunes[m]
  }

  /** Accepted work that is dated back before a newer retryable record of its id: some
      continuation starts two workers for the id, with no clock going back again and nothing
      acknowledged or pruned. */
  lemma DatedBackStartsTwo(cfg: Config, s: System, e: Event, m: MutationId)
    requires Inv(s) && m != "" && DatedBack(s, e, m) && |s.mem.tasks| + 2 <= cfg.limit
    ensures exists events :: StartsTwo(cfg, s, Apply(cfg, s, e), m, events)
                             && QuietSince(s, Run(cfg, Apply(cfg, s, e), events), multiset{m, m})
  {
    hide Inv, Apply, Snapshot, Leads, RunningMemory, Admit;
    var after := Apply(cfg, s, e);
    LeadsToItself(cfg, after, m);
    var t := AcceptedWorkStarts(cfg, after, s, e);
    RunningMemoryFacts(s, e);
    SnapshotCount(t.mem);
    NewerRecordStaysLast(s, e, t.mem);
    LeadsKeepsInv(cfg, s, e, t, m);
    var r := Apply(cfg, t, CrashAndRestart(0));
    LeadsNext(cfg, after, t, m, CrashAndRestart(0));
    ApplyKeepsInv(cfg, t, CrashAndRestart(0));
    RestartedShape(cfg, t, 0);
    var repeat := RestartReopens(cfg, t, m, LastOf(Snapshot(s.mem), m).value);
    LeadsNext(cfg, after, r, m, repeat);
    var u := AcceptedWorkStarts(cfg, after, r, repeat);
    EndsWithTwo(cfg, s, after, u, m);
  }

  lemma SnapshotCount(mem: Memory)
    ensures |Snapshot(mem)| == |mem.tasks|
  {
    assert |multiset(Snapshot(mem))| == |multiset(mem.tasks)|;
  }

  lemma LeadsKeepsInv(cfg: Config, s: System, e: Event, t: System, m: MutationId)
    requires Inv(s) && Leads(cfg, Apply(cfg, s, e), t, m)
    ensures Inv(t)
  {
    hide Inv, Apply, NeverDatedBack;
    var events :| LeadsBy(cfg, Apply(cfg, s, e), t, m, events);
    ApplyKeepsInv(cfg, s, e);
    RunFromKeepsInv(cfg, Apply(cfg, s, e), events);
  }

  lemma EndsWithTwo(cfg: Config, s: System, after: System, u: System, m: MutationId)
    requires Leads(cfg, after, u, m) && QuietSince(s, u, multiset{m, m})
    ensures exists events :: StartsTwo(cfg, s, after, m, events) && QuietSince(s, Run(cfg, after, events), multiset{m, m})
  {
    hide NeverDatedBack, Run;
    var events :| LeadsBy(cfg, after, u, m, events);
    assert StartsTwo(cfg, s, after, m, events);
  }

  lemma {:induction false} RunPrepend(cfg: Config, s: System, e: Event, events: seq<Event>, m: MutationId)
    requires !DatedBack(s, e, m) && NeverDatedBack(cfg, Apply(cfg, s, e), events, m)
    ensures Run(cfg, s, [e] + events) == Run(cfg, Apply(cfg, s, e), events)
    ensures NeverDatedBack(cfg, s, [e] + events, m)
  {
    hide Apply, DatedBack;
    var all := [e] + events;
    if |events| > 0 {
      RunPrepend(cfg, s, e, events[..|events| - 1], m);
      assert all[..|all| - 1] == [e] + events[..|events| - 1];
    } else {
      assert all[..|all| - 1] == [] && all == [e];
      assert Run(cfg, s, []) == s && NeverDatedBack(cfg, s, [], m);
    }
  }

  /** In a state that any run has reached, with any clock, and with room left in the history:
      accepted work can be followed by two starts for its id without a further such
      acceptance, an acknowledgement or a pruning, exactly if it is itself dated before a
      newer retryable record of that id. */
  lemma SecondStartIff(cfg: Config, s: System, before: seq<Event>, e: Event)
    requires Initial(s) && Accepts(Run(cfg, s, before), e) && e.input.mid != ""
    requires |Run(cfg, s, before).mem.tasks| + 2 <= cfg.limit
    ensures var now, m := Run(cfg, s, before), e.input.mid;
            DatedBack(now, e, m) <==> exists events :: StartsTwo(cfg, now, Apply(cfg, now, e), m, events)
  {
    hide Inv, Apply, DatedBack, Run, Admit;
    var now, m := Run(cfg, s, before), e.input.mid;
    RunKeepsInv(cfg, s, before);
    if DatedBack(now, e, m) {
      DatedBackStartsTwo(cfg, now, e, m);
    } else if events :| StartsTwo(cfg, now, Apply(cfg, now, e), m, events) {
      RunPrepend(cfg, now, e, events, m);
      AtMostOnceSince(cfg, s, before, e, events);
      assert false;
    }
  }
}
