/**
 * A job keeps its slot while its own chat call waits for a second one (internal/service/job_store.go and
 * pkg/llmclient/client.go): how many slots jobs can come to hold at once, and which calls then get in.
 */
module SlotStarvation {

  import opened Options
  import opened JobStore
  import opened SlotProtocol
  import opened SlotOrphans

  /**
   * How many jobs a process can come to execute at once, slots permitting: those it finds pending, or as many
   * as the limit allows beside the running records that it finds and never touches.
   */
  function Room(s: State): int {
    var waiting, left := |Of(s.files, Pending)|, s.maxJobs - |Of(s.files, Running)|;
    if waiting >= left then waiting else left
  }

  function Executors(s: State): set<Holder> {
    set h | h in s.holders && s.holders[h].Executing?
  }

  /** Nobody but executing workers holds a slot. */
  ghost predicate OnlyJobs(s: State) {
    forall h :: h in s.holders ==> h.Worker? && s.holders[h].Executing?
  }

  ghost predicate AllListed(run: seq<Step>) {
    forall step :: step in run ==> Listed(step)
  }

  // ----- One more job

  lemma NextBusy(s: State, t: State, id: string, worker: nat)
    requires Worker(worker) !in s.holders && Has(s.files, id, Pending) && OnlyJobs(s)
    requires t == s.(inUse := s.inUse + 1, claimed := s.claimed + [id],
                     files := s.files[id := Record(s.files[id].job.(status := Running))],
                     holders := s.holders[Worker(worker) := Executing(id)])
    ensures OnlyJobs(t) && |t.holders| == |s.holders| + 1 && Room(t) >= Room(s) - 1
  {
    RunningNow(s.files, id);
    hide Of, Has;
    assert t.holders.Keys == s.holders.Keys + {Worker(worker)};
  }

  /** A pending job is claimed. */
  lemma ClaimOneMore(s: State) returns (run: seq<Step>)
    requires Inv(s) && OnlyJobs(s) && |s.holders| < s.capacity && Of(s.files, Pending) != {}
    ensures CanRun(s, run) && AllListed(run)
    ensures var t := RunFrom(s, run);
            OnlyJobs(t) && |t.holders| == |s.holders| + 1 && Room(t) >= Room(s) - 1 && t.capacity == s.capacity
  {
    hide Enabled, Next, Of, Has, Room, JobsOk;
    var a, b, id, worker := Claims(s);
    run := [a, b];
    RunOfTwo(s, a, b);
    NextBusy(s, RunFrom(s, run), id, worker);
  }

  lemma NewPending(files: Files, job: Job)
    requires job.id !in files && job.status == Pending
    ensures var after := files[job.id := Record(job)];
            Of(after, Pending) == Of(files, Pending) + {job.id} && Of(after, Running) == Of(files, Running)
            && job.id !in Of(files, Pending)
  {
  }

  lemma RunOfOne(s: State, a: Step)
    requires Enabled(s, a)
    ensures CanRun(s, [a]) && RunFrom(s, [a]) == Next(s, a)
  {
    hide Enabled, Next;
    assert [a][1..] == [];
  }

  /** A new job, and an enqueue of it that reads the directory. */
  lemma NewJobFor(s: State) returns (step: Step)
    ensures Enabled(s, step) && step.EnqueueJob? && Listed(step) && step.write.Written?
    ensures step.job.id !in s.files && step.job.status == Pending
    ensures Next(s, step) == s.(files := Next(s, step).files)
  {
    var names := ListingOf(s.files.Keys);
    var id := FreshId(s.files.Keys);
    step := EnqueueJob(NewJob(id, "chat", "", ""), Some(names), Some(names), Written);
    hide Enqueued, NoDuplicates;
    assert id !in s.files;
    assert Lists(s.files, Some(names));
    hide Lists;
  }

  /** A new job is enqueued where the limit allows it. */
  lemma EnqueueOneMore(s: State) returns (step: Step)
    requires Of(s.files, Pending) == {} && |Of(s.files, Running)| < s.maxJobs
    ensures Enabled(s, step) && step.EnqueueJob? && Listed(step) && step.write.Written?
    ensures var t := Next(s, step);
            t == s.(files := t.files) && Of(t.files, Pending) != {} && Room(t) == Room(s)
  {
    hide Of, Has, Live, Enabled, Next;
    step := NewJobFor(s);
    LiveSize(s.files);
    NewPending(s.files, step.job);
    EnqueueListed(s, step);
    assert step.job.id in Of(Next(s, step).files, Pending);
  }

  lemma OneMore(s: State) returns (run: seq<Step>)
    requires Inv(s) && OnlyJobs(s) && |s.holders| < s.capacity && Room(s) > 0
    ensures CanRun(s, run) && AllListed(run)
    ensures var t := RunFrom(s, run);
            && Inv(t) && OnlyJobs(t) && |t.holders| == |s.holders| + 1
            && Room(t) >= Room(s) - 1 && t.capacity == s.capacity
  {
    hide Enabled, Next, Of, Has, Inv;
    if Of(s.files, Pending) != {} {
      hide Room;
      run := ClaimOneMore(s);
      RunKeepsInv(s, run);
    } else {
      var step := EnqueueOneMore(s);
      hide Room, Listed, RunFrom;
      StepKeepsInv(s, step);
      RunOfOne(s, step);
      var more := ClaimOneMore(Next(s, step));
      RunAppend(s, [step], more);
      run := [step] + more;
      RunKeepsInv(s, run);
    }
  }

  /** Jobs can take slots as long as there are slots and room. */
  lemma {:induction false} BusyFrom(s: State, n: nat) returns (run: seq<Step>)
    requires Inv(s) && OnlyJobs(s) && |s.holders| <= n <= s.capacity && n - |s.holders| <= Room(s)
    ensures CanRun(s, run) && AllListed(run)
    ensures OnlyJobs(RunFrom(s, run)) && |RunFrom(s, run).holders| == n
    decreases n - |s.holders|
  {
    hide Enabled, Next, Room, Inv, OnlyJobs, Listed;
    run := [];
    if |s.holders| < n {
      var first := OneMore(s);
      var rest := BusyFrom(RunFrom(s, first), n);
      hide CanRun, RunFrom;
      RunAppend(s, first, rest);
      run := first + rest;
    }
  }

  // ----- No more than that

  function JobsOf(s: State, hs: set<Holder>): set<string>
    requires hs <= s.holders.Keys && forall h :: h in hs ==> s.holders[h].Executing?
  {
    set h | h in hs :: s.holders[h].id
  }

  /** No two executing workers have the same job. */
  lemma {:induction false} ExecutingJobs(s: State, hs: set<Holder>)
    requires hs <= s.holders.Keys && forall h :: h in hs ==> s.holders[h].Executing?
    requires forall a, b :: Apart(s, a, b)
    ensures |JobsOf(s, hs)| == |hs|
    decreases hs
  {
    if hs != {} {
      assert (forall h :: h !in hs) ==> hs == {};
      var h :| h in hs;
      ExecutingJobs(s, hs - {h});
      assert forall other :: other in hs - {h} ==> Apart(s, other, h);
      assert JobsOf(s, hs) == JobsOf(s, hs - {h}) + {s.holders[h].id};
    }
  }

  /** The running records are those that are executed and the orphans. */
  lemma RunningSplits(s: State)
    requires JobsOk(s)
    ensures |Of(s.files, Running)| == |Executors(s)| + |Orphans(s)|
  {
    var hs := Executors(s);
    ExecutingJobs(s, hs);
    var jobs := JobsOf(s, hs);
    forall id | id in jobs
      ensures id in Of(s.files, Running) && id !in Orphans(s)
    {
      var h :| h in hs && s.holders[h].id == id;
      assert HolderOk(s, h);
      assert ExecutedBy(s, h, id);
    }
    forall id | id in Of(s.files, Running) && id !in Orphans(s)
      ensures id in jobs
    {
      var h :| ExecutedBy(s, h, id);
      assert h in hs;
    }
    assert Of(s.files, Running) == jobs + Orphans(s);
  }

  /** As long as the directory can be read for each count, live jobs never exceed the limit or what was there. */
  lemma {:induction false} ListedRunLive(s: State, run: seq<Step>)
    requires Inv(s) && CanRun(s, run) && AllListed(run)
    ensures |Live(RunFrom(s, run).files)| <= if |Live(s.files)| >= s.maxJobs then |Live(s.files)| else s.maxJobs
    decreases |run|
  {
    if run != [] {
      var next := Next(s, run[0]);
      hide Inv, Enabled, Next, Live, Listed;
      ListedStepLive(s, run[0]);
      StepKeepsInv(s, run[0]);
      SameLimit(s, run[0]);
      assert forall step :: step in run[1..] ==> step in run;
      ListedRunLive(next, run[1..]);
    }
  }

  lemma ListedStepLive(s: State, step: Step)
    requires Inv(s) && Enabled(s, step) && Listed(step)
    ensures |Live(Next(s, step).files)| <= if |Live(s.files)| >= s.maxJobs then |Live(s.files)| else s.maxJobs
  {
    hide Live, JobsOk;
    if step.EnqueueJob? {
      EnqueueListed(s, step);
      hide Enqueued, Lists;
      LiveOfNew(s.files, step.job);
      LiveOfTorn(s.files, step.job.id);
    } else {
      StepMovesFiles(s, step);
      hide Enabled, FilesMove, Next;
      MovingKeepsLive(s.files, Next(s, step).files);
    }
  }

  lemma WithinRoom(s: State, run: seq<Step>)
    requires Init(s) && CanRun(s, run) && AllListed(run)
    ensures |Executors(RunFrom(s, run))| <= Room(s)
  {
    var t := RunFrom(s, run);
    InitInv(s);
    RestartOrphans(s);
    OrphansGrow(s, run);
    RunKeepsInv(s, run);
    RunningSplits(t);
    LiveSize(s.files);
    LiveSize(t.files);
    ListedRunLive(s, run);
    hide Live, Of, Orphans, Enabled, Next, JobsOk, Init, CanRun, RunFrom, Executors;
  }

  // ----- Main results

  /** So many jobs are executed at once, each with a slot of its own. */
  ghost predicate CanBeBusy(s: State, n: nat) {
    exists run: seq<Step> :: CanRun(s, run) && AllListed(run) && |Executors(RunFrom(s, run))| >= n
  }

  /**
   * From whatever a process finds in the directory when it starts, it can come to execute `n` jobs at once exactly
   * when there are `n` slots and room for `n`.
   */
  lemma MostBusyIff(s: State, n: nat)
    requires Init(s)
    ensures CanBeBusy(s, n) <==> n <= s.capacity && n <= Room(s)
  {
    hide Room, Enabled, Next, Listed, Executors, Init;
    if n <= s.capacity && n <= Room(s) {
      StartsIdle(s);
      var run := BusyFrom(s, n);
      OnlyExecutors(RunFrom(s, run));
      hide CanRun, RunFrom, AllListed;
    }
    forall run: seq<Step> | CanRun(s, run) && AllListed(run)
      ensures |Executors(RunFrom(s, run))| <= s.capacity && |Executors(RunFrom(s, run))| <= Room(s)
    {
      WithinRoom(s, run);
      assert |Executors(RunFrom(s, run))| <= |RunFrom(s, run).holders| <= s.capacity by {
        SlotsAreExact(s, run);
        RunLimit(s, run);
        OnlyExecutors(RunFrom(s, run));
        hide Enabled, Next, CanRun, RunFrom, Init, Executors;
      }
    }
  }

  lemma StartsIdle(s: State)
    requires Init(s)
    ensures Inv(s) && OnlyJobs(s) && |s.holders| == 0
  {
    InitInv(s);
  }

  lemma OnlyExecutors(t: State)
    ensures |Executors(t)| <= |t.holders|
    ensures OnlyJobs(t) ==> |Executors(t)| == |t.holders|
    ensures AllBusy(t) <==> |t.holders| == t.capacity && OnlyJobs(t)
  {
    SubsetSize(Executors(t), t.holders.Keys);
    if OnlyJobs(t) {
      assert Executors(t) == t.holders.Keys;
    }
  }

  /** Every slot is held by a job that is being executed. */
  ghost predicate AllBusy(s: State) {
    |s.holders| == s.capacity && forall h :: h in s.holders ==> h.Worker? && s.holders[h].Executing?
  }

  ghost predicate CanFillSlots(s: State) {
    exists run: seq<Step> :: CanRun(s, run) && AllListed(run) && AllBusy(RunFrom(s, run))
  }

  /** Jobs alone can come to hold all slots, so that no job gets the slot for its chat call, exactly when there is room. */
  lemma AllBusyIff(s: State)
    requires Init(s)
    ensures CanFillSlots(s) <==> s.capacity <= Room(s)
  {
    hide Room, Enabled, Next, Listed, Executors, OnlyJobs, AllBusy;
    StartsIdle(s);
    if s.capacity <= Room(s) {
      var run := BusyFrom(s, s.capacity);
      RunLimit(s, run);
      OnlyExecutors(RunFrom(s, run));
      hide CanRun, RunFrom, AllListed;
    }
    forall run: seq<Step> | CanRun(s, run) && AllListed(run) && AllBusy(RunFrom(s, run))
      ensures s.capacity <= Room(s)
    {
      WithinRoom(s, run);
      RunLimit(s, run);
      OnlyExecutors(RunFrom(s, run));
    }
  }

  /** An empty directory and no slot taken. */
  function Fresh(capacity: nat, maxJobs: nat): State {
    State(capacity, 0, map[], maxJobs, map[], 0, [])
  }

  /** From an empty directory that is when the job limit is no smaller than the capacity. */
  lemma FreshBusyIff(capacity: nat, maxJobs: nat)
    requires capacity > 0
    ensures CanFillSlots(Fresh(capacity, maxJobs)) <==> capacity <= maxJobs
  {
    var s := Fresh(capacity, maxJobs);
    assert Of(s.files, Pending) == {} && Of(s.files, Running) == {};
    hide CanFillSlots, Of;
    AllBusyIff(s);
  }

  /** Some job can get the slot for its own chat call. */
  ghost predicate NestedCallCanRun(s: State) {
    exists run: seq<Step>, worker: nat, n: nat ::
      CanRun(s, run) && AllListed(run) && Enabled(RunFrom(s, run), AcquireRequest(n, Some(worker)))
  }

  /** That is so exactly when there are two slots or more, and room for a job. */
  lemma NestedSlotIff(s: State)
    requires Init(s)
    ensures NestedCallCanRun(s) <==> s.capacity >= 2 && Room(s) >= 1
  {
    hide Room, Listed, Next;
    if s.capacity >= 2 && Room(s) >= 1 {
      hide Enabled, Init;
      StartsIdle(s);
      var run := BusyFrom(s, 1);
      var worker := OneWorker(s, run);
      hide CanRun, RunFrom, AllListed;
    }
    forall run: seq<Step>, worker: nat, n: nat
      | CanRun(s, run) && AllListed(run) && Enabled(RunFrom(s, run), AcquireRequest(n, Some(worker)))
      ensures s.capacity >= 2 && Room(s) >= 1
    {
      hide CanRun, RunFrom, Init;
      WithinRoom(s, run);
      assert |Executors(RunFrom(s, run))| >= 1 by {
        assert Worker(worker) in Executors(RunFrom(s, run));
      }
      hide Executors;
      RunLimit(s, run);
      if s.capacity == 1 {
        LoneSlotStarvesJob(s, run, worker, n);
      }
      StartsIdle(s);
    }
  }

  lemma OneWorker(s: State, run: seq<Step>) returns (worker: nat)
    requires Init(s) && s.capacity >= 2 && CanRun(s, run) && OnlyJobs(RunFrom(s, run)) && |RunFrom(s, run).holders| == 1
    ensures Enabled(RunFrom(s, run), AcquireRequest(0, Some(worker)))
  {
    var t := RunFrom(s, run);
    SlotsAreExact(s, run);
    RunLimit(s, run);
    hide CanRun, RunFrom, Next, Init;
    assert (forall h :: h !in t.holders.Keys) ==> t.holders.Keys == {};
    var h :| h in t.holders;
    worker := h.n;
  }

  /** In a state with all slots held by jobs no request gets in, not even that of a job. */
  lemma AllBusyStarves(s: State, run: seq<Step>, n: nat, parent: Option<nat>)
    requires Init(s) && CanRun(s, run) && AllBusy(RunFrom(s, run))
    ensures !Enabled(RunFrom(s, run), AcquireRequest(n, parent)) && !Enabled(RunFrom(s, run), AcquireLoop)
  {
    SlotsAreExact(s, run);
    hide Next, CanRun, RunFrom, Init;
  }
}
