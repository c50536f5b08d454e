/**
 * Every run of the job directory (internal/service/job_store.go) can be brought to rest, and which states can then
 * still take a job.
 */
module SlotDrain {
  import opened Options
  import opened JobStore
  import opened SlotProtocol
  import opened SlotOrphans
  import opened SlotStarvation

  /** No slot is taken and no job waits. */
  ghost predicate AtRest(s: State) {
    s.holders == map[] && Of(s.files, Pending) == {}
  }

  /** No job is left behind running without its worker. */
  ghost predicate NoNewOrphans(s: State, t: State) {
    forall id :: Orphan(t, id) ==> Orphan(s, id)
  }

  lemma SameOrphans(s: State, t: State)
    requires t.files == s.files
    requires forall h :: h in s.holders && s.holders[h].Executing? ==> h in t.holders && t.holders[h] == s.holders[h]
    ensures NoNewOrphans(s, t)
  {
    forall id | Orphan(t, id)
      ensures Orphan(s, id)
    {
      forall h
        ensures !ExecutedBy(s, h, id)
      {
        assert !ExecutedBy(t, h, id);
      }
    }
  }

  /** A holder that executes nothing gives its slot back. */
  lemma Leaves(s: State, h: Holder, step: Step)
    requires Inv(s) && Enabled(s, step) && h in s.holders && !s.holders[h].Executing?
    requires Next(s, step) == Gave(s, h) && !step.EnqueueJob?
    ensures var t := Next(s, step);
            NoNewOrphans(s, t) && Of(t.files, Pending) == Of(s.files, Pending)
            && |Executors(t)| == |Executors(s)| && |t.holders| < |s.holders|
  {
    var t := Next(s, step);
    hide Enabled, Next, JobsOk;
    SameOrphans(s, t);
    hide NoNewOrphans;
    assert t.holders.Keys == s.holders.Keys - {h};
    assert Executors(t) == Executors(s);
  }

  /** A worker's job fails, and its record is written. */
  lemma Fails(s: State, worker: nat) returns (step: Step)
    requires Inv(s) && Worker(worker) in s.holders && s.holders[Worker(worker)].Executing?
    ensures Enabled(s, step) && !step.EnqueueJob?
    ensures var t := Next(s, step);
            NoNewOrphans(s, t) && Of(t.files, Pending) == Of(s.files, Pending) && |Executors(t)| < |Executors(s)|
  {
    step := CompleteJob(worker, RunError(""), Written);
    var t, id := Next(s, step), s.holders[Worker(worker)].id;
    assert HolderOk(s, Worker(worker));
    assert WellNamed(s.files);
    hide JobsOk, SlotsOk;
    assert t.files == s.files[id := Record(s.files[id].job.(status := Failed, error := ""))];
    hide Next, Enabled, Finish, WellNamed;
    assert Executors(t) == Executors(s) - {Worker(worker)};
    assert Worker(worker) in Executors(s);
    assert Of(t.files, Pending) == Of(s.files, Pending);
    forall x | Orphan(t, x)
      ensures Orphan(s, x)
    {
      forall h
        ensures !ExecutedBy(s, h, x)
      {
        assert !ExecutedBy(t, h, x);
      }
    }
  }

  lemma Starts(s: State) returns (run: seq<Step>)
    requires Inv(s) && s.holders == map[] && s.capacity > 0 && Of(s.files, Pending) != {}
    ensures CanRun(s, run) && AllListed(run)
    ensures var t := RunFrom(s, run); NoNewOrphans(s, t) && |Of(t.files, Pending)| < |Of(s.files, Pending)|
  {
    hide Enabled, Next, Of, Has, JobsOk;
    var a, b, id, worker := Claims(s);
    run := [a, b];
    RunOfTwo(s, a, b);
    RunningNow(s.files, id);
    StartedIsNoOrphan(s, RunFrom(s, run), id, worker);
  }

  lemma StartedIsNoOrphan(s: State, t: State, id: string, worker: nat)
    requires Has(s.files, id, Pending) && s.holders == map[] && t.holders == map[Worker(worker) := Executing(id)]
    requires t.files == s.files[id := Record(s.files[id].job.(status := Running))]
    ensures NoNewOrphans(s, t)
  {
    assert ExecutedBy(t, Worker(worker), id);
  }

  /** One step towards rest. */
  lemma DrainOne(s: State) returns (run: seq<Step>)
    requires Inv(s) && s.capacity > 0 && !AtRest(s)
    ensures CanRun(s, run) && AllListed(run) && NoNewOrphans(s, RunFrom(s, run))
    ensures var t := RunFrom(s, run);
            || |Of(t.files, Pending)| < |Of(s.files, Pending)|
            || (|Of(t.files, Pending)| == |Of(s.files, Pending)| && |Executors(t)| < |Executors(s)|)
            || (|Of(t.files, Pending)| == |Of(s.files, Pending)| && |Executors(t)| == |Executors(s)| && |t.holders| < |s.holders|)
  {
    hide Of, Executors, NoNewOrphans, SlotsOk;
    if s.holders == map[] {
      run := Starts(s);
    } else {
      assert (forall h :: h !in s.holders.Keys) ==> s.holders.Keys == {};
      var h :| h in s.holders;
      assert HolderOk(s, h);
      hide JobsOk;
      var step := StepOf(s, h);
      run := [step];
      hide Enabled, Next;
      RunOfOne(s, step);
    }
  }

  lemma StepOf(s: State, h: Holder) returns (step: Step)
    requires Inv(s) && h in s.holders && HolderOk(s, h)
    ensures Enabled(s, step) && Listed(step) && NoNewOrphans(s, Next(s, step))
    ensures var t := Next(s, step);
            Of(t.files, Pending) == Of(s.files, Pending)
            && (|Executors(t)| < |Executors(s)| || (|Executors(t)| == |Executors(s)| && |t.holders| < |s.holders|))
  {
    hide Of, Executors, NoNewOrphans, SlotsOk, JobsOk;
    match s.holders[h]
    case Sending =>
      step := SendFails(h.n);
      Leaves(s, h, step);
    case Forwarding =>
      step := StreamEnds(h.n);
      Leaves(s, h, step);
    case Claiming =>
      var worker := FreshWorker(s.holders.Keys);
      step := ClaimNext(worker, None, []);
      Leaves(s, h, step);
    case Executing(_) =>
      step := Fails(s, h.n);
    case Leaving(_) =>
      step := ReleaseWorker(h.n);
      Leaves(s, h, step);
  }

  /** From every state of a run there is one in which all slots are free, no job waits and only the orphans still run. */
  lemma {:induction false} Drains(s: State) returns (run: seq<Step>)
    requires Inv(s) && s.capacity > 0
    ensures CanRun(s, run) && AllListed(run) && AtRest(RunFrom(s, run))
    ensures NoNewOrphans(s, RunFrom(s, run))
    decreases |Of(s.files, Pending)|, |Executors(s)|, |s.holders|
  {
    hide Inv, AtRest, Enabled, Next, Of, Executors, Orphan, Listed;
    run := [];
    if !AtRest(s) {
      var first := DrainOne(s);
      RunKeepsInv(s, first);
      RunLimit(s, first);
      var rest := Drains(RunFrom(s, first));
      RunAppend(s, first, rest);
      hide CanRun, RunFrom;
      run := first + rest;
    }
  }

  lemma RestIsOrphans(s: State, t: State)
    requires JobsOk(t) && AtRest(t) && NoNewOrphans(s, t) && forall id :: Orphan(s, id) ==> id in s.files
    ensures |Live(t.files)| <= |Orphans(s)|
  {
    assert Executors(t) == {};
    RunningSplits(t);
    LiveSize(t.files);
    assert Of(t.files, Pending) == {};
    hide JobsOk, Live, Of, Executors, AtRest;
    forall id | id in Orphans(t)
      ensures id in Orphans(s)
    {
      OrphansAre(t, id);
      OrphansAre(s, id);
    }
    hide Orphans;
    SubsetSize(Orphans(t), Orphans(s));
  }

  /** Nothing that happens after `s` lets a job in, as long as the directory can be read for each count. */
  ghost predicate ShutForever(s: State) {
    forall run: seq<Step>, step: Step ::
      CanRun(s, run) && Enabled(RunFrom(s, run), step) && step.EnqueueJob? && Listed(step) ==>
        Next(RunFrom(s, run), step).files == RunFrom(s, run).files
  }

  /** In any state of a run: no job will ever be taken again exactly when the orphans fill the job limit. */
  lemma ShutForeverIff(s: State)
    requires Inv(s) && s.capacity > 0
    ensures ShutForever(s) <==> |Orphans(s)| >= s.maxJobs
  {
    hide Inv, Enabled, Next, Orphan, Orphans, Listed, CanRun, RunFrom;
    if |Orphans(s)| >= s.maxJobs {
      forall run: seq<Step>, step: Step
        | CanRun(s, run) && Enabled(RunFrom(s, run), step) && step.EnqueueJob? && Listed(step)
        ensures Next(RunFrom(s, run), step).files == RunFrom(s, run).files
      {
        OrphansBlock(s, run, step);
      }
    } else {
      var run, step := LetsIn(s);
    }
  }

  lemma LetsIn(s: State) returns (run: seq<Step>, step: Step)
    requires Inv(s) && s.capacity > 0 && |Orphans(s)| < s.maxJobs
    ensures CanRun(s, run) && Enabled(RunFrom(s, run), step) && step.EnqueueJob? && Listed(step)
    ensures Next(RunFrom(s, run), step).files != RunFrom(s, run).files
  {
    hide Enabled, Next, Orphans, CanRun, RunFrom, AtRest, Live, JobsOk, SlotsOk, NoNewOrphans, Orphan;
    run := Drains(s);
    var t := RunFrom(s, run);
    RunKeepsInv(s, run);
    RunMaxJobs(s, run);
    forall id | Orphan(s, id)
      ensures id in s.files
    {
      OrphanIs(s, id);
    }
    RestIsOrphans(s, t);
    step := NewJobFor(t);
    EnqueueListed(t, step);
  }
}
