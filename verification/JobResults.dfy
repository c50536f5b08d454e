/** What a finished record holds (internal/service/job_store.go), after one completion and over whole runs. */
module JobResults {
  import opened Options
  import opened JobStore
  import opened SlotProtocol

  predicate Lands(write: Write) {
    write.Written? || write.WrittenWithError?
  }

  /** The record of a job that ran to this end. */
  function Ended(job: Job, run: RunResult): Option<Job> {
    match run
    case RunError(message) => Some(job.(status := Failed, error := message))
    case RunOk(None) => None
    case RunOk(Some(result)) => Some(job.(status := Completed, result := result))
  }

  /**
   * A completion touches the record of its own job only. If the job can be read, the run ended in something to record and
   * the write lands, the record is the old job with its outcome: completed with exactly the result, or failed with exactly
   * the error. If nothing is to be recorded, or the write does nothing, all files are as before.
   */
  lemma FinishRecords(files: Files, completed: nat, id: string, run: RunResult, write: Write)
    requires WellNamed(files)
    ensures var (after, n) := Finish(files, completed, id, run, write);
            && (forall other :: other != id ==> Read(after, other) == Read(files, other))
            && (Read(files, id).None? || (run.RunOk? && run.result.None?) || write.NotWritten? ==> after == files)
            && (forall job, r :: Read(files, id) == Some(job) && run == RunOk(Some(r)) && Lands(write) ==>
                  Read(after, id) == Some(job.(status := Completed, result := r)))
            && (forall job, e :: Read(files, id) == Some(job) && run == RunError(e) && Lands(write) ==>
                  Read(after, id) == Some(job.(status := Failed, error := e)))
            && n == completed + if Read(files, id).Some? && run.RunOk? && run.result.Some? then 1 else 0
  {
  }

  predicate Finished(files: Files, id: string) {
    Has(files, id, Completed) || Has(files, id, Failed)
  }

  /** Step `k` of a run completes the job `id`: its worker executes it, and the record lands. */
  ghost predicate EndedBy(s: State, run: seq<Step>, k: nat, id: string)
    requires CanRun(s, run) && k < |run|
  {
    var now, step := After(s, run, k), run[k];
    && step.CompleteJob? && Lands(step.write)
    && Worker(step.worker) in now.holders && now.holders[Worker(step.worker)] == Executing(id)
    && Has(now.files, id, Running)
    && Read(After(s, run, k + 1).files, id) == Ended(now.files[id].job, step.run)
  }

  lemma InvNames(s: State)
    requires Inv(s)
    ensures WellNamed(s.files)
  {
  }

  lemma CompletionFinishes(s: State, worker: nat, run: RunResult, write: Write, id: string)
    requires Inv(s) && Enabled(s, CompleteJob(worker, run, write))
    ensures var t := Next(s, CompleteJob(worker, run, write));
            && (Finished(s.files, id) ==> id in t.files && t.files[id] == s.files[id])
            && (Finished(t.files, id) && !Finished(s.files, id) ==>
                  && Lands(write) && Worker(worker) in s.holders && s.holders[Worker(worker)] == Executing(id)
                  && Has(s.files, id, Running) && Read(t.files, id) == Ended(s.files[id].job, run))
  {
    hide SlotsOk, Claim, Lists, Enqueued;
    assert HolderOk(s, Worker(worker));
    FinishRecords(s.files, s.completed, s.holders[Worker(worker)].id, run, write);
    FinishOk(s.files, s.completed, s.holders[Worker(worker)].id, run, write);
  }

  /** One step leaves a finished record as it is, or is the completion of the job's worker. */
  lemma StepFinishes(s: State, step: Step, id: string)
    requires Inv(s) && Enabled(s, step)
    ensures Finished(s.files, id) ==> id in Next(s, step).files && Next(s, step).files[id] == s.files[id]
    ensures Finished(Next(s, step).files, id) && !Finished(s.files, id) ==>
              && step.CompleteJob? && Lands(step.write)
              && Worker(step.worker) in s.holders && s.holders[Worker(step.worker)] == Executing(id)
              && Has(s.files, id, Running) && Read(Next(s, step).files, id) == Ended(s.files[id].job, step.run)
  {
    hide SlotsOk, Claim, Lists, Enqueued, Finish, Inv;
    assert WellNamed(s.files) by { InvNames(s); }
    match step
    case ClaimNext(worker, listing, writes) =>
      if listing.Some? {
        ClaimOk(s.files, listing.value, writes);
        assert ClaimMoves(s.files, Claim(s.files, listing.value, writes).0, id);
      }
    case CompleteJob(worker, run, write) =>
      CompletionFinishes(s, worker, run, write, id);
    case EnqueueJob(job, pending, running, write) =>
      EnqueueOk(s.files, s.maxJobs, job, pending, running, write);
    case _ =>
  }

  /**
   * Over a whole run: a finished record was there, the same, at the start, or it is what the completion of the job's
   * own worker recorded, and nothing has changed it since.
   */
  lemma {:induction false} FinishedByItsWorker(s: State, run: seq<Step>, id: string)
    requires Inv(s) && CanRun(s, run) && Finished(RunFrom(s, run).files, id)
    ensures var t := RunFrom(s, run);
            if Finished(s.files, id) then Read(t.files, id) == Read(s.files, id)
            else exists k: nat :: k < |run| && EndedBy(s, run, k, id) && Read(t.files, id) == Read(After(s, run, k + 1).files, id)
    decreases |run|
  {
    hide Inv, Enabled, Next;
    if run != [] {
      var next, rest := Next(s, run[0]), run[1..];
      StepKeepsInv(s, run[0]);
      StepFinishes(s, run[0], id);
      FinishedByItsWorker(next, rest, id);
      hide RunFrom, Finished, CanRun;
      if Finished(s.files, id) {
        FinishedStays(s, next, id);
      } else if Finished(next.files, id) {
        FirstStep(s, run);
        assert EndedBy(s, run, 0, id);
      } else {
        var k: nat :| k < |rest| && EndedBy(next, rest, k, id)
                      && Read(RunFrom(next, rest).files, id) == Read(After(next, rest, k + 1).files, id);
        LaterStep(s, run, k, id);
      }
    }
  }

  lemma FinishedStays(s: State, t: State, id: string)
    requires Finished(s.files, id) && id in t.files && t.files[id] == s.files[id]
    ensures Finished(t.files, id) && Read(t.files, id) == Read(s.files, id)
  {
  }

  lemma FirstStep(s: State, run: seq<Step>)
    requires run != [] && CanRun(s, run)
    ensures After(s, run, 0) == s && After(s, run, 1) == Next(s, run[0])
  {
    hide Enabled, Next;
  }

  lemma LaterStep(s: State, run: seq<Step>, k: nat, id: string)
    requires run != [] && CanRun(s, run) && k < |run| - 1 && EndedBy(Next(s, run[0]), run[1..], k, id)
    ensures EndedBy(s, run, k + 1, id) && After(s, run, k + 2) == After(Next(s, run[0]), run[1..], k + 1)
  {
    hide Enabled, Next;
    assert After(s, run, k + 1) == After(Next(s, run[0]), run[1..], k);
  }

  // ----- What a new record holds

  /**
   * An enqueue writes nothing but its own record. When the limit is reached or the write does nothing, all files are as
   * before; else the record is a pending job with exactly what was asked for.
   */
  lemma EnqueueRecords(files: Files, maxJobs: nat, id: string, kind: string, requestId: string, body: string,
                       pending: Option<seq<string>>, running: Option<seq<string>>, write: Write)
    ensures var after := Enqueued(files, maxJobs, NewJob(id, kind, requestId, body), pending, running, write);
            var full := CountListed(files, pending, Pending) + CountListed(files, running, Running) >= maxJobs;
            && (forall other :: other != id ==> Read(after, other) == Read(files, other))
            && (full || write.NotWritten? ==> after == files)
            && (!full && Lands(write) ==> Read(after, id) == Some(Job(id, kind, requestId, Pending, body, "", "")))
  {
    hide CountListed;
  }

  predicate Enqueues(step: Step, id: string) {
    step.EnqueueJob? && step.job.id == id
  }

  predicate SameRequest(a: Job, b: Job) {
    a.id == b.id && a.kind == b.kind && a.requestId == b.requestId && a.body == b.body
  }

  lemma ClaimAddsNothing(files: Files, names: seq<string>, writes: seq<Write>, id: string)
    requires WellNamed(files) && |writes| == |names|
    ensures id in Claim(files, names, writes).0 ==> id in files
  {
    hide Claim;
    ClaimOk(files, names, writes);
    assert ClaimMoves(files, Claim(files, names, writes).0, id);
  }

  lemma StepEnqueues(s: State, step: Step, id: string)
    requires Inv(s) && Enabled(s, step) && id !in s.files && id in Next(s, step).files
    ensures Enqueues(step, id) && (Read(Next(s, step).files, id).Some? ==> Read(Next(s, step).files, id) == Some(step.job))
  {
    hide SlotsOk, Claim, Lists, CountListed, Inv;
    assert WellNamed(s.files) by { InvNames(s); }
    match step
    case ClaimNext(worker, listing, writes) =>
      if listing.Some? {
        ClaimAddsNothing(s.files, listing.value, writes, id);
      }
    case _ =>
  }

  /** Over a whole run: a readable record that was not there at the start holds the request of an enqueue of the run. */
  lemma {:induction false} RecordedByEnqueue(s: State, run: seq<Step>, id: string)
    requires Inv(s) && CanRun(s, run) && id !in s.files && Read(RunFrom(s, run).files, id).Some?
    ensures exists k: nat :: k < |run| && Enqueues(run[k], id) && SameRequest(run[k].job, Read(RunFrom(s, run).files, id).value)
    decreases |run|
  {
    hide Inv, Enabled, Next, FilesMove;
    if run != [] {
      var next, rest := Next(s, run[0]), run[1..];
      StepKeepsInv(s, run[0]);
      if id in next.files {
        StepEnqueues(s, run[0], id);
        RunKeepsInv(next, rest);
        assert FileMoves(next.files, RunFrom(next, rest).files, id) by { MovesAt(next.files, RunFrom(next, rest).files, id); }
      } else {
        RecordedByEnqueue(next, rest, id);
        var k: nat :| k < |rest| && Enqueues(rest[k], id) && SameRequest(rest[k].job, Read(RunFrom(next, rest).files, id).value);
        assert run[k + 1] == rest[k];
      }
    }
  }

  lemma MovesAt(before: Files, after: Files, id: string)
    requires FilesMove(before, after)
    ensures FileMoves(before, after, id)
  {
    hide FileMoves;
  }
}
