/**
 * Running records that no worker executes (internal/service/job_store.go): a restart leaves them, and so does a
 * claim whose write landed with an error. Nobody touches them again, and they count against the job limit.
 */
module SlotOrphans {
  import opened Options
  import opened JobStore
  import opened SlotProtocol

  predicate ExecutedBy(s: State, h: Holder, id: string) {
    h in s.holders && s.holders[h].Executing? && s.holders[h].id == id
  }

  ghost predicate Executes(s: State, id: string) {
    exists h :: ExecutedBy(s, h, id)
  }

  /** A running record that no worker executes. */
  ghost predicate Orphan(s: State, id: string) {
    Has(s.files, id, Running) && !Executes(s, id)
  }

  ghost function Orphans(s: State): set<string> {
    set id | id in s.files && Orphan(s, id)
  }

  lemma OrphansAre(s: State, id: string)
    ensures id in Orphans(s) <==> Orphan(s, id)
  {
  }

  // ----- An orphan stays

  /** A step that executes no more than before, and one job that was pending. */
  lemma StaysOrphan(s: State, t: State, id: string)
    requires Orphan(s, id) && id in t.files && t.files[id] == s.files[id]
    requires forall h :: h in t.holders && t.holders[h].Executing? ==>
               (h in s.holders && t.holders[h] == s.holders[h]) || t.holders[h].id != id
    ensures Orphan(t, id)
  {
    forall h
      ensures !ExecutedBy(t, h, id)
    {
      assert !ExecutedBy(s, h, id);
    }
  }

  lemma StepKeepsOrphan(s: State, step: Step, id: string)
    requires JobsOk(s) && Enabled(s, step) && Orphan(s, id)
    ensures var t := Next(s, step);
            && Orphan(t, id) && id in t.files && t.files[id] == s.files[id]
            && (id in t.claimed <==> id in s.claimed)
  {
    hide Claim, Finish, Enqueued, Lists, Orphan;
    assert Has(s.files, id, Running) && !Executes(s, id) by {
      OrphanIs(s, id);
    }
    var t := Next(s, step);
    match step
    case ClaimNext(worker, listing, writes) =>
      if listing.Some? {
        ClaimOk(s.files, listing.value, writes);
        assert ClaimMoves(s.files, Claim(s.files, listing.value, writes).0, id);
      }
      hide WellNamed, NoDuplicates;
      StaysOrphan(s, t, id);
    case CompleteJob(worker, run, write) =>
      assert HolderOk(s, Worker(worker)) && !ExecutedBy(s, Worker(worker), id);
      FinishOk(s.files, s.completed, s.holders[Worker(worker)].id, run, write);
      hide WellNamed, NoDuplicates, FilesMove;
      StaysOrphan(s, t, id);
    case EnqueueJob(job, pending, running, write) =>
      EnqueueOk(s.files, s.maxJobs, job, pending, running, write);
      hide WellNamed, NoDuplicates, FilesMove;
      StaysOrphan(s, t, id);
    case _ => StaysOrphan(s, t, id);
  }

  lemma OrphanIs(s: State, id: string)
    ensures Orphan(s, id) <==> Has(s.files, id, Running) && !Executes(s, id)
  {
  }

  /** Whatever a run does, an orphan's record stays as it is, and it is neither claimed nor executed. */
  lemma {:induction false} OrphanForever(s: State, run: seq<Step>, id: string)
    requires Inv(s) && CanRun(s, run) && Orphan(s, id)
    ensures var t := RunFrom(s, run);
            && Orphan(t, id) && id in t.files && t.files[id] == s.files[id]
            && (id in t.claimed <==> id in s.claimed)
    decreases |run|
  {
    hide SlotsOk, JobsOk, Enabled, Next, Orphan;
    if run == [] {
      OrphanIs(s, id);
    } else {
      StepKeepsInv(s, run[0]);
      StepKeepsOrphan(s, run[0], id);
      OrphanForever(Next(s, run[0]), run[1..], id);
    }
  }

  lemma OrphansGrow(s: State, run: seq<Step>)
    requires Inv(s) && CanRun(s, run)
    ensures Orphans(s) <= Orphans(RunFrom(s, run)) && |Orphans(s)| <= |Orphans(RunFrom(s, run))|
  {
    hide Inv, Orphan, CanRun, RunFrom;
    forall id | id in Orphans(s)
      ensures id in Orphans(RunFrom(s, run))
    {
      OrphanForever(s, run, id);
    }
    SubsetSize(Orphans(s), Orphans(RunFrom(s, run)));
  }

  lemma OrphansLive(s: State)
    ensures Orphans(s) <= Of(s.files, Running) && |Orphans(s)| <= |Of(s.files, Running)| <= |Live(s.files)|
  {
    LiveSize(s.files);
    SubsetSize(Orphans(s), Of(s.files, Running));
  }

  // ----- Where orphans come from

  /** After a restart every running record is an orphan. */
  lemma RestartOrphans(s: State)
    requires Init(s)
    ensures Orphans(s) == Of(s.files, Running)
  {
  }

  /** A claim writes the running record with an error and goes on, before it finds a job it can hand out. */
  ghost predicate LeftRunning(files: Files, names: seq<string>, writes: seq<Write>, id: string, i: nat) {
    && i < |names| && i < |writes| && names[i] == id && Has(files, id, Pending) && writes[i].WrittenWithError?
    && forall j: nat :: j < i ==> !Claimable(files, names, writes, j)
  }

  lemma {:induction false} ClaimUnlisted(files: Files, names: seq<string>, writes: seq<Write>, id: string)
    requires WellNamed(files) && |writes| == |names| && id !in names
    ensures var (after, job) := Claim(files, names, writes);
            Read(after, id) == Read(files, id) && (job.Some? ==> job.value.id != id)
    decreases |names|
  {
    if names != [] {
      assert names == [names[0]] + names[1..];
      if !Has(files, names[0], Pending) {
        ClaimUnlisted(files, names[1..], writes[1..], id);
      } else if !writes[0].Written? {
        WriteOfClaim(files, names[0], writes[0]);
        ClaimUnlisted(Saved(files, files[names[0]].job.(status := Running), writes[0]), names[1..], writes[1..], id);
      }
    }
  }

  lemma {:induction false} ClaimLeaves(files: Files, names: seq<string>, writes: seq<Write>, id: string)
    requires WellNamed(files) && |writes| == |names| && NoDuplicates(names) && Has(files, id, Pending)
    ensures var (after, job) := Claim(files, names, writes);
            Has(after, id, Running) && !(job.Some? && job.value.id == id) <==> exists i: nat :: LeftRunning(files, names, writes, id, i)
    decreases |names|
  {
    if names != [] && Claimable(files, names, writes, 0) {
      assert forall i: nat :: LeftRunning(files, names, writes, id, i) ==> i == 0;
    } else if names != [] {
      var next := if Has(files, names[0], Pending)
                  then Saved(files, files[names[0]].job.(status := Running), writes[0]) else files;
      if Has(files, names[0], Pending) {
        WriteOfClaim(files, names[0], writes[0]);
        SavedElsewhere(files, names[0], writes[0]);
      }
      ClaimShift(files, next, names, writes);
      assert Claim(files, names, writes) == Claim(next, names[1..], writes[1..]);
      if id == names[0] {
        ClaimUnlisted(next, names[1..], writes[1..], id);
        assert writes[0].WrittenWithError? ==> LeftRunning(files, names, writes, id, 0);
        assert forall i: nat :: LeftRunning(files, names, writes, id, i) ==> i == 0;
      } else {
        ClaimLeaves(next, names[1..], writes[1..], id);
        hide Claim, Saved, Claimable, WellNamed;
        LeftShift(files, next, names, writes, id);
      }
    }
  }

  lemma LeftShift(files: Files, next: Files, names: seq<string>, writes: seq<Write>, id: string)
    requires names != [] && |writes| == |names| && id != names[0] && !Claimable(files, names, writes, 0)
    requires forall i: nat {:trigger Claimable(next, names[1..], writes[1..], i)} ::
               Claimable(next, names[1..], writes[1..], i) <==> Claimable(files, names, writes, i + 1)
    requires Has(next, id, Pending) <==> Has(files, id, Pending)
    ensures (exists i: nat :: LeftRunning(next, names[1..], writes[1..], id, i)) <==>
              exists i: nat :: LeftRunning(files, names, writes, id, i)
  {
    hide Claimable, Has;
    forall i: nat
      ensures LeftRunning(next, names[1..], writes[1..], id, i) <==> LeftRunning(files, names, writes, id, i + 1)
    {
      forall j: nat | j < i + 1
        ensures Claimable(files, names, writes, j) <==> j > 0 && Claimable(next, names[1..], writes[1..], j - 1)
      {
      }
    }
    assert !LeftRunning(files, names, writes, id, 0);
    forall i: nat | LeftRunning(files, names, writes, id, i)
      ensures LeftRunning(next, names[1..], writes[1..], id, i - 1)
    {
    }
  }

  /** What makes a step leave a running record without a worker. */
  ghost predicate Abandons(s: State, step: Step, id: string) {
    match step
    case ClaimNext(_, listing, writes) =>
      listing.Some? && exists i: nat :: LeftRunning(s.files, listing.value, writes, id, i)
    case CompleteJob(worker, run, write) =>
      ExecutedBy(s, Worker(worker), id) && ((run.RunOk? && run.result.None?) || write.NotWritten?)
    case _ => false
  }

  /**
   * One step makes a new orphan exactly when it is a claim that writes the record with an error before it finds a job to
   * hand out, or a completion whose result cannot be encoded or whose record is not written.
   */
  lemma NewOrphanIff(s: State, step: Step, id: string)
    requires Inv(s) && Enabled(s, step) && !Orphan(s, id)
    ensures Orphan(Next(s, step), id) <==> Abandons(s, step, id)
  {
    hide SlotsOk, Claim, Lists, LeftRunning, Enqueued, Finish;
    match step
    case ClaimNext(worker, listing, writes) => ClaimOrphanIff(s, worker, listing, writes, id);
    case CompleteJob(worker, run, write) => CompleteOrphanIff(s, worker, run, write, id);
    case EnqueueJob(job, pending, running, write) =>
      EnqueueOk(s.files, s.maxJobs, job, pending, running, write);
      hide JobsOk;
      SameExecutors(s, Next(s, step), id);
    case _ =>
      hide JobsOk;
      SameExecutors(s, Next(s, step), id);
  }

  lemma SameExecutors(s: State, t: State, id: string)
    requires forall h :: ExecutedBy(t, h, id) <==> ExecutedBy(s, h, id)
    ensures Executes(t, id) <==> Executes(s, id)
  {
    hide ExecutedBy;
  }

  lemma CompleteOrphanIff(s: State, worker: nat, run: RunResult, write: Write, id: string)
    requires Inv(s) && Worker(worker) in s.holders && s.holders[Worker(worker)].Executing? && !Orphan(s, id)
    ensures Orphan(Completes(s, worker, s.holders[Worker(worker)].id, run, write), id) <==>
              ExecutedBy(s, Worker(worker), id) && ((run.RunOk? && run.result.None?) || write.NotWritten?)
  {
    var t := Completes(s, worker, s.holders[Worker(worker)].id, run, write);
    assert HolderOk(s, Worker(worker)) && WellNamed(s.files);
    assert forall a, b :: Apart(s, a, b);
    hide JobsOk, SlotsOk, WellNamed;
    assert forall h :: h != Worker(worker) ==> (ExecutedBy(t, h, id) <==> ExecutedBy(s, h, id));
    assert !ExecutedBy(t, Worker(worker), id);
    if ExecutedBy(s, Worker(worker), id) {
      forall h
        ensures !ExecutedBy(t, h, id)
      {
        assert Apart(s, h, Worker(worker));
      }
    } else {
      SameExecutors(s, t, id);
    }
  }

  lemma ClaimOrphanIff(s: State, worker: nat, listing: Option<seq<string>>, writes: seq<Write>, id: string)
    requires Inv(s) && Enabled(s, ClaimNext(worker, listing, writes)) && !Orphan(s, id)
    ensures Orphan(Next(s, ClaimNext(worker, listing, writes)), id) <==>
              listing.Some? && exists i: nat :: LeftRunning(s.files, listing.value, writes, id, i)
  {
    hide Claim, LeftRunning;
    var t := Next(s, ClaimNext(worker, listing, writes));
    if listing.None? {
      SameExecutors(s, t, id);
    } else {
      var (files, job) := Claim(s.files, listing.value, writes);
      ClaimOk(s.files, listing.value, writes);
      assert ClaimMoves(s.files, files, id);
      if Has(s.files, id, Pending) {
        ClaimLeaves(s.files, listing.value, writes, id);
      } else {
        NotLeft(s.files, listing.value, writes, id);
      }
      hide WellNamed, OnlyClaims, NoDuplicates, Lists, ClaimMoves;
      forall h
        ensures ExecutedBy(s, h, id) ==> h != Loop && h != Worker(worker) && Has(s.files, id, Running)
      {
        assert HolderOk(s, h);
      }
      if job.Some? && job.value.id == id {
        assert ExecutedBy(t, Worker(worker), id);
      } else {
        SameExecutors(s, t, id);
      }
    }
  }

  lemma NotLeft(files: Files, names: seq<string>, writes: seq<Write>, id: string)
    requires !Has(files, id, Pending)
    ensures forall i: nat :: !LeftRunning(files, names, writes, id, i)
  {
  }

  // ----- What a listed enqueue does

  lemma EnqueueListed(s: State, step: Step)
    requires Enabled(s, step) && step.EnqueueJob? && Listed(step)
    ensures Next(s, step).files == if |Live(s.files)| >= s.maxJobs then s.files else Saved(s.files, step.job, step.write)
  {
    ListedCounts(s.files, step.pending, step.running);
    hide CountListed, Live, Lists, Saved;
  }

  /** Once the orphans fill the limit, no enqueue that reads the directory gets in any more. */
  lemma OrphansBlock(s: State, run: seq<Step>, step: Step)
    requires Inv(s) && CanRun(s, run) && |Orphans(s)| >= s.maxJobs
    requires Enabled(RunFrom(s, run), step) && step.EnqueueJob? && Listed(step)
    ensures Next(RunFrom(s, run), step).files == RunFrom(s, run).files
  {
    hide Inv, Enabled, Next, Orphans, Live, Listed, RunFrom, CanRun, Of;
    OrphansGrow(s, run);
    RunMaxJobs(s, run);
    OrphansLive(RunFrom(s, run));
    EnqueueListed(RunFrom(s, run), step);
  }

  lemma {:induction false} RunMaxJobs(s: State, run: seq<Step>)
    requires CanRun(s, run)
    ensures RunFrom(s, run).maxJobs == s.maxJobs
    decreases |run|
  {
    hide Next, Enabled;
    if run != [] {
      SameLimit(s, run[0]);
      RunMaxJobs(Next(s, run[0]), run[1..]);
    }
  }

  // ----- Names for new things

  lemma {:induction false} ListingOf(ids: set<string>) returns (names: seq<string>)
    ensures NoDuplicates(names) && forall id :: id in names <==> id in ids
    decreases |ids|
  {
    names := [];
    if ids != {} {
      assert (forall id :: id !in ids) ==> ids == {};
      var id :| id in ids;
      names := ListingOf(ids - {id});
      AppendDistinct(names, id);
      names := names + [id];
    }
  }

  lemma {:induction false} FreshId(ids: set<string>) returns (id: string)
    ensures id !in ids && forall other :: other in ids ==> |other| < |id|
    decreases |ids|
  {
    id := "a";
    if ids != {} {
      assert (forall other :: other !in ids) ==> ids == {};
      var one :| one in ids;
      id := FreshId(ids - {one});
      id := id + one + "a";
      assert forall other :: other in ids ==> other in ids - {one} || other == one;
    }
  }

  lemma {:induction false} FreshWorker(hs: set<Holder>) returns (n: nat)
    ensures (forall h :: h in hs && h.Worker? ==> h.n < n) && Worker(n) !in hs
    decreases |hs|
  {
    n := 0;
    if hs != {} {
      assert (forall h :: h !in hs) ==> hs == {};
      var one :| one in hs;
      n := FreshWorker(hs - {one});
      if one.Worker? && one.n >= n {
        n := one.n + 1;
      }
      assert forall h :: h in hs ==> h in hs - {one} || h == one;
    }
  }

  // ----- Claiming when all writes land

  function AllWritten(n: nat): seq<Write> {
    seq(n, _ => Written)
  }

  lemma {:induction false} ClaimWritten(files: Files, names: seq<string>)
    requires WellNamed(files)
    ensures var (after, job) := Claim(files, names, AllWritten(|names|));
            if exists id :: id in names && Has(files, id, Pending) then
              job.Some? && Has(files, job.value.id, Pending)
              && after == files[job.value.id := Record(files[job.value.id].job.(status := Running))]
            else job.None? && after == files
    decreases |names|
  {
    if names != [] {
      assert AllWritten(|names|)[1..] == AllWritten(|names| - 1);
      assert names == [names[0]] + names[1..];
      if !Has(files, names[0], Pending) {
        ClaimWritten(files, names[1..]);
        assert forall id :: id in names && Has(files, id, Pending) ==> id in names[1..];
        hide Has;
      } else {
        assert names[0] in names;
      }
    }
  }

  lemma RunningNow(files: Files, id: string)
    requires Has(files, id, Pending)
    ensures var after := files[id := Record(files[id].job.(status := Running))];
            && Of(after, Pending) == Of(files, Pending) - {id} && Of(after, Running) == Of(files, Running) + {id}
            && id in Of(files, Pending) && id !in Of(files, Running)
  {
  }

  /** A claim that reads the directory and whose writes land. */
  lemma ClaimsWritten(s: State, worker: nat, names: seq<string>) returns (id: string)
    requires JobsOk(s) && Of(s.files, Pending) != {} && NoDuplicates(names) && forall id :: id in names <==> id in s.files
    requires In(s, Loop, Claiming) && Worker(worker) !in s.holders
    ensures var step := ClaimNext(worker, Some(names), AllWritten(|names|));
            && Has(s.files, id, Pending) && Enabled(s, step)
            && Next(s, step) == s.(files := s.files[id := Record(s.files[id].job.(status := Running))], claimed := s.claimed + [id],
                                   holders := (s.holders - {Loop})[Worker(worker) := Executing(id)])
  {
    SomePending(s.files, names);
    ClaimWritten(s.files, names);
    WrittenIs(|names|);
    var job := Claim(s.files, names, AllWritten(|names|)).1;
    id := job.value.id;
    assert WellNamed(s.files);
    hide Claim, AllWritten, JobsOk, Of, NoDuplicates;
  }

  /** The loop takes a slot and hands it over with a job. */
  lemma Claims(s: State) returns (a: Step, b: Step, id: string, worker: nat)
    requires Inv(s) && s.inUse < s.capacity && Loop !in s.holders && Of(s.files, Pending) != {}
    ensures Enabled(s, a) && Enabled(Next(s, a), b) && !a.EnqueueJob? && !b.EnqueueJob?
    ensures Worker(worker) !in s.holders && Has(s.files, id, Pending)
    ensures Next(Next(s, a), b) == s.(inUse := s.inUse + 1, claimed := s.claimed + [id],
                                      files := s.files[id := Record(s.files[id].job.(status := Running))],
                                      holders := s.holders[Worker(worker) := Executing(id)])
  {
    var names := ListingOf(s.files.Keys);
    worker := FreshWorker(s.holders.Keys);
    a, b := AcquireLoop, ClaimNext(worker, Some(names), AllWritten(|names|));
    hide SlotsOk, JobsOk, Of, Has, AllWritten, NoDuplicates;
    assert SlotsOk(s) && JobsOk(s);
    StepKeepsInv(s, a);
    id := ClaimsWritten(Next(s, a), worker, names);
    assert (s.holders[Loop := Claiming] - {Loop})[Worker(worker) := Executing(id)] == s.holders[Worker(worker) := Executing(id)];
  }

  lemma WrittenIs(n: nat)
    ensures AllWritten(n) == seq(n, _ => Written) && |AllWritten(n)| == n
  {
  }

  lemma SomePending(files: Files, names: seq<string>)
    requires Of(files, Pending) != {} && forall id :: id in names <==> id in files
    ensures exists id :: id in names && Has(files, id, Pending)
  {
    assert (forall id :: id !in Of(files, Pending)) ==> Of(files, Pending) == {};
    var id :| id in Of(files, Pending);
    assert id in names && Has(files, id, Pending);
  }
}
