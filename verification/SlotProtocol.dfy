/**
 * Every interleaving of chat requests, the job loop and its workers over one slot queue and one job
 * directory: pkg/requestqueue/queue.go, pkg/llmclient/client.go and internal/service/job_store.go.
 * A worker keeps the slot of its job while the chat call it makes takes a second one.
 */
module SlotProtocol {

  import opened Options
  import opened JobStore
  import Q = RequestQueue

  datatype Holder = Request(n: nat) | Loop | Worker(n: nat)

  datatype Phase =
    | Sending
    | Forwarding
    | Claiming
    | Executing(id: string)
    | Leaving(id: string)

  /** Everyone who holds a slot, and the ids that ClaimNext has handed out, in order. */
  datatype State = State(
    capacity: nat,
    inUse: nat,
    holders: map<Holder, Phase>,
    maxJobs: nat,
    files: Files,
    completed: nat,
    claimed: seq<string>
  )

  datatype Step =
    | AcquireRequest(n: nat, parent: Option<nat>)
    | RefuseRequest(n: nat)
    | SendFails(n: nat)
    | SendOpens(n: nat)
    | StreamEnds(n: nat)
    | AcquireLoop
    | RefuseLoop
    | ClaimNext(worker: nat, listing: Option<seq<string>>, writes: seq<Write>)
    | CompleteJob(worker: nat, run: RunResult, write: Write)
    | ReleaseWorker(worker: nat)
    | EnqueueJob(job: Job, pending: Option<seq<string>>, running: Option<seq<string>>, write: Write)

  /** Reading the directory fails, or names every file once. */
  ghost predicate Lists(files: Files, listing: Option<seq<string>>) {
    listing.Some? ==>
      NoDuplicates(listing.value) && (forall id :: id in listing.value <==> id in files)
  }

  predicate In(s: State, h: Holder, p: Phase) {
    h in s.holders && s.holders[h] == p
  }

  ghost predicate Enabled(s: State, step: Step) {
    match step
    case AcquireRequest(n, parent) =>
      s.inUse < s.capacity && Request(n) !in s.holders
      && (parent.Some? ==> Worker(parent.value) in s.holders && s.holders[Worker(parent.value)].Executing?)
    case RefuseRequest(n) => Request(n) !in s.holders
    case SendFails(n) => In(s, Request(n), Sending)
    case SendOpens(n) => In(s, Request(n), Sending)
    case StreamEnds(n) => In(s, Request(n), Forwarding)
    case AcquireLoop => s.inUse < s.capacity && Loop !in s.holders
    case RefuseLoop => Loop !in s.holders
    case ClaimNext(worker, listing, writes) =>
      In(s, Loop, Claiming) && Worker(worker) !in s.holders && Lists(s.files, listing)
      && (listing.Some? ==> |writes| == |listing.value|)
    case CompleteJob(worker, _, _) => Worker(worker) in s.holders && s.holders[Worker(worker)].Executing?
    case ReleaseWorker(worker) => Worker(worker) in s.holders && s.holders[Worker(worker)].Leaving?
    case EnqueueJob(job, pending, running, _) =>
      job.status == Pending && job.result == "" && job.error == "" && job.id !in s.files
      && Lists(s.files, pending) && Lists(s.files, running)
  }

  function Took(s: State, h: Holder, p: Phase): State {
    s.(inUse := s.inUse + 1, holders := s.holders[h := p])
  }

  function Gave(s: State, h: Holder): State {
    s.(inUse := Q.Released(s.inUse), holders := s.holders - {h})
  }

  /** The loop hands its slot to the worker of the job it claimed, or returns it. */
  function Claimed(s: State, worker: nat, listing: Option<seq<string>>, writes: seq<Write>): State
    requires listing.Some? ==> |writes| == |listing.value|
  {
    if listing.None? then Gave(s, Loop)
    else
      var (files, job) := Claim(s.files, listing.value, writes);
      if job.None? then Gave(s.(files := files), Loop)
      else s.(files := files, claimed := s.claimed + [job.value.id],
              holders := (s.holders - {Loop})[Worker(worker) := Executing(job.value.id)])
  }

  function Completes(s: State, worker: nat, id: string, run: RunResult, write: Write): State {
    var (files, completed) := Finish(s.files, s.completed, id, run, write);
    s.(files := files, completed := completed, holders := s.holders[Worker(worker) := Leaving(id)])
  }

  ghost function Next(s: State, step: Step): State
    requires Enabled(s, step)
  {
    match step
    case AcquireRequest(n, _) => Took(s, Request(n), Sending)
    case RefuseRequest(_) => s
    case SendFails(n) => Gave(s, Request(n))
    case SendOpens(n) => s.(holders := s.holders[Request(n) := Forwarding])
    case StreamEnds(n) => Gave(s, Request(n))
    case AcquireLoop => Took(s, Loop, Claiming)
    case RefuseLoop => s
    case ClaimNext(worker, listing, writes) => Claimed(s, worker, listing, writes)
    case CompleteJob(worker, run, write) => Completes(s, worker, s.holders[Worker(worker)].id, run, write)
    case ReleaseWorker(worker) => Gave(s, Worker(worker))
    case EnqueueJob(job, pending, running, write) =>
      s.(files := Enqueued(s.files, s.maxJobs, job, pending, running, write))
  }

  ghost predicate CanRun(s: State, run: seq<Step>)
    decreases |run|
  {
    run == [] || (Enabled(s, run[0]) && CanRun(Next(s, run[0]), run[1..]))
  }

  ghost function RunFrom(s: State, run: seq<Step>): State
    requires CanRun(s, run)
    decreases |run|
  {
    if run == [] then s else RunFrom(Next(s, run[0]), run[1..])
  }

  // ----- The files

  ghost predicate WellNamed(files: Files) {
    forall id :: id in files && files[id].Record? ==> files[id].job.id == id
  }

  function Rank(status: Status): nat {
    match status
    case Pending => 0
    case Running => 1
    case Completed => 2
    case Failed => 2
  }

  /** A record keeps what was asked for and changes only by moving on: pending, running, finished. */
  predicate JobMoves(a: Job, b: Job) {
    && a.id == b.id && a.kind == b.kind && a.requestId == b.requestId && a.body == b.body
    && Rank(a.status) <= Rank(b.status) && (Rank(a.status) == Rank(b.status) ==> a == b)
  }

  /** What can become of a file: a file never goes away, and an unreadable one stays so. */
  predicate FileMoves(before: Files, after: Files, id: string) {
    id in before ==>
      && id in after
      && match before[id]
         case Unreadable => after[id].Unreadable?
         case Record(job) => after[id].Record? ==> JobMoves(job, after[id].job)
  }

  ghost predicate FilesMove(before: Files, after: Files) {
    forall id :: FileMoves(before, after, id)
  }

  /** What one step can do to a job: nothing, start it, or finish it once it runs. */
  predicate JobSteps(a: Job, b: Job) {
    || a == b
    || (a.status == Pending && b == a.(status := Running))
    || (a.status == Running && b == a.(status := Completed, result := b.result))
    || (a.status == Running && b == a.(status := Failed, error := b.error))
  }

  /** What one step can do to a file; a new file holds a pending job, or nothing readable. */
  predicate FileSteps(before: Files, after: Files, id: string) {
    if id in before then
      && id in after
      && match before[id]
         case Unreadable => after[id].Unreadable?
         case Record(job) => after[id].Record? ==> JobSteps(job, after[id].job)
    else id in after && after[id].Record? ==> after[id].job.status == Pending
  }

  /** What a claim may do to a file: only a pending job changes, and it does not complete. */
  predicate ClaimMoves(before: Files, after: Files, id: string) {
    && FileMoves(before, after, id) && FileSteps(before, after, id)
    && (id in after ==> id in before)
    && (id in after && after[id].Record? ==> after[id].job.id == id)
    && (id in before && !Has(before, id, Pending) ==> after[id] == before[id])
    && (Has(after, id, Completed) ==> Has(before, id, Completed))
  }

  ghost predicate OnlyClaims(before: Files, after: Files) {
    forall id :: ClaimMoves(before, after, id)
  }

  lemma WriteOfClaim(files: Files, id: string, write: Write)
    requires WellNamed(files) && Has(files, id, Pending)
    ensures var saved := Saved(files, files[id].job.(status := Running), write);
            OnlyClaims(files, saved) && WellNamed(saved) && (write.Written? ==> Has(saved, id, Running))
  {
  }

  /** A claim touches pending jobs only, and the one it returns is running. */
  lemma {:induction false} ClaimOk(files: Files, names: seq<string>, writes: seq<Write>)
    requires WellNamed(files) && |writes| == |names|
    ensures var (after, job) := Claim(files, names, writes);
            && OnlyClaims(files, after) && WellNamed(after)
            && (job.Some? ==> Has(files, job.value.id, Pending) && Has(after, job.value.id, Running))
    decreases |names|
  {
    if names == [] {
    } else if !Has(files, names[0], Pending) {
      hide OnlyClaims;
      ClaimOk(files, names[1..], writes[1..]);
    } else {
      var saved := Saved(files, files[names[0]].job.(status := Running), writes[0]);
      WriteOfClaim(files, names[0], writes[0]);
      if !writes[0].Written? {
        ClaimOk(saved, names[1..], writes[1..]);
        var (after, job) := Claim(saved, names[1..], writes[1..]);
        assert OnlyClaims(files, after) by {
          forall id
            ensures ClaimMoves(files, after, id)
          {
            assert ClaimMoves(files, saved, id) && ClaimMoves(saved, after, id);
          }
        }
        if job.Some? {
          assert ClaimMoves(files, saved, job.value.id);
        }
      }
      hide OnlyClaims, Saved;
    }
  }

  predicate Claimable(files: Files, names: seq<string>, writes: seq<Write>, i: nat) {
    i < |names| && i < |writes| && Has(files, names[i], Pending) && writes[i].Written?
  }

  /** A claim returns the first pending job of the listing whose record can be written, if there is one. */
  lemma {:induction false} ClaimsFirst(files: Files, names: seq<string>, writes: seq<Write>)
    requires WellNamed(files) && |writes| == |names| && NoDuplicates(names)
    ensures var job := Claim(files, names, writes).1;
            if job.None? then forall i: nat :: !Claimable(files, names, writes, i)
            else exists i: nat :: Claimable(files, names, writes, i) && names[i] == job.value.id
                                  && forall j: nat :: j < i ==> !Claimable(files, names, writes, j)
    decreases |names|
  {
    if names == [] {
    } else if Claimable(files, names, writes, 0) {
      assert names[0] == Claim(files, names, writes).1.value.id;
    } else {
      var next := if Has(files, names[0], Pending)
                  then Saved(files, files[names[0]].job.(status := Running), writes[0]) else files;
      if Has(files, names[0], Pending) {
        WriteOfClaim(files, names[0], writes[0]);
        SavedElsewhere(files, names[0], writes[0]);
      }
      ClaimsFirst(next, names[1..], writes[1..]);
      ClaimShift(files, next, names, writes);
      var job := Claim(next, names[1..], writes[1..]).1;
      assert job == Claim(files, names, writes).1;
      hide Claim, Saved, Claimable, WellNamed, Has, NoDuplicates;
      if job.None? {
        forall i: nat
          ensures !Claimable(files, names, writes, i)
        {
          if i > 0 {
            assert !Claimable(next, names[1..], writes[1..], i - 1);
          }
        }
      } else {
        var i: nat :| Claimable(next, names[1..], writes[1..], i) && names[1..][i] == job.value.id
                      && forall j: nat :: j < i ==> !Claimable(next, names[1..], writes[1..], j);
        assert Claimable(files, names, writes, i + 1) && names[i + 1] == job.value.id;
        forall j: nat | j < i + 1
          ensures !Claimable(files, names, writes, j)
        {
          if j > 0 {
            assert !Claimable(next, names[1..], writes[1..], j - 1);
          }
        }
      }
    }
  }

  lemma SavedElsewhere(files: Files, id: string, write: Write)
    requires WellNamed(files) && Has(files, id, Pending)
    ensures var saved := Saved(files, files[id].job.(status := Running), write);
            forall other :: other != id ==> Read(saved, other) == Read(files, other)
  {
  }

  /** The rest of a listing has the same claimable jobs after a write to its head. */
  lemma ClaimShift(files: Files, next: Files, names: seq<string>, writes: seq<Write>)
    requires names != [] && |writes| == |names| && NoDuplicates(names)
    requires forall other :: other != names[0] ==> Read(next, other) == Read(files, other)
    ensures NoDuplicates(names[1..])
    ensures forall i: nat {:trigger Claimable(next, names[1..], writes[1..], i)} ::
              Claimable(next, names[1..], writes[1..], i) <==> Claimable(files, names, writes, i + 1)
    ensures forall i: nat :: Claimable(next, names[1..], writes[1..], i) ==> i + 1 < |names|
  {
    forall i: nat
      ensures Claimable(next, names[1..], writes[1..], i) <==> Claimable(files, names, writes, i + 1)
    {
      if i + 1 < |names| {
        assert names[1..][i] == names[i + 1] != names[0];
      }
    }
  }

  lemma FinishOk(files: Files, completed: nat, id: string, run: RunResult, write: Write)
    requires WellNamed(files) && Has(files, id, Running)
    ensures var (after, n) := Finish(files, completed, id, run, write);
            && WellNamed(after) && FilesMove(files, after) && after.Keys == files.Keys
            && completed <= n
            && (forall other :: other in files && other != id ==> after[other] == files[other])
            && !Has(after, id, Pending) && FileSteps(files, after, id)
            && (n == completed ==> !Has(after, id, Completed))
  {
  }

  lemma EnqueueOk(files: Files, maxJobs: nat, job: Job, pending: Option<seq<string>>, running: Option<seq<string>>,
                  write: Write)
    requires WellNamed(files) && job.id !in files && job.status == Pending
    ensures var after := Enqueued(files, maxJobs, job, pending, running, write);
            && WellNamed(after) && FilesMove(files, after)
            && (forall id :: id in files ==> id in after && after[id] == files[id])
            && (forall id :: id in after && id !in files ==> id == job.id && !Has(after, id, Completed))
            && FileSteps(files, after, job.id)
  {
    hide CountListed;
  }

  // ----- Counting

  function Of(files: Files, status: Status): set<string> {
    set id | id in files && Has(files, id, status)
  }

  /** The jobs that are waiting or being worked on. */
  function Live(files: Files): set<string> {
    Of(files, Pending) + Of(files, Running)
  }

  lemma SubsetSize<T>(a: set<T>, b: set<T>)
    requires a <= b
    ensures |a| <= |b|
  {
    if a != {} {
      assert (forall x :: x !in a) ==> a == {};
      var x :| x in a;
      SubsetSize(a - {x}, b - {x});
    }
  }

  /** Counting names that are all different counts a set. */
  lemma {:induction false} CountIsSize(files: Files, names: seq<string>, status: Status, of: set<string>)
    requires NoDuplicates(names)
    requires forall id :: id in of <==> id in names && Has(files, id, status)
    ensures Count(files, names, status) == |of|
    decreases |names|
  {
    hide Has;
    if names == [] {
      assert of == {};
    } else {
      var front, last := names[..|names| - 1], names[|names| - 1];
      FrontOf(names);
      CountIsSize(files, front, status, of - {last});
    }
  }

  lemma FrontOf(names: seq<string>)
    requires names != [] && NoDuplicates(names)
    ensures var front, last := names[..|names| - 1], names[|names| - 1];
            NoDuplicates(front) && last !in front && forall id :: id in names <==> id in front || id == last
  {
    assert names == names[..|names| - 1] + [names[|names| - 1]];
  }

  lemma ListedCount(files: Files, listing: Option<seq<string>>, status: Status)
    requires Lists(files, listing) && listing.Some?
    ensures CountListed(files, listing, status) == |Of(files, status)|
  {
    CountIsSize(files, listing.value, status, Of(files, status));
  }

  lemma LiveSize(files: Files)
    ensures |Live(files)| == |Of(files, Pending)| + |Of(files, Running)|
  {
    assert Of(files, Pending) !! Of(files, Running);
  }

  /** Files that only move on gain no live jobs. */
  lemma MovingKeepsLive(before: Files, after: Files)
    requires FilesMove(before, after) && after.Keys <= before.Keys
    ensures |Live(after)| <= |Live(before)|
  {
    forall id | id in Live(after)
      ensures id in Live(before)
    {
      assert FileMoves(before, after, id);
    }
    SubsetSize(Live(after), Live(before));
  }

  lemma LiveIs(files: Files, id: string)
    ensures id in Live(files) <==> Has(files, id, Pending) || Has(files, id, Running)
  {
  }

  lemma LiveOfNew(files: Files, job: Job)
    requires job.id !in files && job.status == Pending
    ensures |Live(files[job.id := Record(job)])| == |Live(files)| + 1
  {
    hide Live;
    var after := files[job.id := Record(job)];
    LiveIs(files, job.id);
    forall id
      ensures id in Live(after) <==> id in Live(files) || id == job.id
    {
      LiveIs(files, id);
      LiveIs(after, id);
    }
    assert Live(after) == Live(files) + {job.id};
  }

  lemma LiveOfTorn(files: Files, id: string)
    requires id !in files
    ensures |Live(files[id := Unreadable])| == |Live(files)|
  {
    hide Live;
    var after := files[id := Unreadable];
    forall other
      ensures other in Live(after) <==> other in Live(files)
    {
      LiveIs(files, other);
      LiveIs(after, other);
    }
    assert Live(after) == Live(files);
  }

  /** An enqueue passes the limit exactly when it is reached, the counts did not show it and the write lands. */
  lemma EnqueueOverrunsIff(files: Files, maxJobs: nat, job: Job, pending: Option<seq<string>>,
                           running: Option<seq<string>>, write: Write)
    requires |Live(files)| <= maxJobs && job.id !in files && job.status == Pending
    ensures |Live(Enqueued(files, maxJobs, job, pending, running, write))| > maxJobs <==>
              && |Live(files)| == maxJobs
              && CountListed(files, pending, Pending) + CountListed(files, running, Running) < maxJobs
              && (write.Written? || write.WrittenWithError?)
  {
    LiveOfNew(files, job);
    LiveOfTorn(files, job.id);
    hide Live, CountListed;
  }

  /** When the directory could be read for both counts, they show every live job. */
  lemma ListedCounts(files: Files, pending: Option<seq<string>>, running: Option<seq<string>>)
    requires Lists(files, pending) && Lists(files, running) && pending.Some? && running.Some?
    ensures CountListed(files, pending, Pending) + CountListed(files, running, Running) == |Live(files)|
  {
    ListedCount(files, pending, Pending);
    ListedCount(files, running, Running);
    LiveSize(files);
  }

  // ----- The invariants

  ghost predicate SlotsOk(s: State) {
    s.inUse == |s.holders| <= s.capacity
  }

  predicate HolderOk(s: State, h: Holder) {
    h in s.holders ==>
      match h
      case Request(_) => s.holders[h].Sending? || s.holders[h].Forwarding?
      case Loop => s.holders[h].Claiming?
      case Worker(_) =>
        s.holders[h].Leaving?
        || (s.holders[h].Executing? && s.holders[h].id in s.claimed && Has(s.files, s.holders[h].id, Running))
  }

  /** No two workers execute the same job. */
  predicate Apart(s: State, a: Holder, b: Holder) {
    a in s.holders && b in s.holders && s.holders[a].Executing? && s.holders[b].Executing? && a != b ==>
      s.holders[a].id != s.holders[b].id
  }

  ghost predicate ClaimsOk(s: State) {
    NoDuplicates(s.claimed) && (forall id :: id in s.claimed ==> id in s.files && !Has(s.files, id, Pending))
  }

  ghost predicate JobsOk(s: State) {
    && WellNamed(s.files) && ClaimsOk(s)
    && (forall h :: HolderOk(s, h)) && (forall a, b :: Apart(s, a, b))
  }

  /** Nobody holds a slot, nothing was claimed, and every record in the directory sits under its own id. */
  ghost predicate Init(s: State) {
    && s.inUse == 0 && s.holders == map[] && s.claimed == [] && s.capacity > 0
    && WellNamed(s.files)
  }

  // ----- Slots

  /** The steps that call Release, or may (a claim that finds no job). */
  predicate Releases(step: Step) {
    step.SendFails? || step.StreamEnds? || step.ReleaseWorker? || step.ClaimNext?
  }

  lemma TakeKeepsSlots(s: State, h: Holder, p: Phase)
    requires SlotsOk(s) && s.inUse < s.capacity && h !in s.holders
    ensures SlotsOk(Took(s, h, p))
  {
    assert Took(s, h, p).holders.Keys == s.holders.Keys + {h};
  }

  lemma GiveKeepsSlots(s: State, h: Holder)
    requires SlotsOk(s) && h in s.holders
    ensures s.inUse > 0 && SlotsOk(Gave(s, h))
  {
    assert Gave(s, h).holders.Keys == s.holders.Keys - {h};
    assert h in s.holders.Keys;
  }

  lemma StepKeepsSlots(s: State, step: Step)
    requires SlotsOk(s) && Enabled(s, step)
    ensures SlotsOk(Next(s, step)) && (Releases(step) ==> s.inUse > 0)
  {
    hide Claim, Finish, Lists, Enqueued, Took, Gave;
    match step
    case AcquireRequest(n, _) => TakeKeepsSlots(s, Request(n), Sending);
    case SendFails(n) => GiveKeepsSlots(s, Request(n));
    case SendOpens(n) =>
      assert s.holders[Request(n) := Forwarding].Keys == s.holders.Keys;
    case StreamEnds(n) => GiveKeepsSlots(s, Request(n));
    case AcquireLoop => TakeKeepsSlots(s, Loop, Claiming);
    case ClaimNext(worker, listing, writes) => ClaimKeepsSlots(s, worker, listing, writes);
    case CompleteJob(worker, _, _) =>
      assert Next(s, step).holders.Keys == s.holders.Keys;
    case ReleaseWorker(worker) => GiveKeepsSlots(s, Worker(worker));
    case _ =>
  }

  lemma ClaimKeepsSlots(s: State, worker: nat, listing: Option<seq<string>>, writes: seq<Write>)
    requires SlotsOk(s) && In(s, Loop, Claiming) && Worker(worker) !in s.holders
    requires listing.Some? ==> |writes| == |listing.value|
    ensures SlotsOk(Claimed(s, worker, listing, writes))
  {
    hide Claim, Gave;
    if listing.None? {
      GiveKeepsSlots(s, Loop);
    } else {
      var (files, job) := Claim(s.files, listing.value, writes);
      if job.None? {
        GiveKeepsSlots(s.(files := files), Loop);
      } else {
        assert |(s.holders - {Loop})[Worker(worker) := Executing(job.value.id)]| == |s.holders| by {
          assert (s.holders - {Loop})[Worker(worker) := Executing(job.value.id)].Keys ==
                 s.holders.Keys - {Loop} + {Worker(worker)};
        }
      }
    }
  }

  // ----- Jobs

  /** Files that are no longer pending stay as they are. */
  ghost predicate Settled(before: Files, after: Files) {
    forall id :: id in before && !Has(before, id, Pending) ==> id in after && after[id] == before[id]
  }

  lemma SettledHolder(s: State, t: State, h: Holder)
    requires HolderOk(s, h) && (forall id :: id in s.claimed ==> id in t.claimed)
    requires Settled(s.files, t.files)
    requires h in t.holders ==> h in s.holders && t.holders[h] == s.holders[h]
    ensures HolderOk(t, h)
  {
  }

  lemma AppendDistinct<T>(xs: seq<T>, x: T)
    requires NoDuplicates(xs) && x !in xs
    ensures NoDuplicates(xs + [x])
  {
  }

  /** Steps that only take, pass on or return slots. */
  lemma SlotStepKeepsJobs(s: State, t: State)
    requires JobsOk(s) && t.files == s.files && t.claimed == s.claimed
    requires forall h :: h in t.holders && (h !in s.holders || t.holders[h] != s.holders[h]) ==>
               (h.Request? && (t.holders[h].Sending? || t.holders[h].Forwarding?)) || (h.Loop? && t.holders[h].Claiming?)
    ensures JobsOk(t)
  {
    hide WellNamed, NoDuplicates, Has;
    forall h
      ensures HolderOk(t, h)
    {
      assert HolderOk(s, h);
    }
    forall a, b
      ensures Apart(t, a, b)
    {
      assert Apart(s, a, b) && HolderOk(s, a) && HolderOk(s, b);
    }
  }

  lemma ClaimKeepsJobs(s: State, worker: nat, listing: Option<seq<string>>, writes: seq<Write>)
    requires JobsOk(s) && In(s, Loop, Claiming) && Worker(worker) !in s.holders
    requires listing.Some? ==> |writes| == |listing.value|
    ensures JobsOk(Claimed(s, worker, listing, writes))
  {
    var t := Claimed(s, worker, listing, writes);
    if listing.None? {
      hide JobsOk;
      SlotStepKeepsJobs(s, t);
    } else {
      ClaimOk(s.files, listing.value, writes);
      var (after, job) := Claim(s.files, listing.value, writes);
      assert Settled(s.files, after) by {
        forall id | id in s.files && !Has(s.files, id, Pending)
          ensures id in after && after[id] == s.files[id]
        {
          assert ClaimMoves(s.files, after, id);
        }
      }
      hide Claim, WellNamed, OnlyClaims, Settled, Has;
      if job.None? {
        ClaimsKept(s, t);
        HoldersKept(s, t);
      } else {
        ClaimJoins(s, t, worker, job.value.id);
      }
    }
  }

  lemma ClaimsKept(s: State, t: State)
    requires ClaimsOk(s) && t.claimed == s.claimed && Settled(s.files, t.files)
    ensures ClaimsOk(t)
  {
    hide NoDuplicates;
    forall id | id in t.claimed
      ensures id in t.files && !Has(t.files, id, Pending)
    {
      assert id in s.files && t.files[id] == s.files[id];
    }
  }

  lemma HoldersKept(s: State, t: State)
    requires (forall h :: HolderOk(s, h)) && (forall a, b :: Apart(s, a, b))
    requires forall id :: id in s.claimed ==> id in t.claimed
    requires Settled(s.files, t.files)
    requires forall h :: h in t.holders ==> h in s.holders && t.holders[h] == s.holders[h]
    ensures (forall h :: HolderOk(t, h)) && (forall a, b :: Apart(t, a, b))
  {
    forall h
      ensures HolderOk(t, h)
    {
      SettledHolder(s, t, h);
    }
    hide HolderOk;
    forall a, b
      ensures Apart(t, a, b)
    {
      assert Apart(s, a, b);
    }
  }

  lemma ClaimJoins(s: State, t: State, worker: nat, id: string)
    requires ClaimsOk(s) && (forall h :: HolderOk(s, h)) && (forall a, b :: Apart(s, a, b))
    requires Settled(s.files, t.files) && Has(s.files, id, Pending) && Has(t.files, id, Running)
    requires t.claimed == s.claimed + [id]
    requires Worker(worker) !in s.holders && t.holders == (s.holders - {Loop})[Worker(worker) := Executing(id)]
    ensures ClaimsOk(t) && (forall h :: HolderOk(t, h)) && (forall a, b :: Apart(t, a, b))
  {
    AppendDistinct(s.claimed, id);
    forall other | other in t.claimed
      ensures other in t.files && !Has(t.files, other, Pending)
    {
      assert other in s.claimed || other == id;
    }
    forall h
      ensures HolderOk(t, h)
    {
      if h != Worker(worker) {
        SettledHolder(s, t, h);
      }
    }
    forall a, b
      ensures Apart(t, a, b)
    {
      assert Apart(s, a, b) && HolderOk(s, a) && HolderOk(s, b);
    }
  }

  lemma CompleteKeepsJobs(s: State, worker: nat, id: string, run: RunResult, write: Write)
    requires JobsOk(s) && In(s, Worker(worker), Executing(id))
    ensures JobsOk(Completes(s, worker, id, run, write))
  {
    var t := Completes(s, worker, id, run, write);
    assert HolderOk(s, Worker(worker));
    FinishOk(s.files, s.completed, id, run, write);
    hide Finish, WellNamed, FilesMove, Has;
    forall h
      ensures HolderOk(t, h)
    {
      assert HolderOk(s, h) && Apart(s, h, Worker(worker));
      if h in s.holders && s.holders[h].Executing? && h != Worker(worker) {
        SameFile(s.files, t.files, s.holders[h].id, Running);
      }
    }
    forall a, b
      ensures Apart(t, a, b)
    {
      assert Apart(s, a, b);
    }
    forall other | other in t.claimed
      ensures other in t.files && !Has(t.files, other, Pending)
    {
      if other != id {
        SameFile(s.files, t.files, other, Pending);
      }
    }
  }

  lemma SameFile(before: Files, after: Files, id: string, status: Status)
    requires id in before && id in after && after[id] == before[id]
    ensures Has(before, id, status) <==> Has(after, id, status)
  {
  }

  lemma EnqueueKeepsJobs(s: State, step: Step)
    requires JobsOk(s) && step.EnqueueJob? && Enabled(s, step)
    ensures JobsOk(Next(s, step))
  {
    EnqueueOk(s.files, s.maxJobs, step.job, step.pending, step.running, step.write);
    hide Enqueued, WellNamed, FilesMove, Lists, NewJob;
    var t := Next(s, step);
    ClaimsKept(s, t);
    HoldersKept(s, t);
  }

  lemma StepKeepsJobs(s: State, step: Step)
    requires JobsOk(s) && Enabled(s, step)
    ensures JobsOk(Next(s, step))
  {
    hide JobsOk, Lists, Enqueued, Claimed, Completes;
    match step
    case ClaimNext(worker, listing, writes) => ClaimKeepsJobs(s, worker, listing, writes);
    case CompleteJob(worker, run, write) =>
      CompleteKeepsJobs(s, worker, s.holders[Worker(worker)].id, run, write);
    case EnqueueJob(_, _, _, _) => EnqueueKeepsJobs(s, step);
    case _ => SlotStepKeepsJobs(s, Next(s, step));
  }

  lemma ClaimsMoveFiles(before: Files, after: Files)
    requires OnlyClaims(before, after)
    ensures FilesMove(before, after) && after.Keys <= before.Keys
    ensures Of(after, Completed) == Of(before, Completed)
  {
    forall id
      ensures FileMoves(before, after, id) && (id in after ==> id in before)
              && (Has(after, id, Completed) <==> Has(before, id, Completed))
    {
      assert ClaimMoves(before, after, id);
    }
  }

  /** Every step only moves files on. */
  lemma StepMovesFiles(s: State, step: Step)
    requires JobsOk(s) && Enabled(s, step)
    ensures var t := Next(s, step);
            FilesMove(s.files, t.files) && (!step.EnqueueJob? ==> t.files.Keys <= s.files.Keys)
  {
    hide Claim, Finish, Enqueued, Of, Lists;
    match step
    case ClaimNext(worker, listing, writes) =>
      if listing.Some? {
        ClaimOk(s.files, listing.value, writes);
        ClaimsMoveFiles(s.files, Claim(s.files, listing.value, writes).0);
      }
    case CompleteJob(worker, run, write) =>
      assert HolderOk(s, Worker(worker));
      FinishOk(s.files, s.completed, s.holders[Worker(worker)].id, run, write);
    case EnqueueJob(job, pending, running, write) =>
      EnqueueOk(s.files, s.maxJobs, job, pending, running, write);
    case _ =>
  }

  lemma StepStepsFiles(s: State, step: Step, id: string)
    requires JobsOk(s) && Enabled(s, step)
    ensures FileSteps(s.files, Next(s, step).files, id)
  {
    hide Claim, Finish, Enqueued, Lists;
    match step
    case ClaimNext(worker, listing, writes) =>
      if listing.Some? {
        ClaimOk(s.files, listing.value, writes);
        assert ClaimMoves(s.files, Claim(s.files, listing.value, writes).0, id);
      }
    case CompleteJob(worker, run, write) =>
      assert HolderOk(s, Worker(worker));
      FinishOk(s.files, s.completed, s.holders[Worker(worker)].id, run, write);
    case EnqueueJob(job, pending, running, write) =>
      EnqueueOk(s.files, s.maxJobs, job, pending, running, write);
    case _ =>
  }

  /** The guard that fails: the limit is reached, the counts do not show it, and the record is written. */
  ghost predicate Overruns(s: State, step: Step) {
    && step.EnqueueJob? && |Live(s.files)| == s.maxJobs
    && CountListed(s.files, step.pending, Pending) + CountListed(s.files, step.running, Running) < s.maxJobs
    && (step.write.Written? || step.write.WrittenWithError?)
  }

  lemma StepOverrunsIff(s: State, step: Step)
    requires JobsOk(s) && Enabled(s, step) && |Live(s.files)| <= s.maxJobs
    ensures |Live(Next(s, step).files)| > s.maxJobs <==> Overruns(s, step)
  {
    if step.EnqueueJob? {
      hide Live, CountListed, Enqueued, Lists, JobsOk;
      EnqueueOverrunsIff(s.files, s.maxJobs, step.job, step.pending, step.running, step.write);
    } else {
      StepMovesFiles(s, step);
      hide Enabled, FilesMove, Live;
      MovingKeepsLive(s.files, Next(s, step).files);
    }
  }

  // ----- Whole runs

  ghost predicate Inv(s: State) {
    SlotsOk(s) && JobsOk(s)
  }

  lemma InitInv(s: State)
    requires Init(s)
    ensures Inv(s)
  {
  }

  lemma StepKeepsInv(s: State, step: Step)
    requires Inv(s) && Enabled(s, step)
    ensures Inv(Next(s, step))
  {
    hide SlotsOk, JobsOk, Enabled, Next;
    StepKeepsSlots(s, step);
    StepKeepsJobs(s, step);
  }

  lemma {:induction false} RunKeepsInv(s: State, run: seq<Step>)
    requires Inv(s) && CanRun(s, run)
    ensures var t := RunFrom(s, run);
            Inv(t) && FilesMove(s.files, t.files)
    decreases |run|
  {
    if run != [] {
      hide SlotsOk, JobsOk, Enabled, Next, Of, FileMoves;
      var next := Next(s, run[0]);
      StepKeepsInv(s, run[0]);
      StepMovesFiles(s, run[0]);
      RunKeepsInv(next, run[1..]);
      assert FilesMove(s.files, RunFrom(s, run).files) by {
        forall id
          ensures FileMoves(s.files, RunFrom(s, run).files, id)
        {
          assert FileMoves(s.files, next.files, id) && FileMoves(next.files, RunFrom(s, run).files, id);
        }
      }
    }
  }

  /** The state of a run after its first `k` steps. */
  ghost function After(s: State, run: seq<Step>, k: nat): State
    requires CanRun(s, run) && k <= |run|
    decreases k
  {
    if k == 0 then s else After(Next(s, run[0]), run[1..], k - 1)
  }

  lemma {:induction false} StepAt(s: State, run: seq<Step>, k: nat)
    requires Inv(s) && CanRun(s, run) && k < |run|
    ensures Inv(After(s, run, k)) && Enabled(After(s, run, k), run[k])
    ensures After(s, run, k + 1) == Next(After(s, run, k), run[k])
    ensures After(s, run, k).maxJobs == s.maxJobs
    decreases k
  {
    hide Inv, Enabled, Next;
    if k > 0 {
      StepKeepsInv(s, run[0]);
      SameLimit(s, run[0]);
      StepAt(Next(s, run[0]), run[1..], k - 1);
    }
  }

  lemma {:induction false} AfterAll(s: State, run: seq<Step>)
    requires CanRun(s, run)
    ensures After(s, run, |run|) == RunFrom(s, run)
    decreases |run|
  {
    hide Enabled, Next;
    if run != [] {
      AfterAll(Next(s, run[0]), run[1..]);
    }
  }

  /** No enqueue among the first `k` steps of the run passes the limit. */
  ghost predicate NoOverrun(s: State, run: seq<Step>, k: nat)
    requires CanRun(s, run) && k <= |run|
  {
    forall i: nat :: i < k ==> !Overruns(After(s, run, i), run[i])
  }

  ghost predicate Bounded(s: State, run: seq<Step>, k: nat)
    requires CanRun(s, run) && k <= |run|
  {
    |Live(After(s, run, k).files)| <= s.maxJobs
  }

  lemma {:induction false} BoundedIf(s: State, run: seq<Step>, k: nat)
    requires Inv(s) && CanRun(s, run) && k <= |run| && |Live(s.files)| <= s.maxJobs && NoOverrun(s, run, k)
    ensures Bounded(s, run, k)
    decreases k
  {
    hide Inv, Live, Overruns, Enabled, Next;
    if k > 0 {
      StepAt(s, run, k - 1);
      hide After;
      BoundedIf(s, run, k - 1);
      StepBound(s, run, k - 1);
    }
  }

  /** One step of a run that is within the limit leaves it exactly by the failing guard. */
  lemma StepBound(s: State, run: seq<Step>, k: nat)
    requires Inv(s) && CanRun(s, run) && k < |run| && Bounded(s, run, k)
    ensures Bounded(s, run, k + 1) <==> !Overruns(After(s, run, k), run[k])
  {
    StepAt(s, run, k);
    hide Live, Overruns, Enabled, Next, After, JobsOk;
    StepOverrunsIff(After(s, run, k), run[k]);
  }

  /** The directory could be read whenever an enqueue counted its jobs. */
  predicate Listed(step: Step) {
    step.EnqueueJob? ==> step.pending.Some? && step.running.Some?
  }

  lemma ListedNeverOverruns(s: State, step: Step)
    requires Enabled(s, step) && Listed(step)
    ensures !Overruns(s, step)
  {
    if step.EnqueueJob? {
      ListedCounts(s.files, step.pending, step.running);
    }
    hide CountListed, Live;
  }

  lemma SameLimit(s: State, step: Step)
    requires Enabled(s, step)
    ensures Next(s, step).maxJobs == s.maxJobs && Next(s, step).capacity == s.capacity
  {
    hide Claim, Finish, Enqueued, Lists;
  }

  lemma {:induction false} RunJoin(s: State, run: seq<Step>, more: seq<Step>)
    requires CanRun(s, run + more)
    ensures CanRun(s, run) && CanRun(RunFrom(s, run), more)
    ensures RunFrom(s, run + more) == RunFrom(RunFrom(s, run), more)
    decreases |run|
  {
    hide Enabled, Next;
    if run == [] {
      assert run + more == more;
    } else {
      assert (run + more)[0] == run[0] && (run + more)[1..] == run[1..] + more;
      RunJoin(Next(s, run[0]), run[1..], more);
    }
  }

  lemma {:induction false} RunAppend(s: State, run: seq<Step>, more: seq<Step>)
    requires CanRun(s, run) && CanRun(RunFrom(s, run), more)
    ensures CanRun(s, run + more) && RunFrom(s, run + more) == RunFrom(RunFrom(s, run), more)
    decreases |run|
  {
    hide Enabled, Next;
    if run == [] {
      assert run + more == more;
    } else {
      assert (run + more)[0] == run[0] && (run + more)[1..] == run[1..] + more;
      RunAppend(Next(s, run[0]), run[1..], more);
    }
  }

  // ----- Main results

  /** In every interleaving the slots in use are exactly the live holders, and no release finds the queue empty. */
  lemma SlotsAreExact(s: State, run: seq<Step>)
    requires Init(s) && CanRun(s, run)
    ensures var t := RunFrom(s, run);
            && t.inUse == |t.holders| <= t.capacity
            && forall step :: Enabled(t, step) && Releases(step) ==> t.inUse > 0
  {
    InitInv(s);
    RunKeepsInv(s, run);
    var t := RunFrom(s, run);
    hide JobsOk, Enabled, Next, FilesMove, Of, Init;
    forall step | Enabled(t, step) && Releases(step)
      ensures t.inUse > 0
    {
      StepKeepsSlots(t, step);
    }
  }

  /** ClaimNext never hands out a job twice, and no two workers execute the same one. */
  lemma ClaimedOnce(s: State, run: seq<Step>)
    requires Init(s) && CanRun(s, run)
    ensures var t := RunFrom(s, run);
            NoDuplicates(t.claimed) && forall a, b :: Apart(t, a, b)
  {
    InitInv(s);
    RunKeepsInv(s, run);
    hide Enabled, Next, FilesMove, Of, Init, WellNamed, HolderOk;
  }

  /** Whatever a run does after some point, each job keeps its request and only moves on. */
  lemma JobsMoveOn(s: State, run: seq<Step>, more: seq<Step>)
    requires Init(s) && CanRun(s, run + more)
    ensures CanRun(s, run) && FilesMove(RunFrom(s, run).files, RunFrom(s, run + more).files)
  {
    hide Enabled, Next, FilesMove, Of;
    InitInv(s);
    RunJoin(s, run, more);
    RunKeepsInv(s, run);
    RunKeepsInv(RunFrom(s, run), more);
  }

  /** The step counts a job as completed. */
  predicate Counts(step: Step) {
    step.CompleteJob? && step.run.RunOk? && step.run.result.Some?
  }

  /** It does so although the record does not come to say it. */
  predicate Miscounts(step: Step) {
    Counts(step) && (step.write.NotWritten? || step.write.Torn?)
  }

  function MiscountsIn(run: seq<Step>): nat {
    if run == [] then 0 else MiscountsIn(run[1..]) + if Miscounts(run[0]) then 1 else 0
  }

  lemma StepCounts(s: State, step: Step)
    requires JobsOk(s) && Enabled(s, step)
    ensures var t := Next(s, step);
            t.completed - s.completed == |Of(t.files, Completed)| - |Of(s.files, Completed)| + if Miscounts(step) then 1 else 0
  {
    hide Claim, Enqueued, Of, Lists;
    var t := Next(s, step);
    match step
    case ClaimNext(worker, listing, writes) =>
      if listing.Some? {
        ClaimOk(s.files, listing.value, writes);
        ClaimsMoveFiles(s.files, Claim(s.files, listing.value, writes).0);
      }
    case CompleteJob(worker, run, write) =>
      assert HolderOk(s, Worker(worker)) && WellNamed(s.files);
      FinishCounts(s.files, s.completed, s.holders[Worker(worker)].id, run, write);
      hide Finish;
    case EnqueueJob(job, pending, running, write) =>
      EnqueueOk(s.files, s.maxJobs, job, pending, running, write);
      SameOf(s.files, t.files, Completed);
    case _ =>
  }

  lemma FinishCounts(files: Files, completed: nat, id: string, run: RunResult, write: Write)
    requires WellNamed(files) && Has(files, id, Running)
    ensures var (after, n) := Finish(files, completed, id, run, write);
            n - completed == |Of(after, Completed)| - |Of(files, Completed)|
                             + if run.RunOk? && run.result.Some? && (write.NotWritten? || write.Torn?) then 1 else 0
  {
    var (after, n) := Finish(files, completed, id, run, write);
    hide Of;
    if run.RunOk? && run.result.Some? && (write.Written? || write.WrittenWithError?) {
      OneMoreOf(files, after, id, Completed);
    } else {
      SameOf(files, after, Completed);
    }
  }

  lemma SameOf(before: Files, after: Files, status: Status)
    requires forall id :: Has(before, id, status) <==> Has(after, id, status)
    ensures Of(after, status) == Of(before, status)
  {
  }

  lemma OneMoreOf(before: Files, after: Files, id: string, status: Status)
    requires !Has(before, id, status) && forall other :: Has(after, other, status) <==> Has(before, other, status) || other == id
    ensures Of(after, status) == Of(before, status) + {id} && |Of(after, status)| == |Of(before, status)| + 1
  {
  }

  /**
   * From any start, a counter included: it gains as many as there are new completed records, and one for each completion
   * whose record was not written. So it runs ahead of the records exactly when there was such a completion.
   */
  lemma {:induction false} CompletedAreCounted(s: State, run: seq<Step>)
    requires Inv(s) && CanRun(s, run)
    ensures var t := RunFrom(s, run);
            t.completed - s.completed == |Of(t.files, Completed)| - |Of(s.files, Completed)| + MiscountsIn(run)
    ensures MiscountsIn(run) > 0 <==> exists step :: step in run && Miscounts(step)
    decreases |run|
  {
    hide Inv, Enabled, Next, Of, Miscounts;
    if run != [] {
      StepCountsInv(s, run[0]);
      CompletedAreCounted(Next(s, run[0]), run[1..]);
      assert forall step :: step in run <==> step == run[0] || step in run[1..];
    }
  }

  lemma StepCountsInv(s: State, step: Step)
    requires Inv(s) && Enabled(s, step)
    ensures var t := Next(s, step);
            && Inv(t)
            && t.completed - s.completed == |Of(t.files, Completed)| - |Of(s.files, Completed)| + if Miscounts(step) then 1 else 0
  {
    hide JobsOk, SlotsOk, Enabled, Next, Of, Miscounts;
    StepKeepsInv(s, step);
    StepCounts(s, step);
  }

  /** What any one step of a run does to a job: pending to running, running to completed or failed, or nothing. */
  lemma JobsStep(s: State, run: seq<Step>, k: nat, id: string)
    requires Init(s) && CanRun(s, run) && k < |run|
    ensures FileSteps(After(s, run, k).files, After(s, run, k + 1).files, id)
  {
    InitInv(s);
    StepAt(s, run, k);
    hide SlotsOk, JobsOk, Enabled, Next, After, FileSteps;
    StepStepsFiles(After(s, run, k), run[k], id);
  }

  /** Waiting and running jobs stay within the limit throughout a run exactly when no enqueue meets the failing guard. */
  lemma JobsBoundedIff(s: State, run: seq<Step>)
    requires Init(s) && CanRun(s, run) && |Live(s.files)| <= s.maxJobs
    ensures (forall k: nat :: k <= |run| ==> Bounded(s, run, k)) <==> NoOverrun(s, run, |run|)
  {
    InitInv(s);
    hide Inv, Init, Overruns, Enabled, Next, After, Bounded, Live;
    if NoOverrun(s, run, |run|) {
      forall k: nat | k <= |run|
        ensures Bounded(s, run, k)
      {
        BoundedIf(s, run, k);
      }
    }
    if forall k: nat :: k <= |run| ==> Bounded(s, run, k) {
      forall i: nat | i < |run|
        ensures !Overruns(After(s, run, i), run[i])
      {
        assert Bounded(s, run, i) && Bounded(s, run, i + 1);
        StepBound(s, run, i);
      }
    }
  }

  /** In particular as long as the directory could be read for each count. */
  lemma JobsBounded(s: State, run: seq<Step>)
    requires Init(s) && CanRun(s, run) && |Live(s.files)| <= s.maxJobs
    requires forall step :: step in run ==> Listed(step)
    ensures |Live(RunFrom(s, run).files)| <= s.maxJobs
  {
    InitInv(s);
    AfterAll(s, run);
    forall i: nat | i < |run|
      ensures !Overruns(After(s, run, i), run[i])
    {
      assert run[i] in run;
      StepAt(s, run, i);
      ListedNeverOverruns(After(s, run, i), run[i]);
    }
    hide Inv, Init, Overruns, Enabled, Next, After, Live, Listed;
    BoundedIf(s, run, |run|);
  }

  lemma RunOfTwo(s: State, a: Step, b: Step)
    requires Enabled(s, a) && Enabled(Next(s, a), b)
    ensures CanRun(s, [a, b]) && RunFrom(s, [a, b]) == Next(Next(s, a), b)
  {
    hide Enabled, Next;
    assert [a, b][1..] == [b] && [b][1..] == [];
    assert CanRun(Next(s, a), [b]) && RunFrom(Next(s, a), [b]) == Next(Next(s, a), b);
  }

  lemma BlindEnqueue(s: State, job: Job)
    requires s.maxJobs > 0 && job.id !in s.files && job == NewJob(job.id, job.kind, job.requestId, job.body)
    ensures var step := EnqueueJob(job, None, None, Written);
            Enabled(s, step) && Next(s, step) == s.(files := s.files[job.id := Record(job)])
  {
  }

  /** Without that they need not: a directory that cannot be read counts as empty. */
  lemma UnreadableDirectoryOverrun()
    ensures var s := State(8, 0, map[], 1, map[], 0, []);
            var run := [EnqueueJob(NewJob("a", "chat", "", ""), None, None, Written),
                        EnqueueJob(NewJob("b", "chat", "", ""), None, None, Written)];
            Init(s) && CanRun(s, run) && |Live(RunFrom(s, run).files)| > s.maxJobs
  {
    var s := State(8, 0, map[], 1, map[], 0, []);
    var run := [EnqueueJob(NewJob("a", "chat", "", ""), None, None, Written),
                EnqueueJob(NewJob("b", "chat", "", ""), None, None, Written)];
    BlindEnqueue(s, run[0].job);
    var s1 := Next(s, run[0]);
    BlindEnqueue(s1, run[1].job);
    var s2 := Next(s1, run[1]);
    RunOfTwo(s, run[0], run[1]);
    hide Enabled, Next, CanRun, RunFrom;
    assert Has(s2.files, "a", Pending) && Has(s2.files, "b", Pending);
    SubsetSize({"a", "b"}, Live(s2.files));
  }

  /** With a single slot a job that is being executed can never get the second slot its chat call asks for. */
  lemma LoneSlotStarvesJob(s: State, run: seq<Step>, worker: nat, n: nat)
    requires Init(s) && s.capacity == 1 && CanRun(s, run)
    requires Worker(worker) in RunFrom(s, run).holders
    ensures !Enabled(RunFrom(s, run), AcquireRequest(n, Some(worker)))
  {
    SlotsAreExact(s, run);
    RunLimit(s, run);
    var t := RunFrom(s, run);
    assert Worker(worker) in t.holders.Keys;
    hide Next, CanRun, RunFrom, Init;
  }

  lemma {:induction false} RunLimit(s: State, run: seq<Step>)
    requires CanRun(s, run)
    ensures RunFrom(s, run).capacity == s.capacity
    decreases |run|
  {
    hide Next, Enabled;
    if run != [] {
      SameLimit(s, run[0]);
      RunLimit(Next(s, run[0]), run[1..]);
    }
  }
}
