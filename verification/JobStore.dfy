/** The persistent job directory of internal/service/job_store.go. */
module JobStore {
  import opened Options

  datatype Status = Pending | Running | Completed | Failed

  datatype Job = Job(id: string, kind: string, requestId: string, status: Status, body: string,
                     result: string, error: string)

  /** A file of the directory: a job record, or bytes that cannot be read as one. */
  datatype File = Record(job: Job) | Unreadable

  type Files = map<string, File>

  /** What a write did: an error may leave the old file, the new one, or half of it. */
  datatype Write = Written | WrittenWithError | NotWritten | Torn

  const DEFAULT_MAX_JOBS: nat := 256

  function MaxJobsOf(maxJobs: int): (n: nat)
    ensures n > 0 && (maxJobs > 0 ==> n == maxJobs)
  {
    if maxJobs <= 0 then DEFAULT_MAX_JOBS else maxJobs
  }

  function Read(files: Files, id: string): Option<Job> {
    if id in files && files[id].Record? then Some(files[id].job) else None
  }

  function Saved(files: Files, job: Job, write: Write): Files {
    match write
    case Written => files[job.id := Record(job)]
    case WrittenWithError => files[job.id := Record(job)]
    case NotWritten => files
    case Torn => files[job.id := Unreadable]
  }

  predicate Has(files: Files, id: string, status: Status) {
    var job := Read(files, id);
    job.Some? && job.value.status == status
  }

  /** How many of the listed names hold a job of the status. */
  function Count(files: Files, names: seq<string>, status: Status): nat {
    if names == [] then 0
    else
      var last := names[|names| - 1];
      Count(files, names[..|names| - 1], status) + if Has(files, last, status) then 1 else 0
  }

  /** A directory that cannot be listed counts as empty. */
  function CountListed(files: Files, listing: Option<seq<string>>, status: Status): nat {
    if listing.Some? then Count(files, listing.value, status) else 0
  }

  /** The claim takes the first pending job of the listing whose record could be written. */
  function Claim(files: Files, names: seq<string>, writes: seq<Write>): (Files, Option<Job>)
    requires |writes| == |names|
    decreases |names|
  {
    if names == [] then (files, None)
    else if !Has(files, names[0], Pending) then Claim(files, names[1..], writes[1..])
    else
      var job := files[names[0]].job.(status := Running);
      var saved := Saved(files, job, writes[0]);
      if writes[0].Written? then (saved, Some(job)) else Claim(saved, names[1..], writes[1..])
  }

  datatype RunResult = RunError(message: string) | RunOk(result: Option<string>)

  datatype Reply = Ok(id: string) | Error

  /** The new files and the new number of completed jobs. */
  function Finish(files: Files, completed: nat, id: string, run: RunResult, write: Write): (Files, nat) {
    match Read(files, id)
    case None => (files, completed)
    case Some(job) =>
      match run
      case RunError(message) => (Saved(files, job.(status := Failed, error := message), write), completed)
      case RunOk(None) => (files, completed)
      case RunOk(Some(result)) =>
        (Saved(files, job.(status := Completed, result := result), write), completed + 1)
  }

  function NewJob(id: string, kind: string, requestId: string, body: string): Job {
    Job(id, kind, requestId, Pending, body, "", "")
  }

  /** The files after an enqueue; `body` is None when it could not be encoded. */
  function Enqueued(files: Files, maxJobs: nat, job: Job, pending: Option<seq<string>>, running: Option<seq<string>>,
                    write: Write): Files
  {
    if CountListed(files, pending, Pending) + CountListed(files, running, Running) >= maxJobs then files
    else Saved(files, job, write)
  }

  class Store {
    const maxJobs: nat
    var files: Files
    var completed: nat

    constructor (maxJobs: int, files: Files)
      ensures this.maxJobs == MaxJobsOf(maxJobs) && this.files == files && completed == 0
    {
      this.maxJobs := MaxJobsOf(maxJobs);
      this.files := files;
      completed := 0;
    }

    method CountLocked(listing: Option<seq<string>>, status: Status) returns (n: nat)
      ensures n == CountListed(files, listing, status)
    {
      if listing.None? {
        return 0;
      }
      var names := listing.value;
      n := 0;
      for i := 0 to |names|
        invariant n == Count(files, names[..i], status)
      {
        assert names[..i + 1][..i] == names[..i];
        if names[i] in files && files[names[i]].Record? && files[names[i]].job.status == status {
          n := n + 1;
        }
      }
      assert names[..|names|] == names;
    }

    method WriteLocked(job: Job, write: Write) returns (ok: bool)
      modifies this`files
      ensures files == Saved(old(files), job, write) && (ok <==> write.Written?)
    {
      match write {
        case Written => files := files[job.id := Record(job)];
        case WrittenWithError => files := files[job.id := Record(job)];
        case NotWritten =>
        case Torn => files := files[job.id := Unreadable];
      }
      ok := write.Written?;
    }

    /** `id` is the fresh uuid, the listings are what reading the directory gave each of the two counts. */
    method Enqueue(id: string, kind: string, requestId: string, body: Option<string>,
                   pending: Option<seq<string>>, running: Option<seq<string>>, write: Write)
      returns (reply: Reply)
      modifies this`files
      ensures body.None? ==> reply == Error && files == old(files)
      ensures body.Some? ==>
                files == Enqueued(old(files), maxJobs, NewJob(id, kind, requestId, body.value), pending, running, write)
      ensures reply.Ok? <==> && body.Some? && write.Written?
                             && CountListed(old(files), pending, Pending) + CountListed(old(files), running, Running) < maxJobs
      ensures reply.Ok? ==> reply.id == id && Read(files, id) == Some(NewJob(id, kind, requestId, body.value))
    {
      if body.None? {
        return Error;
      }
      var p := CountLocked(pending, Pending);
      var r := CountLocked(running, Running);
      if p + r >= maxJobs {
        return Error;
      }
      var ok := WriteLocked(Job(id, kind, requestId, Pending, body.value, "", ""), write);
      return if ok then Ok(id) else Error;
    }

    method ClaimNext(listing: Option<seq<string>>, writes: seq<Write>) returns (claimed: Option<Job>)
      requires listing.Some? ==> |writes| == |listing.value|
      modifies this`files
      ensures listing.None? ==> claimed == None && files == old(files)
      ensures listing.Some? ==> (files, claimed) == Claim(old(files), listing.value, writes)
    {
      if listing.None? {
        return None;
      }
      var names := listing.value;
      for i := 0 to |names|
        invariant Claim(old(files), names, writes) == Claim(files, names[i..], writes[i..])
      {
        assert names[i..][1..] == names[i + 1..] && writes[i..][1..] == writes[i + 1..];
        var read := Read(files, names[i]);
        if read.None? || read.value.status != Pending {
          continue;
        }
        var job := read.value.(status := Running);
        var ok := WriteLocked(job, writes[i]);
        if ok {
          return Some(job);
        }
      }
      return None;
    }

    method Complete(id: string, run: RunResult, write: Write) returns (reply: Reply)
      modifies this`files, this`completed
      ensures (files, completed) == Finish(old(files), old(completed), id, run, write)
      ensures reply.Ok? <==> && Read(old(files), id).Some? && write.Written?
                             && (run.RunError? || run.result.Some?)
    {
      var read := Read(files, id);
      if read.None? {
        return Error;
      }
      var job := read.value;
      match run {
        case RunError(message) => job := job.(status := Failed, error := message);
        case RunOk(result) =>
          job := job.(status := Completed);
          if result.None? {
            return Error;
          }
          job := job.(result := result.value);
          completed := completed + 1;
      }
      var ok := WriteLocked(job, write);
      return if ok then Ok(id) else Error;
    }
  }
}
