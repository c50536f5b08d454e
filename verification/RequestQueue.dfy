/** The slot queue of pkg/requestqueue/queue.go and how pkg/llmclient/client.go takes and returns slots. */
module RequestQueue {

  const DEFAULT_CONCURRENT: nat := 8

  function CapacityOf(maxConcurrent: int): (c: nat)
    ensures c > 0 && (maxConcurrent > 0 ==> c == maxConcurrent)
  {
    if maxConcurrent <= 0 then DEFAULT_CONCURRENT else maxConcurrent
  }

  /** What the waiting call sees first: a free slot, its deadline, or the end of its context. */
  datatype Wake = Slot | Deadline | Cancelled

  datatype Outcome = Acquired | QueueTimeout | ContextError

  /** The slots in use after a release; one too many would go unnoticed. */
  function Released(inUse: nat): (n: nat)
    ensures n + 1 == inUse || (n == 0 && inUse == 0)
  {
    if inUse > 0 then inUse - 1 else 0
  }

  class Queue {
    const capacity: nat
    var inUse: nat

    ghost predicate Valid()
      reads this
    {
      0 < capacity && inUse <= capacity
    }

    constructor (maxConcurrent: int)
      ensures Valid() && capacity == CapacityOf(maxConcurrent) && inUse == 0
    {
      capacity := CapacityOf(maxConcurrent);
      inUse := 0;
    }

    /** The send on the channel can only be picked while the channel has room. */
    method Acquire(wake: Wake) returns (outcome: Outcome)
      requires Valid() && (wake.Slot? ==> inUse < capacity)
      modifies this
      ensures Valid()
      ensures outcome.Acquired? <==> wake.Slot?
      ensures outcome.QueueTimeout? <==> wake.Deadline?
      ensures inUse == old(inUse) + if outcome.Acquired? then 1 else 0
    {
      match wake
      case Slot =>
        inUse := inUse + 1;
        return Acquired;
      case Deadline => return QueueTimeout;
      case Cancelled => return ContextError;
    }

    method Release()
      requires Valid()
      modifies this
      ensures Valid() && inUse == Released(old(inUse))
    {
      if inUse > 0 {
        inUse := inUse - 1;
      }
    }

    method InFlight() returns (n: nat)
      requires Valid()
      ensures n == inUse <= capacity
    {
      n := inUse;
    }
  }

  datatype Sent = Refused(outcome: Outcome) | SendError | Streaming

  /** A stream that was handed out holds its slot until it ends; every error path gives the slot back. */
  method SendMessage(queue: Queue?, wake: Wake, runnerAnswers: bool) returns (sent: Sent)
    requires queue != null ==> queue.Valid() && (wake.Slot? ==> queue.inUse < queue.capacity)
    modifies if queue != null then {queue} else {}
    ensures sent.Refused? <==> queue != null && !wake.Slot?
    ensures sent.Streaming? <==> runnerAnswers && !sent.Refused?
    ensures queue != null ==>
              queue.Valid() && queue.inUse == old(queue.inUse) + if sent.Streaming? then 1 else 0
  {
    if queue != null {
      var outcome := queue.Acquire(wake);
      if !outcome.Acquired? {
        return Refused(outcome);
      }
    }
    if !runnerAnswers {
      if queue != null {
        queue.Release();
      }
      return SendError;
    }
    return Streaming;
  }

  /** The forwarder of an open stream: it copies the chunks and returns the slot when they end. */
  method Forward<T>(queue: Queue?, chunks: seq<T>) returns (out: seq<T>)
    requires queue != null ==> queue.Valid() && queue.inUse > 0
    modifies if queue != null then {queue} else {}
    ensures out == chunks
    ensures queue != null ==> queue.Valid() && queue.inUse == old(queue.inUse) - 1
  {
    out := [];
    for i := 0 to |chunks|
      invariant out == chunks[..i]
    {
      out := out + [chunks[i]];
    }
    if queue != null {
      queue.Release();
    }
  }
}
