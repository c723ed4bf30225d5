/** The request drain of D0 exit: every queued request is completed as cancelled, in queue order. */
module Drain {
  import opened Ntdef

  /** An outstanding request of the HID queue, known by its handle. */
  datatype Request = Request(handle: nat)

  /** One call of WdfRequestComplete. */
  datatype Completion = Completion(request: Request, status: Status)

  /** The completions a drain of the queue makes, head first. */
  function CancelAll(queue: seq<Request>): (log: seq<Completion>)
    decreases |queue|
  {
    if queue == [] then [] else [Completion(queue[0], StatusCancelled)] + CancelAll(queue[1..])
  }

  /** The requests a sequence of completions completes, in order. */
  function CompletedRequests(log: seq<Completion>): (requests: seq<Request>)
    decreases |log|
  {
    if log == [] then [] else [log[0].request] + CompletedRequests(log[1..])
  }

  lemma {:induction false} CancelAllAppend(queue: seq<Request>, r: Request)
    ensures CancelAll(queue + [r]) == CancelAll(queue) + [Completion(r, StatusCancelled)]
    decreases |queue|
  {
    if queue == [] {
      assert queue + [r] == [r];
    } else {
      assert (queue + [r])[0] == queue[0];
      assert (queue + [r])[1..] == queue[1..] + [r];
      CancelAllAppend(queue[1..], r);
    }
  }

  /** The i-th completion of a drain completes the i-th request of the queue, with STATUS_CANCELLED. */
  lemma {:induction false} CancelAllInOrder(queue: seq<Request>)
    ensures |CancelAll(queue)| == |queue|
    ensures forall i :: 0 <= i < |queue| ==> CancelAll(queue)[i] == Completion(queue[i], StatusCancelled)
    decreases |queue|
  {
    if queue != [] {
      CancelAllInOrder(queue[1..]);
    }
  }

  /** A drain completes exactly the requests of the queue, in FIFO order. */
  lemma {:induction false} CancelAllCompletesQueue(queue: seq<Request>)
    ensures CompletedRequests(CancelAll(queue)) == queue
    decreases |queue|
  {
    if queue != [] {
      CancelAllCompletesQueue(queue[1..]);
    }
  }

  /** Each request is completed as often as it was queued: once, for a queue of distinct requests. */
  lemma CancelAllExactlyOnce(queue: seq<Request>, r: Request)
    ensures multiset(CompletedRequests(CancelAll(queue)))[r] == multiset(queue)[r]
  {
    CancelAllCompletesQueue(queue);
  }
}
