/** The first-in first-out queue of pipelines the workers draw from. Its
    lock only serialises the operations below, each of which is modelled as
    one atomic step. */
module PipelineQueues {
  import opened Wrappers
  import opened Jobs

  class PipelineQueue {
    /** Oldest first. */
    var pipelines: seq<Pipeline>

    /** `NewPipelineQueue`: a new queue is empty. */
    constructor ()
      ensures pipelines == []
      ensures Len() == 0
    {
      pipelines := [];
    }

    function Len(): (n: nat)
      reads this
      ensures n == |pipelines|
    {
      |pipelines|
    }

    function IsEmpty(): (b: bool)
      reads this
      ensures b <==> Len() == 0
      ensures b <==> pipelines == []
    {
      Len() == 0
    }

    /** `Peek`: the oldest pipeline, or nothing for an empty queue. */
    function Peek(): (r: Option<Pipeline>)
      reads this
      ensures r.None? <==> IsEmpty()
      ensures r.Some? ==> r.value == pipelines[0]
    {
      if |pipelines| == 0 then None else Some(pipelines[0])
    }

    /** `Enqueue`: the pipeline joins at the back, stamped with the time of
        enqueueing; everything already queued keeps its order. */
    method Enqueue(p: Pipeline, now: Time)
      modifies this, p
      ensures pipelines == old(pipelines) + [p]
      ensures Len() == old(Len()) + 1
      ensures p.enqueuedAt == now
      ensures p.jobs == old(p.jobs) && p.buildingIds == old(p.buildingIds)
      ensures p.pipelineId == old(p.pipelineId) && p.createdAt == old(p.createdAt)
    {
      p.enqueuedAt := now;
      pipelines := pipelines + [p];
    }

    /** `Dequeue`: nothing, with the queue unchanged, when it is empty;
        otherwise exactly what `Peek` shows, which leaves the queue. */
    method Dequeue() returns (r: Option<Pipeline>)
      modifies this
      ensures r == old(Peek())
      ensures old(IsEmpty()) ==> pipelines == old(pipelines)
      ensures !old(IsEmpty()) ==> old(pipelines) == [r.value] + pipelines
    {
      if |pipelines| == 0 {
        return None;
      }
      r := Some(pipelines[0]);
      pipelines := pipelines[1..];
    }

    /** `Clear` empties the queue. */
    method Clear()
      modifies this
      ensures pipelines == []
      ensures IsEmpty()
    {
      pipelines := pipelines[..0];
    }
  }

  /** First in, first out: two pipelines enqueued onto an empty queue come
      out in the order they went in, and the queue is empty again. */
  method FifoOrder(a: Pipeline, b: Pipeline, t1: Time, t2: Time) returns (first: Option<Pipeline>, second: Option<Pipeline>, third: Option<Pipeline>)
    modifies a, b
    ensures first == Some(a) && second == Some(b) && third == None
  {
    var q := new PipelineQueue();
    q.Enqueue(a, t1);
    q.Enqueue(b, t2);
    assert q.pipelines == [a, b];
    first := q.Dequeue();
    assert q.pipelines == [a, b][1..] == [b];
    second := q.Dequeue();
    third := q.Dequeue();
  }
}
