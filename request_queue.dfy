/** The waiter list of src/lib/request-queue.ts: the continuations of the
    requests parked behind an in-flight refresh, released all at once with
    one outcome. */
module RequestQueue {
  import opened Types

  /** The `{ resolve, reject }` pair of one parked request. Both closures
      capture that request's configuration, which is what the entry records. */
  datatype PromiseBuilder = PromiseBuilder(request: Request)

  /** The one outcome a release hands to every entry: `resolve(token)` or
      `reject(error)`. */
  datatype Outcome = Fulfil(token: Option<Token>) | Reject(error: Error)

  /** One callback invocation: the entry's `resolve` or `reject` called with
      the outcome's value. */
  datatype Settlement = Settlement(entry: PromiseBuilder, outcome: Outcome)

  /** The callback invocations of a release of `q`, in the order `forEach`
      makes them. */
  function Release(q: seq<PromiseBuilder>, outcome: Outcome): seq<Settlement>
    decreases |q|
  {
    if |q| == 0 then [] else Release(q[..|q| - 1], outcome) + [Settlement(q[|q| - 1], outcome)]
  }

  /** A release calls every entry once, in array order, each with the same
      outcome, and calls nothing else. */
  lemma {:induction false} ReleaseInOrder(q: seq<PromiseBuilder>, outcome: Outcome)
    ensures |Release(q, outcome)| == |q|
    ensures forall i :: 0 <= i < |q| ==> Release(q, outcome)[i] == Settlement(q[i], outcome)
    decreases |q|
  {
    if |q| > 0 {
      ReleaseInOrder(q[..|q| - 1], outcome);
    }
  }

  /** Parking more requests only adds their callbacks at the end. */
  lemma {:induction false} ReleaseAppend(q: seq<PromiseBuilder>, more: seq<PromiseBuilder>, outcome: Outcome)
    ensures Release(q + more, outcome) == Release(q, outcome) + Release(more, outcome)
    decreases |more|
  {
    if |more| == 0 {
      assert q + more == q;
    } else {
      var last := more[|more| - 1];
      assert (q + more)[..|q + more| - 1] == q + more[..|more| - 1];
      ReleaseAppend(q, more[..|more| - 1], outcome);
    }
  }

  class Queue {
    var queue: seq<PromiseBuilder>

    /** The given list becomes the initial queue; by default it is empty. */
    constructor (queue: seq<PromiseBuilder> := [])
      ensures this.queue == queue
    {
      this.queue := queue;
    }

    /** Appends a parked request at the tail. The library calls this member
        but its queue class does not define it; a tail append is the model's
        assumption. */
    method Enqueue(entry: PromiseBuilder)
      modifies this
      ensures queue == old(queue) + [entry]
    {
      queue := queue + [entry];
    }

    /** `resolve(token)`: every entry's `resolve` with `token`, then empty. */
    method Resolve(token: Option<Token>) returns (calls: seq<Settlement>)
      modifies this
      ensures calls == Release(old(queue), Fulfil(token))
      ensures queue == []
    {
      calls := ForEach(Fulfil(token));
      queue := [];
    }

    /** `decline(error)`: every entry's `reject` with `error`, then empty. */
    method Decline(error: Error) returns (calls: seq<Settlement>)
      modifies this
      ensures calls == Release(old(queue), Reject(error))
      ensures queue == []
    {
      calls := ForEach(Reject(error));
      queue := [];
    }

    /** The `forEach` walk shared by both releases. */
    method ForEach(outcome: Outcome) returns (calls: seq<Settlement>)
      ensures calls == Release(queue, outcome)
    {
      calls := [];
      var i := 0;
      while i < |queue|
        invariant 0 <= i <= |queue|
        invariant calls == Release(queue[..i], outcome)
      {
        assert queue[..i + 1][..i] == queue[..i];
        calls := calls + [Settlement(queue[i], outcome)];
        i := i + 1;
      }
      assert queue[..i] == queue;
    }
  }
}
