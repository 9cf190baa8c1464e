/** The bounded tail of a worker's output (`appendBoundedTail` in src/job-scheduler.ts). */
module OutputTail {

  /** The last `n` bytes, or all of them if there are fewer. */
  function LastBytes<T>(s: seq<T>, n: nat): seq<T> {
    if |s| <= n then s else s[|s| - n..]
  }

  function AppendBoundedTail<T>(current: seq<T>, incoming: seq<T>, limit: nat): (r: seq<T>)
    ensures |r| <= limit || r == current + incoming
  {
    if |incoming| >= limit then incoming[|incoming| - limit..]
    else
      var combined := if |current| > 0 then current + incoming else incoming;
      if |combined| <= limit then combined else combined[|combined| - limit..]
  }

  /** What has been kept of the stream so far is enough: nothing older can come back. */
  lemma TailOfTail<T>(stream: seq<T>, incoming: seq<T>, limit: nat)
    ensures AppendBoundedTail(LastBytes(stream, limit), incoming, limit) == LastBytes(stream + incoming, limit)
  {
    var all := stream + incoming;
    if |incoming| >= limit {
      assert all[|all| - limit..] == incoming[|incoming| - limit..];
    } else if |stream| > limit {
      var combined := stream[|stream| - limit..] + incoming;
      assert combined[|combined| - limit..] == all[|all| - limit..];
    } else {
      assert stream == [] ==> all == incoming;
    }
  }

  function Concat<T>(chunks: seq<seq<T>>): seq<T> {
    if chunks == [] then [] else Concat(chunks[..|chunks| - 1]) + chunks[|chunks| - 1]
  }

  function Fold<T>(chunks: seq<seq<T>>, limit: nat): seq<T> {
    if chunks == [] then [] else AppendBoundedTail(Fold(chunks[..|chunks| - 1], limit), chunks[|chunks| - 1], limit)
  }

  /** However a stream is cut into chunks, folding them in gives its last `limit` bytes. */
  lemma {:induction false} FoldIsTail<T>(chunks: seq<seq<T>>, limit: nat)
    ensures Fold(chunks, limit) == LastBytes(Concat(chunks), limit)
  {
    if chunks != [] {
      FoldIsTail(chunks[..|chunks| - 1], limit);
      TailOfTail(Concat(chunks[..|chunks| - 1]), chunks[|chunks| - 1], limit);
    }
  }

  /** Two ways of cutting the same stream leave the same tail. */
  lemma ChunkingIsInvisible<T>(a: seq<seq<T>>, b: seq<seq<T>>, limit: nat)
    requires Concat(a) == Concat(b)
    ensures Fold(a, limit) == Fold(b, limit)
  {
    FoldIsTail(a, limit);
    FoldIsTail(b, limit);
  }

  /** One output stream of a worker: the tail reference that its `data` listener replaces. */
  class StreamTail {
    const limit: nat
    var current: seq<bv8>
    ghost var received: seq<bv8>

    ghost predicate Valid()
      reads this
    {
      current == LastBytes(received, limit)
    }

    constructor (limit: nat)
      ensures Valid() && received == [] && this.limit == limit
    {
      this.limit, current, received := limit, [], [];
    }

    method OnData(chunk: seq<bv8>)
      requires Valid()
      modifies this
      ensures Valid() && received == old(received) + chunk
    {
      TailOfTail(received, chunk, limit);
      current := AppendBoundedTail(current, chunk, limit);
      received := received + chunk;
    }
  }
}
