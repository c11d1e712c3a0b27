/**
 * `mergeStreams` (src/agent/mergeStreams.ts): one output stream fed by several sources. Each
 * source's `data`, `end` and `error` callbacks are the methods of `MergedStream`; the ghost
 * fields record what the sources did, so the invariant can relate the output to them.
 */
module MergeStreams {

  /** The source indexes `0 .. n - 1`. */
  function Range(n: nat): (r: set<nat>)
    ensures forall i: nat :: i in r <==> i < n
    ensures |r| == n
  {
    if n == 0 then {} else
      var r := Range(n - 1) + {n - 1};
      assert n - 1 !in Range(n - 1);
      r
  }

  /** The chunks of `output` that came from source `i`, in output order. */
  function Project(output: seq<string>, origin: seq<nat>, i: nat): seq<string>
    requires |origin| == |output|
  {
    if |output| == 0 then []
    else
      var init := Project(output[..|output| - 1], origin[..|origin| - 1], i);
      if origin[|origin| - 1] == i then init + [output[|output| - 1]] else init
  }

  /** How many output chunks sources `0 .. n - 1` account for together. */
  function ProjectedLength(output: seq<string>, origin: seq<nat>, n: nat): nat
    requires |origin| == |output|
  {
    if n == 0 then 0 else ProjectedLength(output, origin, n - 1) + |Project(output, origin, n - 1)|
  }

  /** Before any data, no source accounts for any output chunk. */
  lemma {:induction false} NothingProjected(n: nat)
    ensures ProjectedLength([], [], n) == 0
  {
    if n > 0 {
      NothingProjected(n - 1);
    }
  }

  /** One more chunk from source `src < n` adds one to the total. */
  lemma {:induction false} ProjectedLengthStep(output: seq<string>, origin: seq<nat>, chunk: string, src: nat, n: nat)
    requires |origin| == |output|
    ensures ProjectedLength(output + [chunk], origin + [src], n)
         == ProjectedLength(output, origin, n) + (if src < n then 1 else 0)
  {
    var o, g := output + [chunk], origin + [src];
    assert o[..|o| - 1] == output && g[..|g| - 1] == origin;
    if n > 0 {
      ProjectedLengthStep(output, origin, chunk, src, n - 1);
    }
  }

  /**
   * The output is an interleaving of the sources: every chunk belongs to exactly one source,
   * so the sources' projections together are as long as the output.
   */
  lemma {:induction false} OutputIsInterleaving(output: seq<string>, origin: seq<nat>, n: nat)
    requires |origin| == |output|
    requires forall j :: 0 <= j < |origin| ==> origin[j] < n
    ensures ProjectedLength(output, origin, n) == |output|
  {
    if |output| > 0 {
      var o, g := output[..|output| - 1], origin[..|origin| - 1];
      OutputIsInterleaving(o, g, n);
      ProjectedLengthStep(o, g, output[|output| - 1], origin[|origin| - 1], n);
      assert o + [output[|output| - 1]] == output && g + [origin[|origin| - 1]] == origin;
    } else {
      NothingProjected(n);
    }
  }

  /** How many chunks sources `0 .. n - 1` delivered together. */
  function TotalLength(received: seq<seq<string>>, n: nat): nat
    requires n <= |received|
  {
    if n == 0 then 0 else TotalLength(received, n - 1) + |received[n - 1]|
  }

  /** When each source's projection is what it delivered, the totals agree. */
  lemma {:induction false} ProjectedTotals(output: seq<string>, origin: seq<nat>, received: seq<seq<string>>, n: nat)
    requires |origin| == |output| && n <= |received|
    requires forall i :: 0 <= i < n ==> Project(output, origin, i) == received[i]
    ensures ProjectedLength(output, origin, n) == TotalLength(received, n)
  {
    if n > 0 {
      ProjectedTotals(output, origin, received, n - 1);
    }
  }

  class MergedStream {
    const sources: nat
    /** The source's counter of sources that have not ended. */
    var remaining: int
    /** Whether `merged.end()` has been called. */
    var ended: bool
    /** The chunks written to the merged stream, in order. */
    var output: seq<string>
    /** The errors re-emitted on the merged stream, in order. */
    var errors: seq<string>

    ghost var endCalls: nat
    /** The sources that have not ended yet. */
    ghost var open: set<nat>
    /** The chunks each source has delivered. */
    ghost var received: seq<seq<string>>
    /** The source of each output chunk. */
    ghost var origin: seq<nat>

    ghost predicate Valid()
      reads this
    {
      && |received| == sources
      && |origin| == |output|
      && (forall j :: 0 <= j < |origin| ==> origin[j] < sources)
      && (forall i :: i in open ==> i < sources)
      && remaining == |open|
      && endCalls == (if open == {} then 1 else 0)
      && ended == (endCalls == 1)
      && (forall i :: 0 <= i < sources ==> Project(output, origin, i) == received[i])
    }

    /**
     * Nothing is lost or duplicated: the merged stream holds exactly as many chunks as all the
     * sources delivered.
     */
    lemma OutputCountsReceived()
      requires Valid()
      ensures |output| == TotalLength(received, sources)
    {
      ProjectedTotals(output, origin, received, sources);
      OutputIsInterleaving(output, origin, sources);
    }

    /** `mergeStreams(streams)` with `n` streams; with none the result has ended already. */
    constructor(n: nat)
      ensures Valid()
      ensures sources == n && open == Range(n)
      ensures output == [] && errors == [] && received == seq(n, _ => [])
      ensures ended <==> n == 0
    {
      sources := n;
      remaining := n;
      output := [];
      errors := [];
      origin := [];
      received := seq(n, _ => []);
      open := Range(n);
      ended := n == 0;
      endCalls := if n == 0 then 1 else 0;
    }

    /** Source `i` delivers a chunk: it goes straight to the output. */
    method OnData(i: nat, chunk: string)
      requires Valid() && i in open
      modifies this
      ensures Valid()
      ensures output == old(output) + [chunk]
      ensures received == old(received)[i := old(received)[i] + [chunk]]
      ensures open == old(open) && ended == old(ended) && errors == old(errors)
    {
      output := output + [chunk];
      origin := origin + [i];
      received := received[i := received[i] + [chunk]];
      forall k | 0 <= k < sources
        ensures Project(output, origin, k) == received[k]
      {
        assert output[..|output| - 1] == old(output) && origin[..|origin| - 1] == old(origin);
      }
    }

    /** Source `i` ends: the count drops, and the last one to end ends the output. */
    method OnEnd(i: nat)
      requires Valid() && i in open
      modifies this
      ensures Valid()
      ensures open == old(open) - {i}
      ensures ended <==> open == {}
      ensures output == old(output) && errors == old(errors) && received == old(received)
    {
      open := open - {i};
      remaining := remaining - 1;
      if remaining == 0 {
        ended := true;
        endCalls := endCalls + 1;
      }
    }

    /** An error on any source is re-emitted, whatever the count. */
    method OnError(i: nat, error: string)
      requires Valid() && i < sources
      modifies this
      ensures Valid()
      ensures errors == old(errors) + [error]
      ensures output == old(output) && open == old(open) && ended == old(ended)
    {
      errors := errors + [error];
    }
  }
}
