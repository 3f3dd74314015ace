/** `map_with_concurrency`: contiguous index ranges handed to a bounded number of workers. */
module Fanout {
  import opened Collections

  datatype Range = Range(start: nat, end: nat)

  /** The indices from `lo` up to `hi`. */
  function Indices(lo: nat, hi: nat): (r: seq<nat>)
    requires lo <= hi
    ensures |r| == hi - lo
  {
    seq(hi - lo, k requires 0 <= k < hi - lo => lo + k)
  }

  /** All indices the workers visit, worker by worker. */
  function Visited(ranges: seq<Range>): seq<nat>
    requires forall r :: r in ranges ==> r.start <= r.end
  {
    if ranges == [] then []
    else
      var n := |ranges| - 1;
      assert forall r :: r in ranges[..n] ==> r in ranges;
      Visited(ranges[..n]) + Indices(ranges[n].start, ranges[n].end)
  }

  function CeilDiv(a: nat, b: nat): (q: nat)
    requires b > 0
  {
    (a + b - 1) / b
  }

  lemma CeilDivCovers(a: nat, b: nat)
    requires b > 0
    ensures b * CeilDiv(a, b) >= a
  {
  }

  lemma VisitedSnoc(ranges: seq<Range>, r: Range, covered: nat)
    requires (forall x :: x in ranges ==> x.start < x.end) && r.start == covered < r.end
    requires Visited(ranges) == Indices(0, covered)
    ensures Visited(ranges + [r]) == Indices(0, r.end)
  {
    assert (ranges + [r])[..|ranges|] == ranges;
  }

  /** One contiguous, non-empty range per worker; together they visit every index once, in order. */
  method SpawnRanges(count: nat, limit: nat) returns (ranges: seq<Range>)
    requires 1 <= limit <= count
    ensures |ranges| <= limit && (forall r :: r in ranges ==> r.start < r.end)
    ensures Visited(ranges) == Indices(0, count)
  {
    var chunk := CeilDiv(count, limit);
    CeilDivCovers(count, limit);
    ranges := [];
    var start := 0;
    ghost var covered := 0;
    for worker := 0 to limit
      invariant |ranges| <= worker && start == worker * chunk && covered == Min(start, count)
      invariant forall r :: r in ranges ==> r.start < r.end
      invariant Visited(ranges) == Indices(0, covered)
    {
      if start >= count {
        return;
      }
      var end := Min(start + chunk, count);
      VisitedSnoc(ranges, Range(start, end), covered);
      ranges := ranges + [Range(start, end)];
      covered := end;
      assert (worker + 1) * chunk == worker * chunk + chunk;
      start := start + chunk;
    }
  }

  method RunWorker<T>(start: nat, end: nat, f: nat -> T) returns (out: seq<T>)
    requires start <= end
    ensures |out| == end - start && forall k :: 0 <= k < |out| ==> out[k] == f(start + k)
  {
    out := [];
    for index := start to end
      invariant |out| == index - start && forall k :: 0 <= k < |out| ==> out[k] == f(start + k)
    {
      out := out + [f(index)];
    }
  }

  /**
   * Every index is visited exactly once and in order across the workers, at most
   * min(max(concurrency, 1), count) workers run, and the results are the map over 0..count.
   */
  method MapWithConcurrency<T>(count: nat, concurrency: nat, f: nat -> T)
    returns (results: seq<T>, ranges: seq<Range>)
    ensures |results| == count && forall i :: 0 <= i < count ==> results[i] == f(i)
    ensures |ranges| <= Min(Max(concurrency, 1), count)
    ensures forall r :: r in ranges ==> r.start < r.end
    ensures Visited(ranges) == Indices(0, count)
  {
    results, ranges := [], [];
    if count == 0 {
      return;
    }
    ranges := SpawnRanges(count, Min(Max(concurrency, 1), count));
    for w := 0 to |ranges|
      invariant |results| == |Visited(ranges[..w])|
      invariant forall i :: 0 <= i < |results| ==> results[i] == f(Visited(ranges[..w])[i])
    {
      assert ranges[..w + 1][..w] == ranges[..w];
      var out := RunWorker(ranges[w].start, ranges[w].end, f);
      results := results + out;
    }
    assert ranges[..|ranges|] == ranges;
  }
}
