/**
 * Best-effort batching of permission tokens: a failed chunk is bisected until the
 * unacceptable items stand alone and are dropped.
 */
module BestEffort {
  import opened Common

  predicate AllAcceptable<T>(chunk: seq<T>, accept: T -> bool) {
    forall i :: 0 <= i < |chunk| ==> accept(chunk[i])
  }

  function Half(n: nat): nat { (n + 1) / 2 }

  /** Number of chunk submissions that bisecting the chunk takes. */
  function Calls<T>(chunk: seq<T>, accept: T -> bool): nat
    decreases |chunk|
  {
    if AllAcceptable(chunk, accept) || |chunk| <= 1 then 1
    else 1 + Calls(chunk[..Half(|chunk|)], accept) + Calls(chunk[Half(|chunk|)..], accept)
  }

  function BatchCalls<T>(items: seq<T>, chunkSize: nat, accept: T -> bool): nat
    requires 0 < chunkSize
    decreases |items|
  {
    if items == [] then 0
    else
      var k := Min(chunkSize, |items|);
      Calls(items[..k], accept) + BatchCalls(items[k..], chunkSize, accept)
  }

  /**
   * One best-effort operation.  The two constants describe the caller's runChunk: a chunk succeeds
   * exactly when all its items are acceptable, and a failed chunk commits nothing.
   */
  class Batcher<T, R> {
    const accept: T -> bool
    const mapped: T -> R
    var committed: seq<T>
    var calls: nat

    constructor (accept: T -> bool, mapped: T -> R)
      ensures this.accept == accept && this.mapped == mapped && committed == [] && calls == 0
    {
      this.accept, this.mapped, committed, calls := accept, mapped, [], 0;
    }

    method RunChunk(chunk: seq<T>) returns (r: Result<seq<R>>)
      modifies this
      ensures calls == old(calls) + 1
      ensures AllAcceptable(chunk, accept) ==> r == Ok(Map(chunk, mapped)) && committed == old(committed) + chunk
      ensures !AllAcceptable(chunk, accept) ==> r.Err? && committed == old(committed)
    {
      calls := calls + 1;
      if forall i | 0 <= i < |chunk| :: accept(chunk[i]) {
        committed := committed + chunk;
        return Ok(Map(chunk, mapped));
      }
      return Err("chunk failed");
    }

    method RunBestEffortChunk(chunk: seq<T>) returns (out: seq<R>)
      modifies this
      ensures out == Map(Filter(chunk, accept), mapped)
      ensures committed == old(committed) + Filter(chunk, accept)
      ensures calls == old(calls) + Calls(chunk, accept)
      decreases |chunk|, 2
    {
      var r := RunChunk(chunk);
      if r.Ok? {
        AcceptableFilter(chunk, accept);
        return r.value;
      }
      if |chunk| <= 1 {
        RejectedItem(chunk, accept);
        return [];
      }
      Bisect(chunk, Half(|chunk|), accept, mapped);
      out := RunHalves(chunk[..Half(|chunk|)], chunk[Half(|chunk|)..]);
    }

    /** The two recursive calls of RunBestEffortChunk, left half first. */
    method RunHalves(left: seq<T>, right: seq<T>) returns (out: seq<R>)
      modifies this
      ensures out == Map(Filter(left, accept), mapped) + Map(Filter(right, accept), mapped)
      ensures committed == old(committed) + (Filter(left, accept) + Filter(right, accept))
      ensures calls == old(calls) + Calls(left, accept) + Calls(right, accept)
      decreases Max(|left|, |right|) + 1, 1
    {
      var l := RunBestEffortChunk(left);
      var r := RunBestEffortChunk(right);
      return l + r;
    }

    method RunBestEffortBatches(items: seq<T>, chunkSize: nat) returns (out: seq<R>)
      requires 0 < chunkSize
      modifies this
      ensures out == Map(Filter(items, accept), mapped)
      ensures committed == old(committed) + Filter(items, accept)
      ensures calls == old(calls) + BatchCalls(items, chunkSize, accept)
    {
      if items == [] {
        return [];
      }
      out := [];
      var i := 0;
      ghost var done := 0;
      assert items[..0] == [] && items[0..] == items;
      while i < |items|
        invariant 0 <= i && 0 <= done == Min(i, |items|)
        invariant out == Map(Filter(items[..done], accept), mapped)
        invariant committed == old(committed) + Filter(items[..done], accept)
        invariant calls + BatchCalls(items[done..], chunkSize, accept)
               == old(calls) + BatchCalls(items, chunkSize, accept)
        decreases |items| - i
      {
        var to := Min(i + chunkSize, |items|);
        BatchStep(items, i, to, chunkSize, accept, mapped);
        BatchCallsStep(items, i, to, chunkSize, accept);
        var part := RunBestEffortChunk(items[i..to]);
        out := out + part;
        i, done := i + chunkSize, to;
      }
      assert items[..|items|] == items;
    }
  }

  lemma RejectedItem<T>(chunk: seq<T>, accept: T -> bool)
    requires |chunk| <= 1 && !AllAcceptable(chunk, accept)
    ensures Filter(chunk, accept) == []
  {
    assert chunk[1..] == [];
  }

  /** The two halves of a chunk contribute in order. */
  lemma Bisect<T, R>(chunk: seq<T>, mid: nat, accept: T -> bool, mapped: T -> R)
    requires mid <= |chunk|
    ensures Filter(chunk, accept) == Filter(chunk[..mid], accept) + Filter(chunk[mid..], accept)
    ensures Map(Filter(chunk, accept), mapped)
         == Map(Filter(chunk[..mid], accept), mapped) + Map(Filter(chunk[mid..], accept), mapped)
  {
    assert chunk == chunk[..mid] + chunk[mid..];
    FilterConcat(chunk[..mid], chunk[mid..], accept);
    MapConcat(Filter(chunk[..mid], accept), Filter(chunk[mid..], accept), mapped);
  }

  /** What one more batch adds to the loop of RunBestEffortBatches. */
  lemma BatchStep<T, R>(items: seq<T>, i: nat, to: nat, chunkSize: nat, accept: T -> bool, mapped: T -> R)
    requires 0 < chunkSize && i < |items| && to == Min(i + chunkSize, |items|)
    ensures Filter(items[..to], accept) == Filter(items[..i], accept) + Filter(items[i..to], accept)
    ensures Map(Filter(items[..to], accept), mapped)
         == Map(Filter(items[..i], accept), mapped) + Map(Filter(items[i..to], accept), mapped)
  {
    assert items[..to][..i] == items[..i] && items[..to][i..] == items[i..to];
    Bisect(items[..to], i, accept, mapped);
  }

  lemma BatchCallsStep<T>(items: seq<T>, i: nat, to: nat, chunkSize: nat, accept: T -> bool)
    requires 0 < chunkSize && i < |items| && to == Min(i + chunkSize, |items|)
    ensures BatchCalls(items[i..], chunkSize, accept)
         == Calls(items[i..to], accept) + BatchCalls(items[to..], chunkSize, accept)
  {
    assert items[i..][..to - i] == items[i..to] && items[i..][to - i..] == items[to..];
  }

  lemma {:induction false} AcceptableFilter<T>(chunk: seq<T>, accept: T -> bool)
    requires AllAcceptable(chunk, accept)
    ensures Filter(chunk, accept) == chunk
  {
    if chunk != [] {
      AcceptableFilter(chunk[1..], accept);
      assert chunk == [chunk[0]] + chunk[1..];
    }
  }

  function Rejects<T>(chunk: seq<T>, accept: T -> bool): nat {
    |Filter(chunk, x => !accept(x))|
  }

  /** Depth of the bisection of n items. */
  function Depth(n: nat): nat {
    if n <= 1 then 0 else 1 + Depth(Half(n))
  }

  /** Bisection submits at most 2n - 1 chunks. */
  lemma {:induction false} CallsLinear<T>(chunk: seq<T>, accept: T -> bool)
    requires chunk != []
    ensures 1 <= Calls(chunk, accept) <= 2 * |chunk| - 1
    decreases |chunk|
  {
    if |chunk| > 1 {
      CallsLinear(chunk[..Half(|chunk|)], accept);
      CallsLinear(chunk[Half(|chunk|)..], accept);
    }
  }

  /** The bound is met when every item is unacceptable. */
  lemma {:induction false} CallsWorstCase<T>(chunk: seq<T>, accept: T -> bool)
    requires chunk != [] && forall i :: 0 <= i < |chunk| ==> !accept(chunk[i])
    ensures Calls(chunk, accept) == 2 * |chunk| - 1
    decreases |chunk|
  {
    if |chunk| > 1 {
      assert !accept(chunk[0]);
      CallsWorstCase(chunk[..Half(|chunk|)], accept);
      CallsWorstCase(chunk[Half(|chunk|)..], accept);
    }
  }

  lemma {:induction false} DepthMonotone(m: nat, n: nat)
    requires m <= n
    ensures Depth(m) <= Depth(n)
    decreases n
  {
    if m > 1 {
      DepthMonotone(Half(m), Half(n));
    }
  }

  /** Two halves with kl and kr rejects, each charged two submissions per level below a common depth d. */
  lemma ChargePerLevel(kl: nat, kr: nat, d: nat, dr: nat)
    requires dr <= d && 0 < kl + kr
    ensures 1 + (1 + 2 * (kl * d)) + (1 + 2 * (kr * dr)) <= 1 + 2 * ((kl + kr) * (1 + d))
  {
    assert kr * dr <= kr * d;
    assert (kl + kr) * (1 + d) == kl + kr + kl * d + kr * d;
  }

  lemma RejectsSplit<T>(chunk: seq<T>, mid: nat, accept: T -> bool)
    requires mid <= |chunk| && !AllAcceptable(chunk, accept)
    ensures Rejects(chunk, accept) == Rejects(chunk[..mid], accept) + Rejects(chunk[mid..], accept) > 0
  {
    var rejected := x => !accept(x);
    assert chunk == chunk[..mid] + chunk[mid..];
    FilterConcat(chunk[..mid], chunk[mid..], rejected);
    var bad :| 0 <= bad < |chunk| && !accept(chunk[bad]);
    FilterMembers(chunk, rejected);
    assert chunk[bad] in Filter(chunk, rejected);
  }

  /** With few unacceptable items the cost is logarithmic: each one is charged two submissions per level. */
  lemma {:induction false} CallsPerReject<T>(chunk: seq<T>, accept: T -> bool)
    ensures Calls(chunk, accept) <= 1 + 2 * (Rejects(chunk, accept) * Depth(|chunk|))
    decreases |chunk|
  {
    if !AllAcceptable(chunk, accept) && |chunk| > 1 {
      var mid := Half(|chunk|);
      var left, right := chunk[..mid], chunk[mid..];
      CallsPerReject(left, accept);
      CallsPerReject(right, accept);
      RejectsSplit(chunk, mid, accept);
      DepthMonotone(|right|, mid);
      ChargePerLevel(Rejects(left, accept), Rejects(right, accept), Depth(mid), Depth(|right|));
    } else {
      assert Rejects(chunk, accept) * Depth(|chunk|) >= 0;
    }
  }

  function Batches(n: nat, chunkSize: nat): nat
    requires 0 < chunkSize
  {
    if n == 0 then 0 else 1 + Batches(n - Min(chunkSize, n), chunkSize)
  }

  /** A whole operation submits fewer than two chunks per item, and saves one for every batch. */
  lemma {:induction false} BatchCallsLinear<T>(items: seq<T>, chunkSize: nat, accept: T -> bool)
    requires 0 < chunkSize
    ensures BatchCalls(items, chunkSize, accept) <= 2 * |items| - Batches(|items|, chunkSize)
    decreases |items|
  {
    if items != [] {
      var k := Min(chunkSize, |items|);
      CallsLinear(items[..k], accept);
      BatchCallsLinear(items[k..], chunkSize, accept);
    }
  }
}
