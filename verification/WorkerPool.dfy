/**
 * mapWithConcurrency: workers share one index counter and one results array.
 * Each step below is a stretch of a worker between two suspension points, so a
 * sequence of steps is an interleaving of the workers.
 */
module WorkerPool {
  import opened Common

  /** How the call for one item ends. */
  datatype Answer<R> = Value(value: R) | Throws

  datatype Worker = Ready | Busy(index: nat) | Returned | Threw(index: nat)

  /** A call of the mapped function, for the item at index, by one of the workers. */
  datatype Call = Call(index: nat, worker: nat)

  /** started records, in order, the calls that have been made. */
  datatype Pool<R> = Pool(next: nat, results: seq<Option<R>>, workers: seq<Worker>, started: seq<Call>)

  datatype Step = Claim(worker: nat) | Settle(worker: nat)

  function WorkerCount(n: nat, concurrency: int): nat { Max(0, Min(concurrency, n)) }

  function Start<R>(n: nat, concurrency: int): Pool<R> {
    Pool(0, seq(n, i => None), seq(WorkerCount(n, concurrency), i => Ready), [])
  }

  predicate Enabled<R>(s: Pool<R>, step: Step) {
    step.worker < |s.workers| &&
    match step
    case Claim(w) => s.workers[w].Ready?
    case Settle(w) => s.workers[w].Busy? && s.workers[w].index < |s.results|
  }

  /** One step; a step of a worker that is not at that point leaves the pool unchanged. */
  function Next<R>(s: Pool<R>, answers: seq<Answer<R>>, step: Step): Pool<R>
    requires |answers| == |s.results|
  {
    if !Enabled(s, step) then s else
    match step
    case Claim(w) =>
      if s.next >= |s.results| then
        s.(next := s.next + 1, workers := s.workers[w := Returned])
      else
        s.(next := s.next + 1, workers := s.workers[w := Busy(s.next)], started := s.started + [Call(s.next, w)])
    case Settle(w) =>
      var i := s.workers[w].index;
      match answers[i]
      case Value(v) => s.(results := s.results[i := Some(v)], workers := s.workers[w := Ready])
      case Throws => s.(workers := s.workers[w := Threw(i)])
  }

  /** The pool after any interleaving; answers[i] is how the call for item i ends. */
  function After<R>(answers: seq<Answer<R>>, concurrency: int, steps: seq<Step>): (s: Pool<R>)
    ensures |s.results| == |answers|
  {
    if steps == [] then Start(|answers|, concurrency)
    else Next(After(answers, concurrency, steps[..|steps| - 1]), answers, steps[|steps| - 1])
  }

  /** The variables that the workers share, updated in place. */
  class SharedState<R(0)> {
    var i: nat
    const results: array<Option<R>>
    var workers: seq<Worker>
    ghost var started: seq<Call>

    ghost function View(): Pool<R>
      reads this, results
    {
      Pool(i, results[..], workers, started)
    }

    constructor (n: nat, concurrency: int)
      ensures View() == Start(n, concurrency) && fresh(results)
    {
      i := 0;
      results := new Option<R>[n](_ => None);
      workers := seq(WorkerCount(n, concurrency), _ => Ready);
      started := [];
      new;
      assert results[..] == seq(n, i => None);
    }

    /** The head of a worker's loop, up to the call of the mapped function. */
    method ClaimNext(w: nat, ghost answers: seq<Answer<R>>) returns (call: Option<nat>)
      requires |answers| == results.Length && Enabled(View(), Claim(w))
      modifies this
      ensures View() == Next(old(View()), answers, Claim(w))
      ensures call == if old(i) < results.Length then Some(old(i)) else None
    {
      var idx := i;
      i := i + 1;
      if idx >= results.Length {
        workers := workers[w := Returned];
        return None;
      }
      started := started + [Call(idx, w)];
      workers := workers[w := Busy(idx)];
      return Some(idx);
    }

    /** The tail of a worker's loop, after the awaited call has ended. */
    method StoreAnswer(w: nat, answer: Answer<R>, ghost answers: seq<Answer<R>>)
      requires |answers| == results.Length && Enabled(View(), Settle(w))
      requires answer == answers[workers[w].index]
      modifies this, results
      ensures View() == Next(old(View()), answers, Settle(w))
    {
      var idx := workers[w].index;
      match answer {
        case Value(v) =>
          results[idx] := Some(v);
          workers := workers[w := Ready];
        case Throws =>
          workers := workers[w := Threw(idx)];
      }
      assert results[..] == Next(old(View()), answers, Settle(w)).results;
    }
  }

  // ----- What every interleaving keeps

  predicate Open(s: Worker) { s.Busy? || s.Threw? }

  ghost predicate Invariant<R>(s: Pool<R>, answers: seq<Answer<R>>) {
    && |s.results| == |answers|
    && |s.started| == Min(s.next, |answers|)
    && (forall k :: 0 <= k < |s.started| ==> s.started[k].index == k && s.started[k].worker < |s.workers|)
    // an open worker's call has no result yet, and a call without a result has an open worker
    && (forall w :: 0 <= w < |s.workers| && Open(s.workers[w]) ==>
                      s.workers[w].index < |s.started| && s.started[s.workers[w].index].worker == w)
    && (forall k :: 0 <= k < |s.started| ==>
                      var w := s.workers[s.started[k].worker];
                      s.results[k].None? <==> Open(w) && w.index == k)
    && (forall w :: 0 <= w < |s.workers| && s.workers[w].Threw? ==> answers[s.workers[w].index].Throws?)
    && (forall i :: 0 <= i < |s.results| && s.results[i].Some? ==>
                      i < |s.started| && answers[i] == Value(s.results[i].value))
    && (forall w :: 0 <= w < |s.workers| && s.workers[w].Returned? ==> s.next >= |answers|)
  }

  lemma ClaimKeepsInvariant<R>(s: Pool<R>, answers: seq<Answer<R>>, w: nat)
    requires Invariant(s, answers) && Enabled(s, Claim(w))
    ensures Invariant(Next(s, answers, Claim(w)), answers)
  {
  }

  lemma StoreKeepsInvariant<R>(s: Pool<R>, answers: seq<Answer<R>>, w: nat)
    requires Invariant(s, answers) && Enabled(s, Settle(w)) && answers[s.workers[w].index].Value?
    ensures Invariant(Next(s, answers, Settle(w)), answers)
  {
    assert Open(s.workers[w]);
  }

  lemma ThrowKeepsInvariant<R>(s: Pool<R>, answers: seq<Answer<R>>, w: nat)
    requires Invariant(s, answers) && Enabled(s, Settle(w)) && answers[s.workers[w].index].Throws?
    ensures Invariant(Next(s, answers, Settle(w)), answers)
  {
    assert Open(s.workers[w]);
  }

  lemma NextKeepsInvariant<R>(s: Pool<R>, answers: seq<Answer<R>>, step: Step)
    requires Invariant(s, answers)
    ensures Invariant(Next(s, answers, step), answers)
    ensures |Next(s, answers, step).workers| == |s.workers|
  {
    if Enabled(s, step) {
      match step
      case Claim(w) => ClaimKeepsInvariant(s, answers, w);
      case Settle(w) =>
        match answers[s.workers[w].index]
        case Value(_) => StoreKeepsInvariant(s, answers, w);
        case Throws => ThrowKeepsInvariant(s, answers, w);
    }
  }

  lemma {:induction false} InvariantHolds<R>(answers: seq<Answer<R>>, concurrency: int, steps: seq<Step>)
    ensures var s := After(answers, concurrency, steps);
            Invariant(s, answers) && |s.workers| == WorkerCount(|answers|, concurrency)
  {
    if steps != [] {
      InvariantHolds(answers, concurrency, steps[..|steps| - 1]);
      NextKeepsInvariant(After(answers, concurrency, steps[..|steps| - 1]), answers, steps[|steps| - 1]);
    }
  }

  /** Calls begun and not yet ended. */
  function InProgress<R>(s: Pool<R>): set<nat> {
    set w | 0 <= w < |s.workers| && s.workers[w].Busy? :: s.workers[w].index
  }

  lemma {:induction false} ImageSize(ws: seq<Worker>)
    ensures |set w | 0 <= w < |ws| && ws[w].Busy? :: ws[w].index| <= |ws|
  {
    if ws != [] {
      var n := |ws| - 1;
      var shorter := ws[..n];
      ImageSize(shorter);
      var image := set w | 0 <= w < |shorter| && shorter[w].Busy? :: shorter[w].index;
      var image' := set w | 0 <= w < |ws| && ws[w].Busy? :: ws[w].index;
      assert image' <= image + (if ws[n].Busy? then {ws[n].index} else {});
      SubsetSize(image', image + (if ws[n].Busy? then {ws[n].index} else {}));
    }
  }

  lemma SubsetSize<T>(a: set<T>, b: set<T>)
    requires a <= b
    ensures |a| <= |b|
  {
    assert b == a + (b - a);
  }

  /**
   * In every interleaving the function is called in index order, at most once per index; an index
   * whose call has neither stored a result nor thrown is in progress, and no more calls are than
   * there are items, nor more than the concurrency allows.
   */
  lemma CallsOnceAndBounded<R>(answers: seq<Answer<R>>, concurrency: int, steps: seq<Step>)
    ensures var s := After(answers, concurrency, steps);
            && (forall k :: 0 <= k < |s.started| ==> s.started[k].index == k)
            && |s.started| <= |answers|
            && |InProgress(s)| <= |answers|
            && (if concurrency >= 0 then |InProgress(s)| <= concurrency else InProgress(s) == {})
            && (forall i :: 0 <= i < |s.started| && s.results[i].None? && i !in InProgress(s) ==> answers[i].Throws?)
  {
    InvariantHolds(answers, concurrency, steps);
    var s := After(answers, concurrency, steps);
    ImageSize(s.workers);
  }

  /** The first k workers claim, one after the other. */
  function Claims(k: nat): seq<Step> {
    if k == 0 then [] else Claims(k - 1) + [Claim(k - 1)]
  }

  lemma {:induction false} ClaimsStartCalls<R>(answers: seq<Answer<R>>, concurrency: int, k: nat)
    requires k <= concurrency && k <= |answers|
    ensures var s := After(answers, concurrency, Claims(k));
            && s.next == k
            && (forall w :: 0 <= w < |s.workers| ==> s.workers[w] == if w < k then Busy(w) else Ready)
            && |s.workers| >= k
  {
    if k > 0 {
      ClaimsStartCalls(answers, concurrency, k - 1);
      assert Claims(k)[..k - 1] == Claims(k - 1) by { ClaimsLength(k - 1); }
      ClaimsLength(k);
      InvariantHolds(answers, concurrency, Claims(k));
    }
  }

  lemma {:induction false} ClaimsLength(k: nat)
    ensures |Claims(k)| == k
  {
    if k > 0 {
      ClaimsLength(k - 1);
    }
  }

  function FirstIndexes(k: nat): (r: set<nat>)
    ensures |r| == k && forall i: nat :: i in r <==> i < k
  {
    if k == 0 then {} else FirstIndexes(k - 1) + {k - 1}
  }

  /** The bound is reached: some run has min(concurrency, n) calls in progress at once, those of the first items. */
  lemma ConcurrencyIsReached<R>(answers: seq<Answer<R>>, concurrency: int)
    requires concurrency > 0
    ensures exists steps :: InProgress(After(answers, concurrency, steps))
                            == FirstIndexes(if concurrency < |answers| then concurrency else |answers|)
  {
    var k := if concurrency < |answers| then concurrency else |answers|;
    ClaimsStartCalls(answers, concurrency, k);
    var s := After(answers, concurrency, Claims(k));
    forall i: nat | i < k
      ensures i in InProgress(s)
    {
      assert s.workers[i] == Busy(i);
    }
    assert InProgress(s) == FirstIndexes(k);
  }

  predicate AllReturned<R>(s: Pool<R>) {
    forall w :: 0 <= w < |s.workers| ==> s.workers[w].Returned?
  }

  /**
   * When every worker has returned, each index has been called exactly once and the results are the
   * answers in order -- exactly when there was nothing to do or the concurrency was positive.  With a
   * concurrency of zero or less no worker exists and the array comes back with holes.
   */
  lemma CompleteExactlyWhenConcurrent<R>(answers: seq<Answer<R>>, concurrency: int, steps: seq<Step>)
    requires AllReturned(After(answers, concurrency, steps))
    ensures var s := After(answers, concurrency, steps);
            && (|answers| == 0 || concurrency > 0 <==>
                forall i :: 0 <= i < |answers| ==> s.results[i].Some? && answers[i] == Value(s.results[i].value))
            && (|answers| == 0 || concurrency > 0 <==> |s.started| == |answers|)
  {
    InvariantHolds(answers, concurrency, steps);
    var s := After(answers, concurrency, steps);
    if |answers| > 0 && concurrency > 0 {
      assert s.workers[0].Returned?;
    } else if |answers| > 0 {
      NoWorkersNoCalls(answers, concurrency, steps);
      assert s.results[0].None?;
    }
  }

  lemma {:induction false} NoWorkersNoCalls<R>(answers: seq<Answer<R>>, concurrency: int, steps: seq<Step>)
    requires concurrency <= 0
    ensures After(answers, concurrency, steps) == Start(|answers|, concurrency)
  {
    if steps != [] {
      NoWorkersNoCalls(answers, concurrency, steps[..|steps| - 1]);
    }
  }

  // ----- Every interleaving ends

  function Unfinished(ws: seq<Worker>): nat {
    if ws == [] then 0
    else Unfinished(ws[..|ws| - 1]) + match ws[|ws| - 1]
                                       case Ready => 1
                                       case Busy(_) => 2
                                       case Returned => 0
                                       case Threw(_) => 0
  }

  /** Steps that can still be taken. */
  function Remaining<R>(s: Pool<R>): nat {
    2 * (|s.results| - Min(s.next, |s.results|)) + Unfinished(s.workers)
  }

  lemma {:induction false} UnfinishedUpdate(ws: seq<Worker>, w: nat, x: Worker)
    requires w < |ws|
    ensures Unfinished(ws[w := x]) == Unfinished(ws) - Unfinished([ws[w]]) + Unfinished([x])
  {
    var n := |ws| - 1;
    assert [ws[w]][..0] == [] && [x][..0] == [];
    if w < n {
      UnfinishedUpdate(ws[..n], w, x);
      assert ws[w := x][..n] == ws[..n][w := x];
    } else {
      assert ws[w := x][..n] == ws[..n];
    }
  }

  /** Each enabled step uses up one unit of a budget that starts at 2n plus the number of workers. */
  lemma EveryStepProgresses<R>(s: Pool<R>, answers: seq<Answer<R>>, step: Step)
    requires Invariant(s, answers) && Enabled(s, step)
    ensures Remaining(Next(s, answers, step)) < Remaining(s)
  {
    var w := step.worker;
    UnfinishedUpdate(s.workers, w, Next(s, answers, step).workers[w]);
    assert [s.workers[w]][..0] == [] && [Next(s, answers, step).workers[w]][..0] == [];
  }

  /** No worker is ever stuck: while one is neither returned nor stopped by a throw, it has a step. */
  lemma NeverStuck<R>(s: Pool<R>, answers: seq<Answer<R>>, w: nat)
    requires Invariant(s, answers) && w < |s.workers| && (s.workers[w].Ready? || s.workers[w].Busy?)
    ensures Enabled(s, Claim(w)) || Enabled(s, Settle(w))
  {
    assert Open(s.workers[w]) == s.workers[w].Busy?;
  }
}
