/**
 * The per-originator lock around grouped permission flows: a chain of promise tails kept in a
 * map.  A step is what runs between two suspension points, so a sequence of steps is an
 * interleaving of any number of callers, over any originators.
 */
module FlowLock {
  import opened Common

  datatype Phase = Waiting | Running | Released

  /**
   * One call of withGroupedPermissionFlowLock.  prior is the tail it found in the map (None: an
   * already resolved promise); tailDone says whether the tail it published has resolved.
   */
  datatype Caller = Caller(originator: string, prior: Option<nat>, phase: Phase, tailDone: bool)

  /** Callers are numbered by arrival; tails maps an originator to the caller that published its tail. */
  datatype Lock = Lock(callers: seq<Caller>, tails: map<string, nat>, begun: seq<nat>)

  /** A section ends by returning or by throwing; either way its gate opens. */
  datatype Step =
    | Arrive(originator: string)
    | Begin(k: nat)
    | End(k: nat, threw: bool)
    | ResolveTail(k: nat)
    | Cleanup(k: nat)

  const Empty := Lock([], map[], [])

  predicate PriorDone(s: Lock, k: nat)
    requires k < |s.callers|
  {
    match s.callers[k].prior
    case None => true
    case Some(j) => j < |s.callers| && s.callers[j].tailDone
  }

  predicate Enabled(s: Lock, step: Step) {
    match step
    case Arrive(_) => true
    case Begin(k) => k < |s.callers| && s.callers[k].phase.Waiting? && PriorDone(s, k)
    case End(k, _) => k < |s.callers| && s.callers[k].phase.Running?
    case ResolveTail(k) => k < |s.callers| && s.callers[k].phase.Released? && PriorDone(s, k)
    case Cleanup(k) => k < |s.callers| && s.callers[k].tailDone
  }

  function SetPhase(s: Lock, k: nat, phase: Phase): Lock
    requires k < |s.callers|
  {
    s.(callers := s.callers[k := s.callers[k].(phase := phase)])
  }

  function Next(s: Lock, step: Step): Lock {
    if !Enabled(s, step) then s else
    match step
    case Arrive(o) =>
      var prior := if o in s.tails then Some(s.tails[o]) else None;
      s.(callers := s.callers + [Caller(o, prior, Waiting, false)], tails := s.tails[o := |s.callers|])
    case Begin(k) => SetPhase(s, k, Running).(begun := s.begun + [k])
    case End(k, _) => SetPhase(s, k, Released)
    case ResolveTail(k) => s.(callers := s.callers[k := s.callers[k].(tailDone := true)])
    case Cleanup(k) =>
      var o := s.callers[k].originator;
      if o in s.tails && s.tails[o] == k then s.(tails := s.tails - {o}) else s
  }

  function After(steps: seq<Step>): Lock {
    if steps == [] then Empty else Next(After(steps[..|steps| - 1]), steps[|steps| - 1])
  }

  /** The manager's map of tails and its outstanding callers, updated in place. */
  class TailMap {
    var tails: map<string, nat>
    var callers: seq<Caller>
    ghost var begun: seq<nat>

    ghost function View(): Lock
      reads this
    {
      Lock(callers, tails, begun)
    }

    constructor ()
      ensures View() == Empty
    {
      tails, callers, begun := map[], [], [];
    }

    /** Everything up to the first await: read the tail, publish a new one. */
    method Enter(originator: string) returns (k: nat)
      modifies this
      ensures k == |old(callers)| && View() == Next(old(View()), Arrive(originator))
    {
      k := |callers|;
      var prior := None;
      if originator in tails {
        prior := Some(tails[originator]);
      }
      callers := callers + [Caller(originator, prior, Waiting, false)];
      tails := tails[originator := k];
    }

    method BeginSection(k: nat)
      requires Enabled(View(), Begin(k))
      modifies this
      ensures View() == Next(old(View()), Begin(k))
    {
      callers := callers[k := callers[k].(phase := Running)];
      begun := begun + [k];
    }

    method EndSection(k: nat, threw: bool)
      requires Enabled(View(), End(k, threw))
      modifies this
      ensures View() == Next(old(View()), End(k, threw))
    {
      callers := callers[k := callers[k].(phase := Released)];
    }

    method TailResolved(k: nat)
      requires Enabled(View(), ResolveTail(k))
      modifies this
      ensures View() == Next(old(View()), ResolveTail(k))
    {
      callers := callers[k := callers[k].(tailDone := true)];
    }

    method DeleteOwnTail(k: nat)
      requires Enabled(View(), Cleanup(k))
      modifies this
      ensures View() == Next(old(View()), Cleanup(k))
    {
      var o := callers[k].originator;
      if o in tails && tails[o] == k {
        tails := tails - {o};
      }
    }
  }

  // ----- What every interleaving keeps

  /** Every caller of originator o that arrived before k has fully finished. */
  ghost predicate DoneBefore(s: Lock, o: string, k: nat) {
    forall j :: 0 <= j < k && j < |s.callers| && s.callers[j].originator == o ==> s.callers[j].tailDone
  }

  ghost predicate NoneBetween(s: Lock, o: string, j: nat, k: nat) {
    forall i :: j < i < k && i < |s.callers| ==> s.callers[i].originator != o
  }

  ghost predicate CallerOk(s: Lock, k: nat)
    requires k < |s.callers|
  {
    var c := s.callers[k];
    && (c.prior.None? ==> DoneBefore(s, c.originator, k))
    && (c.prior.Some? ==> c.prior.value < k && s.callers[c.prior.value].originator == c.originator
                          && NoneBetween(s, c.originator, c.prior.value, k))
    && (c.tailDone ==> c.phase.Released?)
    && (!c.phase.Waiting? ==> DoneBefore(s, c.originator, k))
  }

  ghost predicate Invariant(s: Lock) {
    && (forall k :: 0 <= k < |s.callers| ==> CallerOk(s, k))
    && (forall o :: o in s.tails ==> s.tails[o] < |s.callers| && s.callers[s.tails[o]].originator == o
                                     && NoneBetween(s, o, s.tails[o], |s.callers|))
    && (forall k :: 0 <= k < |s.callers| && s.callers[k].originator !in s.tails ==> s.callers[k].tailDone)
  }

  /** A caller whose prior tail has resolved follows only finished callers of its originator. */
  lemma PriorDoneMeansTurn(s: Lock, k: nat)
    requires Invariant(s) && k < |s.callers| && PriorDone(s, k)
    ensures DoneBefore(s, s.callers[k].originator, k)
  {
    assert CallerOk(s, k);
    if s.callers[k].prior.Some? {
      var j := s.callers[k].prior.value;
      assert CallerOk(s, j);
    }
  }

  lemma ArriveKeepsInvariant(s: Lock, o: string)
    requires Invariant(s)
    ensures Invariant(Next(s, Arrive(o)))
  {
    var s' := Next(s, Arrive(o));
    forall k | 0 <= k < |s'.callers|
      ensures CallerOk(s', k)
    {
      if k < |s.callers| {
        assert CallerOk(s, k);
      }
    }
  }

  /** Steps that change one caller without undoing a resolved tail. */
  lemma CallerStepKeepsInvariant(s: Lock, k: nat, c: Caller)
    requires Invariant(s) && k < |s.callers| && DoneBefore(s, s.callers[k].originator, k)
    requires c.originator == s.callers[k].originator && c.prior == s.callers[k].prior
    requires s.callers[k].tailDone ==> c.tailDone
    requires c.tailDone ==> c.phase.Released?
    ensures Invariant(s.(callers := s.callers[k := c]))
  {
    var s' := s.(callers := s.callers[k := c]);
    forall i | 0 <= i < |s'.callers|
      ensures CallerOk(s', i)
    {
      assert CallerOk(s, i);
    }
  }

  lemma NextKeepsInvariant(s: Lock, step: Step)
    requires Invariant(s)
    ensures Invariant(Next(s, step))
  {
    if Enabled(s, step) {
      match step
      case Arrive(o) => ArriveKeepsInvariant(s, o);
      case Begin(k) =>
        PriorDoneMeansTurn(s, k);
        assert CallerOk(s, k);
        CallerStepKeepsInvariant(s, k, s.callers[k].(phase := Running));
        BegunIsIrrelevant(SetPhase(s, k, Running), s.begun + [k]);
      case End(k, _) =>
        assert CallerOk(s, k);
        CallerStepKeepsInvariant(s, k, s.callers[k].(phase := Released));
      case ResolveTail(k) =>
        PriorDoneMeansTurn(s, k);
        CallerStepKeepsInvariant(s, k, s.callers[k].(tailDone := true));
      case Cleanup(k) => CleanupKeepsInvariant(s, k);
    }
  }

  lemma BegunIsIrrelevant(s: Lock, begun: seq<nat>)
    requires Invariant(s)
    ensures Invariant(s.(begun := begun))
  {
    var s' := s.(begun := begun);
    forall k | 0 <= k < |s'.callers|
      ensures CallerOk(s', k)
    {
      assert CallerOk(s, k);
    }
  }

  /** The callers up to one whose tail has resolved have all finished. */
  lemma {:induction false} ResolvedTailMeansAllBefore(s: Lock, k: nat)
    requires Invariant(s) && k < |s.callers| && s.callers[k].tailDone
    ensures DoneBefore(s, s.callers[k].originator, k + 1)
  {
    assert CallerOk(s, k);
  }

  lemma CleanupKeepsInvariant(s: Lock, k: nat)
    requires Invariant(s) && Enabled(s, Cleanup(k))
    ensures Invariant(Next(s, Cleanup(k)))
  {
    var s' := Next(s, Cleanup(k));
    ResolvedTailMeansAllBefore(s, k);
    forall i | 0 <= i < |s'.callers|
      ensures CallerOk(s', i)
    {
      assert CallerOk(s, i);
    }
  }

  lemma {:induction false} InvariantHolds(steps: seq<Step>)
    ensures Invariant(After(steps))
  {
    if steps != [] {
      InvariantHolds(steps[..|steps| - 1]);
      NextKeepsInvariant(After(steps[..|steps| - 1]), steps[|steps| - 1]);
    }
  }

  /**
   * In every interleaving, once a caller's section has begun, every earlier section of its
   * originator has ended: sections never overlap and run in arrival order.
   */
  lemma ExclusiveAndInOrder(steps: seq<Step>, j: nat, k: nat)
    requires var s := After(steps);
             j < k < |s.callers| && s.callers[j].originator == s.callers[k].originator && !s.callers[k].phase.Waiting?
    ensures After(steps).callers[j].phase.Released?
  {
    InvariantHolds(steps);
    assert CallerOk(After(steps), k) && CallerOk(After(steps), j);
  }

  ghost predicate BegunAreNotWaiting(s: Lock) {
    forall a :: 0 <= a < |s.begun| ==> s.begun[a] < |s.callers| && !s.callers[s.begun[a]].phase.Waiting?
  }

  lemma {:induction false} BegunPhases(steps: seq<Step>)
    ensures BegunAreNotWaiting(After(steps))
  {
    if steps != [] {
      BegunPhases(steps[..|steps| - 1]);
    }
  }

  /** A caller that begins now arrived after every caller of its originator that has begun before. */
  lemma BeginsAfterBegun(s: Lock, i: nat, k: nat)
    requires Invariant(s) && Enabled(s, Begin(k)) && i < |s.callers| && !s.callers[i].phase.Waiting?
    requires s.callers[i].originator == s.callers[k].originator
    ensures i < k
  {
    assert CallerOk(s, i) && CallerOk(s, k);
  }

  /** The order in which sections of one originator begin is their arrival order, each at most once. */
  lemma {:induction false} BegunInArrivalOrder(steps: seq<Step>, a: nat, b: nat)
    requires var s := After(steps);
             a < b < |s.begun| && s.begun[a] < |s.callers| && s.begun[b] < |s.callers|
             && s.callers[s.begun[a]].originator == s.callers[s.begun[b]].originator
    ensures After(steps).begun[a] < After(steps).begun[b]
  {
    var shorter := steps[..|steps| - 1];
    var before := After(shorter);
    BegunPhases(shorter);
    assert before.begun[a] < |before.callers|;
    if b < |before.begun| {
      assert before.begun[b] < |before.callers|;
      BegunInArrivalOrder(shorter, a, b);
    } else {
      InvariantHolds(shorter);
      BeginsAfterBegun(before, before.begun[a], steps[|steps| - 1].k);
    }
  }

  /** A step that deletes an originator's tail finds every caller of that originator finished. */
  lemma TailDeletedOnlyWhenIdle(steps: seq<Step>, step: Step, o: string, j: nat)
    requires var s := After(steps);
             o in s.tails && o !in Next(s, step).tails && j < |s.callers| && s.callers[j].originator == o
    ensures After(steps).callers[j].tailDone && After(steps).callers[j].phase.Released?
  {
    InvariantHolds(steps);
    var s := After(steps);
    ResolvedTailMeansAllBefore(s, s.tails[o]);
    assert CallerOk(s, j);
  }

  /**
   * Sections that throw, deleted tails and sections of other originators never block a chain: while
   * an originator has a caller that has not finished, its earliest such caller can take a step.
   */
  lemma ChainNeverStalls(steps: seq<Step>, k: nat)
    requires var s := After(steps);
             k < |s.callers| && !s.callers[k].tailDone
             && forall j :: 0 <= j < k && s.callers[j].originator == s.callers[k].originator ==> s.callers[j].tailDone
    ensures var s := After(steps);
            Enabled(s, Begin(k)) || Enabled(s, End(k, false)) || Enabled(s, ResolveTail(k))
  {
    InvariantHolds(steps);
    assert CallerOk(After(steps), k);
  }

  // ----- Every caller gets its turn

  function Arrivals(steps: seq<Step>): seq<string> {
    if steps == [] then []
    else Arrivals(steps[..|steps| - 1])
         + match steps[|steps| - 1] case Arrive(o) => [o] case _ => []
  }

  /** The callers are those that arrived, in that order, and the sections begun are those that wait no more. */
  lemma {:induction false} CallersAreArrivals(steps: seq<Step>)
    ensures var s := After(steps);
            && |s.callers| == |Arrivals(steps)|
            && (forall k :: 0 <= k < |s.callers| ==> s.callers[k].originator == Arrivals(steps)[k])
            && (forall k: nat :: k < |s.callers| ==> (s.callers[k].phase.Waiting? <==> k !in s.begun))
  {
    if steps != [] {
      CallersAreArrivals(steps[..|steps| - 1]);
      BegunPhases(steps[..|steps| - 1]);
      var before := After(steps[..|steps| - 1]);
      assert forall k: nat :: k in before.begun ==> k < |before.callers|;
    }
  }

  lemma OneMore(steps: seq<Step>, step: Step)
    requires !step.Arrive?
    ensures After(steps + [step]) == Next(After(steps), step) && Arrivals(steps + [step]) == Arrivals(steps)
  {
    assert (steps + [step])[..|steps|] == steps;
  }

  /** From steps to longer only caller k has moved on. */
  ghost predicate OnlyMoves(steps: seq<Step>, longer: seq<Step>, k: nat) {
    && steps <= longer && Arrivals(longer) == Arrivals(steps) && |After(longer).callers| == |After(steps).callers|
    && forall j :: 0 <= j < |After(steps).callers| && j != k ==> After(longer).callers[j] == After(steps).callers[j]
  }

  lemma BeginIfWaiting(steps: seq<Step>, k: nat) returns (longer: seq<Step>)
    requires k < |After(steps).callers| && PriorDone(After(steps), k)
    ensures OnlyMoves(steps, longer, k) && !After(longer).callers[k].phase.Waiting?
  {
    longer := steps;
    if After(steps).callers[k].phase.Waiting? {
      OneMore(steps, Begin(k));
      longer := steps + [Begin(k)];
    }
  }

  lemma EndIfRunning(steps: seq<Step>, k: nat) returns (longer: seq<Step>)
    requires k < |After(steps).callers| && !After(steps).callers[k].phase.Waiting?
    ensures OnlyMoves(steps, longer, k) && After(longer).callers[k].phase.Released?
  {
    longer := steps;
    if After(steps).callers[k].phase.Running? {
      OneMore(steps, End(k, false));
      longer := steps + [End(k, false)];
    }
  }

  lemma ResolveIfReleased(steps: seq<Step>, k: nat) returns (longer: seq<Step>)
    requires k < |After(steps).callers| && PriorDone(After(steps), k) && After(steps).callers[k].phase.Released?
    ensures OnlyMoves(steps, longer, k) && After(longer).callers[k].tailDone
  {
    OneMore(steps, ResolveTail(k));
    longer := steps + [ResolveTail(k)];
  }

  lemma TurnComes(steps: seq<Step>, k: nat)
    requires k < |After(steps).callers| && forall j :: 0 <= j < k ==> After(steps).callers[j].tailDone
    ensures PriorDone(After(steps), k)
  {
    InvariantHolds(steps);
    assert CallerOk(After(steps), k);
  }

  /** The run can go on, without new arrivals, until the first k callers have finished. */
  lemma {:induction false} FinishFirst(steps: seq<Step>, k: nat) returns (longer: seq<Step>)
    requires k <= |After(steps).callers|
    ensures steps <= longer && Arrivals(longer) == Arrivals(steps)
    ensures |After(longer).callers| == |After(steps).callers|
    ensures forall j :: 0 <= j < k ==> After(longer).callers[j].tailDone
  {
    longer := steps;
    if k > 0 {
      longer := FinishFirst(steps, k - 1);
      TurnComes(longer, k - 1);
      longer := BeginIfWaiting(longer, k - 1);
      longer := EndIfRunning(longer, k - 1);
      TurnComes(longer, k - 1);
      longer := ResolveIfReleased(longer, k - 1);
    }
  }

  lemma {:induction false} CleanFirst(steps: seq<Step>, k: nat) returns (longer: seq<Step>)
    requires k <= |After(steps).callers| && forall j :: 0 <= j < |After(steps).callers| ==>
               After(steps).callers[j].tailDone
    ensures steps <= longer && Arrivals(longer) == Arrivals(steps)
    ensures After(longer).callers == After(steps).callers
    ensures forall o :: o in After(longer).tails ==> k <= After(longer).tails[o]
  {
    longer := steps;
    if k > 0 {
      longer := CleanFirst(steps, k - 1);
      InvariantHolds(longer);
      OneMore(longer, Cleanup(k - 1));
      longer := longer + [Cleanup(k - 1)];
    }
  }

  /**
   * No caller is shut out and no tail is left behind: every run can go on, without new arrivals, to
   * a point where all callers have had their section and finished, and the map is empty again.
   */
  lemma ChainDrains(steps: seq<Step>) returns (longer: seq<Step>)
    ensures steps <= longer && Arrivals(longer) == Arrivals(steps)
    ensures var s := After(longer);
            && |s.callers| == |Arrivals(steps)| && s.tails == map[]
            && (forall k :: 0 <= k < |s.callers| ==> s.callers[k].tailDone)
            && (forall k: nat :: k < |s.callers| ==> k in s.begun)
  {
    CallersAreArrivals(steps);
    var n := |After(steps).callers|;
    longer := FinishFirst(steps, n);
    longer := CleanFirst(longer, n);
    InvariantHolds(longer);
    CallersAreArrivals(longer);
    forall k: nat | k < n
      ensures k in After(longer).begun
    {
      assert CallerOk(After(longer), k);
    }
  }
}
