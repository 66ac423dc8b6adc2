/**
 * The table of active permission requests: prompts for the same resource are coalesced into one
 * queue of waiting promises, and granting or denying the prompt settles the whole queue.
 * A step is what runs between two suspension points.
 */
module RequestQueues {
  import opened Common

  /** Request ids: a single permission, a grouped request, or a counterparty pact. */
  datatype Key = Single(id: string) | Grouped(id: string) | Pact(id: string)

  /** A queue object; pending lists the waiters pushed so far.  Only objects in the table are reachable. */
  datatype Queue = Queue(key: Key, pending: seq<nat>)

  /** A promise: the queue it was pushed to, and how often it has been resolved or rejected. */
  datatype Waiter = Waiter(home: nat, settled: nat)

  datatype Book = Book(queues: seq<Queue>, active: map<Key, nat>, waiters: seq<Waiter>)

  /** A grouped or counterparty grant that waits for its tokens, with the queue object it captured. */
  datatype Grant = Grant(key: Key, queue: nat)

  /** flows are callers between their first look at the table and their second; ended flows and grants are None. */
  datatype Table = Table(book: Book, flows: seq<Option<Key>>, grants: seq<Option<Grant>>)

  datatype Step =
    | Arrive(key: Key)        // requestPermissionFlow up to its first await
    | Resume(flow: nat)       // its second check, and enqueueAndFireEvent up to the event
    | Leave(flow: nat)        // the grouped flow or a pact already answered the request
    | Join(key: Key)          // joinOrCreateGroupedRequest, joinOrCreatePactRequest
    | EventFails(key: Key)    // the event handler of enqueueAndFireEvent threw
    | SettleNow(key: Key)     // grantPermission, denyPermission, denyActiveRequest, dismissGroupedPermission
    | BeginGrant(key: Key)    // grantGroupedPermission, grantCounterpartyPermission up to their first await
    | FinishGrant(grant: nat) // their last stretch; a failed grouped grant rejects instead of resolving
    | AbandonGrant(grant: nat) // a counterparty grant that threw leaves its queue as it is

  const Empty := Table(Book([], map[], []), [], [])

  predicate IsActive(b: Book, q: nat) {
    q < |b.queues| && b.queues[q].key in b.active && b.active[b.queues[q].key] == q
  }

  function PushTo(b: Book, q: nat): Book
    requires q < |b.queues|
  {
    Book(b.queues[q := Queue(b.queues[q].key, b.queues[q].pending + [|b.waiters|])], b.active,
         b.waiters + [Waiter(q, 0)])
  }

  function NewQueue(b: Book, key: Key): Book {
    Book(b.queues + [Queue(key, [|b.waiters|])], b.active[key := |b.queues|], b.waiters + [Waiter(|b.queues|, 0)])
  }

  /** A single permission piggybacks on a queue that has waiters, the other kinds on any queue. */
  predicate Piggybacks(b: Book, key: Key) {
    key in b.active && b.active[key] < |b.queues| && (key.Single? ==> b.queues[b.active[key]].pending != [])
  }

  /** Push a new waiter to the key's queue, or put a new queue in the table, replacing what it has. */
  function JoinOrCreate(b: Book, key: Key): Book {
    if Piggybacks(b, key) then PushTo(b, b.active[key]) else NewQueue(b, key)
  }

  function Settled(waiters: seq<Waiter>, pending: seq<nat>): seq<Waiter> {
    seq(|waiters|, w requires 0 <= w < |waiters| =>
      if w in pending then Waiter(waiters[w].home, waiters[w].settled + 1) else waiters[w])
  }

  /** Settle the queue object q and delete whatever the table has under key. */
  function SettleQueue(b: Book, key: Key, q: nat): Book {
    Book(b.queues, b.active - {key}, if q < |b.queues| then Settled(b.waiters, b.queues[q].pending) else b.waiters)
  }

  predicate InProgress(s: Table, g: nat) { g < |s.grants| && s.grants[g].Some? }

  /** What the program can do; nothing keeps settling calls for one prompt apart. */
  predicate Enabled(s: Table, step: Step) {
    match step
    case Arrive(key) => key.Single?
    case Resume(f) => f < |s.flows| && s.flows[f].Some?
    case Leave(f) => f < |s.flows| && s.flows[f].Some?
    case Join(key) => !key.Single?
    case EventFails(key) => key.Single? && key in s.book.active
    case SettleNow(key) => key in s.book.active
    case BeginGrant(key) => !key.Single? && key in s.book.active
    case FinishGrant(g) => InProgress(s, g)
    case AbandonGrant(g) => InProgress(s, g) && s.grants[g].value.key.Pact?
  }

  function Next(s: Table, step: Step): Table {
    if !Enabled(s, step) then s else
    match step
    case Arrive(key) =>
      if Piggybacks(s.book, key) then s.(book := JoinOrCreate(s.book, key)) else s.(flows := s.flows + [Some(key)])
    case Resume(f) => s.(book := JoinOrCreate(s.book, s.flows[f].value), flows := s.flows[f := None])
    case Leave(f) => s.(flows := s.flows[f := None])
    case Join(key) => s.(book := JoinOrCreate(s.book, key))
    case EventFails(key) => s.(book := SettleQueue(s.book, key, s.book.active[key]))
    case SettleNow(key) => s.(book := SettleQueue(s.book, key, s.book.active[key]))
    case BeginGrant(key) => s.(grants := s.grants + [Some(Grant(key, s.book.active[key]))])
    case FinishGrant(g) =>
      s.(book := SettleQueue(s.book, s.grants[g].value.key, s.grants[g].value.queue), grants := s.grants[g := None])
    case AbandonGrant(g) => s.(grants := s.grants[g := None])
  }

  function Run(s: Table, steps: seq<Step>): Table {
    if steps == [] then s else Next(Run(s, steps[..|steps| - 1]), steps[|steps| - 1])
  }

  /** The manager's table, updated in place; queues stands for the heap of queue objects. */
  class Requests {
    var queues: seq<Queue>
    var active: map<Key, nat>
    var waiters: seq<Waiter>
    var flows: seq<Option<Key>>
    var grants: seq<Option<Grant>>

    ghost function View(): Table
      reads this
    {
      Table(Book(queues, active, waiters), flows, grants)
    }

    constructor ()
      ensures View() == Empty
    {
      queues, active, waiters, flows, grants := [], map[], [], [], [];
    }

    method Enqueue(key: Key) returns (w: nat)
      requires key in active ==> active[key] < |queues|
      modifies this`queues, this`active, this`waiters
      ensures Book(queues, active, waiters) == JoinOrCreate(old(Book(queues, active, waiters)), key)
      ensures w == |old(waiters)|
    {
      w := |waiters|;
      if key in active && (key.Single? ==> queues[active[key]].pending != []) {
        var q := active[key];
        queues := queues[q := Queue(queues[q].key, queues[q].pending + [w])];
        waiters := waiters + [Waiter(q, 0)];
      } else {
        active := active[key := |queues|];
        waiters := waiters + [Waiter(|queues|, 0)];
        queues := queues + [Queue(key, [w])];
      }
    }

    method RequestPermission(key: Key) returns (joined: bool)
      requires Shape(View()) && key.Single?
      modifies this
      ensures View() == Next(old(View()), Arrive(key)) && joined == (key in old(active))
    {
      joined := key in active && queues[active[key]].pending != [];
      if key in active {
        assert QueueOk(View().book, active[key]);
      }
      if joined {
        var _ := Enqueue(key);
      } else {
        flows := flows + [Some(key)];
      }
    }

    method RecheckAndEnqueue(f: nat)
      requires Shape(View()) && Enabled(View(), Resume(f))
      modifies this
      ensures View() == Next(old(View()), Resume(f))
    {
      var key := flows[f].value;
      assert key in active ==> QueueOk(View().book, active[key]);
      flows := flows[f := None];
      var _ := Enqueue(key);
    }

    /** The loop that resolves or rejects every promise of one queue object. */
    method SettlePending(q: nat)
      requires q < |queues| && QueueOk(View().book, q)
      modifies this`waiters
      ensures waiters == Settled(old(waiters), queues[q].pending)
    {
      var pending := queues[q].pending;
      var i := 0;
      while i < |pending|
        invariant 0 <= i <= |pending|
        invariant |waiters| == |old(waiters)|
        invariant forall w :: 0 <= w < |waiters| ==>
                    waiters[w] == if w in pending[..i] then old(waiters)[w].(settled := old(waiters)[w].settled + 1)
                                  else old(waiters)[w]
      {
        var w := pending[i];
        assert w in pending && w !in pending[..i];
        waiters := waiters[w := Waiter(waiters[w].home, waiters[w].settled + 1)];
        i := i + 1;
      }
      assert pending[..i] == pending;
    }

    /** Granting or denying a single prompt, denying or dismissing a grouped one. */
    method Settle(key: Key) returns (r: Result<()>)
      requires Shape(View())
      modifies this
      ensures r.Ok? <==> key in old(active)
      ensures View() == Next(old(View()), SettleNow(key))
    {
      if key !in active {
        return Err("Request ID not found.");
      }
      assert QueueOk(View().book, active[key]);
      SettlePending(active[key]);
      active := active - {key};
      return Ok(());
    }

    method BeginGroupedGrant(key: Key) returns (r: Result<nat>)
      requires !key.Single?
      modifies this
      ensures r.Ok? <==> key in old(active)
      ensures r.Ok? ==> r.value == |old(grants)|
      ensures View() == Next(old(View()), BeginGrant(key))
    {
      if key !in active {
        return Err("Request ID not found.");
      }
      grants := grants + [Some(Grant(key, active[key]))];
      return Ok(|grants| - 1);
    }

    method FinishGroupedGrant(g: nat)
      requires Shape(View()) && InProgress(View(), g)
      modifies this
      ensures View() == Next(old(View()), FinishGrant(g))
    {
      var grant := grants[g].value;
      assert GrantOk(View(), g) && QueueOk(View().book, grant.queue);
      SettlePending(grant.queue);
      active := active - {grant.key};
      grants := grants[g := None];
    }
  }

  // ----- What every run keeps

  ghost predicate QueueOk(b: Book, q: nat)
    requires q < |b.queues|
  {
    && b.queues[q].pending != [] && NoDuplicates(b.queues[q].pending)
    && (forall w :: w in b.queues[q].pending ==> w < |b.waiters| && b.waiters[w].home == q)
  }

  ghost predicate BookShape(b: Book) {
    && (forall q :: 0 <= q < |b.queues| ==> QueueOk(b, q))
    && (forall k :: k in b.active ==> b.active[k] < |b.queues| && b.queues[b.active[k]].key == k)
  }

  /** A grant in progress holds a queue object of its key. */
  predicate GrantOk(s: Table, g: nat) {
    InProgress(s, g) ==>
      var grant := s.grants[g].value;
      grant.queue < |s.book.queues| && s.book.queues[grant.queue].key == grant.key && !grant.key.Single?
  }

  /** What every step keeps, whatever settling calls overlap. */
  ghost predicate Shape(s: Table) {
    && BookShape(s.book)
    && (forall g :: 0 <= g < |s.grants| ==> GrantOk(s, g))
    && (forall f :: 0 <= f < |s.flows| && s.flows[f].Some? ==> s.flows[f].value.Single?)
  }

  /**
   * A waiter is listed by its own queue, and has been settled exactly once when that queue has left
   * the table, else not.
   */
  ghost predicate WaiterOk(b: Book, w: nat)
    requires w < |b.waiters|
  {
    var q := b.waiters[w].home;
    && q < |b.queues| && w in b.queues[q].pending
    && b.waiters[w].settled == if IsActive(b, q) then 0 else 1
  }

  /** Every waiter is accounted for. */
  ghost predicate Accounted(b: Book) { forall w :: 0 <= w < |b.waiters| ==> WaiterOk(b, w) }

  // ----- The shape of the table

  lemma PushKeepsShape(b: Book, q: nat)
    requires BookShape(b) && q < |b.queues|
    ensures BookShape(PushTo(b, q))
  {
    var b' := PushTo(b, q);
    assert QueueOk(b, q);
    assert forall i :: 0 <= i < |b.queues[q].pending| ==> b.queues[q].pending[i] in b.queues[q].pending;
    forall p | 0 <= p < |b'.queues|
      ensures QueueOk(b', p)
    {
      assert QueueOk(b, p);
    }
  }

  lemma NewQueueKeepsShape(b: Book, key: Key)
    requires BookShape(b)
    ensures BookShape(NewQueue(b, key))
  {
    var b' := NewQueue(b, key);
    forall q | 0 <= q < |b'.queues|
      ensures QueueOk(b', q)
    {
      if q < |b.queues| {
        assert QueueOk(b, q);
      }
    }
  }

  lemma JoinKeepsShape(b: Book, key: Key)
    requires BookShape(b)
    ensures BookShape(JoinOrCreate(b, key)) && |b.queues| <= |JoinOrCreate(b, key).queues|
    ensures forall q :: 0 <= q < |b.queues| ==> JoinOrCreate(b, key).queues[q].key == b.queues[q].key
  {
    if key in b.active {
      PushKeepsShape(b, b.active[key]);
    }
    NewQueueKeepsShape(b, key);
  }

  lemma SettleKeepsShape(b: Book, key: Key, q: nat)
    requires BookShape(b)
    ensures BookShape(SettleQueue(b, key, q))
  {
    var b' := SettleQueue(b, key, q);
    forall p | 0 <= p < |b'.queues|
      ensures QueueOk(b', p)
    {
      assert QueueOk(b, p);
    }
  }

  lemma NextKeepsShape(s: Table, step: Step)
    requires Shape(s)
    ensures Shape(Next(s, step))
  {
    if Enabled(s, step) {
      match step
      case Arrive(key) => JoinKeepsShape(s.book, key);
      case Resume(f) => JoinKeepsShape(s.book, s.flows[f].value);
      case Join(key) => JoinKeepsShape(s.book, key);
      case EventFails(key) => SettleKeepsShape(s.book, key, s.book.active[key]);
      case SettleNow(key) => SettleKeepsShape(s.book, key, s.book.active[key]);
      case FinishGrant(g) => SettleKeepsShape(s.book, s.grants[g].value.key, s.grants[g].value.queue);
      case _ =>
    }
    assert BookShape(Next(s, step).book);
    forall g | 0 <= g < |Next(s, step).grants|
      ensures GrantOk(Next(s, step), g)
    {
      assert g < |s.grants| ==> GrantOk(s, g);
    }
  }

  lemma {:induction false} RunKeepsShape(s: Table, steps: seq<Step>)
    requires Shape(s)
    ensures Shape(Run(s, steps))
  {
    if steps != [] {
      RunKeepsShape(s, steps[..|steps| - 1]);
      NextKeepsShape(Run(s, steps[..|steps| - 1]), steps[|steps| - 1]);
    }
  }

  // ----- Requests become waiters

  /**
   * One more waiter, unsettled, at the end of the queue that the table then has under the key: the
   * queue it had, if any, and else one of this waiter alone.  Nothing else changes.
   */
  ghost predicate JoinedBy(b: Book, b': Book, key: Key) {
    var w := |b.waiters|;
    && key in b'.active && b'.active[key] < |b'.queues|
    && b'.waiters == b.waiters + [Waiter(b'.active[key], 0)]
    && (if key in b.active then
          && b'.active == b.active && b.active[key] < |b.queues| == |b'.queues|
          && b'.queues[b'.active[key]] == Queue(key, b.queues[b.active[key]].pending + [w])
        else
          && b'.active[key] == |b.queues| == |b'.queues| - 1 && b'.active - {key} == b.active
          && b'.queues[b'.active[key]] == Queue(key, [w]))
    && (forall q :: 0 <= q < |b.queues| && q != b'.active[key] ==> b'.queues[q] == b.queues[q])
  }

  lemma JoiningAddsOneWaiter(b: Book, key: Key)
    requires BookShape(b)
    ensures JoinedBy(b, JoinOrCreate(b, key), key)
  {
    if key in b.active {
      assert QueueOk(b, b.active[key]);
    } else {
      assert b.active[key := |b.queues|] - {key} == b.active;
    }
  }

  /** The steps that complete a request for a prompt, and the prompt's key. */
  function Completes(s: Table, step: Step): Option<Key> {
    match step
    case Arrive(key) => if key.Single? && key in s.book.active then Some(key) else None
    case Resume(f) => if f < |s.flows| then s.flows[f] else None
    case Join(key) => if key.Single? then None else Some(key)
    case _ => None
  }

  /**
   * A request that finds its prompt on arrival, looks for it a second time, or is for a grouped
   * prompt or a pact, becomes a waiter of that prompt; no other step adds one.
   */
  lemma RequestsBecomeWaiters(s: Table, step: Step)
    requires Shape(s)
    ensures match Completes(s, step)
            case Some(key) => JoinedBy(s.book, Next(s, step).book, key)
            case None => |Next(s, step).book.waiters| == |s.book.waiters|
  {
    match step
    case Arrive(key) =>
      if key in s.book.active {
        assert QueueOk(s.book, s.book.active[key]);
      }
      JoiningAddsOneWaiter(s.book, key);
    case Resume(f) =>
      if f < |s.flows| && s.flows[f].Some? {
        JoiningAddsOneWaiter(s.book, s.flows[f].value);
      }
    case Join(key) => JoiningAddsOneWaiter(s.book, key);
    case _ =>
  }

  function OpenFlows(flows: seq<Option<Key>>): nat {
    if flows == [] then 0 else OpenFlows(flows[..|flows| - 1]) + if flows[|flows| - 1].Some? then 1 else 0
  }

  lemma {:induction false} ClosingOneFlow(flows: seq<Option<Key>>, f: nat)
    requires f < |flows| && flows[f].Some?
    ensures OpenFlows(flows[f := None]) == OpenFlows(flows) - 1
  {
    var n := |flows| - 1;
    if f < n {
      ClosingOneFlow(flows[..n], f);
      assert flows[f := None][..n] == flows[..n][f := None];
    } else {
      assert flows[f := None][..n] == flows[..n];
    }
  }

  /** A request that came in by the step, one that another answer settled, and one that became a waiter. */
  function CameIn(step: Step): nat {
    match step case Arrive(key) => (if key.Single? then 1 else 0) case Join(key) => (if key.Single? then 0
                                                                                     else 1) case _ => 0
  }

  function Left(s: Table, step: Step): nat {
    if step.Leave? && step.flow < |s.flows| && s.flows[step.flow].Some? then 1 else 0
  }

  function Requested(steps: seq<Step>): nat {
    if steps == [] then 0 else Requested(steps[..|steps| - 1]) + CameIn(steps[|steps| - 1])
  }

  function Answered(steps: seq<Step>): nat {
    if steps == [] then 0
    else Answered(steps[..|steps| - 1]) + Left(Run(Empty, steps[..|steps| - 1]), steps[|steps| - 1])
  }

  function Completed(steps: seq<Step>): nat {
    if steps == [] then 0
    else Completed(steps[..|steps| - 1])
         + if Completes(Run(Empty, steps[..|steps| - 1]), steps[|steps| - 1]).Some? then 1 else 0
  }

  lemma StepKeepsRequests(s: Table, step: Step)
    requires Shape(s)
    ensures var s' := Next(s, step);
            |s'.book.waiters| + OpenFlows(s'.flows) + Left(s, step)
            == |s.book.waiters| + OpenFlows(s.flows) + CameIn(step)
  {
    RequestsBecomeWaiters(s, step);
    match step
    case Arrive(key) =>
      if key.Single? && key !in s.book.active {
        assert (s.flows + [Some(key)])[..|s.flows|] == s.flows;
      } else if key.Single? {
        assert QueueOk(s.book, s.book.active[key]);
      }
    case Resume(f) =>
      if Enabled(s, step) {
        ClosingOneFlow(s.flows, f);
      }
    case Leave(f) =>
      if Enabled(s, step) {
        ClosingOneFlow(s.flows, f);
      }
    case _ =>
  }

  /**
   * No request is lost or doubled: after any run every one that came in is a waiter, between its two
   * looks at the table, or answered by the grouped flow or a pact.  The waiters are as many as the
   * requests that completed.
   */
  lemma {:induction false} RequestsAreConserved(steps: seq<Step>)
    ensures var end := Run(Empty, steps);
            && Requested(steps) == |end.book.waiters| + OpenFlows(end.flows) + Answered(steps)
            && |end.book.waiters| == Completed(steps)
  {
    if steps != [] {
      var shorter, last := steps[..|steps| - 1], steps[|steps| - 1];
      RequestsAreConserved(shorter);
      RunKeepsShape(Empty, shorter);
      StepKeepsRequests(Run(Empty, shorter), last);
      RequestsBecomeWaiters(Run(Empty, shorter), last);
    }
  }

  // ----- When every waiter stays accounted for

  /** The grant in progress still has its queue in the table. */
  predicate Live(s: Table, g: nat) {
    InProgress(s, g) && s.grants[g].value.key in s.book.active &&
        s.book.active[s.grants[g].value.key] == s.grants[g].value.queue
  }

  /** The step ends a grant whose queue has left the table in the meantime. */
  predicate EndsDeadGrant(s: Table, step: Step) {
    step.FinishGrant? && InProgress(s, step.grant) && !Live(s, step.grant)
  }

  lemma JoinKeepsAccounts(b: Book, key: Key)
    requires BookShape(b) && Accounted(b) && (key.Single? || key !in b.active || Piggybacks(b, key))
    ensures Accounted(JoinOrCreate(b, key))
  {
    if key in b.active {
      assert QueueOk(b, b.active[key]);
    }
    var b' := JoinOrCreate(b, key);
    forall w | 0 <= w < |b'.waiters|
      ensures WaiterOk(b', w)
    {
      if w < |b.waiters| {
        assert WaiterOk(b, w);
      }
    }
  }

  lemma SettleKeepsAccounts(b: Book, key: Key)
    requires BookShape(b) && Accounted(b) && key in b.active
    ensures Accounted(SettleQueue(b, key, b.active[key]))
  {
    var b' := SettleQueue(b, key, b.active[key]);
    assert QueueOk(b, b.active[key]);
    forall w | 0 <= w < |b'.waiters|
      ensures WaiterOk(b', w)
    {
      assert WaiterOk(b, w);
    }
  }

  /** Ending a dead grant settles everyone its queue lists a second time. */
  lemma DeadGrantSettlesTwice(s: Table, g: nat, w: nat)
    requires Shape(s) && Accounted(s.book) && InProgress(s, g) && !Live(s, g)
    requires GrantOk(s, g) && w in s.book.queues[s.grants[g].value.queue].pending
    ensures w < |s.book.waiters| && s.book.waiters[w].settled == 1
    ensures var b := Next(s, FinishGrant(g)).book; w < |b.waiters| && b.waiters[w].settled == 2
  {
    assert QueueOk(s.book, s.grants[g].value.queue) && WaiterOk(s.book, w);
  }

  /** A step keeps every waiter accounted for exactly unless it ends a grant whose queue has left the table. */
  lemma StepKeepsAccountsExactly(s: Table, step: Step)
    requires Shape(s) && Accounted(s.book)
    ensures Accounted(Next(s, step).book) <==> !EndsDeadGrant(s, step)
  {
    if EndsDeadGrant(s, step) {
      assert GrantOk(s, step.grant);
      var q := s.grants[step.grant].value.queue;
      assert QueueOk(s.book, q);
      var w := s.book.queues[q].pending[0];
      DeadGrantSettlesTwice(s, step.grant, w);
      assert !WaiterOk(Next(s, step).book, w);
    } else if Enabled(s, step) {
      match step
      case Arrive(key) => JoinKeepsAccounts(s.book, key);
      case Resume(f) => JoinKeepsAccounts(s.book, s.flows[f].value);
      case Join(key) =>
        if key in s.book.active {
          assert QueueOk(s.book, s.book.active[key]);
        }
        JoinKeepsAccounts(s.book, key);
      case EventFails(key) => SettleKeepsAccounts(s.book, key);
      case SettleNow(key) => SettleKeepsAccounts(s.book, key);
      case FinishGrant(g) => SettleKeepsAccounts(s.book, s.grants[g].value.key);
      case _ =>
    }
  }

  /** A settling call -- or the end of a grant -- for the key. */
  predicate Settles(s: Table, step: Step, key: Key) {
    && Enabled(s, step)
    && match step
       case EventFails(k) => k == key
       case SettleNow(k) => k == key
       case FinishGrant(g) => s.grants[g].value.key == key
       case _ => false
  }

  predicate Ends(s: Table, step: Step, g: nat) {
    Enabled(s, step) && (step == FinishGrant(g) || step == AbandonGrant(g))
  }

  /** The step settles the prompt that grant g, still in progress, is about. */
  predicate Hits(s: Table, step: Step, g: nat) {
    InProgress(s, g) && !Ends(s, step, g) && Settles(s, step, s.grants[g].value.key)
  }

  /** A grant loses its queue exactly when it is hit, and never gets it back. */
  lemma LiveUntilHit(s: Table, step: Step, g: nat)
    requires Shape(s) && InProgress(s, g) && !Ends(s, step, g)
    ensures InProgress(Next(s, step), g) && Next(s, step).grants[g] == s.grants[g]
    ensures Live(Next(s, step), g) <==> Live(s, g) && !Hits(s, step, g)
  {
    assert GrantOk(s, g);
    var key := s.grants[g].value.key;
    if key in s.book.active {
      assert QueueOk(s.book, s.book.active[key]);
    }
  }

  /** Grants are numbered in the order they begin, and one that has ended never comes back. */
  lemma GrantsOnlyEnd(s: Table, step: Step, g: nat)
    ensures |s.grants| <= |Next(s, step).grants|
    ensures InProgress(Next(s, step), g) ==>
              (InProgress(s, g) && !Ends(s, step, g)) || (g == |s.grants| && step.BeginGrant? && Enabled(s, step))
  {
  }

  /** A grant in progress has just begun, with its queue, or has the queue as before unless it has been hit. */
  lemma LivenessAfterStep(s: Table, step: Step, g: nat)
    requires Shape(s) && InProgress(Next(s, step), g)
    ensures InProgress(s, g) ==> (Live(Next(s, step), g) <==> Live(s, g) && !Hits(s, step, g))
    ensures !InProgress(s, g) ==> Live(Next(s, step), g) && |s.grants| <= g && !Hits(s, step, g)
  {
    GrantsOnlyEnd(s, step, g);
    if InProgress(s, g) {
      LiveUntilHit(s, step, g);
    }
  }

  /** The table after the first n steps. */
  function After(steps: seq<Step>, n: nat): Table
    requires n <= |steps|
  {
    if n == 0 then Empty else Next(After(steps, n - 1), steps[n - 1])
  }

  lemma {:induction false} AfterIsRun(steps: seq<Step>, n: nat)
    requires n <= |steps|
    ensures After(steps, n) == Run(Empty, steps[..n]) && Shape(After(steps, n))
  {
    if n > 0 {
      AfterIsRun(steps, n - 1);
      assert steps[..n][..n - 1] == steps[..n - 1];
      NextKeepsShape(After(steps, n - 1), steps[n - 1]);
    } else {
      assert steps[..0] == [];
    }
  }

  /** Grant g is hit by one of the first n steps. */
  ghost predicate HitBefore(steps: seq<Step>, n: nat, g: nat)
    requires n <= |steps|
  {
    exists j: nat :: j < n && Hits(After(steps, j), steps[j], g)
  }

  lemma {:induction false} NoGrantBeforeItBegins(steps: seq<Step>, n: nat, j: nat, g: nat)
    requires j <= n <= |steps| && InProgress(After(steps, j), g)
    ensures g < |After(steps, n).grants|
  {
    if j < n {
      NoGrantBeforeItBegins(steps, n - 1, j, g);
      GrantsOnlyEnd(After(steps, n - 1), steps[n - 1], g);
    }
  }

  lemma NotHitBeforeItBegins(steps: seq<Step>, n: nat, g: nat)
    requires n <= |steps| && |After(steps, n).grants| <= g
    ensures !HitBefore(steps, n, g)
  {
    forall j: nat | j < n
      ensures !Hits(After(steps, j), steps[j], g)
    {
      if InProgress(After(steps, j), g) {
        NoGrantBeforeItBegins(steps, n, j, g);
      }
    }
  }

  lemma HitByTheLastStepOrBefore(steps: seq<Step>, n: nat, g: nat)
    requires 0 < n <= |steps|
    ensures HitBefore(steps, n, g) <==> HitBefore(steps, n - 1, g) || Hits(After(steps, n - 1), steps[n - 1], g)
  {
    if Hits(After(steps, n - 1), steps[n - 1], g) {
      assert HitBefore(steps, n, g);
    } else if j: nat :| j < n - 1 && Hits(After(steps, j), steps[j], g) {
      assert HitBefore(steps, n, g);
    }
  }

  /** At any point of a run, a grant in progress has its queue exactly when it has not been hit. */
  lemma {:induction false} LiveExactlyWhenNotHit(steps: seq<Step>, n: nat, g: nat)
    requires n <= |steps| && InProgress(After(steps, n), g)
    ensures Live(After(steps, n), g) <==> !HitBefore(steps, n, g)
  {
    var s, step := After(steps, n - 1), steps[n - 1];
    AfterIsRun(steps, n - 1);
    LivenessAfterStep(s, step, g);
    HitByTheLastStepOrBefore(steps, n, g);
    if InProgress(s, g) {
      LiveExactlyWhenNotHit(steps, n - 1, g);
    } else {
      NotHitBeforeItBegins(steps, n - 1, g);
    }
  }

  /** Every waiter is accounted for after each of the first n steps. */
  ghost predicate AccountedThroughout(steps: seq<Step>, n: nat)
    requires n <= |steps|
  {
    forall i: nat :: i <= n ==> Accounted(After(steps, i).book)
  }

  /** A grant ends, at one of the first n steps, after a settling call for its prompt has hit it. */
  ghost predicate HitGrantEnds(steps: seq<Step>, n: nat)
    requires n <= |steps|
  {
    exists i: nat :: i < n && EndsHitGrant(steps, i)
  }

  ghost predicate EndsHitGrant(steps: seq<Step>, i: nat)
    requires i < |steps|
  {
    steps[i].FinishGrant? && InProgress(After(steps, i), steps[i].grant) && HitBefore(steps, i, steps[i].grant)
  }

  /**
   * In a run of any steps -- with any overlapping settling calls -- every waiter stays accounted
   * for exactly when no grant ends after a settling call has hit its prompt: every waiter is then
   * settled exactly once and out of the table, or unsettled and in the one queue it waits in.
   */
  lemma {:induction false} AccountedExactlyWithoutOverlap(steps: seq<Step>, n: nat)
    requires n <= |steps|
    ensures AccountedThroughout(steps, n) <==> !HitGrantEnds(steps, n)
  {
    if n > 0 {
      AccountedExactlyWithoutOverlap(steps, n - 1);
      AfterIsRun(steps, n - 1);
      var s, step := After(steps, n - 1), steps[n - 1];
      if AccountedThroughout(steps, n - 1) {
        StepKeepsAccountsExactly(s, step);
        if step.FinishGrant? && InProgress(s, step.grant) {
          LiveExactlyWhenNotHit(steps, n - 1, step.grant);
        }
        assert EndsHitGrant(steps, n - 1) <==> EndsDeadGrant(s, step);
        assert Accounted(After(steps, n).book) <==> !EndsHitGrant(steps, n - 1);
      }
      if AccountedThroughout(steps, n) {
        assert AccountedThroughout(steps, n - 1);
      }
      if i: nat :| i < n - 1 && EndsHitGrant(steps, i) {
        assert HitGrantEnds(steps, n);
      }
    }
  }

  /** The waiter is listed at one place in the table, by queue q. */
  ghost predicate ListedOnce(b: Book, w: nat, q: nat) {
    && IsActive(b, q) && w in b.queues[q].pending && NoDuplicates(b.queues[q].pending)
    && (forall q': nat :: q' < |b.queues| && q' != q ==> w !in b.queues[q'].pending)
  }

  /**
   * After any run in which no hit grant ends, every waiter has either been settled exactly once and
   * is in no queue of the table, or has not been settled and is listed once, by exactly one queue.
   */
  lemma EveryWaiterAccountedFor(steps: seq<Step>, w: nat)
    requires !HitGrantEnds(steps, |steps|) && w < |After(steps, |steps|).book.waiters|
    ensures var b := After(steps, |steps|).book;
            || (b.waiters[w].settled == 1 && forall q: nat :: IsActive(b, q) ==> w !in b.queues[q].pending)
            || (b.waiters[w].settled == 0 && ListedOnce(b, w, b.waiters[w].home))
  {
    AccountedExactlyWithoutOverlap(steps, |steps|);
    AfterIsRun(steps, |steps|);
    var b := After(steps, |steps|).book;
    assert Accounted(b) && WaiterOk(b, w);
    forall q: nat | q < |b.queues| && q != b.waiters[w].home
      ensures w !in b.queues[q].pending
    {
      assert QueueOk(b, q);
    }
    assert QueueOk(b, b.waiters[w].home);
  }

  // ----- Queues and grants

  /** What one change of the book may do to the queue that the table has under a key. */
  ghost predicate KeptOrSettled(b: Book, b': Book, key: Key)
    requires key in b.active
  {
    var q := b.active[key];
    && q < |b.queues| <= |b'.queues| && b.queues[q].pending != []
    && (key in b'.active ==> b'.active[key] == q && b.queues[q].pending <= b'.queues[q].pending)
    && (key !in b'.active ==>
          forall w :: w in b.queues[q].pending ==> w < |b'.waiters| && b'.waiters[w] == Waiter(q, 1))
  }

  lemma SettleSettles(b: Book, settled: Key, key: Key)
    requires BookShape(b) && Accounted(b) && settled in b.active && key in b.active
    ensures KeptOrSettled(b, SettleQueue(b, settled, b.active[settled]), key)
  {
    var q := b.active[key];
    assert QueueOk(b, q);
    forall w | w in b.queues[q].pending
      ensures b.waiters[w] == Waiter(q, 0)
    {
      assert WaiterOk(b, w);
    }
  }

  lemma JoinKeepsQueues(b: Book, joined: Key, key: Key)
    requires BookShape(b) && key in b.active
    ensures KeptOrSettled(b, JoinOrCreate(b, joined), key) && key in JoinOrCreate(b, joined).active
  {
    assert QueueOk(b, b.active[key]);
    if joined in b.active {
      assert QueueOk(b, b.active[joined]);
    }
  }

  /** Ending a dead grant takes the queue that its key has now out of the table, without settling it. */
  lemma DeadGrantDropsQueue(s: Table, g: nat)
    requires Shape(s) && Accounted(s.book) && InProgress(s, g) && !Live(s, g) && s.grants[g].value.key in s.book.active
    ensures !KeptOrSettled(s.book, Next(s, FinishGrant(g)).book, s.grants[g].value.key)
  {
    assert GrantOk(s, g);
    var b, q := s.book, s.book.active[s.grants[g].value.key];
    assert QueueOk(b, q) && QueueOk(b, s.grants[g].value.queue);
    var w := b.queues[q].pending[0];
    assert w in b.queues[q].pending && WaiterOk(b, w);
    assert w !in b.queues[s.grants[g].value.queue].pending;
  }

  /**
   * A step replaces no queue -- after it the table still has the same queue under the key, with at
   * least the same waiters, or nothing and the queue's waiters have all just been settled -- exactly
   * unless it ends a grant for the key whose own queue has left the table.
   */
  lemma QueueNeverOverwritten(s: Table, step: Step, key: Key)
    requires Shape(s) && Accounted(s.book) && key in s.book.active
    ensures KeptOrSettled(s.book, Next(s, step).book, key)
       <==> !(EndsDeadGrant(s, step) && s.grants[step.grant].value.key == key)
  {
    assert QueueOk(s.book, s.book.active[key]);
    if Enabled(s, step) {
      match step
      case Arrive(k) => JoinKeepsQueues(s.book, k, key);
      case Resume(f) => JoinKeepsQueues(s.book, s.flows[f].value, key);
      case Join(k) => JoinKeepsQueues(s.book, k, key);
      case EventFails(k) => SettleSettles(s.book, k, key);
      case SettleNow(k) => SettleSettles(s.book, k, key);
      case FinishGrant(g) =>
        if Live(s, g) {
          SettleSettles(s.book, s.grants[g].value.key, key);
        } else if s.grants[g].value.key == key {
          DeadGrantDropsQueue(s, g);
        }
      case _ =>
    }
  }

  /** Queues only grow, and the waiters' queues are fixed. */
  lemma StepsOnlyAdd(s: Table, step: Step)
    requires Shape(s)
    ensures var b, b' := s.book, Next(s, step).book;
            && |b.queues| <= |b'.queues| && |b.waiters| <= |b'.waiters|
            && (forall q :: 0 <= q < |b.queues| ==>
                b'.queues[q].key == b.queues[q].key && b.queues[q].pending <= b'.queues[q].pending)
            && (forall w :: 0 <= w < |b.waiters| ==> b'.waiters[w].home == b.waiters[w].home)
  {
  }

  ghost predicate NoneHitsOrEnds(s: Table, steps: seq<Step>, g: nat) {
    steps == [] || (var n := |steps| - 1;
                    && NoneHitsOrEnds(s, steps[..n], g)
                    && !Ends(Run(s, steps[..n]), steps[n], g) && !Hits(Run(s, steps[..n]), steps[n], g))
  }

  /** While a grant is in progress and not hit its queue stays in the table, so later waiters for the key join it. */
  lemma {:induction false} GrantHoldsItsQueue(s: Table, steps: seq<Step>, g: nat)
    requires Shape(s) && Live(s, g) && NoneHitsOrEnds(s, steps, g)
    ensures var s' := Run(s, steps);
            && Live(s', g) && s'.grants[g] == s.grants[g]
            && s.grants[g].value.queue < |s.book.queues| <= |s'.book.queues|
            && s.book.queues[s.grants[g].value.queue].pending <= s'.book.queues[s.grants[g].value.queue].pending
  {
    assert GrantOk(s, g);
    if steps != [] {
      var shorter := steps[..|steps| - 1];
      GrantHoldsItsQueue(s, shorter, g);
      RunKeepsShape(s, shorter);
      LiveUntilHit(Run(s, shorter), steps[|steps| - 1], g);
      StepsOnlyAdd(Run(s, shorter), steps[|steps| - 1]);
    }
  }

  /** Ending a live grant settles everyone whom its queue lists at that time, once. */
  lemma FinishSettlesQueue(s: Table, g: nat, w: nat)
    requires Shape(s) && Accounted(s.book) && Live(s, g) && w in s.book.queues[s.grants[g].value.queue].pending
    ensures w < |s.book.waiters| && s.book.waiters[w].settled == 0
    ensures var b' := Next(s, FinishGrant(g)).book;
            w < |b'.waiters| && b'.waiters[w].settled == 1 && s.grants[g].value.key !in b'.active
  {
    assert GrantOk(s, g) && QueueOk(s.book, s.grants[g].value.queue) && WaiterOk(s.book, w);
  }

  /**
   * Everyone who was waiting when the grant began, or joined while it was in progress, is settled
   * when it ends, if nothing has hit the grant.
   */
  lemma JoinersSettledWithTheGrant(s: Table, steps: seq<Step>, g: nat, w: nat)
    requires Shape(s) && Live(s, g) && NoneHitsOrEnds(s, steps, g) && Accounted(Run(s, steps).book)
    requires var b := Run(s, steps).book;
             var key := s.grants[g].value.key;
             key in b.active && b.active[key] < |b.queues| && w in b.queues[b.active[key]].pending
    ensures var b, b' := Run(s, steps).book, Next(Run(s, steps), FinishGrant(g)).book;
            && w < |b.waiters| && b.waiters[w].settled == 0
            && w < |b'.waiters| && b'.waiters[w].settled == 1 && s.grants[g].value.key !in b'.active
  {
    GrantHoldsItsQueue(s, steps, g);
    RunKeepsShape(s, steps);
    FinishSettlesQueue(Run(s, steps), g, w);
  }

  // ----- Who is stranded by an overlap

  /** The waiter has not been settled, and no settling call can reach it any more. */
  predicate Stranded(b: Book, w: nat) {
    w < |b.waiters| && b.waiters[w].settled == 0 && !IsActive(b, b.waiters[w].home)
  }

  /** The end of a grant strands exactly the waiters of the queue that its key then has, if that is not its own. */
  lemma StrandedExactly(s: Table, g: nat, w: nat)
    requires Shape(s) && InProgress(s, g) && w < |s.book.waiters| && WaiterOk(s.book, w)
    ensures var key := s.grants[g].value.key;
            Stranded(Next(s, FinishGrant(g)).book, w)
            <==> !Live(s, g) && key in s.book.active && s.book.waiters[w].home == s.book.active[key]
  {
    assert GrantOk(s, g);
    assert QueueOk(s.book, s.grants[g].value.queue) && QueueOk(s.book, s.book.waiters[w].home);
  }

  /**
   * After the overlap: the key has no queue, or one that is newer than the overlap and lists all
   * the key's newer waiters.
   */
  ghost predicate OnlyNewWaiters(hit: Book, b: Book, key: Key) {
    && |hit.waiters| <= |b.waiters|
    && (forall w :: 0 <= w < |b.waiters| ==> b.waiters[w].home < |b.queues|)
    && (forall w :: 0 <= w < |hit.waiters| ==> b.waiters[w].home < |hit.queues|)
    && (key in b.active ==> |hit.queues| <= b.active[key])
    && (forall w :: |hit.waiters| <= w < |b.waiters| && b.queues[b.waiters[w].home].key == key ==>
                      key in b.active && b.waiters[w].home == b.active[key])
  }

  lemma JoinedWaiterIsNew(hit: Book, b: Book, joined: Key, key: Key)
    requires BookShape(b) && OnlyNewWaiters(hit, b, key) && |hit.queues| <= |b.queues|
    ensures OnlyNewWaiters(hit, JoinOrCreate(b, joined), key)
  {
    var b' := JoinOrCreate(b, joined);
    if joined in b.active {
      assert QueueOk(b, b.active[joined]);
    }
    forall w | |hit.waiters| <= w < |b'.waiters| && b'.queues[b'.waiters[w].home].key == key
      ensures key in b'.active && b'.waiters[w].home == b'.active[key]
    {
      if w < |b.waiters| {
        assert b'.waiters[w] == b.waiters[w] && b'.queues[b.waiters[w].home].key == b.queues[b.waiters[w].home].key;
      }
    }
  }

  lemma OtherSettledKeepsNew(hit: Book, b: Book, settled: Key, q: nat, key: Key)
    requires OnlyNewWaiters(hit, b, key) && settled != key
    ensures OnlyNewWaiters(hit, SettleQueue(b, settled, q), key)
  {
  }

  lemma NewWaitersStep(hit: Book, s: Table, step: Step, key: Key)
    requires Shape(s) && OnlyNewWaiters(hit, s.book, key) && |hit.queues| <= |s.book.queues| && !Settles(s, step, key)
    ensures OnlyNewWaiters(hit, Next(s, step).book, key)
  {
    if Enabled(s, step) {
      match step
      case Arrive(k) => JoinedWaiterIsNew(hit, s.book, k, key);
      case Resume(f) => JoinedWaiterIsNew(hit, s.book, s.flows[f].value, key);
      case Join(k) => JoinedWaiterIsNew(hit, s.book, k, key);
      case EventFails(k) => OtherSettledKeepsNew(hit, s.book, k, s.book.active[k], key);
      case SettleNow(k) => OtherSettledKeepsNew(hit, s.book, k, s.book.active[k], key);
      case FinishGrant(g) => OtherSettledKeepsNew(hit, s.book, s.grants[g].value.key, s.grants[g].value.queue, key);
      case _ =>
    }
  }

  ghost predicate NoneSettlesOrEnds(s: Table, steps: seq<Step>, key: Key, g: nat) {
    steps == [] || (var n := |steps| - 1;
                    && NoneSettlesOrEnds(s, steps[..n], key, g)
                    && !Ends(Run(s, steps[..n]), steps[n], g) && !Settles(Run(s, steps[..n]), steps[n], key))
  }

  lemma {:induction false} NewWaitersRun(hit: Table, steps: seq<Step>, key: Key, g: nat)
    requires Shape(hit) && OnlyNewWaiters(hit.book, hit.book, key) && NoneSettlesOrEnds(hit, steps, key, g)
    requires InProgress(hit, g) && !Live(hit, g)
    ensures var s := Run(hit, steps);
            && OnlyNewWaiters(hit.book, s.book, key) && |hit.book.queues| <= |s.book.queues|
            && InProgress(s, g) && s.grants[g] == hit.grants[g] && !Live(s, g)
  {
    if steps != [] {
      var shorter, last := steps[..|steps| - 1], steps[|steps| - 1];
      NewWaitersRun(hit, shorter, key, g);
      RunKeepsShape(hit, shorter);
      NewWaitersStep(hit.book, Run(hit, shorter), last, key);
      StepsOnlyAdd(Run(hit, shorter), last);
      LiveUntilHit(Run(hit, shorter), last, g);
    }
  }

  /** A hit takes the key out of the table, so that no newer waiter is left. */
  lemma HitLeavesNoneWaiting(s: Table, step: Step, g: nat)
    requires Shape(s) && Accounted(s.book) && Hits(s, step, g)
    ensures var hit := Next(s, step).book;
            && OnlyNewWaiters(hit, hit, s.grants[g].value.key)
            && |hit.waiters| == |s.book.waiters|
  {
    StepsOnlyAdd(s, step);
    forall w | 0 <= w < |s.book.waiters|
      ensures s.book.waiters[w].home < |s.book.queues|
    {
      assert WaiterOk(s.book, w);
    }
  }

  /**
   * When a settling call hits a grant in progress, and it is the last one to settle the prompt
   * before the grant ends, then the end strands exactly those who joined the prompt after the hit.
   */
  lemma StrandedJoinedAfterTheHit(s: Table, step: Step, steps: seq<Step>, g: nat, w: nat)
    requires Shape(s) && Accounted(s.book) && Hits(s, step, g)
    requires NoneSettlesOrEnds(Next(s, step), steps, s.grants[g].value.key, g)
    requires w < |Run(Next(s, step), steps).book.waiters| && WaiterOk(Run(Next(s, step), steps).book, w)
    ensures var end := Run(Next(s, step), steps);
            && InProgress(end, g) && end.book.waiters[w].home < |end.book.queues|
            && (Stranded(Next(end, FinishGrant(g)).book, w)
                <==> |s.book.waiters| <= w && end.book.queues[end.book.waiters[w].home].key == s.grants[g].value.key)
  {
    var hit, key := Next(s, step), s.grants[g].value.key;
    NextKeepsShape(s, step);
    LiveUntilHit(s, step, g);
    HitLeavesNoneWaiting(s, step, g);
    NewWaitersRun(hit, steps, key, g);
    RunKeepsShape(hit, steps);
    StrandedExactly(Run(hit, steps), g, w);
  }

  /** The shortest overlap: a prompt is dismissed during its grant, and requested again before the grant ends. */
  lemma OverlapStrandsAWaiter(key: Key)
    requires !key.Single?
    ensures var steps := [Join(key), BeginGrant(key), SettleNow(key), Join(key), FinishGrant(0)];
            var b := After(steps, 5).book;
            |b.waiters| == 2 && b.waiters[0].settled == 2 && Stranded(b, 1)
  {
    var steps := [Join(key), BeginGrant(key), SettleNow(key), Join(key), FinishGrant(0)];
    assert After(steps, 1) == Empty.(book := NewQueue(Empty.book, key));
    assert After(steps, 2) == Next(After(steps, 1), steps[1]);
    assert After(steps, 3) == Next(After(steps, 2), steps[2]);
    assert After(steps, 4) == Next(After(steps, 3), steps[3]);
  }
}
