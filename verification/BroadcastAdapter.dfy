/**
 * Recording the outcomes of broadcast attempts, which a message queue may deliver more than once.
 */
module BroadcastAdapter {
  import opened Common
  import opened OutputAllocation

  datatype ReqStatus =
    | ReqSending | Unsent | ReqNosend | Unknown | ReqNonfinal | ReqUnprocessed | Unmined
    | Callback | Unconfirmed | ReqCompleted | Invalid | DoubleSpend | ReqUnfail

  datatype Outcome =
    | Accepted | Seen | AlreadySeen | RejectedTerminal | RejectedRetryable | RateLimited | Timeout
    | UnknownOutcome | Malformed

  datatype Note =
    | StatusNote(was: ReqStatus, now: ReqStatus)
    | OutcomeNote(key: string, outcome: Outcome, reconciliationRequired: bool)

  /** A stored request to broadcast a transaction; notify lists the transactions it stands for. */
  datatype Req = Req(status: ReqStatus, wasBroadcast: bool, notes: seq<Note>, notify: Option<seq<int>>)

  datatype TxidResult = TxidResult(txid: string, doubleSpend: bool)

  datatype Delivery = Delivery(reqId: int, txid: string, key: string, outcome: Outcome, results: seq<seq<TxidResult>>)

  datatype State = State(reqs: map<int, Req>, db: Db)

  predicate HasRecordedAttempt(req: Req, key: string) {
    exists i :: 0 <= i < |req.notes| && req.notes[i].OutcomeNote? && req.notes[i].key == key
  }

  predicate HasDoubleSpendResult(d: Delivery) {
    exists i :: 0 <= i < |d.results|
                && exists j :: 0 <= j < |d.results[i]| && d.results[i][j] == TxidResult(d.txid, true)
  }

  /** The statuses an outcome calls for: of the request and, if any, of its transactions. */
  function Verdict(d: Delivery): (ReqStatus, Option<TxStatus>) {
    match d.outcome
    case Accepted | Seen | AlreadySeen => (Unmined, Some(Unproven))
    case RejectedTerminal => (if HasDoubleSpendResult(d) then DoubleSpend else Invalid, Some(Failed))
    case RejectedRetryable | RateLimited | Timeout => (ReqSending, Some(Sending))
    case UnknownOutcome | Malformed => (Unknown, None)
  }

  /** The request after its first sight of a delivery: the outcome's note, and one more if the status changed. */
  function Noted(req: Req, d: Delivery): Req {
    var status := Verdict(d).0;
    Req(status, req.wasBroadcast || status == Unmined,
        req.notes + [OutcomeNote(d.key, d.outcome, status == Unknown)]
        + (if status != req.status then [StatusNote(req.status, status)] else []),
        req.notify)
  }

  /** The delivery says nothing new: its key is recorded or its request needs no more outcomes. */
  predicate Skipped(req: Req, d: Delivery) {
    HasRecordedAttempt(req, d.key) || req.status == ReqCompleted || req.status == Unmined
  }

  /** The transaction updates a delivery triggers. */
  ghost function Notified(db: Db, req: Req, d: Delivery): Result<Db> {
    var txStatus := Verdict(d).1;
    if txStatus.Some? && req.notify.Some? then UpdateAll(db, txStatus.value, req.notify.value) else Ok(db)
  }

  /** One delivery: the new state, and the error thrown to the queue, if any. */
  ghost function Record(s: State, d: Delivery): (State, Option<string>) {
    if d.reqId !in s.reqs then (s, Some("TxBroadcastMessage.provenTxReqId was not found"))
    else
      var req := s.reqs[d.reqId];
      if Skipped(req, d) then (s, None)
      else
        var reqs := s.reqs[d.reqId := Noted(req, d)];
        match Notified(s.db, req, d)
        case Ok(db) => (State(reqs, db), None)
        case Err(e) => (State(reqs, s.db), Some(e))
  }

  method NoteOutcome(req: Req, d: Delivery) returns (noted: Req, txStatus: Option<TxStatus>)
    ensures noted == Noted(req, d) && txStatus == Verdict(d).1
  {
    var status, wasBroadcast, reconcile := req.status, req.wasBroadcast, false;
    txStatus := None;
    match d.outcome {
      case Accepted | Seen | AlreadySeen =>
        status, wasBroadcast, txStatus := Unmined, true, Some(Unproven);
      case RejectedTerminal =>
        status, txStatus := if HasDoubleSpendResult(d) then DoubleSpend else Invalid, Some(Failed);
      case RejectedRetryable | RateLimited | Timeout =>
        status, txStatus := ReqSending, Some(Sending);
      case UnknownOutcome | Malformed =>
        status, reconcile := Unknown, true;
    }
    var notes := req.notes + [OutcomeNote(d.key, d.outcome, reconcile)];
    if status != req.status {
      notes := notes + [StatusNote(req.status, status)];
    }
    noted := Req(status, wasBroadcast, notes, req.notify);
    assert noted.notes == Noted(req, d).notes;
  }

  class Adapter {
    const storage: Storage
    var reqs: map<int, Req>

    ghost function Value(): State
      reads this, storage
    {
      State(reqs, storage.State())
    }

    constructor (storage: Storage, reqs: map<int, Req>)
      ensures this.storage == storage && this.reqs == reqs
    {
      this.storage := storage;
      this.reqs := reqs;
    }

    method RecordBroadcastAttempt(d: Delivery) returns (error: Option<string>)
      modifies this, storage
      ensures (Value(), error) == Record(old(Value()), d)
    {
      if d.reqId !in reqs {
        return Some("TxBroadcastMessage.provenTxReqId was not found");
      }
      var req := reqs[d.reqId];
      if HasRecordedAttempt(req, d.key) {
        return None;
      }
      if req.status == ReqCompleted || req.status == Unmined {
        return None;
      }
      var noted, txStatus := NoteOutcome(req, d);
      reqs := reqs[d.reqId := noted];
      if txStatus.Some? && req.notify.Some? && |req.notify.value| > 0 {
        error := storage.UpdateTransactionsStatus(req.notify.value, txStatus.value);
      } else {
        error := None;
      }
    }
  }

  // ----- Redelivery

  /** No delivery with this key can change the request any more. */
  predicate Settled(s: State, reqId: int, key: string) {
    reqId in s.reqs ==>
      && var req := s.reqs[reqId];
      HasRecordedAttempt(req, key) || req.status == ReqCompleted || req.status == Unmined
  }

  /** A delivery, or any other change of the storage in between. */
  datatype Event = Deliver(delivery: Delivery) | Outside(step: State -> State)

  /** Outside changes keep settled requests settled: they erase no key and reopen no mined request. */
  ghost predicate Respectful(e: Event) {
    e.Outside? ==> forall s, reqId, key :: Settled(s, reqId, key) ==> Settled(e.step(s), reqId, key)
  }

  ghost function After(s: State, e: Event): State {
    match e case Deliver(d) => Record(s, d).0 case Outside(step) => step(s)
  }

  ghost function Process(s: State, events: seq<Event>): State {
    if events == [] then s else After(Process(s, events[..|events| - 1]), events[|events| - 1])
  }

  predicate SameAttempt(a: Event, b: Event) {
    a.Deliver? && b.Deliver? && a.delivery.reqId == b.delivery.reqId && a.delivery.key == b.delivery.key
  }

  predicate SeenBefore(events: seq<Event>, e: Event) {
    exists i :: 0 <= i < |events| && SameAttempt(events[i], e)
  }

  /** The events without the later deliveries of an idempotency key already delivered for the request. */
  function FirstOnly(events: seq<Event>): seq<Event> {
    if events == [] then []
    else
      var n := |events| - 1;
      if SeenBefore(events[..n], events[n]) then FirstOnly(events[..n])
      else FirstOnly(events[..n]) + [events[n]]
  }

  lemma NotedIsRecorded(req: Req, d: Delivery)
    ensures HasRecordedAttempt(Noted(req, d), d.key)
    ensures forall key :: HasRecordedAttempt(Noted(req, d), key) <==> HasRecordedAttempt(req, key) || key == d.key
  {
    var noted := Noted(req, d);
    assert noted.notes[|req.notes|] == OutcomeNote(d.key, d.outcome, Verdict(d).0 == Unknown);
    forall key | HasRecordedAttempt(req, key)
      ensures HasRecordedAttempt(noted, key)
    {
      var i :| 0 <= i < |req.notes| && req.notes[i].OutcomeNote? && req.notes[i].key == key;
      assert noted.notes[i] == req.notes[i];
    }
  }

  /** A delivery settles its own key, and nothing becomes unsettled; a settled key is ignored. */
  lemma RecordSettles(s: State, d: Delivery)
    ensures Settled(Record(s, d).0, d.reqId, d.key)
    ensures forall reqId, key :: Settled(s, reqId, key) ==> Settled(Record(s, d).0, reqId, key)
    ensures Settled(s, d.reqId, d.key) ==> Record(s, d).0 == s
  {
    if d.reqId in s.reqs {
      NotedIsRecorded(s.reqs[d.reqId], d);
    }
  }

  lemma {:induction false} SeenIsSettled(s: State, events: seq<Event>, d: Delivery)
    requires forall i :: 0 <= i < |events| ==> Respectful(events[i])
    requires SeenBefore(events, Deliver(d))
    ensures Settled(Process(s, events), d.reqId, d.key)
  {
    var n := |events| - 1;
    var before := Process(s, events[..n]);
    var i :| 0 <= i < |events| && SameAttempt(events[i], Deliver(d));
    if i < n {
      assert events[..n][i] == events[i];
      SeenIsSettled(s, events[..n], d);
    }
    match events[n]
    case Deliver(last) => RecordSettles(before, last);
    case Outside(step) => assert Respectful(events[n]);
  }

  /**
   * Processing any deliveries, in any order and with any respectful changes in between, ends in the
   * state reached by processing only the first delivery of each request's idempotency keys.
   */
  lemma {:induction false} RedeliveryIsIdempotent(s: State, events: seq<Event>)
    requires forall i :: 0 <= i < |events| ==> Respectful(events[i])
    ensures Process(s, events) == Process(s, FirstOnly(events))
  {
    if events != [] {
      var n := |events| - 1;
      var last := events[n];
      RedeliveryIsIdempotent(s, events[..n]);
      if SeenBefore(events[..n], last) {
        SeenIsSettled(s, events[..n], last.delivery);
        RecordSettles(Process(s, events[..n]), last.delivery);
      } else {
        var kept := FirstOnly(events[..n]);
        assert (kept + [last])[..|kept|] == kept;
      }
    }
  }

  /** A request that is unmined or completed is left untouched by every later delivery. */
  lemma {:induction false} MinedRequestsAreFinal(s: State, events: seq<Event>, reqId: int)
    requires forall i :: 0 <= i < |events| ==> events[i].Deliver?
    requires reqId in s.reqs && (s.reqs[reqId].status == Unmined || s.reqs[reqId].status == ReqCompleted)
    ensures reqId in Process(s, events).reqs && Process(s, events).reqs[reqId] == s.reqs[reqId]
  {
    if events != [] {
      MinedRequestsAreFinal(s, events[..|events| - 1], reqId);
    }
  }

  /** Every transaction the delivery is about can take the status its outcome calls for. */
  ghost predicate Reaches(s: State, d: Delivery)
    requires d.reqId in s.reqs
  {
    Verdict(d).1.Some? && s.reqs[d.reqId].notify.Some? ==>
          AllTake(s.db, Verdict(d).1.value, s.reqs[d.reqId].notify.value)
  }

  /**
   * The key is recorded per request: the same key delivered for another request is not a repetition.
   * An attempt that does not reach its transactions is recorded all the same: it throws, changes no
   * transaction, and whatever outcome its key is delivered with later changes nothing.
   */
  lemma KeyIsPerRequest(s: State, d: Delivery, other: int)
    requires !Settled(s, d.reqId, d.key) && other in s.reqs && other != d.reqId
    ensures Record(s, d).0.reqs[other] == s.reqs[other]
    ensures HasRecordedAttempt(Record(s, d).0.reqs[d.reqId], d.key)
    ensures Record(s, d).1.Some? <==> !Reaches(s, d)
    ensures !Reaches(s, d) ==>
              && Record(s, d).0.db == s.db
              && forall again: Delivery :: again.reqId == d.reqId && again.key == d.key ==>
                   Record(Record(s, d).0, again) == (Record(s, d).0, None)
  {
    NotedIsRecorded(s.reqs[d.reqId], d);
    FailsExactlyWhenRefused(s, d);
  }

  // ----- What a recorded outcome does to the transactions

  lemma FailsExactlyWhenRefused(s: State, d: Delivery)
    requires !Settled(s, d.reqId, d.key)
    ensures Record(s, d).1.None? <==> Reaches(s, d)
  {
    if Verdict(d).1.Some? && s.reqs[d.reqId].notify.Some? {
      UpdateAllSucceedsExactly(s.db, Verdict(d).1.value, s.reqs[d.reqId].notify.value);
    }
  }

  lemma {:induction false} UpdateAllSetsStatuses(db: Db, status: TxStatus, ids: seq<int>)
    requires UpdateAll(db, status, ids).Ok?
    ensures AllHave(UpdateAll(db, status, ids).value, status, ids)
    ensures forall t :: HasStatus(db, t, status) ==> HasStatus(UpdateAll(db, status, ids).value, t, status)
    decreases |ids|
  {
    if ids != [] {
      UpdateByIdExactly(db, status, ids[0]);
      var next := Written(db, ids[0], status);
      UpdateAllSetsStatuses(next, status, ids[1..]);
      assert HasStatus(next, ids[0], status);
      assert forall x :: x in ids ==> x == ids[0] || x in ids[1..];
    }
  }

  ghost predicate AllHave(db: Db, status: TxStatus, ids: seq<int>) {
    forall t :: t in ids ==> HasStatus(db, t, status)
  }

  /**
   * A delivery gives the request the status its outcome calls for, whatever becomes of the
   * transactions; they all have the outcome's status afterwards exactly when each of them is stored
   * and may take it -- or had it already -- and otherwise none of them changes.
   */
  lemma OutcomeReachesTransactions(s: State, d: Delivery)
    requires !Settled(s, d.reqId, d.key)
    requires Verdict(d).1.Some? && s.reqs[d.reqId].notify.Some?
    ensures var status, ids := Verdict(d).1.value, s.reqs[d.reqId].notify.value;
            && (AllHave(Record(s, d).0.db, status, ids) <==> AllTake(s.db, status, ids) || AllHave(s.db, status, ids))
            && (!AllTake(s.db, status, ids) ==> Record(s, d).0.db == s.db)
    ensures Record(s, d).0.reqs[d.reqId].status == Verdict(d).0
  {
    var status, ids := Verdict(d).1.value, s.reqs[d.reqId].notify.value;
    UpdateAllSucceedsExactly(s.db, status, ids);
    if AllTake(s.db, status, ids) {
      UpdateAllSetsStatuses(s.db, status, ids);
    }
  }

  ghost predicate NoneHolds(db: Db, ids: seq<int>) {
    forall o :: 0 <= o < |db.outputs| ==> db.outputs[o].spentBy.None? || db.outputs[o].spentBy.value !in ids
  }

  /**
   * After a terminal rejection the rejected transactions hold no output exactly when each of them
   * is stored and may fail -- or none of them held one before.
   */
  lemma RejectionReleasesInputs(s: State, d: Delivery)
    requires Owned(s.db)
    requires !Settled(s, d.reqId, d.key)
    requires d.outcome == RejectedTerminal && s.reqs[d.reqId].notify.Some?
    ensures var ids := s.reqs[d.reqId].notify.value;
            NoneHolds(Record(s, d).0.db, ids) <==> AllTake(s.db, Failed, ids) || NoneHolds(s.db, ids)
  {
    var after, ids := Record(s, d).0.db, s.reqs[d.reqId].notify.value;
    OutcomeReachesTransactions(s, d);
    if AllTake(s.db, Failed, ids) {
      UpdateAllKeepsOwned(s.db, Failed, ids);
      forall o | 0 <= o < |after.outputs|
        ensures after.outputs[o].spentBy.None? || after.outputs[o].spentBy.value !in ids
      {
        assert OwnedOutput(after, o);
      }
    }
  }

  // ----- What each outcome decides

  /**
   * A batch of updates, if it goes through, changes the statuses it lists, and outputs only when it
   * fails transactions.
   */
  lemma {:induction false} UpdateAllWrites(db: Db, status: TxStatus, ids: seq<int>)
    requires AllTake(db, status, ids)
    ensures UpdateAll(db, status, ids).Ok?
    ensures var after := UpdateAll(db, status, ids).value;
            && after.txs.Keys == db.txs.Keys
            && (forall t :: t in db.txs ==> after.txs[t] == if t in ids then db.txs[t].(status := status)
                else db.txs[t])
            && (status != Failed ==> after.outputs == db.outputs)
    decreases |ids|
  {
    UpdateAllSucceedsExactly(db, status, ids);
    if ids != [] {
      UpdateByIdExactly(db, status, ids[0]);
      var next := Written(db, ids[0], status);
      UpdateAllSucceedsExactly(next, status, ids[1..]);
      UpdateAllWrites(next, status, ids[1..]);
      assert ids == [ids[0]] + ids[1..];
    }
  }

  /** Either all the listed transactions have the status now, and no other has changed, or nothing has. */
  ghost predicate Become(before: Db, after: Db, status: TxStatus, ids: seq<int>) {
    if AllTake(before, status, ids) then
      && after.txs.Keys == before.txs.Keys
      && (forall t :: t in before.txs ==>
            after.txs[t] == if t in ids then before.txs[t].(status := status) else before.txs[t])
    else after == before
  }

  /** Some result about the delivery's own transaction reports a double spend. */
  ghost predicate ReportsDoubleSpend(d: Delivery) {
    exists i, j :: 0 <= i < |d.results| && 0 <= j < |d.results[i]| && d.results[i][j].txid == d.txid
                   && d.results[i][j].doubleSpend
  }

  predicate CountsAsAccepted(outcome: Outcome) { outcome == Accepted || outcome == Seen || outcome == AlreadySeen }

  predicate MayBeRetried(outcome: Outcome) {
    outcome == RejectedRetryable || outcome == RateLimited || outcome == Timeout
  }

  /** The status that the first delivery of an attempt gives its request, and the mark that it was broadcast. */
  lemma OutcomeDecidesRequest(s: State, d: Delivery)
    requires !Settled(s, d.reqId, d.key)
    ensures var was, now := s.reqs[d.reqId], Record(s, d).0.reqs[d.reqId];
            && (now.status == Unmined <==> CountsAsAccepted(d.outcome))
            && (now.status == DoubleSpend <==> d.outcome == RejectedTerminal && ReportsDoubleSpend(d))
            && (now.status == Invalid <==> d.outcome == RejectedTerminal && !ReportsDoubleSpend(d))
            && (now.status == ReqSending <==> MayBeRetried(d.outcome))
            && (now.status == Unknown <==> d.outcome == UnknownOutcome || d.outcome == Malformed)
            && (now.wasBroadcast <==> was.wasBroadcast || CountsAsAccepted(d.outcome))
            && now.notify == was.notify
            && now.notes == was.notes + [OutcomeNote(d.key, d.outcome, now.status == Unknown)]
                            + if now.status == was.status then [] else [StatusNote(was.status, now.status)]
  {
    if HasDoubleSpendResult(d) {
      var i :| 0 <= i < |d.results|
               && exists j :: 0 <= j < |d.results[i]| && d.results[i][j] == TxidResult(d.txid, true);
      var j :| 0 <= j < |d.results[i]| && d.results[i][j] == TxidResult(d.txid, true);
      assert d.results[i][j].txid == d.txid;
    }
    if i, j :| 0 <= i < |d.results| && 0 <= j < |d.results[i]| && d.results[i][j].txid == d.txid
               && d.results[i][j].doubleSpend {
      assert d.results[i][j] == TxidResult(d.txid, true);
    }
  }

  /**
   * What the first delivery of an attempt does to the transactions its request stands for: accepted
   * ones become unproven, terminally rejected ones fail, ones that may be retried are sending again,
   * each if all of them may; other outcomes, and requests that stand for none, change nothing.
   */
  lemma OutcomeDecidesTransactions(s: State, d: Delivery)
    requires !Settled(s, d.reqId, d.key)
    ensures var after, notify := Record(s, d).0.db, s.reqs[d.reqId].notify;
            && (notify.None? || d.outcome == UnknownOutcome || d.outcome == Malformed ==> after == s.db)
            && (notify.Some? && CountsAsAccepted(d.outcome) ==> Become(s.db, after, Unproven, notify.value))
            && (notify.Some? && d.outcome == RejectedTerminal ==> Become(s.db, after, Failed, notify.value))
            && (notify.Some? && MayBeRetried(d.outcome) ==> Become(s.db, after, Sending, notify.value))
  {
    if Verdict(d).1.Some? && s.reqs[d.reqId].notify.Some? {
      var status, ids := Verdict(d).1.value, s.reqs[d.reqId].notify.value;
      UpdateAllSucceedsExactly(s.db, status, ids);
      if AllTake(s.db, status, ids) {
        UpdateAllWrites(s.db, status, ids);
      }
    }
  }

  /** No delivery but a terminal rejection fails a transaction or changes an output, whatever the state. */
  lemma OnlyTerminalRejectionFails(s: State, d: Delivery)
    requires d.outcome != RejectedTerminal
    ensures Record(s, d).0.db.outputs == s.db.outputs
    ensures forall t :: HasStatus(Record(s, d).0.db, t, Failed) ==> HasStatus(s.db, t, Failed)
  {
    if !Settled(s, d.reqId, d.key) && Verdict(d).1.Some? && s.reqs[d.reqId].notify.Some? {
      var status, ids := Verdict(d).1.value, s.reqs[d.reqId].notify.value;
      UpdateAllSucceedsExactly(s.db, status, ids);
      if AllTake(s.db, status, ids) {
        UpdateAllWrites(s.db, status, ids);
      }
    }
  }

  /**
   * The outcome that is lost: the network accepted a transaction while one of its request's rows
   * had been aborted.  No row is updated, the request is unmined all the same, and no later
   * delivery for the request -- under any key -- makes up for it.
   */
  lemma AcceptedOutcomeIsLost(s: State, d: Delivery, t: int, later: seq<Event>)
    requires !Settled(s, d.reqId, d.key) && Verdict(d).1 == Some(Unproven)
    requires s.reqs[d.reqId].notify.Some? && t in s.reqs[d.reqId].notify.value && HasStatus(s.db, t, Failed)
    requires forall i :: 0 <= i < |later| ==> later[i].Deliver?
    ensures Record(s, d).1.Some? && Record(s, d).0.db == s.db
    ensures d.reqId in Process(Record(s, d).0, later).reqs
    ensures Process(Record(s, d).0, later).reqs[d.reqId] == Noted(s.reqs[d.reqId], d)
  {
    var ids := s.reqs[d.reqId].notify.value;
    var i :| 0 <= i < |ids| && ids[i] == t;
    assert !Takes(s.db, Unproven, ids[i]);
    FailsExactlyWhenRefused(s, d);
    MinedRequestsAreFinal(Record(s, d).0, later, d.reqId);
  }

  /** Two users' rows of one transaction, one of them aborted: the other user's row stays "sending" for good. */
  lemma AbortedRowBlocksTheOther(key: string, later: seq<Event>)
    requires forall i :: 0 <= i < |later| ==> later[i].Deliver? && later[i].delivery.reqId == 7
    ensures var mine := Tx(1, "mine", "id", Sending, 0, true);
            var theirs := Tx(2, "theirs", "id", Failed, 0, true);
            var s := State(map[7 := Req(ReqSending, false, [], Some([11, 12]))], Db([], map[11 := mine, 12 := theirs]));
            var end := Process(Record(s, Delivery(7, "id", key, Accepted, [])).0, later);
            7 in end.reqs && end.reqs[7].status == Unmined && HasStatus(end.db, 11, Sending)
  {
    var mine := Tx(1, "mine", "id", Sending, 0, true);
    var theirs := Tx(2, "theirs", "id", Failed, 0, true);
    var s := State(map[7 := Req(ReqSending, false, [], Some([11, 12]))], Db([], map[11 := mine, 12 := theirs]));
    var d := Delivery(7, "id", key, Accepted, []);
    assert [11, 12][1] == 12;
    AcceptedOutcomeIsLost(s, d, 12, later);
    SkippedDeliveriesKeepAll(Record(s, d).0, later, 7);
  }

  lemma {:induction false} SkippedDeliveriesKeepAll(s: State, events: seq<Event>, reqId: int)
    requires forall i :: 0 <= i < |events| ==> events[i].Deliver? && events[i].delivery.reqId == reqId
    requires reqId in s.reqs && s.reqs[reqId].status == Unmined
    ensures Process(s, events) == s
  {
    if events != [] {
      SkippedDeliveriesKeepAll(s, events[..|events| - 1], reqId);
    }
  }
}
