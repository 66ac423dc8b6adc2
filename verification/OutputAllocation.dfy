/**
 * Allocation of change outputs to transactions and their release when a transaction fails.
 * The storage methods are proved against functions on database states; the long-run properties
 * are proved about sequences of operations.
 */
module OutputAllocation {
  import opened Common

  datatype TxStatus = Completed | Failed | Unprocessed | Sending | Unproven | Unsigned | Nosend | Nonfinal | Unfail

  datatype Output = Output(userId: int, basketId: int, transactionId: int, satoshis: int,
                           spendable: bool, spentBy: Option<int>)

  /** An absent provenTxId and the id 0 are both "not proven"; an absent txid is the empty one. */
  datatype Tx = Tx(userId: int, reference: string, txid: string, status: TxStatus, provenTxId: int, isOutgoing: bool)

  /** Outputs are listed in primary key order and named by their position. */
  datatype Db = Db(outputs: seq<Output>, txs: map<int, Tx>)

  // ----- Choosing an output

  datatype Request = Request(userId: int, basketId: int, target: int, exact: int, excludeSending: bool)

  predicate AllocatableStatus(status: TxStatus, excludeSending: bool) {
    status == Completed || status == Unproven || (!excludeSending && status == Sending)
  }

  /** Output i can be allocated: the caller's, in the basket, spendable, created by a live transaction. */
  predicate Candidate(db: Db, q: Request, i: int) {
    && 0 <= i < |db.outputs|
    && var o := db.outputs[i];
    && o.userId == q.userId && o.basketId == q.basketId && o.spendable
    && o.transactionId in db.txs && AllocatableStatus(db.txs[o.transactionId].status, q.excludeSending)
  }

  /**
   * Which outputs can be allocated: spendable ones of the user's basket whose own transaction is
   * completed or unproven -- or sending, unless those are excluded -- and of no other status.
   */
  lemma CandidatesAreSettled(db: Db, q: Request, i: nat)
    requires i < |db.outputs|
    ensures Candidate(db, q, i) <==>
              && db.outputs[i].userId == q.userId && db.outputs[i].basketId == q.basketId && db.outputs[i].spendable
              && db.outputs[i].transactionId in db.txs
              && match db.txs[db.outputs[i].transactionId].status
                 case Completed | Unproven => true
                 case Sending => !q.excludeSending
                 case Failed | Unprocessed | Unsigned | Nosend | Nonfinal | Unfail => false
  {
  }

  predicate Exact(db: Db, q: Request, i: int) {
    Candidate(db, q, i) && q.exact != 0 && db.outputs[i].satoshis == q.exact
  }

  predicate Sufficient(db: Db, q: Request, i: int) {
    Candidate(db, q, i) && db.outputs[i].satoshis >= q.target
  }

  /** The documented choice: first exact match, else least sufficient, else largest; ties by scan order. */
  ghost predicate BestFit(db: Db, q: Request, picked: Option<nat>) {
    match picked
    case None => forall i :: !Candidate(db, q, i)
    case Some(p) =>
      && Candidate(db, q, p)
      && if exists i :: Exact(db, q, i) then
           Exact(db, q, p) && forall i :: Exact(db, q, i) ==> p <= i
         else if exists i :: Sufficient(db, q, i) then
           && Sufficient(db, q, p)
           && (forall i :: Sufficient(db, q, i) ==> NotBetter(db, i, p))
         else forall i :: Candidate(db, q, i) ==> NotBetter(db, p, i)
  }

  /** Output a comes no earlier than b in the order by value, then position. */
  predicate NotBetter(db: Db, a: int, b: int) {
    && 0 <= a < |db.outputs| && 0 <= b < |db.outputs|
    && (db.outputs[b].satoshis < db.outputs[a].satoshis
        || (db.outputs[b].satoshis == db.outputs[a].satoshis && b <= a))
  }

  /** The choice is determined by the database. */
  lemma BestFitIsUnique(db: Db, q: Request, a: Option<nat>, b: Option<nat>)
    requires BestFit(db, q, a) && BestFit(db, q, b)
    ensures a == b
  {
    if a.Some? && b.Some? {
      assert Candidate(db, q, a.value) && Candidate(db, q, b.value);
      if i :| Exact(db, q, i) {
        assert Exact(db, q, a.value) && Exact(db, q, b.value);
      } else if i :| Sufficient(db, q, i) {
        assert Sufficient(db, q, a.value) && Sufficient(db, q, b.value);
        assert NotBetter(db, a.value, b.value) && NotBetter(db, b.value, a.value);
      } else {
        assert NotBetter(db, a.value, b.value) && NotBetter(db, b.value, a.value);
      }
    }
  }

  /**
   * What the choice gives: nothing exactly if there is no candidate; else the first candidate of the
   * exact amount, if one was asked for (not 0) and there is one; else the first of the smallest
   * candidates that cover the target, if some do; else the last of the largest.
   */
  lemma BestFitMeans(db: Db, q: Request, picked: Option<nat>)
    requires BestFit(db, q, picked)
    ensures picked.None? <==> forall i :: !Candidate(db, q, i)
    ensures picked.Some? ==>
              var p, outputs := picked.value, db.outputs;
              if q.exact != 0 && exists i :: Candidate(db, q, i) && outputs[i].satoshis == q.exact then
                && outputs[p].satoshis == q.exact
                && forall i :: Candidate(db, q, i) && outputs[i].satoshis == q.exact ==> p <= i
              else if exists i :: Candidate(db, q, i) && outputs[i].satoshis >= q.target then
                && outputs[p].satoshis >= q.target
                && (forall i :: Candidate(db, q, i) && outputs[i].satoshis >= q.target ==>
                      outputs[p].satoshis <= outputs[i].satoshis)
                && (forall i :: Candidate(db, q, i) && outputs[i].satoshis == outputs[p].satoshis ==> p <= i)
              else
                && (forall i :: Candidate(db, q, i) ==> outputs[i].satoshis <= outputs[p].satoshis)
                && (forall i :: Candidate(db, q, i) && outputs[i].satoshis == outputs[p].satoshis ==> i <= p)
  {
    if picked.Some? {
      var p, outputs := picked.value, db.outputs;
      forall i | Candidate(db, q, i)
        ensures Exact(db, q, i) <==> q.exact != 0 && outputs[i].satoshis == q.exact
        ensures Sufficient(db, q, i) <==> outputs[i].satoshis >= q.target
      {
      }
      if exists i :: Exact(db, q, i) {
      } else if exists i :: Sufficient(db, q, i) {
        forall i | Candidate(db, q, i) && outputs[i].satoshis == outputs[p].satoshis
          ensures p <= i
        {
          assert Sufficient(db, q, i);
          assert NotBetter(db, i, p);
        }
        forall i | Candidate(db, q, i) && outputs[i].satoshis >= q.target
          ensures outputs[p].satoshis <= outputs[i].satoshis
        {
          assert NotBetter(db, i, p);
        }
      } else {
        forall i | Candidate(db, q, i)
          ensures NotBetter(db, p, i)
        {
        }
      }
    }
  }

  /** The candidates among the first n outputs, in scan order. */
  function Candidates(db: Db, q: Request, n: nat): (r: seq<nat>)
    ensures forall i: nat :: i in r <==> i < n && Candidate(db, q, i)
    ensures forall j, k :: 0 <= j < k < |r| ==> r[j] < r[k]
  {
    if n == 0 then []
    else
      var r := Candidates(db, q, n - 1);
      assert forall j :: 0 <= j < |r| ==> r[j] in r;
      if Candidate(db, q, n - 1) then r + [n - 1] else r
  }

  datatype Scored = Scored(output: nat, score: int)

  predicate Before(a: Scored, b: Scored) {
    a.score < b.score || (a.score == b.score && a.output < b.output)
  }

  predicate Increasing(s: seq<Scored>) {
    forall j, k :: 0 <= j < k < |s| ==> Before(s[j], s[k])
  }

  function Insert(x: Scored, s: seq<Scored>): (r: seq<Scored>)
    requires Increasing(s) && forall y :: y in s ==> x.output < y.output
    ensures Increasing(r) && forall y :: y in r <==> y == x || y in s
  {
    if s == [] || x.score <= s[0].score then
      assert forall y :: y in [x] + s <==> y == x || y in s;
      [x] + s
    else
      assert s == [s[0]] + s[1..];
      var rest := Insert(x, s[1..]);
      assert forall y :: y in rest ==> y == x || y in s[1..];
      assert forall j :: 0 <= j < |rest| ==> rest[j] in rest;
      [s[0]] + rest
  }

  /** The stable sort by score of a list given in scan order. */
  function SortByScore(s: seq<Scored>): (r: seq<Scored>)
    requires forall j, k :: 0 <= j < k < |s| ==> s[j].output < s[k].output
    ensures Increasing(r) && forall y :: y in r <==> y in s
  {
    if s == [] then []
    else
      assert s == [s[0]] + s[1..];
      Insert(s[0], SortByScore(s[1..]))
  }

  function ScoreOf(db: Db, q: Request, i: nat): Scored
    requires i < |db.outputs|
  {
    Scored(i, db.outputs[i].satoshis - q.target)
  }

  /** Every candidate is scored by its surplus over the target. */
  ghost predicate ScoresAll(db: Db, q: Request, scores: seq<Scored>) {
    && (forall s :: s in scores ==> Candidate(db, q, s.output) && s == ScoreOf(db, q, s.output))
    && (forall i: nat :: Candidate(db, q, i) ==> ScoreOf(db, q, i) in scores)
  }

  /** The first k candidates are scored in scan order, and none of them is an exact match. */
  ghost predicate ScoresPrefix(db: Db, q: Request, found: seq<nat>, scores: seq<Scored>, k: nat)
    requires k <= |found|
  {
    && |scores| == k
    && forall j :: 0 <= j < k ==> && Candidate(db, q, found[j]) && !Exact(db, q, found[j])
                                  && scores[j] == ScoreOf(db, q, found[j])
  }

  lemma FirstExactFits(db: Db, q: Request, found: seq<nat>, scores: seq<Scored>, k: nat)
    requires found == Candidates(db, q, |db.outputs|) && k < |found|
    requires ScoresPrefix(db, q, found, scores, k)
    requires Exact(db, q, found[k])
    ensures BestFit(db, q, Some(found[k]))
  {
    forall i | Exact(db, q, i)
      ensures found[k] <= i
    {
      var n: nat := i;
      assert n in found;
      var j :| 0 <= j < |found| && found[j] == n;
    }
  }

  lemma ScoresCover(db: Db, q: Request, found: seq<nat>, scores: seq<Scored>)
    requires found == Candidates(db, q, |db.outputs|) && ScoresPrefix(db, q, found, scores, |found|)
    ensures ScoresAll(db, q, scores)
    ensures forall i :: !Exact(db, q, i)
    ensures forall j, k :: 0 <= j < k < |scores| ==> scores[j].output < scores[k].output
  {
    forall i: nat | Candidate(db, q, i)
      ensures ScoreOf(db, q, i) in scores && !Exact(db, q, i)
    {
      assert i in found;
      var j :| 0 <= j < |found| && found[j] == i;
      assert scores[j] in scores;
    }
  }

  /** In sorted order the first non-negative score is the least sufficient output. */
  lemma FirstSufficientFits(db: Db, q: Request, scores: seq<Scored>, k: nat)
    requires ScoresAll(db, q, scores) && Increasing(scores) && k < |scores|
    requires forall j :: 0 <= j < k ==> scores[j].score < 0
    requires scores[k].score >= 0
    requires forall i :: !Exact(db, q, i)
    ensures BestFit(db, q, Some(scores[k].output))
  {
    var p := scores[k].output;
    assert scores[k] in scores;
    assert Sufficient(db, q, p);
    forall i | Sufficient(db, q, i)
      ensures NotBetter(db, i, p)
    {
      var n: nat := i;
      var s := ScoreOf(db, q, n);
      assert s in scores;
      var j :| 0 <= j < |scores| && scores[j] == s;
      assert k <= j;
    }
  }

  /** When every score is negative, the last one is the largest output. */
  lemma LastInsufficientFits(db: Db, q: Request, scores: seq<Scored>)
    requires ScoresAll(db, q, scores) && Increasing(scores) && |scores| > 0
    requires forall j :: 0 <= j < |scores| ==> scores[j].score < 0
    requires forall i :: !Exact(db, q, i)
    ensures BestFit(db, q, Some(scores[|scores| - 1].output))
  {
    var p := scores[|scores| - 1].output;
    assert scores[|scores| - 1] in scores;
    forall i | Candidate(db, q, i)
      ensures NotBetter(db, p, i) && !Sufficient(db, q, i)
    {
      var n: nat := i;
      var s := ScoreOf(db, q, n);
      assert s in scores;
      var j :| 0 <= j < |scores| && scores[j] == s;
    }
  }

  /** The picked output, if any, becomes unspendable and is held by the transaction. */
  function Take(db: Db, picked: Option<nat>, transactionId: int): Db
    requires picked.Some? ==> picked.value < |db.outputs|
  {
    match picked
    case None => db
    case Some(p) => db.(outputs := db.outputs[p := db.outputs[p].(spendable := false, spentBy := Some(transactionId))])
  }

  /** An output that action creation has allocated and does not need after all becomes usable again. */
  function Released(db: Db, o: nat): Db
    requires o < |db.outputs|
  {
    db.(outputs := db.outputs[o := Freed(db.outputs[o])])
  }

  // ----- Changing the status of a transaction

  predicate HeldInput(o: Output, userId: int, t: int) {
    o.userId == userId && o.spentBy == Some(t)
  }

  function Freed(o: Output): Output { o.(spendable := true, spentBy := None) }

  /** The outputs after freeing those that the user's transaction t holds. */
  function FreeInputs(outputs: seq<Output>, userId: int, t: int): (r: seq<Output>)
    ensures |r| == |outputs|
    ensures forall i :: 0 <= i < |r| ==> r[i] == if HeldInput(outputs[i], userId, t) then Freed(outputs[i])
            else outputs[i]
  {
    if outputs == [] then []
    else
      var first := if HeldInput(outputs[0], userId, t) then Freed(outputs[0]) else outputs[0];
      [first] + FreeInputs(outputs[1..], userId, t)
  }

  /** Column values of a transaction; None: the column is not part of the request. */
  datatype Where = Where(transactionId: Option<int>, userId: Option<int>, reference: Option<string>,
                         txid: Option<string>)

  function ById(id: int): Where { Where(Some(id), None, None, None) }

  predicate Asks<T(==)>(wanted: Option<T>, value: T) { wanted.Some? ==> wanted.value == value }

  /** findTransactions: every requested column has the requested value, 0 and "" included. */
  function Matching(txs: map<int, Tx>, w: Where): set<int> {
    set t | t in txs && Asks(w.transactionId, t) && Asks(w.userId, txs[t].userId)
            && Asks(w.reference, txs[t].reference) && Asks(w.txid, txs[t].txid)
  }

  function NonZero(id: Option<int>): Option<int> { if id == Some(0) then None else id }

  function NonEmpty(s: Option<string>): Option<string> { if s == Some("") then None else s }

  /** What updateTransactionStatus makes of its arguments: it leaves out 0 and "". */
  function Sought(args: Where): Where {
    Where(NonZero(args.transactionId), NonZero(args.userId), NonEmpty(args.reference), None)
  }

  /** Why the status may not be replaced by the new one; None: it may. */
  function Refusal(tx: Tx, status: TxStatus): Option<string> {
    if (status != Completed && tx.status == Completed) || tx.provenTxId != 0 then Some("WERR_INVALID_OPERATION")
    else if status != Failed && tx.status == Failed then Some("WERR_INVALID_OPERATION")
    else if status == Nonfinal || status == Unfail then Some("WERR_INVALID_PARAMETER")
    else None
  }

  /**
   * Which changes of status are allowed: none of a proven transaction, none away from "completed" or
   * "failed", and none to "nonfinal" or "unfail".
   */
  lemma AllowedChanges(tx: Tx, status: TxStatus)
    ensures Refusal(tx, status) == None <==>
              && tx.provenTxId == 0
              && (tx.status == Completed ==> status == Completed) && (tx.status == Failed ==> status == Failed)
              && status in {Completed, Failed, Unprocessed, Sending, Unproven, Unsigned, Nosend}
  {
  }

  /** Writes the status of transaction t, freeing its inputs when it fails. */
  function Written(db: Db, t: int, status: TxStatus): Db
    requires t in db.txs
  {
    Db(if status == Failed then FreeInputs(db.outputs, db.txs[t].userId, t) else db.outputs,
       db.txs[t := db.txs[t].(status := status)])
  }

  /** The member of a one-element set. */
  ghost function Only(s: set<int>): (t: int)
    requires |s| == 1
    ensures s == {t}
  {
    HasMember(s);
    var t :| t in s;
    SingletonMember(s, t);
    t
  }

  lemma SingletonMember(s: set<int>, t: int)
    requires |s| == 1 && t in s
    ensures s == {t}
  {
    assert |s - {t}| == 0;
    assert s - {t} == {};
  }

  lemma OnlyMember(s: set<int>, t: int)
    requires t in s && forall x :: x in s ==> x == t
    ensures |s| == 1
  {
    var others := s - {t};
    assert forall x :: x !in others;
    assert others == {};
    assert |s| == |others| + 1;
  }

  function ChangeStatus(db: Db, status: TxStatus, t: int): Result<Db>
    requires t in db.txs
  {
    match Refusal(db.txs[t], status)
    case None => Ok(Written(db, t, status))
    case Some(e) => Err(e)
  }

  ghost function UpdateStatus(db: Db, status: TxStatus, args: Where): Result<Db> {
    var w := Sought(args);
    if w.transactionId.None? && (w.userId.None? || w.reference.None?) then Err("WERR_MISSING_PARAMETER")
    else if |Matching(db.txs, w)| != 1 then Err("WERR_BAD_REQUEST")
    else
      ChangeStatus(db, status, Only(Matching(db.txs, w)))
  }

  /** Updates the transactions one after the other; the first refusal undoes all of them. */
  ghost function UpdateAll(db: Db, status: TxStatus, ids: seq<int>): Result<Db>
    decreases |ids|
  {
    if ids == [] then Ok(db)
    else match UpdateStatus(db, status, ById(ids[0]))
      case Err(e) => Err(e)
      case Ok(next) => UpdateAll(next, status, ids[1..])
  }

  predicate Abortable(tx: Tx) {
    tx.isOutgoing && tx.status != Completed && tx.status != Failed && tx.status != Sending && tx.status != Unproven
  }

  /** How abortAction looks the action up: by reference, or by txid when a 64 character reference is unknown. */
  function AbortLookup(txs: map<int, Tx>, userId: int, reference: string): Where {
    var byReference := Where(None, Some(userId), Some(reference), None);
    if |reference| == 64 && Matching(txs, byReference) == {} then Where(None, Some(userId), None, Some(reference))
    else byReference
  }

  ghost function AbortAction(db: Db, userId: int, reference: string): Result<Db> {
    var found := Matching(db.txs, AbortLookup(db.txs, userId, reference));
    if userId == 0 || found == {} then Err("WERR_INVALID_PARAMETER")
    else if |found| != 1 then Err("WERR_BAD_REQUEST")
    else
      var t := Only(found);
      if !Abortable(db.txs[t]) then Err("WERR_INVALID_PARAMETER")
      else UpdateStatus(db, Failed, Where(Some(t), Some(userId), AbortLookup(db.txs, userId, reference).reference,
                                          None))
  }

  /** A storage transaction either commits the new state or throws and leaves the old one. */
  ghost predicate Committed(error: Option<string>, before: Db, after: Db, outcome: Result<Db>) {
    match outcome
    case Ok(db) => error.None? && after == db
    case Err(e) => error == Some(e) && after == before
  }

  method ChooseChangeInput(db: Db, q: Request) returns (picked: Option<nat>)
    ensures BestFit(db, q, picked)
  {
    var found := Candidates(db, q, |db.outputs|);
    var scores: seq<Scored> := [];
    var k := 0;
    while k < |found|
      invariant 0 <= k <= |found| && ScoresPrefix(db, q, found, scores, k)
    {
      var o := found[k];
      assert o in found;
      if q.exact != 0 && db.outputs[o].satoshis == q.exact {
        FirstExactFits(db, q, found, scores, k);
        return Some(o);
      }
      scores := scores + [ScoreOf(db, q, o)];
      k := k + 1;
    }
    ScoresCover(db, q, found, scores);
    picked := PickByScore(db, q, SortByScore(scores));
  }

  method PickByScore(db: Db, q: Request, scores: seq<Scored>) returns (picked: Option<nat>)
    requires ScoresAll(db, q, scores) && Increasing(scores) && forall i :: !Exact(db, q, i)
    ensures BestFit(db, q, picked)
  {
    var k := 0;
    while k < |scores|
      invariant 0 <= k <= |scores|
      invariant forall j :: 0 <= j < k ==> scores[j].score < 0
    {
      if scores[k].score >= 0 {
        FirstSufficientFits(db, q, scores, k);
        return Some(scores[k].output);
      }
      k := k + 1;
    }
    if |scores| > 0 {
      LastInsufficientFits(db, q, scores);
      return Some(scores[|scores| - 1].output);
    }
    return None;
  }

  class Storage {
    var outputs: seq<Output>
    var txs: map<int, Tx>

    ghost function State(): Db
      reads this
    {
      Db(outputs, txs)
    }

    method AllocateChangeInput(q: Request, transactionId: int) returns (picked: Option<nat>)
      modifies this
      ensures BestFit(old(State()), q, picked)
      ensures State() == Take(old(State()), picked, transactionId)
    {
      picked := ChooseChangeInput(Db(outputs, txs), q);
      if picked.Some? {
        var p := picked.value;
        outputs := outputs[p := outputs[p].(spendable := false, spentBy := Some(transactionId))];
      }
    }

    /** Change of the transaction's own batch is not in the storage's hands and stays as it is. */
    method ReleaseChangeInput(o: nat, noSendChange: bool)
      requires o < |outputs|
      modifies `outputs
      ensures State() == if noSendChange then old(State()) else Released(old(State()), o)
    {
      if noSendChange {
        return;
      }
      outputs := outputs[o := outputs[o].(spendable := true, spentBy := None)];
    }

    method UpdateTransactionStatus(status: TxStatus, args: Where) returns (error: Option<string>)
      modifies this
      ensures Committed(error, old(State()), State(), UpdateStatus(old(State()), status, args))
    {
      var w := Sought(args);
      if w.transactionId.None? && (w.userId.None? || w.reference.None?) {
        return Some("WERR_MISSING_PARAMETER");
      }
      var matches := Matching(txs, w);
      if |matches| != 1 {
        return Some("WERR_BAD_REQUEST");
      }
      HasMember(matches);
      var t :| t in matches;
      SingletonMember(matches, t);
      error := WriteStatus(status, t);
    }

    method WriteStatus(status: TxStatus, t: int) returns (error: Option<string>)
      requires t in txs
      modifies this
      ensures Committed(error, old(State()), State(), ChangeStatus(old(State()), status, t))
    {
      var tx := txs[t];
      if (status != Completed && tx.status == Completed) || tx.provenTxId != 0 {
        return Some("WERR_INVALID_OPERATION");
      }
      if status != Failed && tx.status == Failed {
        return Some("WERR_INVALID_OPERATION");
      }
      match status {
        case Failed => FreeHeldInputs(tx.userId, t);
        case Nonfinal | Unfail => return Some("WERR_INVALID_PARAMETER");
        case _ =>
      }
      txs := txs[t := tx.(status := status)];
      return None;
    }

    /** Finds the inputs of transaction t through spentBy and makes each usable again. */
    method FreeHeldInputs(userId: int, t: int)
      modifies `outputs
      ensures outputs == FreeInputs(old(outputs), userId, t)
    {
      var inputs := HeldInputs(outputs, userId, t, |outputs|);
      var k := 0;
      ghost var was := outputs;
      while k < |inputs|
        invariant 0 <= k <= |inputs| && |outputs| == |was|
        invariant forall i: nat :: i < |was| ==> outputs[i] == if i in inputs[..k] then Freed(was[i]) else was[i]
      {
        var i := inputs[k];
        assert i in inputs;
        assert inputs[..k + 1] == inputs[..k] + [i];
        outputs := outputs[i := outputs[i].(spendable := true, spentBy := None)];
        k := k + 1;
      }
      assert inputs[..k] == inputs;
      var freed := FreeInputs(was, userId, t);
      assert forall i: nat :: i < |was| ==> outputs[i] == freed[i];
    }

    method UpdateTransactionsStatus(ids: seq<int>, status: TxStatus) returns (error: Option<string>)
      modifies this
      ensures Committed(error, old(State()), State(), UpdateAll(old(State()), status, ids))
    {
      var outputs0, txs0 := outputs, txs;
      var k := 0;
      while k < |ids|
        invariant 0 <= k <= |ids|
        invariant UpdateAll(State(), status, ids[k..]) == UpdateAll(old(State()), status, ids)
      {
        assert ids[k..][1..] == ids[k + 1..];
        error := UpdateTransactionStatus(status, ById(ids[k]));
        if error.Some? {
          outputs, txs := outputs0, txs0;
          return;
        }
        k := k + 1;
      }
      return None;
    }

    method Abort(userId: int, reference: string) returns (error: Option<string>)
      modifies this
      ensures Committed(error, old(State()), State(), AbortAction(old(State()), userId, reference))
    {
      if userId == 0 {
        return Some("WERR_INVALID_PARAMETER");
      }
      var w := Where(None, Some(userId), Some(reference), None);
      var matches := Matching(txs, w);
      if |matches| == 0 && |reference| == 64 {
        w := Where(None, Some(userId), None, Some(reference));
        matches := Matching(txs, w);
      }
      if |matches| == 0 {
        return Some("WERR_INVALID_PARAMETER");
      }
      if |matches| != 1 {
        return Some("WERR_BAD_REQUEST");
      }
      HasMember(matches);
      var t :| t in matches;
      SingletonMember(matches, t);
      var tx := txs[t];
      if !tx.isOutgoing || tx.status == Completed || tx.status == Failed || tx.status == Sending ||
          tx.status == Unproven {
        return Some("WERR_INVALID_PARAMETER");
      }
      error := UpdateTransactionStatus(Failed, Where(Some(t), Some(userId), w.reference, None));
    }
  }

  /** Positions of the inputs of transaction t among the first n outputs. */
  function HeldInputs(outputs: seq<Output>, userId: int, t: int, n: nat): (r: seq<nat>)
    requires n <= |outputs|
    ensures forall i: nat :: i in r <==> i < n && HeldInput(outputs[i], userId, t)
  {
    if n == 0 then []
    else
      var r := HeldInputs(outputs, userId, t, n - 1);
      if HeldInput(outputs[n - 1], userId, t) then r + [n - 1] else r
  }

  // ----- One failure

  /**
   * A status update that succeeds with "failed" frees exactly the outputs the transaction holds --
   * those with spentBy set to it -- and leaves every other output and transaction alone.
   */
  lemma FailingFreesExactly(db: Db, args: Where, o: nat)
    requires UpdateStatus(db, Failed, args).Ok? && Owned(db) && o < |db.outputs|
    ensures |Matching(db.txs, Sought(args))| == 1
    ensures var after := UpdateStatus(db, Failed, args).value;
            var t := Only(Matching(db.txs, Sought(args)));
            && t in db.txs && after.txs == db.txs[t := db.txs[t].(status := Failed)]
            && |after.outputs| == |db.outputs|
            && after.outputs[o] == (if db.outputs[o].spentBy == Some(t) then
                                    db.outputs[o].(spendable := true, spentBy := None)
                                    else db.outputs[o])
  {
    var t := Only(Matching(db.txs, Sought(args)));
    assert t in Matching(db.txs, Sought(args));
    var freed := FreeInputs(db.outputs, db.txs[t].userId, t);
    assert freed[o] == if HeldInput(db.outputs[o], db.txs[t].userId, t) then Freed(db.outputs[o]) else db.outputs[o];
    assert OwnedOutput(db, o);
  }

  /** The arguments name the transaction; an id of 0 and an empty reference name none and exclude none. */
  predicate Names(db: Db, args: Where, t: int) {
    && t in db.txs
    && (args.transactionId.Some? && args.transactionId.value != 0 ==> t == args.transactionId.value)
    && (args.userId.Some? && args.userId.value != 0 ==> db.txs[t].userId == args.userId.value)
    && (args.reference.Some? && args.reference.value != "" ==> db.txs[t].reference == args.reference.value)
  }

  predicate Identifies(args: Where) {
    || (args.transactionId.Some? && args.transactionId.value != 0)
    || (args.userId.Some? && args.userId.value != 0 && args.reference.Some? && args.reference.value != "")
  }

  /** A status update goes through exactly when its arguments name one transaction that may take the status. */
  lemma UpdatesExactly(db: Db, status: TxStatus, args: Where)
    ensures UpdateStatus(db, status, args).Ok? <==>
              && Identifies(args)
              && exists t :: Names(db, args, t) && (forall x :: Names(db, args, x) ==> x == t)
                             && Refusal(db.txs[t], status) == None
    ensures UpdateStatus(db, status, args).Ok? ==>
              exists t :: Names(db, args, t) && UpdateStatus(db, status, args).value == Written(db, t, status)
  {
    var found := Matching(db.txs, Sought(args));
    forall x
      ensures x in found <==> Names(db, args, x)
    {
    }
    if |found| == 1 {
      assert Only(found) in found;
    } else if t :| Names(db, args, t) && forall x :: Names(db, args, x) ==> x == t {
      OnlyMember(found, t);
    }
  }

  /**
   * The user's transaction goes by the reference, or by its txid if the reference, of 64
   * characters, is nobody's else.
   */
  ghost predicate GoesBy(db: Db, userId: int, reference: string, t: int) {
    && t in db.txs && db.txs[t].userId == userId
    && (|| db.txs[t].reference == reference
        || (&& |reference| == 64 && db.txs[t].txid == reference
            && forall x :: x in db.txs && db.txs[x].userId == userId ==> db.txs[x].reference != reference))
  }

  /**
   * An action is aborted exactly when its reference or txid names one transaction of the user, which
   * is outgoing, has no proof, and is still unprocessed, unsigned, not sent, not final or to be
   * checked again.
   */
  lemma AbortsExactly(db: Db, userId: int, reference: string)
    requires 0 !in db.txs
    ensures AbortAction(db, userId, reference).Ok? <==>
            && userId != 0
            && exists t :: && GoesBy(db, userId, reference, t)
                           && (forall x :: GoesBy(db, userId, reference, x) ==> x == t)
                           && db.txs[t].isOutgoing && db.txs[t].provenTxId == 0
                           && db.txs[t].status in {Unprocessed, Unsigned, Nosend, Nonfinal, Unfail}
    ensures AbortAction(db, userId, reference).Ok? ==>
              exists t :: GoesBy(db, userId, reference, t)
                          && AbortAction(db, userId, reference).value == Written(db, t, Failed)
  {
    LookupFindsNamed(db, userId, reference);
    var w := AbortLookup(db.txs, userId, reference);
    var found := Matching(db.txs, w);
    if userId != 0 && |found| == 1 {
      var t := Only(found);
      assert t in found;
      var again := Matching(db.txs, Sought(Where(Some(t), Some(userId), w.reference, None)));
      assert t != 0 && t in again;
      assert forall x :: x in again ==> x == t;
      assert again == {t};
      assert Only(again) in again;
    } else if t :| GoesBy(db, userId, reference, t) && forall x :: GoesBy(db, userId, reference, x) ==> x == t {
      OnlyMember(found, t);
    }
  }

  lemma LookupFindsNamed(db: Db, userId: int, reference: string)
    ensures forall t :: t in Matching(db.txs, AbortLookup(db.txs, userId, reference)) <==>
              GoesBy(db, userId, reference, t)
  {
    var byReference := Matching(db.txs, Where(None, Some(userId), Some(reference), None));
    assert forall t :: t in byReference <==>
             t in db.txs && db.txs[t].userId == userId && db.txs[t].reference == reference;
    if byReference != {} {
      HasMember(byReference);
      var x :| x in byReference;
      assert x in db.txs && db.txs[x].userId == userId && db.txs[x].reference == reference;
    }
  }

  // ----- Which updates go through

  /** The stored transaction can take the status. */
  predicate Takes(db: Db, status: TxStatus, id: int) {
    id != 0 && id in db.txs && Refusal(db.txs[id], status).None?
  }

  ghost predicate AllTake(db: Db, status: TxStatus, ids: seq<int>) {
    forall i :: 0 <= i < |ids| ==> Takes(db, status, ids[i])
  }

  lemma UpdateByIdExactly(db: Db, status: TxStatus, id: int)
    ensures UpdateStatus(db, status, ById(id)).Ok? <==> Takes(db, status, id)
    ensures Takes(db, status, id) ==> UpdateStatus(db, status, ById(id)).value == Written(db, id, status)
    ensures Takes(db, status, id) ==>
              forall x :: Takes(Written(db, id, status), status, x) <==> Takes(db, status, x)
  {
    var found := Matching(db.txs, Sought(ById(id)));
    if id != 0 {
      assert forall x :: x in found <==> x in db.txs && x == id;
      assert found == if id in db.txs then {id} else {};
      if id in db.txs {
        assert Only(found) in found;
      }
    }
  }

  /** A batch of updates goes through exactly when every transaction in it can take the status as it is stored now. */
  lemma {:induction false} UpdateAllSucceedsExactly(db: Db, status: TxStatus, ids: seq<int>)
    ensures UpdateAll(db, status, ids).Ok? <==> AllTake(db, status, ids)
    decreases |ids|
  {
    if ids != [] {
      UpdateByIdExactly(db, status, ids[0]);
      if Takes(db, status, ids[0]) {
        UpdateAllSucceedsExactly(Written(db, ids[0], status), status, ids[1..]);
        assert AllTake(db, status, ids) <==> AllTake(db, status, ids[1..]) by {
          assert ids == [ids[0]] + ids[1..];
        }
      }
    }
  }

  // ----- Runs

  /**
   * One operation; an allocation also names the output it was answered with.  Action creation
   * releases an output that it has just allocated to the unsigned transaction it creates.
   */
  datatype Op =
    | Allocate(q: Request, transactionId: int, picked: Option<nat>)
    | SetStatus(status: TxStatus, args: Where)
    | SetStatuses(newStatus: TxStatus, ids: seq<int>)
    | Abort(userId: int, reference: string)
    | Release(position: nat, holder: int)
    | InsertTx(id: int, tx: Tx)
    | InsertOutput(output: Output)

  function Kept(before: Db, outcome: Result<Db>): Db {
    match outcome case Ok(db) => db case Err(_) => before
  }

  ghost predicate Enabled(db: Db, op: Op) {
    match op
    case Allocate(q, t, picked) => BestFit(db, q, picked)
    case Release(o, t) => HeldBy(db, o, t) && HasStatus(db, t, Unsigned)
    case InsertTx(id, tx) => id !in db.txs
    case InsertOutput(o) => o.spentBy == None
    case _ => true
  }

  ghost function Apply(db: Db, op: Op): Db
    requires Enabled(db, op)
  {
    match op
    case Allocate(q, t, picked) => Take(db, picked, t)
    case SetStatus(status, w) => Kept(db, UpdateStatus(db, status, w))
    case SetStatuses(status, ids) => Kept(db, UpdateAll(db, status, ids))
    case Abort(userId, reference) => Kept(db, AbortAction(db, userId, reference))
    case Release(o, t) => Released(db, o)
    case InsertTx(id, tx) => db.(txs := db.txs[id := tx])
    case InsertOutput(o) => db.(outputs := db.outputs + [o])
  }

  ghost predicate Legal(db: Db, ops: seq<Op>)
    decreases |ops|
  {
    ops == [] || (Enabled(db, ops[0]) && Legal(Apply(db, ops[0]), ops[1..]))
  }

  ghost function RunOps(db: Db, ops: seq<Op>): Db
    requires Legal(db, ops)
    decreases |ops|
  {
    if ops == [] then db else RunOps(Apply(db, ops[0]), ops[1..])
  }

  /** A spendable output is held by nobody. */
  ghost predicate HeldIsUnspendable(db: Db) {
    forall o :: 0 <= o < |db.outputs| && db.outputs[o].spendable ==> db.outputs[o].spentBy == None
  }

  predicate HeldBy(db: Db, o: int, t: int) {
    0 <= o < |db.outputs| && db.outputs[o].spentBy == Some(t) && !db.outputs[o].spendable
  }

  predicate HasStatus(db: Db, t: int, status: TxStatus) { t in db.txs && db.txs[t].status == status }

  /** The outputs that the operations release, each with its holder. */
  function Releases(ops: seq<Op>): set<(int, int)> {
    if ops == [] then {}
    else (if ops[0].Release? then {(ops[0].position, ops[0].holder)} else {}) + Releases(ops[1..])
  }

  /** What any run preserves: final statuses, and holds on outputs until the holder has failed or released them. */
  ghost predicate Evolves(a: Db, b: Db, released: set<(int, int)>) {
    && (forall t :: HasStatus(a, t, Completed) ==> HasStatus(b, t, Completed))
    && (forall t :: HasStatus(a, t, Failed) ==> HasStatus(b, t, Failed))
    && (forall t :: t in a.txs && a.txs[t].provenTxId != 0 ==> t in b.txs && b.txs[t] == a.txs[t])
    && (forall o, t :: HeldBy(a, o, t) ==> HeldBy(b, o, t) || HasStatus(b, t, Failed)
                                           || ((o, t) in released && !HasStatus(a, t, Completed)))
  }

  lemma EvolvesTransitively(a: Db, b: Db, c: Db, first: set<(int, int)>, second: set<(int, int)>)
    requires Evolves(a, b, first) && Evolves(b, c, second)
    ensures Evolves(a, c, first + second)
  {
    forall o, t | HeldBy(a, o, t)
      ensures HeldBy(c, o, t) || HasStatus(c, t, Failed) || ((o, t) in first + second && !HasStatus(a, t, Completed))
    {
      assert HeldBy(b, o, t) || HasStatus(b, t, Failed) || ((o, t) in first && !HasStatus(a, t, Completed));
    }
  }

  lemma ChangeEvolves(db: Db, status: TxStatus, t: int)
    requires t in db.txs && ChangeStatus(db, status, t).Ok? && HeldIsUnspendable(db)
    ensures Evolves(db, ChangeStatus(db, status, t).value, {}) && HeldIsUnspendable(ChangeStatus(db, status, t).value)
  {
  }

  lemma UpdateEvolves(db: Db, status: TxStatus, args: Where)
    requires HeldIsUnspendable(db)
    ensures var after := Kept(db, UpdateStatus(db, status, args)); Evolves(db, after, {}) && HeldIsUnspendable(after)
  {
    if UpdateStatus(db, status, args).Ok? {
      var t := Only(Matching(db.txs, Sought(args)));
      assert t in Matching(db.txs, Sought(args));
      ChangeEvolves(db, status, t);
    }
  }

  lemma {:induction false} UpdateAllEvolves(db: Db, status: TxStatus, ids: seq<int>)
    requires HeldIsUnspendable(db)
    ensures var after := Kept(db, UpdateAll(db, status, ids)); Evolves(db, after, {}) && HeldIsUnspendable(after)
    decreases |ids|
  {
    if ids != [] {
      var w := ById(ids[0]);
      UpdateEvolves(db, status, w);
      if UpdateStatus(db, status, w).Ok? && UpdateAll(db, status, ids).Ok? {
        var next := UpdateStatus(db, status, w).value;
        UpdateAllEvolves(next, status, ids[1..]);
        EvolvesTransitively(db, next, UpdateAll(db, status, ids).value, {}, {});
      }
    }
  }

  lemma TakeEvolves(db: Db, q: Request, picked: Option<nat>, transactionId: int)
    requires HeldIsUnspendable(db) && BestFit(db, q, picked)
    ensures var after := Take(db, picked, transactionId); Evolves(db, after, {}) && HeldIsUnspendable(after)
  {
    var after := Take(db, picked, transactionId);
    forall o, t | HeldBy(db, o, t)
      ensures HeldBy(after, o, t)
    {
      assert picked.Some? ==> Candidate(db, q, picked.value);
    }
  }

  lemma StepEvolves(db: Db, op: Op)
    requires HeldIsUnspendable(db) && Enabled(db, op)
    ensures Evolves(db, Apply(db, op), Releases([op])) && HeldIsUnspendable(Apply(db, op))
  {
    match op
    case Allocate(q, t, picked) => TakeEvolves(db, q, picked, t);
    case SetStatus(status, w) => UpdateEvolves(db, status, w);
    case SetStatuses(status, ids) => UpdateAllEvolves(db, status, ids);
    case Abort(userId, reference) =>
      var lookup := AbortLookup(db.txs, userId, reference);
      if AbortAction(db, userId, reference).Ok? {
        UpdateEvolves(db, Failed, Where(Some(Only(Matching(db.txs, lookup))), Some(userId), lookup.reference, None));
      }
    case Release(o, t) => assert (o, t) in Releases([op]);
    case InsertTx(id, tx) =>
    case InsertOutput(o) =>
  }

  lemma ReleasesSplit(ops: seq<Op>)
    requires ops != []
    ensures Releases(ops) == Releases([ops[0]]) + Releases(ops[1..])
  {
    assert [ops[0]][1..] == [];
  }

  /**
   * Over any run, a hold on an output ends only when its holder has failed or, before it is signed,
   * gives the output back; completed and failed are final.
   */
  lemma {:induction false} HoldsEndOnlyByFailureOrRelease(db: Db, ops: seq<Op>)
    requires HeldIsUnspendable(db) && Legal(db, ops)
    ensures Evolves(db, RunOps(db, ops), Releases(ops)) && HeldIsUnspendable(RunOps(db, ops))
    decreases |ops|
  {
    if ops != [] {
      var next := Apply(db, ops[0]);
      StepEvolves(db, ops[0]);
      HoldsEndOnlyByFailureOrRelease(next, ops[1..]);
      EvolvesTransitively(db, next, RunOps(db, ops), Releases([ops[0]]), Releases(ops[1..]));
      ReleasesSplit(ops);
    }
  }

  /** Outputs of a completed transaction never become spendable again, whatever happens afterwards. */
  lemma CompletedOutputsStaySpent(db: Db, ops: seq<Op>, o: nat, t: int)
    requires HeldIsUnspendable(db) && Legal(db, ops)
    requires HeldBy(db, o, t) && HasStatus(db, t, Completed)
    ensures HeldBy(RunOps(db, ops), o, t)
  {
    HoldsEndOnlyByFailureOrRelease(db, ops);
    var end := RunOps(db, ops);
    assert HasStatus(end, t, Completed);
    assert !HasStatus(end, t, Failed);
  }

  /**
   * An output allocated to one transaction is allocated again, after any operations in between,
   * only if that transaction has failed or released it by then.
   */
  lemma NoDoubleAllocation(db: Db, q: Request, t: int, p: nat, between: seq<Op>, q': Request)
    requires HeldIsUnspendable(db) && BestFit(db, q, Some(p)) && Legal(Take(db, Some(p), t), between)
    requires BestFit(RunOps(Take(db, Some(p), t), between), q', Some(p))
    ensures HasStatus(RunOps(Take(db, Some(p), t), between), t, Failed) || (p, t) in Releases(between)
  {
    var taken := Take(db, Some(p), t);
    TakeEvolves(db, q, Some(p), t);
    assert HeldBy(taken, p, t);
    HoldsEndOnlyByFailureOrRelease(taken, between);
    var end := RunOps(taken, between);
    assert Candidate(end, q', p);
    assert !HeldBy(end, p, t);
  }

  // ----- No output is stranded

  /** The output's holder, if any, is an existing, unfailed transaction of the same user. */
  ghost predicate OwnedOutput(db: Db, o: int)
    requires 0 <= o < |db.outputs|
  {
    match db.outputs[o].spentBy
    case None => true
    case Some(t) => t in db.txs && db.txs[t].status != Failed && db.txs[t].userId == db.outputs[o].userId
  }

  ghost predicate Owned(db: Db) { forall o :: 0 <= o < |db.outputs| ==> OwnedOutput(db, o) }

  /** Allocation as action creation uses it: for a live transaction of the requesting user. */
  ghost predicate OwnAllocation(db: Db, op: Op) {
    op.Allocate? ==> && op.transactionId in db.txs && db.txs[op.transactionId].status != Failed
                     && db.txs[op.transactionId].userId == op.q.userId
  }

  ghost predicate OwnAllocations(db: Db, ops: seq<Op>)
    requires Legal(db, ops)
    decreases |ops|
  {
    ops == [] || (OwnAllocation(db, ops[0]) && OwnAllocations(Apply(db, ops[0]), ops[1..]))
  }

  lemma ChangeKeepsOwned(db: Db, status: TxStatus, t: int)
    requires t in db.txs && ChangeStatus(db, status, t).Ok? && Owned(db)
    ensures Owned(ChangeStatus(db, status, t).value)
  {
    var after := ChangeStatus(db, status, t).value;
    forall o | 0 <= o < |after.outputs|
      ensures OwnedOutput(after, o)
    {
      assert OwnedOutput(db, o);
    }
  }

  lemma UpdateKeepsOwned(db: Db, status: TxStatus, args: Where)
    requires Owned(db)
    ensures Owned(Kept(db, UpdateStatus(db, status, args)))
  {
    if UpdateStatus(db, status, args).Ok? {
      var t := Only(Matching(db.txs, Sought(args)));
      assert t in Matching(db.txs, Sought(args));
      ChangeKeepsOwned(db, status, t);
    }
  }

  lemma {:induction false} UpdateAllKeepsOwned(db: Db, status: TxStatus, ids: seq<int>)
    requires Owned(db)
    ensures Owned(Kept(db, UpdateAll(db, status, ids)))
    decreases |ids|
  {
    if ids != [] {
      UpdateKeepsOwned(db, status, ById(ids[0]));
      if UpdateStatus(db, status, ById(ids[0])).Ok? {
        UpdateAllKeepsOwned(UpdateStatus(db, status, ById(ids[0])).value, status, ids[1..]);
      }
    }
  }

  lemma StepKeepsOwned(db: Db, op: Op)
    requires Owned(db) && Enabled(db, op) && OwnAllocation(db, op)
    ensures Owned(Apply(db, op))
  {
    var after := Apply(db, op);
    match op
    case SetStatus(status, w) => UpdateKeepsOwned(db, status, w);
    case SetStatuses(status, ids) => UpdateAllKeepsOwned(db, status, ids);
    case Abort(userId, reference) =>
      var lookup := AbortLookup(db.txs, userId, reference);
      if AbortAction(db, userId, reference).Ok? {
        UpdateKeepsOwned(db, Failed, Where(Some(Only(Matching(db.txs, lookup))), Some(userId), lookup.reference, None));
      }
    case Allocate(q, t, picked) =>
      forall o | 0 <= o < |after.outputs|
        ensures OwnedOutput(after, o)
      {
        assert OwnedOutput(db, o);
        assert picked.Some? ==> Candidate(db, q, picked.value);
      }
    case _ =>
      forall o | 0 <= o < |after.outputs|
        ensures OwnedOutput(after, o)
      {
        assert o < |db.outputs| ==> OwnedOutput(db, o);
      }
  }

  /** No run of own allocations leaves an output held by a failed, missing or foreign transaction. */
  lemma {:induction false} NoOutputIsStranded(db: Db, ops: seq<Op>)
    requires Owned(db) && Legal(db, ops) && OwnAllocations(db, ops)
    ensures Owned(RunOps(db, ops))
    decreases |ops|
  {
    if ops != [] {
      StepKeepsOwned(db, ops[0]);
      NoOutputIsStranded(Apply(db, ops[0]), ops[1..]);
    }
  }
}
