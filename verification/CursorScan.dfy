/**
 * Paged scans of the IndexedDB storage: the shared cursor loop, the choice of an index by the
 * cursor openers, and matching by tags or labels.
 */
module CursorScan {
  import opened Common

  /** Absent and zero limits mean "all"; a negative one still lets one record through before the loop checks it. */
  function EffectiveLimit(limit: Option<int>): Option<nat> {
    if limit.None? || limit.value == 0 then None else Some(Max(1, limit.value))
  }

  /** drop(offset), then take(limit). */
  function Slice<T>(s: seq<T>, offset: int, limit: Option<int>): seq<T> {
    var rest := s[Min(Max(0, offset), |s|)..];
    match EffectiveLimit(limit)
    case None => rest
    case Some(n) => rest[..Min(n, |rest|)]
  }

  predicate Passes<T>(since: Option<int>, updatedAt: T -> int, matches: T -> bool, r: T) {
    (since.None? || since.value <= updatedAt(r)) && matches(r)
  }

  function Selected<T>(records: seq<T>, since: Option<int>, updatedAt: T -> int, matches: T -> bool): seq<T> {
    Filter(records, r => Passes(since, updatedAt, matches, r))
  }

  /** Selected are the matching records changed at or after `since`, in the order of the cursor. */
  lemma SelectedAreRecent<T>(records: seq<T>, since: Option<int>, updatedAt: T -> int, matches: T -> bool, r: T)
    ensures r in Selected(records, since, updatedAt, matches) <==>
              r in records && matches(r) && (since.Some? ==> updatedAt(r) >= since.value)
  {
    FilterMembers(records, (r: T) => Passes(since, updatedAt, matches, r));
  }

  lemma SelectedSnoc<T>(records: seq<T>, i: nat, since: Option<int>, updatedAt: T -> int, matches: T -> bool)
    requires i < |records|
    ensures Selected(records[..i + 1], since, updatedAt, matches)
         == Selected(records[..i], since, updatedAt, matches)
            + if Passes(since, updatedAt, matches, records[i]) then [records[i]] else []
  {
    assert records[..i + 1] == records[..i] + [records[i]];
    FilterSnoc(records[..i], records[i], r => Passes(since, updatedAt, matches, r));
  }

  lemma SelectedPrefix<T>(records: seq<T>, i: nat, since: Option<int>, updatedAt: T -> int, matches: T -> bool)
    requires i <= |records|
    ensures Selected(records[..i], since, updatedAt, matches) <= Selected(records, since, updatedAt, matches)
  {
    assert records == records[..i] + records[i..];
    FilterConcat(records[..i], records[i..], r => Passes(since, updatedAt, matches, r));
  }

  lemma SliceOfPrefix<T>(s: seq<T>, t: seq<T>, offset: int, limit: Option<int>)
    requires s <= t && EffectiveLimit(limit).Some? && |Slice(s, offset, limit)| == EffectiveLimit(limit).value
    ensures Slice(t, offset, limit) == Slice(s, offset, limit)
  {
  }

  /** The cursor loop: records are what the cursor walks over, accepted what it hands to the callback. */
  method ScanCursor<T>(records: seq<T>, since: Option<int>, updatedAt: T -> int, offset: int, limit: Option<int>,
                       matches: T -> bool)
    returns (accepted: seq<T>, count: nat)
    ensures accepted == Slice(Selected(records, since, updatedAt, matches), offset, limit)
    ensures count == |accepted|
  {
    accepted, count := [], 0;
    var skipped, i := 0, 0;
    while i < |records|
      invariant 0 <= i <= |records| && count == |accepted|
      invariant var selected := Selected(records[..i], since, updatedAt, matches);
                && skipped == Min(Max(0, offset), |selected|) && accepted == selected[skipped..]
      invariant EffectiveLimit(limit).Some? ==> count < EffectiveLimit(limit).value
      decreases |records| - i
    {
      var r := records[i];
      SelectedSnoc(records, i, since, updatedAt, matches);
      i := i + 1;
      if since.Some? && since.value > updatedAt(r) {
        continue;
      }
      if !matches(r) {
        continue;
      }
      if skipped < offset {
        skipped := skipped + 1;
        continue;
      }
      accepted := accepted + [r];
      count := count + 1;
      if limit.Some? && limit.value != 0 && count >= limit.value {
        SelectedPrefix(records, i, since, updatedAt, matches);
        SliceOfPrefix(Selected(records[..i], since, updatedAt, matches), Selected(records, since, updatedAt, matches),
                      offset, limit);
        return;
      }
    }
    assert records[..i] == records;
  }

  /** The concatenation of the first n pages. */
  function Pages<T>(s: seq<T>, pageSize: nat, n: nat): seq<T> {
    if n == 0 then [] else Pages(s, pageSize, n - 1) + Slice(s, (n - 1) * pageSize, Some(pageSize))
  }

  /** Consecutive pages of one size are the sequence from its start, and all of it once they reach its end. */
  lemma {:induction false} PagesConcatenate<T>(s: seq<T>, pageSize: nat, n: nat)
    requires 0 < pageSize
    ensures Pages(s, pageSize, n) == s[..Min(n * pageSize, |s|)]
    ensures n * pageSize >= |s| ==> Pages(s, pageSize, n) == s
  {
    if n > 0 {
      PagesConcatenate(s, pageSize, n - 1);
      var from := (n - 1) * pageSize;
      assert n * pageSize == from + pageSize;
      OnePage(s, from, pageSize);
    }
  }

  lemma OnePage<T>(s: seq<T>, from: nat, pageSize: nat)
    requires 0 < pageSize
    ensures s[..Min(from, |s|)] + Slice(s, from, Some(pageSize)) == s[..Min(from + pageSize, |s|)]
  {
  }

  // ----- Cursors

  function Reversed<T>(s: seq<T>): seq<T> {
    if s == [] then [] else Reversed(s[1..]) + [s[0]]
  }

  lemma {:induction false} FilterReversed<T>(s: seq<T>, p: T -> bool)
    ensures Filter(Reversed(s), p) == Reversed(Filter(s, p))
  {
    if s != [] {
      FilterReversed(s[1..], p);
      FilterSnoc(Reversed(s[1..]), s[0], p);
    }
  }

  lemma {:induction false} FilterTwice<T>(s: seq<T>, p: T -> bool, q: T -> bool)
    requires forall x :: p(x) ==> q(x)
    ensures Filter(Filter(s, q), p) == Filter(s, p)
  {
    if s != [] {
      FilterTwice(s[1..], p, q);
    }
  }

  /**
   * A cursor over the records of a store (in primary key order) whose index key equals the one
   * asked for; an index lists records with equal keys in primary key order.
   */
  function Cursor<T>(store: seq<T>, onKey: T -> bool, descending: bool): seq<T> {
    if descending then Reversed(Filter(store, onKey)) else Filter(store, onKey)
  }

  /** A descending cursor walks the same records in the opposite order; an ascending one in that of the store. */
  lemma CursorsAreOpposite<T>(store: seq<T>, onKey: T -> bool)
    ensures Cursor(store, onKey, false) == Filter(store, onKey)
    ensures |Cursor(store, onKey, true)| == |Cursor(store, onKey, false)|
    ensures forall i :: 0 <= i < |Cursor(store, onKey, true)| ==>
              Cursor(store, onKey, true)[i] == Cursor(store, onKey, false)[|Cursor(store, onKey, true)| - 1 - i]
  {
    ReversedAt(Filter(store, onKey));
  }

  lemma {:induction false} ReversedAt<T>(s: seq<T>)
    ensures |Reversed(s)| == |s| && forall i :: 0 <= i < |s| ==> Reversed(s)[i] == s[|s| - 1 - i]
  {
    if s != [] {
      ReversedAt(s[1..]);
    }
  }

  lemma CursorAgrees<T>(store: seq<T>, onKey: T -> bool, descending: bool, p: T -> bool)
    requires forall x :: p(x) ==> onKey(x)
    ensures Filter(Cursor(store, onKey, descending), p) == Filter(Cursor(store, x => true, descending), p)
  {
    FilterTwice(store, p, onKey);
    FilterTwice(store, p, x => true);
    FilterReversed(Filter(store, onKey), p);
    FilterReversed(Filter(store, x => true), p);
  }

  /** The indexed columns of an output row; rest stands for the other columns. */
  datatype Output = Output(outputId: int, userId: int, transactionId: int, basketId: Option<int>, vout: int,
                           spendable: bool, scriptHash: Option<string>, spentBy: Option<int>, updatedAt: int,
                               rest: string)

  /** Requested column values; None: the column is not part of the request. */
  datatype OutputPartial = OutputPartial(outputId: Option<int>, userId: Option<int>, transactionId: Option<int>,
                                         basketId: Option<int>, vout: Option<int>, spendable: Option<bool>,
                                         scriptHash: Option<string>, spentBy: Option<int>, rest: string -> bool)

  predicate Equals<T(==)>(wanted: Option<T>, value: T) { wanted.None? || wanted.value == value }

  /** matchesOutputPartial: every requested column has the requested value. */
  predicate MatchesOutput(p: OutputPartial, r: Output) {
    && Equals(p.outputId, r.outputId) && Equals(p.userId, r.userId) && Equals(p.transactionId, r.transactionId)
    && (p.basketId.Some? ==> r.basketId == p.basketId) && Equals(p.vout, r.vout) && Equals(p.spendable, r.spendable)
    && (p.scriptHash.Some? ==> r.scriptHash == p.scriptHash) && (p.spentBy.Some? ==> r.spentBy == p.spentBy)
    && p.rest(r.rest)
  }

  predicate Given(id: Option<int>) { id.Some? && id.value != 0 }

  /** The request would open the index that has a boolean column, with a boolean in its key. */
  predicate HasBooleanKey(p: OutputPartial) {
    && (p.outputId == None || p.outputId == Some(0))
    && p.userId.Some? && p.basketId.Some? && p.spendable.Some? && p.scriptHash.Some?
  }

  /** openOutputsCursor; a boolean is not a valid key, so that IndexedDB throws when it is asked for one. */
  function OutputsCursor(store: seq<Output>, p: OutputPartial, descending: bool): Result<seq<Output>> {
    if Given(p.outputId) then
      Ok(Cursor(store, (r: Output) => r.outputId == p.outputId.value, descending))
    else if p.userId.Some? && p.basketId.Some? && p.spendable.Some? && p.scriptHash.Some? then
      Err("DataError")
    else if p.scriptHash.Some? then
      Ok(Cursor(store, (r: Output) => r.scriptHash == p.scriptHash, descending))
    else if p.userId.Some? then
      if Given(p.transactionId) && p.vout.Some? then
        Ok(Cursor(store, (r: Output) => r.transactionId == p.transactionId.value && r.vout == p.vout.value
                                        && r.userId == p.userId.value, descending))
      else Ok(Cursor(store, (r: Output) => r.userId == p.userId.value, descending))
    else if p.transactionId.Some? then
      Ok(Cursor(store, (r: Output) => r.transactionId == p.transactionId.value, descending))
    else if p.basketId.Some? then
      Ok(Cursor(store, (r: Output) => r.basketId == p.basketId, descending))
    else if p.spentBy.Some? then
      Ok(Cursor(store, (r: Output) => r.spentBy == p.spentBy, descending))
    else Ok(Cursor(store, (r: Output) => true, descending))
  }

  /** filterOutputs: the cursor loop over the cursor opened for the request. */
  function ScanOutputs(store: seq<Output>, p: OutputPartial, descending: bool, since: Option<int>,
                       matches: Output -> bool, offset: int, limit: Option<int>): Result<seq<Output>>
  {
    match OutputsCursor(store, p, descending)
    case Ok(records) => Ok(Slice(Selected(records, since, (r: Output) => r.updatedAt, matches), offset, limit))
    case Err(e) => Err(e)
  }

  /**
   * Whatever index openOutputsCursor picks, a scan accepts the same records in the same order as a
   * scan of the whole store, for any further condition, offset and limit -- exactly unless the
   * request has a boolean in its key; then it throws.
   */
  lemma OutputsIndexIsTransparent(store: seq<Output>, p: OutputPartial, descending: bool, since: Option<int>,
                                  matches: Output -> bool, offset: int, limit: Option<int>)
    requires forall r :: matches(r) ==> MatchesOutput(p, r)
    ensures var updatedAt := (r: Output) => r.updatedAt;
            var everything := Cursor(store, (r: Output) => true, descending);
            ScanOutputs(store, p, descending, since, matches, offset, limit)
            == Ok(Slice(Selected(everything, since, updatedAt, matches), offset, limit))
            <==> !HasBooleanKey(p)
    ensures HasBooleanKey(p) ==> ScanOutputs(store, p, descending, since, matches, offset, limit) == Err("DataError")
  {
    var passes := (r: Output) => Passes(since, ((r: Output) => r.updatedAt), matches, r);
    if Given(p.outputId) {
      CursorAgrees(store, (r: Output) => r.outputId == p.outputId.value, descending, passes);
    } else if p.userId.Some? && p.basketId.Some? && p.spendable.Some? && p.scriptHash.Some? {
      assert HasBooleanKey(p);
    } else if p.scriptHash.Some? {
      CursorAgrees(store, (r: Output) => r.scriptHash == p.scriptHash, descending, passes);
    } else if p.userId.Some? {
      if Given(p.transactionId) && p.vout.Some? {
        CursorAgrees(store, (r: Output) => r.transactionId == p.transactionId.value && r.vout == p.vout.value
                                           && r.userId == p.userId.value, descending, passes);
      } else {
        CursorAgrees(store, (r: Output) => r.userId == p.userId.value, descending, passes);
      }
    } else if p.transactionId.Some? {
      CursorAgrees(store, (r: Output) => r.transactionId == p.transactionId.value, descending, passes);
    } else if p.basketId.Some? {
      CursorAgrees(store, (r: Output) => r.basketId == p.basketId, descending, passes);
    } else if p.spentBy.Some? {
      CursorAgrees(store, (r: Output) => r.spentBy == p.spentBy, descending, passes);
    }
  }

  datatype Transaction = Transaction(transactionId: int, userId: int, status: string, provenTxId: Option<int>,
                                     reference: string, updatedAt: int, rest: string)

  datatype TransactionPartial = TransactionPartial(transactionId: Option<int>, userId: Option<int>,
                                                   status: Option<string>,
                                                   provenTxId: Option<int>, reference: Option<string>,
                                                       rest: string -> bool)

  /** matchesTransactionPartial */
  predicate MatchesTransaction(p: TransactionPartial, r: Transaction) {
    && Equals(p.transactionId, r.transactionId) && Equals(p.userId, r.userId) && Equals(p.status, r.status)
    && (p.provenTxId.Some? ==> r.provenTxId == p.provenTxId) && Equals(p.reference, r.reference) && p.rest(r.rest)
  }

  /** openTransactionsCursor */
  function TransactionsCursor(store: seq<Transaction>, p: TransactionPartial, descending: bool): seq<Transaction> {
    if Given(p.transactionId) then
      Cursor(store, (r: Transaction) => r.transactionId == p.transactionId.value, descending)
    else if p.userId.Some? then
      if p.status.Some? then
        Cursor(store, (r: Transaction) => r.status == p.status.value && r.userId == p.userId.value, descending)
      else Cursor(store, (r: Transaction) => r.userId == p.userId.value, descending)
    else if p.status.Some? then
      Cursor(store, (r: Transaction) => r.status == p.status.value, descending)
    else if p.provenTxId.Some? then
      Cursor(store, (r: Transaction) => r.provenTxId == p.provenTxId, descending)
    else if p.reference.Some? then
      Cursor(store, (r: Transaction) => r.reference == p.reference.value, descending)
    else Cursor(store, (r: Transaction) => true, descending)
  }

  lemma TransactionsIndexIsTransparent(store: seq<Transaction>, p: TransactionPartial, descending: bool,
                                       since: Option<int>,
                                       matches: Transaction -> bool, offset: int, limit: Option<int>)
    requires forall r :: matches(r) ==> MatchesTransaction(p, r)
    ensures var updatedAt := (r: Transaction) => r.updatedAt;
            Slice(Selected(TransactionsCursor(store, p, descending), since, updatedAt, matches), offset, limit)
            == Slice(Selected(Cursor(store, (r: Transaction) => true, descending), since, updatedAt, matches), offset,
                     limit)
  {
    var updatedAt := (r: Transaction) => r.updatedAt;
    var passes := (r: Transaction) => Passes(since, updatedAt, matches, r);
    if Given(p.transactionId) {
      CursorAgrees(store, (r: Transaction) => r.transactionId == p.transactionId.value, descending, passes);
    } else if p.userId.Some? {
      if p.status.Some? {
        CursorAgrees(store, (r: Transaction) => r.status == p.status.value &&
                     r.userId == p.userId.value, descending, passes);
      } else {
        CursorAgrees(store, (r: Transaction) => r.userId == p.userId.value, descending, passes);
      }
    } else if p.status.Some? {
      CursorAgrees(store, (r: Transaction) => r.status == p.status.value, descending, passes);
    } else if p.provenTxId.Some? {
      CursorAgrees(store, (r: Transaction) => r.provenTxId == p.provenTxId, descending, passes);
    } else if p.reference.Some? {
      CursorAgrees(store, (r: Transaction) => r.reference == p.reference.value, descending, passes);
    }
  }

  // ----- Tags and labels

  function IndexOf(ids: seq<int>, id: int): Option<nat> {
    if ids == [] then None
    else if ids[0] == id then Some(0)
    else match IndexOf(ids[1..], id) case None => None case Some(i) => Some(i + 1)
  }

  lemma {:induction false} IndexOfFinds(ids: seq<int>, id: int)
    ensures IndexOf(ids, id).Some? <==> id in ids
    ensures IndexOf(ids, id).Some? ==> IndexOf(ids, id).value < |ids| && ids[IndexOf(ids, id).value] == id
  {
    if ids != [] {
      IndexOfFinds(ids[1..], id);
    }
  }

  /** What is still wanted after one mapping row. */
  function Strike(ids: seq<int>, row: int, modeAll: bool): seq<int> {
    match IndexOf(ids, row)
    case None => ids
    case Some(i) => if i >= |ids| || !modeAll then [] else ids[..i] + ids[i + 1..]
  }

  function StrikeAll(ids: seq<int>, rows: seq<int>, modeAll: bool): seq<int>
    decreases |rows|
  {
    if rows == [] then ids else StrikeAll(Strike(ids, rows[0], modeAll), rows[1..], modeAll)
  }

  lemma StrikeRemovesOne(ids: seq<int>, row: int)
    ensures multiset(Strike(ids, row, true)) == multiset(ids) - multiset{row}
    ensures Strike(ids, row, false) == if row in ids then [] else ids
  {
    IndexOfFinds(ids, row);
    if row in ids {
      var i := IndexOf(ids, row).value;
      assert ids == ids[..i] + [ids[i]] + ids[i + 1..];
    }
  }

  lemma StrikeShifts(a: multiset<int>, b: multiset<int>, row: int)
    ensures a - multiset{row} <= b <==> a <= multiset{row} + b
  {
    if a - multiset{row} <= b {
      forall x ensures a[x] <= (multiset{row} + b)[x] { assert (a - multiset{row})[x] <= b[x]; }
    }
    if a <= multiset{row} + b {
      forall x ensures (a - multiset{row})[x] <= b[x] { assert a[x] <= (multiset{row} + b)[x]; }
    }
  }

  lemma EmptyMultiset(ids: seq<int>)
    ensures ids == [] <==> multiset(ids) <= multiset([])
  {
    if ids != [] {
      assert ids[0] in multiset(ids);
      assert multiset(ids)[ids[0]] > multiset([])[ids[0]];
    }
  }

  /** In "all" mode every row strikes one occurrence of its id. */
  lemma {:induction false} StrikeAllMeansAll(ids: seq<int>, rows: seq<int>)
    ensures StrikeAll(ids, rows, true) == [] <==> multiset(ids) <= multiset(rows)
    decreases |rows|
  {
    if rows == [] {
      EmptyMultiset(ids);
    } else {
      StrikeRemovesOne(ids, rows[0]);
      StrikeAllMeansAll(Strike(ids, rows[0], true), rows[1..]);
      StrikeShifts(multiset(ids), multiset(rows[1..]), rows[0]);
      assert rows == [rows[0]] + rows[1..];
    }
  }

  /** In "any" mode the first wanted row strikes everything. */
  lemma {:induction false} StrikeAllMeansAny(ids: seq<int>, rows: seq<int>)
    ensures StrikeAll(ids, rows, false) == [] <==> ids == [] || exists i :: 0 <= i < |rows| && rows[i] in ids
    decreases |rows|
  {
    if rows != [] {
      var rest := rows[1..];
      StrikeRemovesOne(ids, rows[0]);
      StrikeAllMeansAny(Strike(ids, rows[0], false), rest);
      if i :| 0 <= i < |rest| && rest[i] in ids {
        assert rows[i + 1] in ids;
      }
      if i :| 0 < i < |rows| && rows[i] in ids {
        assert rest[i - 1] in ids;
      }
    }
  }

  /** outputMatchesTags and transactionMatchesLabels: rows are the tag ids mapped to the record. */
  method MatchesIds(rows: seq<int>, wanted: seq<int>, modeAll: bool) returns (r: bool)
    ensures modeAll ==> (r <==> multiset(wanted) <= multiset(rows))
    ensures !modeAll ==> (r <==> wanted == [] || exists i :: 0 <= i < |rows| && rows[i] in wanted)
  {
    var ids := wanted;
    var k := 0;
    while k < |rows|
      invariant 0 <= k <= |rows|
      invariant StrikeAll(ids, rows[k..], modeAll) == StrikeAll(wanted, rows, modeAll)
    {
      assert rows[k..][1..] == rows[k + 1..];
      if |ids| > 0 {
        var i := IndexOf(ids, rows[k]);
        IndexOfFinds(ids, rows[k]);
        if i.Some? {
          if modeAll {
            ids := ids[..i.value] + ids[i.value + 1..];
          } else {
            ids := [];
          }
        }
      }
      k := k + 1;
    }
    StrikeAllMeansAll(wanted, rows);
    StrikeAllMeansAny(wanted, rows);
    r := |ids| == 0;
  }

  /**
   * Requiring all ids means what it says -- each wanted id is mapped to the record -- for every
   * record with unrepeated mappings, exactly when the wanted list itself repeats no id.
   */
  lemma AllModeIsSubsetExactlyForDistinctIds(wanted: seq<int>)
    ensures NoDuplicates(wanted) <==>
            forall rows :: NoDuplicates(rows) ==>
              (multiset(wanted) <= multiset(rows) <==> forall i :: 0 <= i < |wanted| ==> wanted[i] in rows)
  {
    if NoDuplicates(wanted) {
      DistinctCounts(wanted);
      forall rows: seq<int>
        ensures multiset(wanted) <= multiset(rows) <==> forall i :: 0 <= i < |wanted| ==> wanted[i] in rows
      {
        if multiset(wanted) <= multiset(rows) {
          forall i | 0 <= i < |wanted|
            ensures wanted[i] in rows
          {
            assert wanted[i] in multiset(wanted);
            assert multiset(wanted)[wanted[i]] <= multiset(rows)[wanted[i]];
          }
        }
        if forall i :: 0 <= i < |wanted| ==> wanted[i] in rows {
          forall x
            ensures multiset(wanted)[x] <= multiset(rows)[x]
          {
            if x in multiset(wanted) {
              assert x in wanted;
              assert x in multiset(rows);
            }
          }
        }
      }
    } else {
      var rows := Distinct(wanted);
      DistinctKeepsMembers(wanted);
      DistinctCounts(rows);
      var i, j :| 0 <= i < j < |wanted| && wanted[i] == wanted[j];
      RepeatedCount(wanted, i, j);
      var x := wanted[i];
      assert multiset(rows)[x] <= 1;
      assert multiset(wanted)[x] >= 2;
      assert !(multiset(wanted) <= multiset(rows));
      forall k | 0 <= k < |wanted|
        ensures wanted[k] in rows
      {
        var y := wanted[k];
        assert y in wanted && y in rows;
      }
    }
  }

  lemma {:induction false} DistinctCounts(s: seq<int>)
    requires NoDuplicates(s)
    ensures forall x :: multiset(s)[x] <= 1
  {
    if s != [] {
      DistinctCounts(s[1..]);
      assert s == [s[0]] + s[1..];
      assert s[0] !in s[1..];
    }
  }

  function Distinct(s: seq<int>): seq<int> {
    if s == [] then [] else if s[0] in s[1..] then Distinct(s[1..]) else [s[0]] + Distinct(s[1..])
  }

  lemma {:induction false} DistinctKeepsMembers(s: seq<int>)
    ensures NoDuplicates(Distinct(s)) && forall x :: x in Distinct(s) <==> x in s
  {
    if s != [] {
      DistinctKeepsMembers(s[1..]);
      assert s == [s[0]] + s[1..];
    }
  }

  lemma RepeatedCount(s: seq<int>, i: nat, j: nat)
    requires i < j < |s| && s[i] == s[j]
    ensures multiset(s)[s[i]] >= 2
  {
    assert s == s[..i] + [s[i]] + s[i + 1..j] + [s[j]] + s[j + 1..];
  }
}
