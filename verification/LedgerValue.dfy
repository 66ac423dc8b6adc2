/**
 * Who spends what on the mock chain: every input of a stored transaction is a row spent by exactly
 * that transaction, and the unspent value is the block rewards minus the fees.
 */
module LedgerValue {
  import opened Common
  import opened Ledger
  import opened ChainInvariant

  predicate Stands(txs: Txs, t: Bytes) { t in txs && !IsCoinbase(txs[t]) }

  predicate Holds(utxos: Utxos, o: Outpoint, t: Bytes) { o in utxos && utxos[o].spentBy == Some(t) }

  /** Each input of each stored non-coinbase transaction is a row marked spent by exactly that transaction. */
  ghost predicate SpendsFit(txs: Txs, utxos: Utxos) {
    forall o, t :: Stands(txs, t) && o in txs[t].tx.inputs ==> Holds(utxos, o, t)
  }

  /** Only inputs of stored non-coinbase transactions are marked spent. */
  ghost predicate SpentByStored(txs: Txs, utxos: Utxos) {
    forall o, t :: Holds(utxos, o, t) ==> Stands(txs, t) && o in txs[t].tx.inputs
  }

  /** A spent coinbase output was at least 100 blocks below the highest tip so far. */
  ghost predicate MaturelySpent(utxos: Utxos, high: int) {
    forall o :: o in utxos && utxos[o].isCoinbase && utxos[o].spentBy.Some? ==>
      utxos[o].height.Some? && utxos[o].height.value + COINBASE_MATURITY <= high
  }

  /** Every block pays its reward to the one output of its coinbase. */
  ghost predicate CoinbasesPay(txs: Txs, utxos: Utxos) {
    && (forall o :: o in utxos && utxos[o].isCoinbase ==> o.vout == 0 && utxos[o].satoshis == COINBASE_SATOSHIS)
    && (forall t :: t in txs && IsCoinbase(txs[t]) ==> Outpoint(t, 0) in utxos)
  }

  ghost predicate Sound(env: Env, db: Db, blocks: Blocks, high: int) {
    && Consistent(env, db, blocks) && |blocks| - 1 <= high
    && SpendsFit(db.txs, db.utxos) && SpentByStored(db.txs, db.utxos)
    && MaturelySpent(db.utxos, high) && CoinbasesPay(db.txs, db.utxos)
  }

  // ----- Posting

  lemma PostSpends(db: Db, tx: Tx, txid: Bytes)
    requires OutputsBelong(db) && txid !in db.txs && SpendsFit(db.txs, db.utxos) && SpentByStored(db.txs, db.utxos)
    requires forall i :: 0 <= i < |tx.inputs| ==> tx.inputs[i] in db.utxos && db.utxos[tx.inputs[i]].spentBy.None?
    ensures SpendsFit(Accepted(db, tx, txid).txs, Accepted(db, tx, txid).utxos)
    ensures SpentByStored(Accepted(db, tx, txid).txs, Accepted(db, tx, txid).utxos)
  {
    var stored, after := StoreOutputs(db.utxos, txid, tx.outputs, |tx.outputs|), Accepted(db, tx, txid);
    StoredRows(db.utxos, txid, tx.outputs, |tx.outputs|);
    SpentRows(stored, txid, tx.inputs, |tx.inputs|);
    assert tx.inputs[..|tx.inputs|] == tx.inputs;
    forall o, t | Stands(after.txs, t) && o in after.txs[t].tx.inputs
      ensures Holds(after.utxos, o, t)
    {
      if t != txid {
        assert Stands(db.txs, t) && Holds(db.utxos, o, t);
        assert o !in tx.inputs;
      }
    }
    forall o, t | Holds(after.utxos, o, t)
      ensures Stands(after.txs, t) && o in after.txs[t].tx.inputs
    {
      if o !in tx.inputs {
        assert stored[o].spentBy == Some(t);
        assert Holds(db.utxos, o, t);
      }
    }
  }

  lemma PostMatures(db: Db, tx: Tx, txid: Bytes, current: int, high: int)
    requires RowsFit(db) && txid !in db.txs && MaturelySpent(db.utxos, high) && CoinbasesPay(db.txs, db.utxos) &&
             current <= high
    requires InputsSpendable(db, current, tx)
    ensures MaturelySpent(Accepted(db, tx, txid).utxos, high)
    ensures CoinbasesPay(Accepted(db, tx, txid).txs, Accepted(db, tx, txid).utxos)
  {
    var stored, after := StoreOutputs(db.utxos, txid, tx.outputs, |tx.outputs|), Accepted(db, tx, txid);
    assert forall o :: o in db.utxos ==> RowFits(db.txs, o, db.utxos[o]);
    StoredRows(db.utxos, txid, tx.outputs, |tx.outputs|);
    SpentRows(stored, txid, tx.inputs, |tx.inputs|);
    forall o | o in after.utxos && after.utxos[o].isCoinbase
      ensures o in db.utxos && SameButSpent(after.utxos[o], db.utxos[o])
    {
      assert SameButSpent(after.utxos[o], stored[o]);
    }
    forall o | o in after.utxos && after.utxos[o].isCoinbase && after.utxos[o].spentBy.Some?
      ensures after.utxos[o].height.Some? && after.utxos[o].height.value + COINBASE_MATURITY <= high
    {
      assert RowFits(db.txs, o, db.utxos[o]);
      if o in tx.inputs[..|tx.inputs|] {
        var i :| 0 <= i < |tx.inputs| && tx.inputs[i] == o;
        assert Spendable(db.utxos, current, tx.inputs[i]);
      }
    }
  }

  lemma PostKeepsSound(env: Env, db: Db, blocks: Blocks, high: int, current: int, tx: Tx, txid: Bytes)
    requires Sound(env, db, blocks, high) && current == |blocks| - 1 && InputsSpendable(db, current, tx) &&
             txid !in db.txs
    ensures Sound(env, Accepted(db, tx, txid), blocks, high)
  {
    assert forall o :: o in db.utxos ==> RowFits(db.txs, o, db.utxos[o]);
    forall i | 0 <= i < |tx.inputs|
      ensures tx.inputs[i] in db.utxos && db.utxos[tx.inputs[i]].spentBy.None?
    {
      assert Spendable(db.utxos, current, tx.inputs[i]);
    }
    PostKeeps(env, db, blocks, tx, txid);
    PostSpends(db, tx, txid);
    PostMatures(db, tx, txid, current, high);
  }

  // ----- Mining

  /** Output rows after mining: a fresh coinbase row, and new heights for the listed transactions. */
  ghost predicate MinedRows(utxos: Utxos, after: Utxos, coinbase: Bytes, height: int, list: seq<Bytes>) {
    && Outpoint(coinbase, 0) !in utxos && after.Keys == utxos.Keys + {Outpoint(coinbase, 0)}
    && (forall o :: o in utxos ==> after[o] == if o.txid in list then utxos[o].(height := Some(height)) else utxos[o])
    && after[Outpoint(coinbase, 0)] == UtxoRow(COINBASE_SATOSHIS, None, true, Some(height))
  }

  /** Mining changes no transaction and makes no stored one a coinbase. */
  lemma MiningKeepsStanding(txs: Txs, after: Txs, coinbase: Bytes, height: int, list: seq<Bytes>, t: Bytes)
    requires Places(txs, after, coinbase, height, list) && MineableList(txs, list)
    ensures Stands(after, t) <==> Stands(txs, t)
    ensures t in txs ==> after[t].tx == txs[t].tx && (IsCoinbase(after[t]) <==> IsCoinbase(txs[t]))
  {
    if t in list {
      var j :| 0 <= j < |list| && list[j] == t;
      assert after[list[j]] == txs[list[j]].(place := Some(Place(height, j + 1)));
    }
  }

  lemma MiningSpends(db: Db, after: Db, coinbase: Bytes, height: int, list: seq<Bytes>)
    requires Places(db.txs, after.txs, coinbase, height, list) && MineableList(db.txs, list)
    requires MinedRows(db.utxos, after.utxos, coinbase, height, list)
    requires SpendsFit(db.txs, db.utxos) && SpentByStored(db.txs, db.utxos)
    ensures SpendsFit(after.txs, after.utxos) && SpentByStored(after.txs, after.utxos)
  {
    forall o, t
      ensures Holds(after.utxos, o, t) <==> Holds(db.utxos, o, t)
      ensures Stands(after.txs, t) <==> Stands(db.txs, t)
      ensures Stands(db.txs, t) ==> after.txs[t].tx == db.txs[t].tx
    {
      MiningKeepsStanding(db.txs, after.txs, coinbase, height, list, t);
    }
  }

  lemma MiningMatures(db: Db, after: Db, coinbase: Bytes, height: int, list: seq<Bytes>, high: int, higher: int)
    requires Places(db.txs, after.txs, coinbase, height, list) && MineableList(db.txs, list)
    requires MinedRows(db.utxos, after.utxos, coinbase, height, list) && RowsFit(db)
    requires MaturelySpent(db.utxos, high) && CoinbasesPay(db.txs, db.utxos) && high <= higher
    ensures MaturelySpent(after.utxos, higher) && CoinbasesPay(after.txs, after.utxos)
  {
    forall o | o in after.utxos && after.utxos[o].isCoinbase && o in db.utxos
      ensures after.utxos[o] == db.utxos[o]
    {
      assert RowFits(db.txs, o, db.utxos[o]);
      assert forall j :: 0 <= j < |list| ==> list[j] != o.txid;
    }
    forall t | t in after.txs && IsCoinbase(after.txs[t])
      ensures Outpoint(t, 0) in after.utxos
    {
      MiningKeepsStanding(db.txs, after.txs, coinbase, height, list, t);
    }
  }

  lemma MineKeepsSound(env: Env, db: Db, blocks: Blocks, high: int, list: seq<Bytes>, stamp: Bytes)
    requires Sound(env, db, blocks, high) && MineableList(db.txs, list)
    requires MineAt(env, db, |blocks|, HashBelow(db.headers, |blocks|), list, stamp).Ok?
    ensures var after := MineAt(env, db, |blocks|, HashBelow(db.headers, |blocks|), list, stamp).value;
            && Sound(env, after, blocks + [[CoinbaseTxid(env, |blocks|)] + list], Max(high, |blocks|))
            && Places(db.txs, after.txs, CoinbaseTxid(env, |blocks|), |blocks|, list)
            && MinedRows(db.utxos, after.utxos, CoinbaseTxid(env, |blocks|), |blocks|, list)
  {
    var h, coinbase := |blocks|, CoinbaseTxid(env, |blocks|);
    var after := MineAt(env, db, h, HashBelow(db.headers, h), list, stamp).value;
    MineKeeps(env, db, blocks, list, stamp);
    MiningPlaces(env, db, h, HashBelow(db.headers, h), list, stamp);
    MiningSetsHeights(env, db, h, HashBelow(db.headers, h), list, stamp);
    MiningSpends(db, after, coinbase, h, list);
    MiningMatures(db, after, coinbase, h, list, high, Max(high, h));
  }

  // ----- Tearing down

  /** No output of the coinbase at height h is spent. */
  ghost predicate CoinbaseUnspent(db: Db, h: int) {
    forall o :: o in db.utxos && CoinbaseOf(db.headers, h) == Some(o.txid) ==> db.utxos[o].spentBy.None?
  }

  /** Tearing out a block removes its coinbase and leaves every other transaction. */
  lemma TearingKeepsStanding(env: Env, db: Db, blocks: Blocks, t: Bytes)
    requires Consistent(env, db, blocks) && |blocks| > 0
    ensures blocks[|blocks| - 1] != []
    ensures var h := |blocks| - 1; var after := TearBlock(db, h).txs; var coinbase := blocks[h][0];
            && CoinbaseOf(db.headers, h) == Some(coinbase) && coinbase in db.txs && IsCoinbase(db.txs[coinbase])
            && (t in after <==> t in db.txs && t != coinbase)
            && (t in after ==> after[t].tx == db.txs[t].tx && (IsCoinbase(after[t]) <==> IsCoinbase(db.txs[t])))
            && (Stands(after, t) <==> Stands(db.txs, t))
  {
    var h := |blocks| - 1;
    assert HeaderFits(env, db.headers, blocks, h);
    var coinbase := blocks[h][0];
    assert At(blocks, h, 0, coinbase);
    if t in db.txs && MinedAt(db.txs[t], h) {
      assert At(blocks, h, db.txs[t].place.value.index, t);
    }
  }

  lemma TearingKeepsRows(env: Env, db: Db, blocks: Blocks, o: Outpoint)
    requires Consistent(env, db, blocks) && |blocks| > 0
    ensures var h := |blocks| - 1; var after := TearBlock(db, h).utxos;
            && blocks[h] != []
            && (o in after <==> o in db.utxos && o.txid != blocks[h][0])
            && (o in after ==> && after[o].spentBy == db.utxos[o].spentBy && after[o].satoshis == db.utxos[o].satoshis
                               && after[o].isCoinbase == db.utxos[o].isCoinbase
                               && (after[o].isCoinbase ==> after[o].height == db.utxos[o].height))
  {
    var h := |blocks| - 1;
    assert HeaderFits(env, db.headers, blocks, h);
    TearingKeepsStanding(env, db, blocks, o.txid);
    if o in db.utxos {
      assert RowFits(db.txs, o, db.utxos[o]);
      if o.txid in InBlock(db.txs, h) && db.utxos[o].isCoinbase {
        assert At(blocks, h, 0, o.txid);
      }
    }
    assert MinedAt(db.txs[blocks[h][0]], h) by {
      assert At(blocks, h, 0, blocks[h][0]);
    }
  }

  /**
   * Tearing out the top block keeps every input of every stored transaction in place exactly when
   * no output of the block's coinbase has been spent.
   */
  lemma TearingKeepsSpendsExactly(env: Env, db: Db, blocks: Blocks)
    requires Consistent(env, db, blocks) && |blocks| > 0 && SpendsFit(db.txs, db.utxos) &&
             SpentByStored(db.txs, db.utxos)
    ensures SpendsFit(TearBlock(db, |blocks| - 1).txs, TearBlock(db, |blocks| - 1).utxos) <==>
              CoinbaseUnspent(db, |blocks| - 1)
    ensures SpentByStored(TearBlock(db, |blocks| - 1).txs, TearBlock(db, |blocks| - 1).utxos)
  {
    var h := |blocks| - 1;
    var after := TearBlock(db, h);
    forall o, t
      ensures Stands(after.txs, t) <==> Stands(db.txs, t)
      ensures Stands(db.txs, t) ==> after.txs[t].tx == db.txs[t].tx
      ensures Holds(after.utxos, o, t) <==> Holds(db.utxos, o, t) && CoinbaseOf(db.headers, h) != Some(o.txid)
    {
      TearingKeepsStanding(env, db, blocks, t);
      TearingKeepsRows(env, db, blocks, o);
    }
    if CoinbaseUnspent(db, h) {
      forall o, t | Stands(db.txs, t) && o in db.txs[t].tx.inputs
        ensures Holds(after.utxos, o, t)
      {
        assert Holds(db.utxos, o, t);
      }
    } else {
      var o :| o in db.utxos && CoinbaseOf(db.headers, h) == Some(o.txid) && db.utxos[o].spentBy.Some?;
      var t := db.utxos[o].spentBy.value;
      assert Holds(db.utxos, o, t);
      assert Stands(after.txs, t) && o in after.txs[t].tx.inputs && !Holds(after.utxos, o, t);
    }
  }

  /** The transaction is the coinbase of a block from height `from` on, below `to`. */
  predicate CoinbaseBetween(headers: Headers, from: int, to: int, txid: Bytes) {
    exists h :: from <= h < to && CoinbaseOf(headers, h) == Some(txid)
  }

  lemma {:induction false} TearingDownTakesCoinbases(env: Env, db: Db, blocks: Blocks, start: nat, o: Outpoint,
                                                     t: Bytes)
    requires Consistent(env, db, blocks)
    ensures var after := TearDown(db, |blocks| - 1, start);
            && (Stands(after.txs, t) <==> Stands(db.txs, t))
            && (Stands(db.txs, t) ==> after.txs[t].tx == db.txs[t].tx)
            && (Holds(after.utxos, o, t)
                <==> Holds(db.utxos, o, t) && !CoinbaseBetween(db.headers, start, |blocks|, o.txid))
    decreases |blocks|
  {
    var h := |blocks| - 1;
    if start <= h {
      var next := TearBlock(db, h);
      TearKeeps(env, db, blocks);
      TearingKeepsStanding(env, db, blocks, t);
      TearingKeepsRows(env, db, blocks, o);
      TearingDownTakesCoinbases(env, next, blocks[..h], start, o, t);
      assert CoinbaseBetween(db.headers, start, h + 1, o.txid)
        <==> CoinbaseOf(db.headers, h) == Some(o.txid) || CoinbaseBetween(next.headers, start, h, o.txid) by {
        LastBlockOrBelow(db.headers, start, h, o.txid);
      }
    }
  }

  lemma LastBlockOrBelow(headers: Headers, from: int, h: int, txid: Bytes)
    requires from <= h
    ensures CoinbaseBetween(headers, from, h + 1, txid)
       <==> CoinbaseOf(headers, h) == Some(txid) || CoinbaseBetween(headers - {h}, from, h, txid)
  {
    if g :| from <= g < h + 1 && CoinbaseOf(headers, g) == Some(txid) {
      assert g < h ==> CoinbaseOf(headers - {h}, g) == Some(txid);
    }
    if g :| from <= g < h && CoinbaseOf(headers - {h}, g) == Some(txid) {
      assert CoinbaseOf(headers, g) == Some(txid);
    }
  }

  /**
   * Tearing out all blocks from a height on keeps every input of every stored transaction in place
   * exactly when no coinbase output of those blocks has been spent.
   */
  lemma TearingDownKeepsSpendsExactly(env: Env, db: Db, blocks: Blocks, start: int)
    requires Consistent(env, db, blocks) && SpendsFit(db.txs, db.utxos) && SpentByStored(db.txs, db.utxos)
    ensures var after := TearDown(db, |blocks| - 1, start);
            && (SpendsFit(after.txs, after.utxos) <==> forall h :: start <= h < |blocks| ==> CoinbaseUnspent(db, h))
            && SpentByStored(after.txs, after.utxos)
  {
    var after := TearDown(db, |blocks| - 1, start);
    TearDownStopsAtZero(env, db, blocks, |blocks| - 1, start);
    forall o, t
      ensures Stands(after.txs, t) <==> Stands(db.txs, t)
      ensures Stands(db.txs, t) ==> after.txs[t].tx == db.txs[t].tx
      ensures Holds(after.utxos, o, t)
         <==> Holds(db.utxos, o, t) && !CoinbaseBetween(db.headers, Max(0, start), |blocks|, o.txid)
    {
      TearingDownTakesCoinbases(env, db, blocks, Max(0, start), o, t);
    }
    if forall h :: start <= h < |blocks| ==> CoinbaseUnspent(db, h) {
      forall o, t | Stands(db.txs, t) && o in db.txs[t].tx.inputs
        ensures Holds(after.utxos, o, t)
      {
        assert Holds(db.utxos, o, t);
        forall h | Max(0, start) <= h < |blocks|
          ensures CoinbaseOf(db.headers, h) != Some(o.txid)
        {
          assert CoinbaseUnspent(db, h);
        }
      }
    } else {
      var h :| start <= h < |blocks| && !CoinbaseUnspent(db, h);
      var o :| o in db.utxos && CoinbaseOf(db.headers, h) == Some(o.txid) && db.utxos[o].spentBy.Some?;
      var t := db.utxos[o].spentBy.value;
      assert 0 <= h;
      assert Holds(db.utxos, o, t) && CoinbaseBetween(db.headers, Max(0, start), |blocks|, o.txid);
      assert Stands(after.txs, t) && o in after.txs[t].tx.inputs && !Holds(after.utxos, o, t);
    }
  }

  lemma TearingMatures(env: Env, db: Db, blocks: Blocks, high: int)
    requires Consistent(env, db, blocks) && |blocks| > 0 && MaturelySpent(db.utxos, high) &&
             CoinbasesPay(db.txs, db.utxos)
    ensures MaturelySpent(TearBlock(db, |blocks| - 1).utxos, high)
    ensures CoinbasesPay(TearBlock(db, |blocks| - 1).txs, TearBlock(db, |blocks| - 1).utxos)
  {
    var after := TearBlock(db, |blocks| - 1);
    forall o | o in after.utxos && after.utxos[o].isCoinbase
      ensures o in db.utxos && db.utxos[o].isCoinbase && after.utxos[o] == db.utxos[o]
    {
      TearingKeepsRows(env, db, blocks, o);
    }
    forall t | t in after.txs && IsCoinbase(after.txs[t])
      ensures Outpoint(t, 0) in after.utxos
    {
      TearingKeepsStanding(env, db, blocks, t);
      TearingKeepsRows(env, db, blocks, Outpoint(t, 0));
    }
  }

  /** Within 100 blocks of the highest tip no coinbase output has been spent. */
  lemma RecentCoinbaseIsUnspent(env: Env, db: Db, blocks: Blocks, high: int, h: int)
    requires Consistent(env, db, blocks) && MaturelySpent(db.utxos, high)
    requires h < |blocks| && h + COINBASE_MATURITY > high
    ensures CoinbaseUnspent(db, h)
  {
    if 0 <= h {
      assert HeaderFits(env, db.headers, blocks, h);
      assert At(blocks, h, 0, blocks[h][0]);
      forall o | o in db.utxos && CoinbaseOf(db.headers, h) == Some(o.txid)
        ensures db.utxos[o].spentBy.None?
      {
        assert RowFits(db.txs, o, db.utxos[o]);
      }
    }
  }

  lemma TearKeepsSound(env: Env, db: Db, blocks: Blocks, high: int)
    requires Sound(env, db, blocks, high) && |blocks| > 0 && CoinbaseUnspent(db, |blocks| - 1)
    ensures Sound(env, TearBlock(db, |blocks| - 1), blocks[..|blocks| - 1], high)
  {
    TearKeeps(env, db, blocks);
    TearingKeepsSpendsExactly(env, db, blocks);
    TearingMatures(env, db, blocks, high);
  }

  // ----- Conservation of value

  ghost function Sum<K(!new)>(m: map<K, int>): int {
    if m == map[] then 0
    else
      var k :| k in m;
      m[k] + Sum(m - {k})
  }

  lemma {:induction false} SumPick<K(!new)>(m: map<K, int>, k: K)
    requires k in m
    ensures Sum(m) == m[k] + Sum(m - {k})
  {
    var first :| first in m && Sum(m) == m[first] + Sum(m - {first});
    if first != k {
      SumPick(m - {first}, k);
      SumPick(m - {k}, first);
      assert m - {first} - {k} == m - {k} - {first};
    }
  }

  /** One entry more, or another value of an entry. */
  lemma SumPut<K(!new)>(m: map<K, int>, k: K, v: int)
    ensures Sum(m[k := v]) == Sum(m) + v - if k in m then m[k] else 0
  {
    SumPick(m[k := v], k);
    assert m[k := v] - {k} == m - {k};
    if k in m {
      SumPick(m, k);
    } else {
      assert m - {k} == m;
    }
  }

  /** What each output still has to spend. */
  function Unspents(utxos: Utxos): map<Outpoint, int> {
    map o | o in utxos :: if utxos[o].spentBy.None? then utxos[o].satoshis else 0
  }

  function SatoshisAt(utxos: Utxos, o: Outpoint): int { if o in utxos then utxos[o].satoshis else 0 }

  /** Value of the rows that the first n inputs name; a row named twice is spent once. */
  function InValue(utxos: Utxos, inputs: seq<Outpoint>, n: nat): int
    requires n <= |inputs|
  {
    if n == 0 then 0
    else InValue(utxos, inputs, n - 1) + if inputs[n - 1] in inputs[..n - 1] then 0
        else SatoshisAt(utxos, inputs[n - 1])
  }

  /** Value of the first n outputs. */
  function OutValue(outputs: seq<int>, n: nat): int
    requires n <= |outputs|
  {
    if n == 0 then 0 else OutValue(outputs, n - 1) + outputs[n - 1]
  }

  /** What a stored transaction takes from its inputs and leaves to nobody. */
  function Fee(txs: Txs, utxos: Utxos, t: Bytes): int {
    if Stands(txs, t) then
      InValue(utxos, txs[t].tx.inputs, |txs[t].tx.inputs|) - OutValue(txs[t].tx.outputs, |txs[t].tx.outputs|)
    else 0
  }

  function FeesOf(txs: Txs, utxos: Utxos): map<Bytes, int> { map t | t in txs :: Fee(txs, utxos, t) }

  ghost function UnspentTotal(utxos: Utxos): int { Sum(Unspents(utxos)) }

  ghost function UnspentValue(db: Db): int { UnspentTotal(db.utxos) }

  ghost function Fees(db: Db): int { Sum(FeesOf(db.txs, db.utxos)) }

  ghost predicate Totals(db: Db, unspent: int, fees: int) { unspent == UnspentValue(db) && fees == Fees(db) }

  /** The unspent value and the fees of stored transactions are the rewards of n blocks. */
  ghost predicate Balanced(db: Db, n: nat) {
    forall unspent, fees :: Totals(db, unspent, fees) ==> unspent + fees == 5_000_000_000 * n
  }

  lemma InsertedValue(utxos: Utxos, o: Outpoint, row: UtxoRow)
    requires o !in utxos && row.spentBy.None?
    ensures UnspentTotal(utxos[o := row]) == UnspentTotal(utxos) + row.satoshis
  {
    assert Unspents(utxos[o := row]) == Unspents(utxos)[o := row.satoshis];
    SumPut(Unspents(utxos), o, row.satoshis);
  }

  lemma SpentValue(utxos: Utxos, o: Outpoint, t: Bytes)
    requires o in utxos && utxos[o].spentBy.None?
    ensures UnspentTotal(MarkSpent(utxos, o, t)) == UnspentTotal(utxos) - utxos[o].satoshis
  {
    assert Unspents(MarkSpent(utxos, o, t)) == Unspents(utxos)[o := 0];
    SumPut(Unspents(utxos), o, 0);
  }

  lemma {:induction false} StoreValue(utxos: Utxos, txid: Bytes, outputs: seq<int>, n: nat)
    requires n <= |outputs| && forall o :: o in utxos ==> o.txid != txid
    ensures UnspentTotal(StoreOutputs(utxos, txid, outputs, n)) == UnspentTotal(utxos) + OutValue(outputs, n)
  {
    if n > 0 {
      StoreValue(utxos, txid, outputs, n - 1);
      StoredKeys(utxos, txid, outputs, n - 1);
      InsertedValue(StoreOutputs(utxos, txid, outputs, n - 1), Outpoint(txid, n - 1),
                    UtxoRow(outputs[n - 1], None, false, None));
    }
  }

  lemma {:induction false} SpendValue(utxos: Utxos, txid: Bytes, inputs: seq<Outpoint>, n: nat)
    requires n <= |inputs|
    requires forall i :: 0 <= i < |inputs| ==> inputs[i] in utxos && utxos[inputs[i]].spentBy.None?
    ensures UnspentTotal(SpendInputs(utxos, txid, inputs, n)) == UnspentTotal(utxos) - InValue(utxos, inputs, n)
  {
    if n > 0 {
      SpendValue(utxos, txid, inputs, n - 1);
      SpentRows(utxos, txid, inputs, n - 1);
      var before, o := SpendInputs(utxos, txid, inputs, n - 1), inputs[n - 1];
      if o in inputs[..n - 1] {
        assert MarkSpent(before, o, txid) == before;
      } else {
        assert SameButSpent(before[o], utxos[o]);
        SpentValue(before, o, txid);
      }
    }
  }

  lemma {:induction false} InValueSame(a: Utxos, b: Utxos, inputs: seq<Outpoint>, n: nat)
    requires n <= |inputs| && forall i :: 0 <= i < n ==> SatoshisAt(a, inputs[i]) == SatoshisAt(b, inputs[i])
    ensures InValue(a, inputs, n) == InValue(b, inputs, n)
  {
    if n > 0 {
      InValueSame(a, b, inputs, n - 1);
    }
  }

  /** A transaction's fee is the same in two states that have it, with the same values at its inputs. */
  lemma FeeSame(db: Db, after: Db, t: Bytes)
    requires Stands(db.txs, t) <==> Stands(after.txs, t)
    requires Stands(db.txs, t) ==> after.txs[t].tx == db.txs[t].tx
    requires Stands(db.txs, t) ==> forall o :: o in db.txs[t].tx.inputs ==>
               SatoshisAt(db.utxos, o) == SatoshisAt(after.utxos, o)
    ensures Fee(db.txs, db.utxos, t) == Fee(after.txs, after.utxos, t)
  {
    if Stands(db.txs, t) {
      var inputs := db.txs[t].tx.inputs;
      assert forall i :: 0 <= i < |inputs| ==> inputs[i] in inputs;
      InValueSame(db.utxos, after.utxos, inputs, |inputs|);
    }
  }

  lemma PostUnspent(db: Db, tx: Tx, txid: Bytes)
    requires OutputsBelong(db) && txid !in db.txs
    requires forall i :: 0 <= i < |tx.inputs| ==> tx.inputs[i] in db.utxos && db.utxos[tx.inputs[i]].spentBy.None?
    ensures UnspentValue(Accepted(db, tx, txid))
         == UnspentValue(db) + OutValue(tx.outputs, |tx.outputs|) - InValue(db.utxos, tx.inputs, |tx.inputs|)
  {
    var stored := StoreOutputs(db.utxos, txid, tx.outputs, |tx.outputs|);
    StoredRows(db.utxos, txid, tx.outputs, |tx.outputs|);
    StoreValue(db.utxos, txid, tx.outputs, |tx.outputs|);
    SpendValue(stored, txid, tx.inputs, |tx.inputs|);
    InValueSame(stored, db.utxos, tx.inputs, |tx.inputs|);
  }

  lemma PostValues(db: Db, tx: Tx, txid: Bytes, o: Outpoint)
    requires OutputsBelong(db) && txid !in db.txs && o in db.utxos
    ensures SatoshisAt(Accepted(db, tx, txid).utxos, o) == SatoshisAt(db.utxos, o)
  {
    var stored := StoreOutputs(db.utxos, txid, tx.outputs, |tx.outputs|);
    StoredRows(db.utxos, txid, tx.outputs, |tx.outputs|);
    SpentRows(stored, txid, tx.inputs, |tx.inputs|);
    assert SameButSpent(SpendInputs(stored, txid, tx.inputs, |tx.inputs|)[o], stored[o]);
  }

  lemma PostFees(db: Db, tx: Tx, txid: Bytes)
    requires OutputsBelong(db) && txid !in db.txs && SpendsFit(db.txs, db.utxos)
    requires forall i :: 0 <= i < |tx.inputs| ==> tx.inputs[i] in db.utxos
    ensures Fees(Accepted(db, tx, txid))
         == Fees(db) + InValue(db.utxos, tx.inputs, |tx.inputs|) - OutValue(tx.outputs, |tx.outputs|)
  {
    var after := Accepted(db, tx, txid);
    forall t | t in db.txs
      ensures Fee(db.txs, db.utxos, t) == Fee(after.txs, after.utxos, t)
    {
      forall o | Stands(db.txs, t) && o in db.txs[t].tx.inputs
        ensures SatoshisAt(db.utxos, o) == SatoshisAt(after.utxos, o)
      {
        assert Holds(db.utxos, o, t);
        PostValues(db, tx, txid, o);
      }
      FeeSame(db, after, t);
    }
    var fee := Fee(after.txs, after.utxos, txid);
    assert FeesOf(after.txs, after.utxos) == FeesOf(db.txs, db.utxos)[txid := fee];
    SumPut(FeesOf(db.txs, db.utxos), txid, fee);
    forall i | 0 <= i < |tx.inputs|
      ensures SatoshisAt(after.utxos, tx.inputs[i]) == SatoshisAt(db.utxos, tx.inputs[i])
    {
      PostValues(db, tx, txid, tx.inputs[i]);
    }
    InValueSame(after.utxos, db.utxos, tx.inputs, |tx.inputs|);
  }

  /** Accepting a transaction moves value from its inputs to its outputs and its fee. */
  lemma PostBalances(env: Env, db: Db, blocks: Blocks, high: int, current: int, tx: Tx, txid: Bytes)
    requires Sound(env, db, blocks, high) && Balanced(db, |blocks|)
    requires InputsSpendable(db, current, tx) && txid !in db.txs
    ensures Balanced(Accepted(db, tx, txid), |blocks|)
  {
    assert forall o :: o in db.utxos ==> RowFits(db.txs, o, db.utxos[o]);
    forall i | 0 <= i < |tx.inputs|
      ensures tx.inputs[i] in db.utxos && db.utxos[tx.inputs[i]].spentBy.None?
    {
      assert Spendable(db.utxos, current, tx.inputs[i]);
    }
    PostUnspent(db, tx, txid);
    PostFees(db, tx, txid);
    assert Totals(db, UnspentValue(db), Fees(db));
  }

  lemma MineUnspent(db: Db, after: Db, coinbase: Bytes, height: int, list: seq<Bytes>)
    requires MinedRows(db.utxos, after.utxos, coinbase, height, list)
    ensures UnspentValue(after) == UnspentValue(db) + COINBASE_SATOSHIS
  {
    var reward := Outpoint(coinbase, 0);
    assert Unspents(after.utxos) == Unspents(db.utxos)[reward := COINBASE_SATOSHIS];
    SumPut(Unspents(db.utxos), reward, COINBASE_SATOSHIS);
  }

  lemma MineFees(db: Db, after: Db, coinbase: Bytes, height: int, list: seq<Bytes>)
    requires Places(db.txs, after.txs, coinbase, height, list) && MineableList(db.txs, list)
    requires MinedRows(db.utxos, after.utxos, coinbase, height, list) && SpendsFit(db.txs, db.utxos)
    ensures Fees(after) == Fees(db)
  {
    forall t | t in db.txs
      ensures Fee(db.txs, db.utxos, t) == Fee(after.txs, after.utxos, t)
    {
      MiningKeepsStanding(db.txs, after.txs, coinbase, height, list, t);
      forall o | Stands(db.txs, t) && o in db.txs[t].tx.inputs
        ensures SatoshisAt(db.utxos, o) == SatoshisAt(after.utxos, o)
      {
        assert Holds(db.utxos, o, t);
      }
      FeeSame(db, after, t);
    }
    assert FeesOf(after.txs, after.utxos) == FeesOf(db.txs, db.utxos)[coinbase := 0];
    SumPut(FeesOf(db.txs, db.utxos), coinbase, 0);
  }

  lemma MineBalances(env: Env, db: Db, blocks: Blocks, high: int, list: seq<Bytes>, stamp: Bytes)
    requires Sound(env, db, blocks, high) && MineableList(db.txs, list) && Balanced(db, |blocks|)
    requires MineAt(env, db, |blocks|, HashBelow(db.headers, |blocks|), list, stamp).Ok?
    ensures Balanced(MineAt(env, db, |blocks|, HashBelow(db.headers, |blocks|), list, stamp).value, |blocks| + 1)
  {
    var h, coinbase := |blocks|, CoinbaseTxid(env, |blocks|);
    var after := MineAt(env, db, h, HashBelow(db.headers, h), list, stamp).value;
    MiningPlaces(env, db, h, HashBelow(db.headers, h), list, stamp);
    MiningSetsHeights(env, db, h, HashBelow(db.headers, h), list, stamp);
    MineUnspent(db, after, coinbase, h, list);
    MineFees(db, after, coinbase, h, list);
    assert Totals(db, UnspentValue(db), Fees(db));
  }

  lemma TearUnspent(env: Env, db: Db, blocks: Blocks, high: int)
    requires Sound(env, db, blocks, high) && |blocks| > 0 && CoinbaseUnspent(db, |blocks| - 1)
    ensures UnspentValue(db) == UnspentValue(TearBlock(db, |blocks| - 1)) + COINBASE_SATOSHIS
  {
    var h := |blocks| - 1;
    var after := TearBlock(db, h);
    assert HeaderFits(env, db.headers, blocks, h);
    TearingKeepsStanding(env, db, blocks, blocks[h][0]);
    var reward := Outpoint(blocks[h][0], 0);
    forall o
      ensures o in after.utxos <==> o in db.utxos && o != reward
      ensures o in after.utxos ==>
                after.utxos[o].spentBy == db.utxos[o].spentBy && after.utxos[o].satoshis == db.utxos[o].satoshis
    {
      TearingKeepsRows(env, db, blocks, o);
      if o in db.utxos {
        assert RowFits(db.txs, o, db.utxos[o]);
      }
    }
    assert reward in db.utxos && RowFits(db.txs, reward, db.utxos[reward]);
    assert Unspents(db.utxos) == Unspents(after.utxos)[reward := COINBASE_SATOSHIS];
    SumPut(Unspents(after.utxos), reward, COINBASE_SATOSHIS);
  }

  lemma TearFees(env: Env, db: Db, blocks: Blocks, high: int)
    requires Sound(env, db, blocks, high) && |blocks| > 0 && CoinbaseUnspent(db, |blocks| - 1)
    ensures Fees(db) == Fees(TearBlock(db, |blocks| - 1))
  {
    var h := |blocks| - 1;
    var after := TearBlock(db, h);
    assert HeaderFits(env, db.headers, blocks, h);
    TearingKeepsStanding(env, db, blocks, blocks[h][0]);
    var coinbase := blocks[h][0];
    TearingKeepsSpendsExactly(env, db, blocks);
    forall t
      ensures t in after.txs <==> t in db.txs && t != coinbase
      ensures Fee(after.txs, after.utxos, t) == Fee(db.txs, db.utxos, t)
    {
      TearingKeepsStanding(env, db, blocks, t);
      forall o | Stands(after.txs, t) && o in after.txs[t].tx.inputs
        ensures SatoshisAt(after.utxos, o) == SatoshisAt(db.utxos, o)
      {
        assert Holds(after.utxos, o, t);
        TearingKeepsRows(env, db, blocks, o);
      }
      FeeSame(after, db, t);
    }
    assert FeesOf(db.txs, db.utxos) == FeesOf(after.txs, after.utxos)[coinbase := 0];
    SumPut(FeesOf(after.txs, after.utxos), coinbase, 0);
  }

  lemma TearBalances(env: Env, db: Db, blocks: Blocks, high: int)
    requires Sound(env, db, blocks, high) && |blocks| > 0 && CoinbaseUnspent(db, |blocks| - 1) && Balanced(db, |blocks|)
    ensures Balanced(TearBlock(db, |blocks| - 1), |blocks| - 1)
  {
    TearUnspent(env, db, blocks, high);
    TearFees(env, db, blocks, high);
    assert Totals(db, UnspentValue(db), Fees(db));
  }

  // ----- Runs

  ghost predicate Good(env: Env, db: Db, blocks: Blocks, high: int) {
    Sound(env, db, blocks, high) && Balanced(db, |blocks|)
  }

  lemma TearKeepsGood(env: Env, db: Db, blocks: Blocks, high: int)
    requires Good(env, db, blocks, high) && |blocks| > 0 && CoinbaseUnspent(db, |blocks| - 1)
    ensures Good(env, TearBlock(db, |blocks| - 1), blocks[..|blocks| - 1], high)
  {
    TearKeepsSound(env, db, blocks, high);
    TearBalances(env, db, blocks, high);
  }

  /** The blocks below a height. */
  function Below(blocks: Blocks, height: int): Blocks { blocks[..Min(|blocks|, Max(0, height))] }

  lemma BelowTwice(blocks: Blocks, height: int)
    requires |blocks| > 0 && height <= |blocks| - 1
    ensures Below(blocks[..|blocks| - 1], height) == Below(blocks, height)
  {
  }

  lemma BelowAll(blocks: Blocks, height: int)
    requires height >= |blocks|
    ensures Below(blocks, height) == blocks
  {
  }

  lemma BelowNone(height: int)
    ensures Below([], height) == []
  {
  }

  /** Below height 0 tearing down changes nothing. */
  lemma {:induction false} TearDownStopsAtZero(env: Env, db: Db, blocks: Blocks, fromHeight: int, toHeight: int)
    requires Consistent(env, db, blocks) && (fromHeight == |blocks| - 1 || (fromHeight < 0 && blocks == []))
    ensures TearDown(db, fromHeight, toHeight) == TearDown(db, fromHeight, Max(0, toHeight))
    decreases fromHeight - toHeight + 1
  {
    if fromHeight >= toHeight {
      if fromHeight < 0 {
        TearNothing(env, db, blocks, fromHeight);
        TearDownStopsAtZero(env, db, blocks, fromHeight - 1, toHeight);
      } else {
        TearKeeps(env, db, blocks);
        TearDownStopsAtZero(env, TearBlock(db, fromHeight), blocks[..|blocks| - 1], fromHeight - 1, toHeight);
      }
    }
  }

  /** Tearing out a block spends no output of a block below. */
  lemma TearingKeepsUnspent(env: Env, db: Db, blocks: Blocks, h: int)
    requires Consistent(env, db, blocks) && h < |blocks| - 1 && CoinbaseUnspent(db, h)
    ensures CoinbaseUnspent(TearBlock(db, |blocks| - 1), h)
  {
    var after := TearBlock(db, |blocks| - 1);
    forall o | o in after.utxos && CoinbaseOf(after.headers, h) == Some(o.txid)
      ensures after.utxos[o].spentBy.None?
    {
      TearingKeepsRows(env, db, blocks, o);
    }
  }

  lemma {:induction false} TearDownKeepsGood(env: Env, db: Db, blocks: Blocks, high: int, toHeight: int)
    requires Good(env, db, blocks, high) && forall h :: toHeight <= h < |blocks| ==> CoinbaseUnspent(db, h)
    ensures Good(env, TearDown(db, |blocks| - 1, Max(0, toHeight)), Below(blocks, toHeight), high)
    decreases |blocks|
  {
    if |blocks| == 0 {
      BelowNone(toHeight);
    } else if |blocks| - 1 < toHeight {
      BelowAll(blocks, toHeight);
    } else {
      var next := TearBlock(db, |blocks| - 1);
      TearKeepsGood(env, db, blocks, high);
      BelowTwice(blocks, toHeight);
      forall h | toHeight <= h < |blocks| - 1
        ensures CoinbaseUnspent(next, h)
      {
        TearingKeepsUnspent(env, db, blocks, h);
      }
      TearDownKeepsGood(env, next, blocks[..|blocks| - 1], high, toHeight);
    }
  }

  lemma GoodHigher(env: Env, db: Db, blocks: Blocks, high: int, higher: int)
    requires Good(env, db, blocks, high) && high <= higher
    ensures Good(env, db, blocks, higher)
  {
  }

  lemma MineKeepsGood(env: Env, db: Db, blocks: Blocks, high: int, list: seq<Bytes>, stamp: Bytes)
    requires Good(env, db, blocks, high) && MineableList(db.txs, list) && |blocks| <= high
    requires MineAt(env, db, |blocks|, HashBelow(db.headers, |blocks|), list, stamp).Ok?
    ensures Good(env, MineAt(env, db, |blocks|, HashBelow(db.headers, |blocks|), list, stamp).value,
                 blocks + [[CoinbaseTxid(env, |blocks|)] + list], high)
  {
    MineKeepsSound(env, db, blocks, high, list, stamp);
    MineBalances(env, db, blocks, high, list, stamp);
  }

  lemma MineIthKeepsGood(env: Env, db: Db, blocks: Blocks, high: int, start: int, i: nat, numBlocks: int,
                         txidMap: seq<(Bytes, int)>, stamps: int -> Bytes)
    requires Good(env, db, blocks, high) && (start + i == |blocks| || (start < 0 && i == 0)) && i < numBlocks
    requires DistinctKeys(txidMap) && Mineable(db.txs, txidMap, i, numBlocks) && |blocks| <= high
    requires MineIth(env, db, start, i, txidMap, stamps).Ok?
    ensures start + i == |blocks| &&
            Mineable(MineIth(env, db, start, i, txidMap, stamps).value.txs, txidMap, i + 1, numBlocks)
    ensures Good(env, MineIth(env, db, start, i, txidMap, stamps).value,
                 blocks + [[CoinbaseTxid(env, |blocks|)] + Mapped(txidMap, i)], high)
  {
    MineIthKeeps(env, db, blocks, start, i, numBlocks, txidMap, stamps);
    MineKeepsGood(env, db, blocks, high, Mapped(txidMap, i), stamps(i));
  }

  lemma {:induction false} MineReorgKeepsGood(env: Env, db: Db, blocks: Blocks, high: int, start: int, i: nat,
                                              numBlocks: int,
                                              txidMap: seq<(Bytes, int)>, stamps: int -> Bytes)
    requires Good(env, db, blocks, high) && (start + i == |blocks| || (start < 0 && i == 0))
    requires DistinctKeys(txidMap) && Mineable(db.txs, txidMap, i, numBlocks)
    requires |Extended(env, blocks, i, numBlocks, txidMap)| - 1 <= high
    requires MineReorg(env, db, start, i, numBlocks, txidMap, stamps).Ok?
    ensures Good(env, MineReorg(env, db, start, i, numBlocks, txidMap, stamps).value,
                 Extended(env, blocks, i, numBlocks, txidMap), high)
    decreases numBlocks - i
  {
    if i < numBlocks {
      var more := blocks + [[CoinbaseTxid(env, |blocks|)] + Mapped(txidMap, i)];
      ExtendedGrows(env, more, i + 1, numBlocks, txidMap);
      MineReorgUnfolds(env, db, start, i, numBlocks, txidMap, stamps);
      MineIthKeepsGood(env, db, blocks, high, start, i, numBlocks, txidMap, stamps);
      MineReorgKeepsGood(env, MineIth(env, db, start, i, txidMap, stamps).value, more, high,
                         start, i + 1, numBlocks, txidMap, stamps);
    }
  }

  lemma {:induction false} ExtendedGrows(env: Env, blocks: Blocks, i: nat, numBlocks: int, txidMap: seq<(Bytes, int)>)
    ensures |Extended(env, blocks, i, numBlocks, txidMap)| >= |blocks|
    decreases numBlocks - i
  {
    if i < numBlocks {
      ExtendedGrows(env, blocks + [[CoinbaseTxid(env, |blocks|)] + Mapped(txidMap, i)], i + 1, numBlocks, txidMap);
    }
  }

  /** No reorganisation tears out a block whose coinbase output has been spent. */
  ghost predicate Careful(db: Db, op: Op) {
    op.Reorg? && op.tip.Some? ==> forall h :: op.start <= h <= op.tip.value ==> CoinbaseUnspent(db, h)
  }

  lemma HeaderCount(env: Env, headers: Headers, blocks: Blocks)
    requires Linked(env, headers, blocks)
    ensures |headers| == |blocks|
  {
    forall k
      ensures k in headers <==> 0 <= k < |blocks|
    {
      assert 0 <= k < |blocks| ==> HeaderFits(env, headers, blocks, k);
    }
    DomainSize(headers.Keys, |blocks|);
  }

  lemma ReorgKeepsGood(env: Env, db: Db, blocks: Blocks, high: int, op: Op) returns (after: Blocks)
    requires Good(env, db, blocks, high) && op.Reorg? && Legal(db, op) && Careful(db, op)
    ensures Good(env, Apply(env, db, op), after, Max(high, |after| - 1))
  {
    after := blocks;
    if Reorganised(env, db, op.tip, op.start, op.numBlocks, op.txidMap, op.stamps).Ok? {
      TipIsLastBlock(env, db.headers, blocks, op.tip);
      TearDownStopsAtZero(env, db, blocks, op.tip.value, op.start);
      TearDownKeepsGood(env, db, blocks, high, op.start);
      var kept := Below(blocks, op.start);
      var torn := TearDown(db, op.tip.value, op.start);
      after := Extended(env, kept, 0, op.numBlocks, op.txidMap);
      GoodHigher(env, torn, kept, high, Max(high, |after| - 1));
      MineReorgKeepsGood(env, torn, kept, Max(high, |after| - 1), op.start, 0, op.numBlocks, op.txidMap, op.stamps);
    } else {
      GoodHigher(env, db, blocks, high, Max(high, |after| - 1));
    }
  }

  lemma PostKeepsGood(env: Env, db: Db, blocks: Blocks, high: int, op: Op)
    requires Good(env, db, blocks, high) && op.Post? && Legal(db, op) && Careful(db, op)
    ensures Good(env, Apply(env, db, op), blocks, high)
  {
    if Acceptable(db, CurrentHeight(op.tip), op.tx, op.txid, op.scriptsVerify) {
      TipIsLastBlock(env, db.headers, blocks, op.tip);
      PostKeepsSound(env, db, blocks, high, CurrentHeight(op.tip), op.tx, op.txid);
      PostBalances(env, db, blocks, high, CurrentHeight(op.tip), op.tx, op.txid);
    }
  }

  lemma MineBlockKeepsGood(env: Env, db: Db, blocks: Blocks, high: int, op: Op) returns (after: Blocks)
    requires Good(env, db, blocks, high) && op.MineBlock? && Legal(db, op)
    ensures Good(env, Apply(env, db, op), after, Max(high, |after| - 1))
  {
    after := blocks;
    if Mine(env, db, op.tip, op.list, op.stamp).Ok? {
      MineBlockKeeps(env, db, blocks, op.tip, op.list, op.stamp);
      GoodHigher(env, db, blocks, high, Max(high, |blocks|));
      MineKeepsGood(env, db, blocks, Max(high, |blocks|), op.list, op.stamp);
      after := blocks + [[CoinbaseTxid(env, |blocks|)] + op.list];
    } else {
      GoodHigher(env, db, blocks, high, Max(high, |blocks| - 1));
    }
  }

  lemma StepKeepsGood(env: Env, db: Db, blocks: Blocks, high: int, op: Op) returns (after: Blocks)
    requires Good(env, db, blocks, high) && Legal(db, op) && Careful(db, op)
    ensures Good(env, Apply(env, db, op), after, Max(high, |after| - 1))
  {
    match op
    case Post(_, _, _, _) =>
      after := blocks;
      PostKeepsGood(env, db, blocks, high, op);
      GoodHigher(env, Apply(env, db, op), blocks, high, Max(high, |blocks| - 1));
    case MineBlock(_, _, _) => after := MineBlockKeepsGood(env, db, blocks, high, op);
    case Reorg(_, _, _, _, _) => after := ReorgKeepsGood(env, db, blocks, high, op);
  }

  ghost predicate CarefulRun(env: Env, db: Db, ops: seq<Op>)
    requires LegalRun(env, db, ops)
    decreases |ops|
  {
    ops == [] || (Careful(db, ops[0]) && CarefulRun(env, Apply(env, db, ops[0]), ops[1..]))
  }

  lemma {:induction false} RunKeepsGood(env: Env, db: Db, blocks: Blocks, high: int, ops: seq<Op>)
    returns (after: Blocks, highest: int)
    requires Good(env, db, blocks, high) && LegalRun(env, db, ops) && CarefulRun(env, db, ops)
    ensures Good(env, RunOps(env, db, ops), after, highest)
    decreases |ops|
  {
    after, highest := blocks, high;
    if ops != [] {
      var next := StepKeepsGood(env, db, blocks, high, ops[0]);
      after, highest := RunKeepsGood(env, Apply(env, db, ops[0]), next, Max(high, |next| - 1), ops[1..]);
    }
  }

  /**
   * In every run whose reorganisations tear out no block with a spent coinbase: each input of each
   * stored non-coinbase transaction is a row spent by exactly that transaction, nothing else is
   * spent, and the total unspent value is 5,000,000,000 for every block minus the fees of the
   * stored transactions.
   */
  lemma ReachableLedgerBalances(env: Env, ops: seq<Op>)
    requires LegalRun(env, EMPTY, ops) && CarefulRun(env, EMPTY, ops)
    ensures var end := RunOps(env, EMPTY, ops);
            && (forall o, t :: Stands(end.txs, t) && o in end.txs[t].tx.inputs ==> Holds(end.utxos, o, t))
            && (forall o, t :: Holds(end.utxos, o, t) ==> Stands(end.txs, t) && o in end.txs[t].tx.inputs)
            && UnspentValue(end) == 5_000_000_000 * |end.headers| - Fees(end)
  {
    EmptyIsGood(env);
    var blocks, highest := RunKeepsGood(env, EMPTY, [], -1, ops);
    var end := RunOps(env, EMPTY, ops);
    HeaderCount(env, end.headers, blocks);
    assert Totals(end, UnspentValue(end), Fees(end));
  }

  lemma EmptyIsGood(env: Env)
    ensures Good(env, EMPTY, [], -1)
  {
    assert Unspents(map[]) == map[] && FeesOf(map[], map[]) == map[];
  }

  // ----- Why the depth of 100 is enough

  /** The height of the highest tip so far, after the operation. */
  function Higher(env: Env, db: Db, op: Op, high: int): int
    requires IsTip(db.headers, op.tip)
  {
    Max(high, |Apply(env, db, op).headers| - 1)
  }

  /** Every reorganisation starts less than 100 below the highest tip so far. */
  ghost predicate ShallowRun(env: Env, db: Db, ops: seq<Op>, high: int)
    requires LegalRun(env, db, ops)
    decreases |ops|
  {
    ops == [] || (&& (ops[0].Reorg? ==> ops[0].start + COINBASE_MATURITY > high)
                  && ShallowRun(env, Apply(env, db, ops[0]), ops[1..], Higher(env, db, ops[0], high)))
  }

  lemma ShallowReorgIsCareful(env: Env, db: Db, blocks: Blocks, high: int, op: Op)
    requires Good(env, db, blocks, high) && IsTip(db.headers, op.tip)
    requires op.Reorg? ==> op.start + COINBASE_MATURITY > high
    ensures Careful(db, op)
  {
    if op.Reorg? && op.tip.Some? {
      TipIsLastBlock(env, db.headers, blocks, op.tip);
      forall h | op.start <= h <= op.tip.value
        ensures CoinbaseUnspent(db, h)
      {
        RecentCoinbaseIsUnspent(env, db, blocks, high, h);
      }
    }
  }

  /** The mock chain's maturity rule keeps every run careful whose reorganisations are shallow. */
  lemma {:induction false} ShallowRunIsCareful(env: Env, db: Db, blocks: Blocks, high: int, ops: seq<Op>)
    requires Good(env, db, blocks, high) && LegalRun(env, db, ops) && ShallowRun(env, db, ops, high)
    ensures CarefulRun(env, db, ops)
    decreases |ops|
  {
    if ops != [] {
      ShallowReorgIsCareful(env, db, blocks, high, ops[0]);
      var next := StepKeepsGood(env, db, blocks, high, ops[0]);
      HeaderCount(env, Apply(env, db, ops[0]).headers, next);
      ShallowRunIsCareful(env, Apply(env, db, ops[0]), next, Higher(env, db, ops[0], high), ops[1..]);
    }
  }
}
