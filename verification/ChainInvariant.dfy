/**
 * What every run of posting, mining and reorganising keeps of the mock chain: contiguous, linked
 * headers, block indexes, output heights, and merkle paths that prove inclusion.
 */
module ChainInvariant {
  import opened Common
  import opened Ledger
  import Tree = MerkleTree

  /** The txids of every block in order: a witness that the tables form a chain. */
  type Blocks = seq<seq<Bytes>>

  predicate At(blocks: Blocks, height: int, index: int, t: Bytes) {
    0 <= height < |blocks| && 0 <= index < |blocks[height]| && blocks[height][index] == t
  }

  /** The placed transactions are those in the blocks, each at its height and index. */
  ghost predicate Enumerates(txs: Txs, blocks: Blocks) {
    forall t, h, i :: At(blocks, h, i, t) <==> t in txs && txs[t].place == Some(Place(h, i))
  }

  function HashBelow(headers: Headers, height: int): Bytes {
    if height - 1 in headers then headers[height - 1].hash else ZERO_HASH
  }

  /** The header commits to its block, coinbase first, and to the header below. */
  predicate HeaderFits(env: Env, headers: Headers, blocks: Blocks, h: int)
    requires 0 <= h < |blocks|
  {
    && h in headers && blocks[h] != [] && blocks[h][0] == CoinbaseTxid(env, h)
    && headers[h] == NewHeader(env, h, HashBelow(headers, h), blocks[h][1..], headers[h].stamp)
  }

  ghost predicate Linked(env: Env, headers: Headers, blocks: Blocks) {
    && (forall h :: h in headers ==> 0 <= h < |blocks|)
    && (forall h :: 0 <= h < |blocks| ==> HeaderFits(env, headers, blocks, h))
  }

  predicate IsCoinbase(row: TxRow) { row.place.Some? && row.place.value.index == 0 }

  function HeightOf(row: TxRow): Option<int> {
    match row.place case None => None case Some(p) => Some(p.height)
  }

  /** The row belongs to a stored transaction and has its height. */
  predicate RowFits(txs: Txs, o: Outpoint, row: UtxoRow) {
    && o.txid in txs && row.height == HeightOf(txs[o.txid])
    && (row.isCoinbase <==> IsCoinbase(txs[o.txid]))
  }

  ghost predicate RowsFit(db: Db) { forall o :: o in db.utxos ==> RowFits(db.txs, o, db.utxos[o]) }

  ghost predicate Consistent(env: Env, db: Db, blocks: Blocks) {
    Enumerates(db.txs, blocks) && Linked(env, db.headers, blocks) && RowsFit(db)
  }

  lemma TipIsLastBlock(env: Env, headers: Headers, blocks: Blocks, tip: Option<int>)
    requires Linked(env, headers, blocks) && IsTip(headers, tip)
    ensures CurrentHeight(tip) == |blocks| - 1
  {
    if |blocks| > 0 {
      assert HeaderFits(env, headers, blocks, |blocks| - 1);
    }
  }

  // ----- Posting

  lemma {:induction false} StoredRows(utxos: Utxos, txid: Bytes, outputs: seq<int>, n: nat)
    requires n <= |outputs| && forall o :: o in utxos ==> o.txid != txid
    ensures var r := StoreOutputs(utxos, txid, outputs, n);
            && (forall o :: o in utxos ==> o in r && r[o] == utxos[o])
            && (forall o :: o in r ==> o in utxos || (o.txid == txid && 0 <= o.vout < n))
            && (forall v :: 0 <= v < n ==>
                Outpoint(txid, v) in r && r[Outpoint(txid, v)] == UtxoRow(outputs[v], None, false, None))
            && (forall o :: o in r && o !in utxos ==> r[o].spentBy.None? && !r[o].isCoinbase && r[o].height.None?)
  {
    if n > 0 {
      StoredRows(utxos, txid, outputs, n - 1);
    }
  }

  /** Marking outputs spent changes nothing but who spends them. */
  predicate SameButSpent(a: UtxoRow, b: UtxoRow) {
    a.satoshis == b.satoshis && a.isCoinbase == b.isCoinbase && a.height == b.height
  }

  lemma {:induction false} SpentRows(utxos: Utxos, txid: Bytes, inputs: seq<Outpoint>, n: nat)
    requires n <= |inputs|
    ensures var r := SpendInputs(utxos, txid, inputs, n);
            && r.Keys == utxos.Keys
            && (forall o :: o in utxos ==> SameButSpent(r[o], utxos[o]))
            && (forall o :: o in utxos ==> r[o].spentBy == if o in inputs[..n] then Some(txid) else utxos[o].spentBy)
  {
    if n > 0 {
      SpentRows(utxos, txid, inputs, n - 1);
      assert inputs[..n] == inputs[..n - 1] + [inputs[n - 1]];
    }
  }

  lemma PostKeepsRows(db: Db, tx: Tx, txid: Bytes)
    requires RowsFit(db) && txid !in db.txs
    ensures RowsFit(Accepted(db, tx, txid))
  {
    var stored := StoreOutputs(db.utxos, txid, tx.outputs, |tx.outputs|);
    assert forall o :: o in db.utxos ==> RowFits(db.txs, o, db.utxos[o]);
    StoredRows(db.utxos, txid, tx.outputs, |tx.outputs|);
    SpentRows(stored, txid, tx.inputs, |tx.inputs|);
    var after := Accepted(db, tx, txid);
    forall o | o in after.utxos
      ensures RowFits(after.txs, o, after.utxos[o])
    {
      assert SameButSpent(after.utxos[o], stored[o]);
      if o in db.utxos {
        assert RowFits(db.txs, o, db.utxos[o]);
      } else {
        assert stored[Outpoint(txid, o.vout)] == UtxoRow(tx.outputs[o.vout], None, false, None);
      }
    }
  }

  lemma PostKeeps(env: Env, db: Db, blocks: Blocks, tx: Tx, txid: Bytes)
    requires Consistent(env, db, blocks) && txid !in db.txs
    ensures Consistent(env, Accepted(db, tx, txid), blocks)
  {
    PostKeepsRows(db, tx, txid);
    var after := Accepted(db, tx, txid).txs;
    forall t, h, i
      ensures At(blocks, h, i, t) <==> t in after && after[t].place == Some(Place(h, i))
    {
      assert At(blocks, h, i, t) <==> t in db.txs && db.txs[t].place == Some(Place(h, i));
    }
  }

  // ----- Mining

  /** The listed transactions get consecutive indexes; the others keep their rows. */
  lemma {:induction false} PlacedRows(txs: Txs, height: int, list: seq<Bytes>, n: nat)
    requires n <= |list| && NoDuplicates(list) && forall j :: 0 <= j < |list| ==> list[j] in txs
    ensures var r := PlaceTxs(txs, height, list, n);
            && r.Keys == txs.Keys
            && (forall j :: 0 <= j < n ==> r[list[j]] == txs[list[j]].(place := Some(Place(height, j + 1))))
            && (forall t :: t in txs && t !in list[..n] ==> r[t] == txs[t])
  {
    if n > 0 {
      PlacedRows(txs, height, list, n - 1);
      assert list[..n] == list[..n - 1] + [list[n - 1]];
      assert forall j :: 0 <= j < n - 1 ==> list[..n - 1][j] == list[j];
    }
  }

  lemma {:induction false} HeightRows(utxos: Utxos, height: int, list: seq<Bytes>, n: nat)
    requires n <= |list|
    ensures var r := SetHeights(utxos, height, list, n);
            && r.Keys == utxos.Keys
            && (forall o :: o in utxos ==> r[o] == if o.txid in list[..n] then utxos[o].(height := Some(height))
                else utxos[o])
  {
    if n > 0 {
      HeightRows(utxos, height, list, n - 1);
      assert list[..n] == list[..n - 1] + [list[n - 1]];
    }
  }

  /** Transactions that may be put into a new block: stored and unmined, each once. */
  ghost predicate MineableList(txs: Txs, list: seq<Bytes>) {
    NoDuplicates(list) && forall j :: 0 <= j < |list| ==> list[j] in txs && txs[list[j]].place.None?
  }

  /** The tables of transactions before and after mining a block with the given list. */
  ghost predicate Places(txs: Txs, after: Txs, coinbase: Bytes, height: int, list: seq<Bytes>) {
    && (forall t :: t in after <==> t in txs || t == coinbase)
    && coinbase !in txs && after[coinbase] == TxRow(COINBASE, Some(Place(height, 0)))
    && (forall j :: 0 <= j < |list| ==>
        list[j] in txs && after[list[j]] == txs[list[j]].(place := Some(Place(height, j + 1))))
    && (forall t :: t in txs && t !in list ==> after[t] == txs[t])
  }

  lemma MiningPlaces(env: Env, db: Db, height: int, previousHash: Bytes, list: seq<Bytes>, stamp: Bytes)
    requires MineableList(db.txs, list) && MineAt(env, db, height, previousHash, list, stamp).Ok?
    ensures Places(db.txs, MineAt(env, db, height, previousHash, list, stamp).value.txs, CoinbaseTxid(env, height),
                   height, list)
  {
    var coinbase := CoinbaseTxid(env, height);
    var txs := db.txs[coinbase := TxRow(COINBASE, Some(Place(height, 0)))];
    PlacedRows(txs, height, list, |list|);
    assert list[..|list|] == list;
    assert coinbase !in list;
  }

  lemma PlacesEnumerates(txs: Txs, after: Txs, blocks: Blocks, coinbase: Bytes, list: seq<Bytes>)
    requires Enumerates(txs, blocks) && Places(txs, after, coinbase, |blocks|, list) && MineableList(txs, list)
    ensures Enumerates(after, blocks + [[coinbase] + list])
  {
    var block := [coinbase] + list;
    var more := blocks + [block];
    forall t, h, i
      ensures At(more, h, i, t) <==> t in after && after[t].place == Some(Place(h, i))
    {
      assert h < |blocks| ==> (At(more, h, i, t) <==> At(blocks, h, i, t));
      assert At(blocks, h, i, t) <==> t in txs && txs[t].place == Some(Place(h, i));
      if t in list {
        var j :| 0 <= j < |list| && list[j] == t;
        assert block[j + 1] == t;
      }
      if h == |blocks| && 0 < i < |block| {
        assert block[i] == list[i - 1];
      }
    }
  }

  lemma PlacesRows(db: Db, utxos: Utxos, after: Txs, coinbase: Bytes, height: int, list: seq<Bytes>)
    requires RowsFit(db) && Places(db.txs, after, coinbase, height, list)
    requires forall o :: o in db.utxos ==>
               o in utxos && utxos[o] == if o.txid in list then db.utxos[o].(height := Some(height)) else db.utxos[o]
    requires forall o :: o in utxos ==>
               o in db.utxos || (o.txid == coinbase && utxos[o].isCoinbase && utxos[o].height == Some(height))
    requires MineableList(db.txs, list)
    ensures RowsFit(Db(db.headers, after, utxos))
  {
    forall o | o in utxos
      ensures RowFits(after, o, utxos[o])
    {
      if o in db.utxos {
        assert RowFits(db.txs, o, db.utxos[o]);
        if o.txid in list {
          var j :| 0 <= j < |list| && list[j] == o.txid;
        }
      }
    }
  }

  lemma MiningSetsHeights(env: Env, db: Db, height: int, previousHash: Bytes, list: seq<Bytes>, stamp: Bytes)
    requires MineAt(env, db, height, previousHash, list, stamp).Ok?
    requires CoinbaseTxid(env, height) !in list
    ensures var coinbase := CoinbaseTxid(env, height);
            var utxos := MineAt(env, db, height, previousHash, list, stamp).value.utxos;
            && Outpoint(coinbase, 0) !in db.utxos && utxos.Keys == db.utxos.Keys + {Outpoint(coinbase, 0)}
            && (forall o :: o in db.utxos ==> utxos[o] == if o.txid in list then db.utxos[o].(height := Some(height))
                else db.utxos[o])
            && utxos[Outpoint(coinbase, 0)] == UtxoRow(COINBASE_SATOSHIS, None, true, Some(height))
  {
    var coinbase := CoinbaseTxid(env, height);
    var with := db.utxos[Outpoint(coinbase, 0) := UtxoRow(COINBASE_SATOSHIS, None, true, Some(height))];
    HeightRows(with, height, list, |list|);
    assert list[..|list|] == list;
  }

  lemma MiningLinks(env: Env, headers: Headers, blocks: Blocks, list: seq<Bytes>, stamp: Bytes)
    requires Linked(env, headers, blocks)
    ensures var h := |blocks|;
            var header := NewHeader(env, h, HashBelow(headers, h), list, stamp);
            Linked(env, headers[h := header], blocks + [[header.coinbaseTxid] + list])
  {
    var n := |blocks|;
    var header := NewHeader(env, n, HashBelow(headers, n), list, stamp);
    var after, more := headers[n := header], blocks + [[header.coinbaseTxid] + list];
    forall h | 0 <= h < |more|
      ensures HeaderFits(env, after, more, h)
    {
      if h < n {
        assert HeaderFits(env, headers, blocks, h);
        assert HashBelow(after, h) == HashBelow(headers, h);
      } else {
        assert more[h][1..] == list;
        assert HashBelow(after, h) == HashBelow(headers, h);
      }
    }
  }

  lemma MineKeeps(env: Env, db: Db, blocks: Blocks, list: seq<Bytes>, stamp: Bytes)
    requires Consistent(env, db, blocks) && MineableList(db.txs, list)
    requires MineAt(env, db, |blocks|, HashBelow(db.headers, |blocks|), list, stamp).Ok?
    ensures Consistent(env, MineAt(env, db, |blocks|, HashBelow(db.headers, |blocks|), list, stamp).value,
                       blocks + [[CoinbaseTxid(env, |blocks|)] + list])
  {
    var h, coinbase := |blocks|, CoinbaseTxid(env, |blocks|);
    var after := MineAt(env, db, h, HashBelow(db.headers, h), list, stamp).value;
    MiningPlaces(env, db, h, HashBelow(db.headers, h), list, stamp);
    MiningSetsHeights(env, db, h, HashBelow(db.headers, h), list, stamp);
    PlacesEnumerates(db.txs, after.txs, blocks, coinbase, list);
    PlacesRows(db, after.utxos, after.txs, coinbase, h, list);
    MiningLinks(env, db.headers, blocks, list, stamp);
  }

  // ----- Tearing down

  /** The top block's transactions are the torn ones; its coinbase is the one deleted. */
  lemma TearEnumerates(env: Env, db: Db, blocks: Blocks)
    requires Enumerates(db.txs, blocks) && Linked(env, db.headers, blocks) && |blocks| > 0
    ensures var h := |blocks| - 1;
            blocks[h] != [] && CoinbaseOf(db.headers, h) == Some(blocks[h][0]) &&
                Enumerates(TearBlock(db, h).txs, blocks[..h])
  {
    var h := |blocks| - 1;
    assert HeaderFits(env, db.headers, blocks, h);
    var fewer, after := blocks[..h], TearBlock(db, h).txs;
    assert At(blocks, h, 0, blocks[h][0]);
    forall t, k, i
      ensures At(fewer, k, i, t) <==> t in after && after[t].place == Some(Place(k, i))
    {
      assert At(fewer, k, i, t) <==> k < h && At(blocks, k, i, t);
      assert At(blocks, k, i, t) <==> t in db.txs && db.txs[t].place == Some(Place(k, i));
      if t in db.txs && db.txs[t].place.Some? {
        assert At(blocks, db.txs[t].place.value.height, db.txs[t].place.value.index, t);
      }
    }
  }

  lemma TearLinks(env: Env, headers: Headers, blocks: Blocks)
    requires Linked(env, headers, blocks) && |blocks| > 0
    ensures Linked(env, headers - {|blocks| - 1}, blocks[..|blocks| - 1])
  {
    var n := |blocks| - 1;
    var after, fewer := headers - {n}, blocks[..n];
    forall h | 0 <= h < n
      ensures HeaderFits(env, after, fewer, h)
    {
      assert HeaderFits(env, headers, blocks, h);
      assert HashBelow(after, h) == HashBelow(headers, h);
    }
  }

  lemma TearRows(db: Db, h: int)
    requires RowsFit(db)
    requires forall t :: t in db.txs && MinedAt(db.txs[t], h) && IsCoinbase(db.txs[t]) ==>
               CoinbaseOf(db.headers, h) == Some(t)
    ensures RowsFit(TearBlock(db, h))
  {
    var after := TearBlock(db, h);
    forall o | o in after.utxos
      ensures RowFits(after.txs, o, after.utxos[o])
    {
      assert RowFits(db.txs, o, db.utxos[o]);
    }
  }

  lemma TearKeeps(env: Env, db: Db, blocks: Blocks)
    requires Consistent(env, db, blocks) && |blocks| > 0
    ensures Consistent(env, TearBlock(db, |blocks| - 1), blocks[..|blocks| - 1])
  {
    var h := |blocks| - 1;
    TearEnumerates(env, db, blocks);
    TearLinks(env, db.headers, blocks);
    forall t | t in db.txs && MinedAt(db.txs[t], h) && IsCoinbase(db.txs[t])
      ensures CoinbaseOf(db.headers, h) == Some(t)
    {
      assert At(blocks, h, 0, t);
    }
    TearRows(db, h);
  }

  /** Below height 0 there is nothing to tear down. */
  lemma TearNothing(env: Env, db: Db, blocks: Blocks, h: int)
    requires Consistent(env, db, blocks) && h < 0
    ensures TearBlock(db, h) == db
  {
    forall t | t in db.txs
      ensures !MinedAt(db.txs[t], h)
    {
      if db.txs[t].place.Some? {
        assert At(blocks, db.txs[t].place.value.height, db.txs[t].place.value.index, t);
      }
    }
    assert InBlock(db.txs, h) == {};
    assert TearTxs(db.txs, {}, CoinbaseOf(db.headers, h)) == db.txs;
    assert TearUtxos(db.utxos, {}, CoinbaseOf(db.headers, h)) == db.utxos;
    assert db.headers - {h} == db.headers;
  }

  /** Tearing down from the tip to a height leaves the blocks below it. */
  lemma {:induction false} TearDownKeeps(env: Env, db: Db, blocks: Blocks, fromHeight: int, toHeight: int)
    requires Consistent(env, db, blocks) && (fromHeight == |blocks| - 1 || (fromHeight < 0 && blocks == []))
    ensures Consistent(env, TearDown(db, fromHeight, toHeight), blocks[..Min(|blocks|, Max(0, toHeight))])
    decreases fromHeight - toHeight + 1
  {
    if fromHeight < toHeight {
      assert blocks[..|blocks|] == blocks;
    } else if fromHeight < 0 {
      TearNothing(env, db, blocks, fromHeight);
      TearDownKeeps(env, db, blocks, fromHeight - 1, toHeight);
    } else {
      TearKeeps(env, db, blocks);
      var fewer := blocks[..|blocks| - 1];
      TearDownKeeps(env, TearBlock(db, fromHeight), fewer, fromHeight - 1, toHeight);
      assert fewer[..Min(|fewer|, Max(0, toHeight))] == blocks[..Min(|blocks|, Max(0, toHeight))];
    }
  }

  // ----- Reorganising

  /** An object's keys are distinct. */
  predicate DistinctKeys(txidMap: seq<(Bytes, int)>) {
    forall i, j :: 0 <= i < j < |txidMap| ==> txidMap[i].0 != txidMap[j].0
  }

  /** The transactions mapped to blocks from the i-th on are stored and unmined. */
  ghost predicate Mineable(txs: Txs, txidMap: seq<(Bytes, int)>, i: int, numBlocks: int) {
    forall k :: 0 <= k < |txidMap| && i <= txidMap[k].1 < numBlocks ==>
                  txidMap[k].0 in txs && txs[txidMap[k].0].place.None?
  }

  /** Some entry maps the txid to block i. */
  predicate Maps(txidMap: seq<(Bytes, int)>, t: Bytes, i: int) {
    exists k :: 0 <= k < |txidMap| && txidMap[k] == (t, i)
  }

  lemma MapsCons(txidMap: seq<(Bytes, int)>, t: Bytes, i: int)
    requires txidMap != []
    ensures Maps(txidMap, t, i) <==> txidMap[0] == (t, i) || Maps(txidMap[1..], t, i)
  {
    if k :| 0 < k < |txidMap| && txidMap[k] == (t, i) {
      assert txidMap[1..][k - 1] == (t, i);
    }
    if k :| 0 <= k < |txidMap[1..]| && txidMap[1..][k] == (t, i) {
      assert txidMap[k + 1] == (t, i);
    }
  }

  lemma {:induction false} MappedMembers(txidMap: seq<(Bytes, int)>, i: int)
    requires DistinctKeys(txidMap)
    ensures NoDuplicates(Mapped(txidMap, i))
    ensures forall t :: t in Mapped(txidMap, i) <==> Maps(txidMap, t, i)
  {
    if txidMap != [] {
      var rest := Mapped(txidMap[1..], i);
      MappedMembers(txidMap[1..], i);
      forall t
        ensures t in Mapped(txidMap, i) <==> Maps(txidMap, t, i)
      {
        MapsCons(txidMap, t, i);
      }
      assert txidMap[0].0 !in rest by {
        assert forall k :: 0 <= k < |txidMap[1..]| ==> txidMap[1..][k] == txidMap[k + 1];
        assert !Maps(txidMap[1..], txidMap[0].0, i);
      }
      assert forall j :: 0 <= j < |rest| ==> rest[j] in rest;
    }
  }

  lemma MappedAreMineable(txs: Txs, txidMap: seq<(Bytes, int)>, i: nat, numBlocks: int)
    requires DistinctKeys(txidMap) && Mineable(txs, txidMap, i, numBlocks) && i < numBlocks
    ensures MineableList(txs, Mapped(txidMap, i))
  {
    MappedMembers(txidMap, i);
    var list := Mapped(txidMap, i);
    forall j | 0 <= j < |list|
      ensures list[j] in txs && txs[list[j]].place.None?
    {
      var t := list[j];
      assert t in list;
      var k :| 0 <= k < |txidMap| && txidMap[k] == (t, i);
      assert txidMap[k].0 == t;
    }
  }

  lemma LaterStayMineable(txs: Txs, after: Txs, coinbase: Bytes, height: int, txidMap: seq<(Bytes, int)>, i: nat,
                          numBlocks: int)
    requires DistinctKeys(txidMap) && Mineable(txs, txidMap, i, numBlocks)
    requires Places(txs, after, coinbase, height, Mapped(txidMap, i))
    ensures Mineable(after, txidMap, i + 1, numBlocks)
  {
    MappedMembers(txidMap, i);
    forall k | 0 <= k < |txidMap| && i + 1 <= txidMap[k].1 < numBlocks
      ensures txidMap[k].0 in after && after[txidMap[k].0].place.None?
    {
      var t := txidMap[k].0;
      assert t in txs && txs[t].place.None?;
      assert forall j :: 0 <= j < |txidMap| && txidMap[j].1 == i ==> txidMap[j].0 != t;
      assert t !in Mapped(txidMap, i);
    }
  }

  lemma PreviousHashIsBelow(env: Env, headers: Headers, blocks: Blocks, height: int)
    requires Linked(env, headers, blocks) && height <= |blocks| && PreviousHash(headers, height).Ok?
    requires height == |blocks| || height < 0
    ensures height == |blocks| && PreviousHash(headers, height) == Ok(HashBelow(headers, height))
  {
    if height > 0 {
      assert HeaderFits(env, headers, blocks, height - 1);
    }
  }

  /** The blocks after mining the reorganised chain from its i-th block on. */
  function Extended(env: Env, blocks: Blocks, i: nat, numBlocks: int, txidMap: seq<(Bytes, int)>): Blocks
    decreases numBlocks - i
  {
    if i >= numBlocks then blocks
    else Extended(env, blocks + [[CoinbaseTxid(env, |blocks|)] + Mapped(txidMap, i)], i + 1, numBlocks, txidMap)
  }

  lemma MineNextKeeps(env: Env, db: Db, blocks: Blocks, height: int, list: seq<Bytes>, stamp: Bytes)
    requires Consistent(env, db, blocks) && (height == |blocks| || height < 0)
    requires MineableList(db.txs, list) && MineNext(env, db, height, list, stamp).Ok?
    ensures height == |blocks|
    ensures Consistent(env, MineNext(env, db, height, list, stamp).value, blocks + [[CoinbaseTxid(env, height)] + list])
    ensures Places(db.txs, MineNext(env, db, height, list, stamp).value.txs, CoinbaseTxid(env, height), height, list)
    ensures MineNext(env, db, height, list, stamp) ==
            MineAt(env, db, height, HashBelow(db.headers, height), list, stamp)
  {
    PreviousHashIsBelow(env, db.headers, blocks, height);
    MineKeeps(env, db, blocks, list, stamp);
    MiningPlaces(env, db, height, HashBelow(db.headers, height), list, stamp);
  }

  /** One block of the reorganised chain. */
  function MineIth(env: Env, db: Db, start: int, i: nat, txidMap: seq<(Bytes, int)>, stamps: int -> Bytes): Result<Db> {
    MineNext(env, db, start + i, Mapped(txidMap, i), stamps(i))
  }

  lemma MineReorgUnfolds(env: Env, db: Db, start: int, i: nat, numBlocks: int, txidMap: seq<(Bytes, int)>,
                         stamps: int -> Bytes)
    requires i < numBlocks && MineReorg(env, db, start, i, numBlocks, txidMap, stamps).Ok?
    ensures MineIth(env, db, start, i, txidMap, stamps).Ok?
    ensures MineReorg(env, db, start, i, numBlocks, txidMap, stamps)
         == MineReorg(env, MineIth(env, db, start, i, txidMap, stamps).value, start, i + 1, numBlocks, txidMap, stamps)
  {
  }

  lemma MineIthKeeps(env: Env, db: Db, blocks: Blocks, start: int, i: nat, numBlocks: int, txidMap: seq<(Bytes, int)>,
                     stamps: int -> Bytes)
    requires Consistent(env, db, blocks) && (start + i == |blocks| || (start < 0 && i == 0)) && i < numBlocks
    requires DistinctKeys(txidMap) && Mineable(db.txs, txidMap, i, numBlocks)
    requires MineIth(env, db, start, i, txidMap, stamps).Ok?
    ensures start + i == |blocks| && MineableList(db.txs, Mapped(txidMap, i))
    ensures MineIth(env, db, start, i, txidMap, stamps)
         == MineAt(env, db, |blocks|, HashBelow(db.headers, |blocks|), Mapped(txidMap, i), stamps(i))
    ensures var next := MineIth(env, db, start, i, txidMap, stamps).value;
            && Consistent(env, next, blocks + [[CoinbaseTxid(env, |blocks|)] + Mapped(txidMap, i)])
            && Mineable(next.txs, txidMap, i + 1, numBlocks)
  {
    var height, list := start + i, Mapped(txidMap, i);
    MappedAreMineable(db.txs, txidMap, i, numBlocks);
    MineNextKeeps(env, db, blocks, height, list, stamps(i));
    LaterStayMineable(db.txs, MineIth(env, db, start, i, txidMap, stamps).value.txs, CoinbaseTxid(env, height), height,
                      txidMap, i, numBlocks);
  }

  lemma {:induction false} MineReorgKeeps(env: Env, db: Db, blocks: Blocks, start: int, i: nat, numBlocks: int,
                                          txidMap: seq<(Bytes, int)>, stamps: int -> Bytes)
    requires Consistent(env, db, blocks) && (start + i == |blocks| || (start < 0 && i == 0))
    requires DistinctKeys(txidMap) && Mineable(db.txs, txidMap, i, numBlocks)
    requires MineReorg(env, db, start, i, numBlocks, txidMap, stamps).Ok?
    ensures Consistent(env, MineReorg(env, db, start, i, numBlocks, txidMap, stamps).value,
                       Extended(env, blocks, i, numBlocks, txidMap))
    decreases numBlocks - i
  {
    if i < numBlocks {
      MineReorgUnfolds(env, db, start, i, numBlocks, txidMap, stamps);
      MineIthKeeps(env, db, blocks, start, i, numBlocks, txidMap, stamps);
      MineReorgKeeps(env, MineIth(env, db, start, i, txidMap, stamps).value,
                     blocks + [[CoinbaseTxid(env, |blocks|)] + Mapped(txidMap, i)], start, i + 1, numBlocks, txidMap,
                         stamps);
    }
  }

  /** The new block's keys are free: its coinbase, its height and its hash. */
  ghost predicate NoClash(env: Env, db: Db, height: int, list: seq<Bytes>, stamp: Bytes) {
    var header := NewHeader(env, height, HashBelow(db.headers, height), list, stamp);
    && header.coinbaseTxid !in db.txs && Outpoint(header.coinbaseTxid, 0) !in db.utxos
    && height !in db.headers && forall k :: k in db.headers ==> db.headers[k].hash != header.hash
  }

  lemma MineNextSucceedsExactly(env: Env, db: Db, blocks: Blocks, list: seq<Bytes>, stamp: Bytes)
    requires Consistent(env, db, blocks)
    ensures MineNext(env, db, |blocks|, list, stamp).Ok? <==> NoClash(env, db, |blocks|, list, stamp)
  {
    if blocks != [] {
      assert HeaderFits(env, db.headers, blocks, |blocks| - 1);
    }
  }

  /** On a consistent chain mining is refused exactly when a key of the new block is in use. */
  lemma MinesExactly(env: Env, db: Db, blocks: Blocks, tip: Option<int>, list: seq<Bytes>, stamp: Bytes)
    requires Consistent(env, db, blocks) && IsTip(db.headers, tip)
    ensures Mine(env, db, tip, list, stamp).Ok? <==> NoClash(env, db, |blocks|, list, stamp)
  {
    TipIsLastBlock(env, db.headers, blocks, tip);
    MineNextSucceedsExactly(env, db, blocks, list, stamp);
    if blocks == [] {
      NoHeaderBelowZero(env, db, blocks, -1);
    }
  }

  /** No block of the new chain, from the i-th on, meets a key in use when it is mined. */
  ghost predicate ClashFree(env: Env, db: Db, start: int, i: nat, numBlocks: int, txidMap: seq<(Bytes, int)>,
                            stamps: int -> Bytes)
    decreases numBlocks - i
  {
    i < numBlocks ==>
      && NoClash(env, db, start + i, Mapped(txidMap, i), stamps(i))
      && var next := MineIth(env, db, start, i, txidMap, stamps);
         next.Ok? ==> ClashFree(env, next.value, start, i + 1, numBlocks, txidMap, stamps)
  }

  lemma {:induction false} MineReorgSucceedsExactly(env: Env, db: Db, blocks: Blocks, start: int, i: nat,
                                                    numBlocks: int,
                                                    txidMap: seq<(Bytes, int)>, stamps: int -> Bytes)
    requires Consistent(env, db, blocks) && start + i == |blocks|
    requires DistinctKeys(txidMap) && Mineable(db.txs, txidMap, i, numBlocks)
    ensures MineReorg(env, db, start, i, numBlocks, txidMap, stamps).Ok?
       <==> ClashFree(env, db, start, i, numBlocks, txidMap, stamps)
    decreases numBlocks - i
  {
    if i < numBlocks {
      MineNextSucceedsExactly(env, db, blocks, Mapped(txidMap, i), stamps(i));
      if MineIth(env, db, start, i, txidMap, stamps).Ok? {
        MineIthKeeps(env, db, blocks, start, i, numBlocks, txidMap, stamps);
        MineReorgSucceedsExactly(env, MineIth(env, db, start, i, txidMap, stamps).value,
                                 blocks + [[CoinbaseTxid(env, |blocks|)] + Mapped(txidMap, i)], start, i + 1, numBlocks,
                                 txidMap, stamps);
      }
    }
  }

  /**
   * A reorganisation of a consistent chain goes through exactly when it starts at or below the tip,
   * and, if it mines at all, not below 0 and with every new block's keys free.
   */
  lemma ReorgSucceedsExactly(env: Env, db: Db, blocks: Blocks, op: Op)
    requires Consistent(env, db, blocks) && op.Reorg? && Legal(db, op)
    ensures Reorganised(env, db, op.tip, op.start, op.numBlocks, op.txidMap, op.stamps).Ok? <==>
              && op.tip.Some? && op.start <= op.tip.value
              && (op.numBlocks > 0 ==>
                    0 <= op.start && ClashFree(env, TearDown(db, op.tip.value, op.start), op.start, 0, op.numBlocks,
                                               op.txidMap, op.stamps))
  {
    if op.tip.Some? && op.start <= op.tip.value && op.numBlocks > 0 {
      TipIsLastBlock(env, db.headers, blocks, op.tip);
      TearDownKeeps(env, db, blocks, op.tip.value, op.start);
      var kept := blocks[..Min(|blocks|, Max(0, op.start))];
      var torn := TearDown(db, op.tip.value, op.start);
      if 0 <= op.start {
        MineReorgSucceedsExactly(env, torn, kept, op.start, 0, op.numBlocks, op.txidMap, op.stamps);
      } else {
        NoHeaderBelowZero(env, torn, kept, op.start - 1);
      }
    }
  }

  lemma NoHeaderBelowZero(env: Env, db: Db, blocks: Blocks, height: int)
    requires Consistent(env, db, blocks) && height < 0
    ensures height !in db.headers
  {
  }

  /** How many of the first k entries are mapped to block i. */
  function MappedBefore(txidMap: seq<(Bytes, int)>, k: nat, i: int): nat
    requires k <= |txidMap|
  {
    if k == 0 then 0 else MappedBefore(txidMap, k - 1, i) + if txidMap[k - 1].1 == i then 1 else 0
  }

  lemma {:induction false} MappedBeforeCons(txidMap: seq<(Bytes, int)>, k: nat, i: int)
    requires 0 < k <= |txidMap|
    ensures MappedBefore(txidMap, k, i) == MappedBefore(txidMap[1..], k - 1, i) + if txidMap[0].1 == i then 1 else 0
  {
    if k > 1 {
      MappedBeforeCons(txidMap, k - 1, i);
    }
  }

  lemma {:induction false} MappedCount(txidMap: seq<(Bytes, int)>, i: int)
    ensures |Mapped(txidMap, i)| == MappedBefore(txidMap, |txidMap|, i)
  {
    if txidMap != [] {
      MappedCount(txidMap[1..], i);
      MappedBeforeCons(txidMap, |txidMap|, i);
    }
  }

  /** The transactions mapped to a block are listed in the order of the map. */
  lemma {:induction false} MappedInOrder(txidMap: seq<(Bytes, int)>, k: nat)
    requires k < |txidMap|
    ensures var i := txidMap[k].1;
            && MappedBefore(txidMap, k, i) < |Mapped(txidMap, i)|
            && Mapped(txidMap, i)[MappedBefore(txidMap, k, i)] == txidMap[k].0
  {
    if k > 0 {
      MappedInOrder(txidMap[1..], k - 1);
      MappedBeforeCons(txidMap, k, txidMap[k].1);
    }
  }

  lemma {:induction false} ExtendedBlock(env: Env, blocks: Blocks, i: nat, numBlocks: int, txidMap: seq<(Bytes, int)>,
                                         j: nat)
    requires i <= j < numBlocks
    ensures var after := Extended(env, blocks, i, numBlocks, txidMap);
            && blocks <= after && |after| == |blocks| + numBlocks - i
            && after[|blocks| + j - i] == [CoinbaseTxid(env, |blocks| + j - i)] + Mapped(txidMap, j)
    decreases numBlocks - i
  {
    var more := blocks + [[CoinbaseTxid(env, |blocks|)] + Mapped(txidMap, i)];
    if i + 1 < numBlocks {
      ExtendedBlock(env, more, i + 1, numBlocks, txidMap, if i < j then j else j + 1);
    }
  }

  lemma ReorgExtends(env: Env, db: Db, blocks: Blocks, op: Op) returns (kept: Blocks)
    requires Consistent(env, db, blocks) && op.Reorg? && Legal(db, op) && 0 < op.numBlocks
    requires Reorganised(env, db, op.tip, op.start, op.numBlocks, op.txidMap, op.stamps).Ok?
    ensures |kept| == op.start
    ensures Consistent(env, Apply(env, db, op), Extended(env, kept, 0, op.numBlocks, op.txidMap))
  {
    TipIsLastBlock(env, db.headers, blocks, op.tip);
    TearDownKeeps(env, db, blocks, op.tip.value, op.start);
    kept := blocks[..Min(|blocks|, Max(0, op.start))];
    var torn := TearDown(db, op.tip.value, op.start);
    MineReorgKeeps(env, torn, kept, op.start, 0, op.numBlocks, op.txidMap, op.stamps);
    MineIthKeeps(env, torn, kept, op.start, 0, op.numBlocks, op.txidMap, op.stamps);
  }

  lemma AtMeansPlaced(env: Env, db: Db, blocks: Blocks, height: int, index: int, t: Bytes)
    requires Consistent(env, db, blocks) && At(blocks, height, index, t)
    ensures t in db.txs && db.txs[t].place == Some(Place(height, index))
  {
  }

  lemma MappedAt(env: Env, blocks: Blocks, numBlocks: int, txidMap: seq<(Bytes, int)>, k: nat)
    requires k < |txidMap| && 0 <= txidMap[k].1 < numBlocks
    ensures At(Extended(env, blocks, 0, numBlocks, txidMap), |blocks| + txidMap[k].1,
               1 + MappedBefore(txidMap, k, txidMap[k].1), txidMap[k].0)
  {
    ExtendedBlock(env, blocks, 0, numBlocks, txidMap, txidMap[k].1);
    MappedInOrder(txidMap, k);
  }

  /**
   * After a successful reorganisation each mapped transaction is mined in the new block it is mapped
   * to, behind the coinbase and the earlier entries of the map for that block.
   */
  lemma ReorgPlacesInOrder(env: Env, db: Db, blocks: Blocks, op: Op, k: nat)
    requires Consistent(env, db, blocks) && op.Reorg? && Legal(db, op)
    requires Reorganised(env, db, op.tip, op.start, op.numBlocks, op.txidMap, op.stamps).Ok?
    requires k < |op.txidMap| && 0 <= op.txidMap[k].1 < op.numBlocks
    ensures var after, entry := Apply(env, db, op).txs, op.txidMap[k];
            entry.0 in after
            && after[entry.0].place == Some(Place(op.start + entry.1, 1 + MappedBefore(op.txidMap, k, entry.1)))
  {
    var kept := ReorgExtends(env, db, blocks, op);
    MappedAt(env, kept, op.numBlocks, op.txidMap, k);
    AtMeansPlaced(env, Apply(env, db, op), Extended(env, kept, 0, op.numBlocks, op.txidMap), op.start + op.txidMap[k].1,
                  1 + MappedBefore(op.txidMap, k, op.txidMap[k].1), op.txidMap[k].0);
  }

  // ----- Runs

  /** One operation, with the database's answers to its queries for the tip and the unmined transactions. */
  datatype Op =
    | Post(tip: Option<int>, tx: Tx, txid: Bytes, scriptsVerify: bool)
    | MineBlock(tip: Option<int>, list: seq<Bytes>, stamp: Bytes)
    | Reorg(tip: Option<int>, start: int, numBlocks: int, txidMap: seq<(Bytes, int)>, stamps: int -> Bytes)

  function Kept(before: Db, outcome: Result<Db>): Db {
    match outcome case Ok(db) => db case Err(_) => before
  }

  /** The answers are right, and a reorganisation maps transactions that are unmined after its tear-down. */
  ghost predicate Legal(db: Db, op: Op) {
    && IsTip(db.headers, op.tip)
    && match op
       case Post(_, _, _, _) => true
       case MineBlock(_, list, _) => ListsUnmined(db.txs, list)
       case Reorg(tip, start, n, txidMap, _) =>
         tip.Some? && start <= tip.value ==>
           DistinctKeys(txidMap) && Mineable(TearDown(db, tip.value, start).txs, txidMap, 0, n)
  }

  function Apply(env: Env, db: Db, op: Op): Db
    requires IsTip(db.headers, op.tip)
  {
    match op
    case Post(tip, tx, txid, scriptsVerify) =>
      if Acceptable(db, CurrentHeight(tip), tx, txid, scriptsVerify) then Accepted(db, tx, txid) else db
    case MineBlock(tip, list, stamp) => Kept(db, Mine(env, db, tip, list, stamp))
    case Reorg(tip, start, n, txidMap, stamps) => Kept(db, Reorganised(env, db, tip, start, n, txidMap, stamps))
  }

  lemma MineBlockKeeps(env: Env, db: Db, blocks: Blocks, tip: Option<int>, list: seq<Bytes>, stamp: Bytes)
    requires Consistent(env, db, blocks) && IsTip(db.headers, tip) && ListsUnmined(db.txs, list)
    requires Mine(env, db, tip, list, stamp).Ok?
    ensures Consistent(env, Mine(env, db, tip, list, stamp).value, blocks + [[CoinbaseTxid(env, |blocks|)] + list])
    ensures Mine(env, db, tip, list, stamp) == MineAt(env, db, |blocks|, HashBelow(db.headers, |blocks|), list, stamp)
    ensures MineableList(db.txs, list)
  {
    TipIsLastBlock(env, db.headers, blocks, tip);
    assert forall j :: 0 <= j < |list| ==> list[j] in list;
    MineKeeps(env, db, blocks, list, stamp);
  }

  lemma ReorgKeeps(env: Env, db: Db, blocks: Blocks, op: Op) returns (after: Blocks)
    requires Consistent(env, db, blocks) && op.Reorg? && Legal(db, op)
    ensures Consistent(env, Apply(env, db, op), after)
  {
    after := blocks;
    if Reorganised(env, db, op.tip, op.start, op.numBlocks, op.txidMap, op.stamps).Ok? {
      TipIsLastBlock(env, db.headers, blocks, op.tip);
      TearDownKeeps(env, db, blocks, op.tip.value, op.start);
      var kept := blocks[..Min(|blocks|, Max(0, op.start))];
      var torn := TearDown(db, op.tip.value, op.start);
      MineReorgKeeps(env, torn, kept, op.start, 0, op.numBlocks, op.txidMap, op.stamps);
      after := Extended(env, kept, 0, op.numBlocks, op.txidMap);
    }
  }

  lemma StepKeeps(env: Env, db: Db, blocks: Blocks, op: Op) returns (after: Blocks)
    requires Consistent(env, db, blocks) && Legal(db, op)
    ensures Consistent(env, Apply(env, db, op), after)
  {
    after := blocks;
    match op
    case Post(tip, tx, txid, scriptsVerify) =>
      if Acceptable(db, CurrentHeight(tip), tx, txid, scriptsVerify) {
        PostKeeps(env, db, blocks, tx, txid);
      }
    case MineBlock(tip, list, stamp) =>
      if Mine(env, db, tip, list, stamp).Ok? {
        MineBlockKeeps(env, db, blocks, tip, list, stamp);
        after := blocks + [[CoinbaseTxid(env, |blocks|)] + list];
      }
    case Reorg(_, _, _, _, _) => after := ReorgKeeps(env, db, blocks, op);
  }

  ghost predicate LegalRun(env: Env, db: Db, ops: seq<Op>)
    decreases |ops|
  {
    ops == [] || (Legal(db, ops[0]) && LegalRun(env, Apply(env, db, ops[0]), ops[1..]))
  }

  ghost function RunOps(env: Env, db: Db, ops: seq<Op>): Db
    requires LegalRun(env, db, ops)
    decreases |ops|
  {
    if ops == [] then db else RunOps(env, Apply(env, db, ops[0]), ops[1..])
  }

  lemma {:induction false} RunKeeps(env: Env, db: Db, blocks: Blocks, ops: seq<Op>) returns (after: Blocks)
    requires Consistent(env, db, blocks) && LegalRun(env, db, ops)
    ensures Consistent(env, RunOps(env, db, ops), after)
    decreases |ops|
  {
    after := blocks;
    if ops != [] {
      var next := StepKeeps(env, db, blocks, ops[0]);
      after := RunKeeps(env, Apply(env, db, ops[0]), next, ops[1..]);
    }
  }

  const EMPTY := Db(map[], map[], map[])

  /** Every database reachable from empty tables by posting, mining and reorganising is a consistent chain. */
  lemma ReachableIsConsistent(env: Env, ops: seq<Op>)
    requires LegalRun(env, EMPTY, ops)
    ensures exists blocks :: Consistent(env, RunOps(env, EMPTY, ops), blocks)
  {
    assert Consistent(env, EMPTY, []);
    var blocks := RunKeeps(env, EMPTY, [], ops);
  }

  /** The consistency spelled out: contiguous heights, links, coinbase position, output heights. */
  lemma ConsistentMeans(env: Env, db: Db, blocks: Blocks, h: int, t: Bytes, o: Outpoint)
    requires Consistent(env, db, blocks)
    ensures h in db.headers <==> 0 <= h < |db.headers|
    ensures h in db.headers ==> db.headers[h].previousHash == if h == 0 then ZERO_HASH else HashBelow(db.headers, h)
    ensures h in db.headers && h > 0 ==> h - 1 in db.headers
    ensures h in db.headers ==> db.headers[h].coinbaseTxid in db.txs
                                && db.txs[db.headers[h].coinbaseTxid].place == Some(Place(h, 0))
    ensures t in db.txs && db.txs[t].place.Some? ==> db.txs[t].place.value.height in db.headers
    ensures o in db.utxos ==> o.txid in db.txs && db.utxos[o].height == HeightOf(db.txs[o.txid])
  {
    forall k
      ensures k in db.headers <==> 0 <= k < |blocks|
    {
      assert 0 <= k < |blocks| ==> HeaderFits(env, db.headers, blocks, k);
    }
    DomainSize(db.headers.Keys, |blocks|);
    if h in db.headers {
      assert HeaderFits(env, db.headers, blocks, h);
      assert At(blocks, h, 0, blocks[h][0]);
    }
    if t in db.txs && db.txs[t].place.Some? {
      assert At(blocks, db.txs[t].place.value.height, db.txs[t].place.value.index, t);
    }
    if o in db.utxos {
      assert RowFits(db.txs, o, db.utxos[o]);
    }
  }

  lemma {:induction false} DomainSize(keys: set<int>, n: nat)
    requires forall k :: k in keys <==> 0 <= k < n
    ensures |keys| == n
  {
    if n == 0 {
      if keys != {} {
        HasMember(keys);
      }
    } else {
      DomainSize(keys - {n - 1}, n - 1);
    }
  }

  // ----- Merkle paths

  /** No transaction is twice in a block. */
  lemma BlockIsDistinct(txs: Txs, blocks: Blocks, h: nat)
    requires Enumerates(txs, blocks) && h < |blocks|
    ensures NoDuplicates(blocks[h])
  {
    forall i, j | 0 <= i < j < |blocks[h]|
      ensures blocks[h][i] != blocks[h][j]
    {
      assert At(blocks, h, i, blocks[h][i]) && At(blocks, h, j, blocks[h][j]);
    }
  }

  /** A block's transactions listed by index are the block. */
  lemma {:induction false} ListIsBlock(txs: Txs, blocks: Blocks, h: nat, list: seq<Bytes>, n: nat)
    requires Enumerates(txs, blocks) && h < |blocks| && ListsBlock(txs, h, list) && n <= |list|
    ensures n <= |blocks[h]|
    ensures forall i :: 0 <= i < n ==> list[i] == blocks[h][i]
  {
    if n > 0 {
      ListIsBlock(txs, blocks, h, list, n - 1);
      var t := list[n - 1];
      assert t in list;
      var rank := Rank(txs, t);
      assert txs[t].place == Some(Place(h, rank));
      assert At(blocks, h, rank, t);
      assert rank >= n - 1 by {
        assert forall i :: 0 <= i < n - 1 ==> blocks[h][i] != list[n - 1];
      }
      if rank > n - 1 {
        NextIsListed(txs, blocks, h, list, n - 1);
      }
    }
  }

  /** The transaction at index m of the block comes at place m of a list that has the earlier ones before it. */
  lemma NextIsListed(txs: Txs, blocks: Blocks, h: nat, list: seq<Bytes>, m: nat)
    requires Enumerates(txs, blocks) && h < |blocks| && ListsBlock(txs, h, list) && m < |list| && m < |blocks[h]|
    requires forall i :: 0 <= i < m ==> list[i] == blocks[h][i]
    ensures Rank(txs, list[m]) <= m
  {
    var u := blocks[h][m];
    assert At(blocks, h, m, u);
    assert txs[u].place == Some(Place(h, m));
    assert u in list;
    BlockIsDistinct(txs, blocks, h);
    var j :| 0 <= j < |list| && list[j] == u;
    assert j >= m;
  }

  lemma ListsTheWholeBlock(txs: Txs, blocks: Blocks, h: nat, list: seq<Bytes>)
    requires Enumerates(txs, blocks) && h < |blocks| && ListsBlock(txs, h, list)
    ensures list == blocks[h]
  {
    ListIsBlock(txs, blocks, h, list, |list|);
    if |list| < |blocks[h]| {
      BlockIsDistinct(txs, blocks, h);
      NextIsMissing(list, blocks[h]);
      assert At(blocks, h, |list|, blocks[h][|list|]);
      assert false;
    }
  }

  lemma NextIsMissing(list: seq<Bytes>, block: seq<Bytes>)
    requires |list| < |block| && NoDuplicates(block) && forall i :: 0 <= i < |list| ==> list[i] == block[i]
    ensures block[|list|] !in list
  {
  }

  /**
   * In every reachable database, the merkle path computed for a mined transaction -- from whatever
   * ordered listing of its block -- recomputes the merkle root stored in the header at its height.
   */
  lemma MerklePathMeetsStoredRoot(env: Env, db: Db, blocks: Blocks, t: Bytes, list: seq<Bytes>, index: int)
    requires Consistent(env, db, blocks) && t in db.txs && db.txs[t].place.Some?
    requires ListsBlock(db.txs, db.txs[t].place.value.height, list) && 0 <= index < |list| && list[index] == t
    ensures var height := db.txs[t].place.value.height;
            && height in db.headers && index == db.txs[t].place.value.index
            && Tree.RootFromPath(env.hash, Tree.Path(env.hash, list, index), index, t) ==
               Some(db.headers[height].merkleRoot)
  {
    var place := db.txs[t].place.value;
    var h := place.height;
    assert At(blocks, h, place.index, t);
    ListsTheWholeBlock(db.txs, blocks, h, list);
    assert At(blocks, h, index, t);
    assert HeaderFits(env, db.headers, blocks, h);
    assert [blocks[h][0]] + blocks[h][1..] == blocks[h];
    Tree.PathProvesInclusion(env.hash, list, index);
  }
}
