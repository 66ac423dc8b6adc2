/**
 * The ledger of the mock chain: posting transactions, mining and reorganisation as updates of three
 * tables.  The methods are proved against functions on database states.
 */
module Ledger {
  import opened Common
  import Tree = MerkleTree

  const COINBASE_SATOSHIS := 5_000_000_000
  const COINBASE_MATURITY := 100

  datatype Outpoint = Outpoint(txid: Bytes, vout: int)

  /** Outputs are given by their satoshis. */
  datatype Tx = Tx(inputs: seq<Outpoint>, outputs: seq<int>)

  /** A mined transaction's block height and block index. */
  datatype Place = Place(height: int, index: int)

  datatype TxRow = TxRow(tx: Tx, place: Option<Place>)

  datatype UtxoRow = UtxoRow(satoshis: int, spentBy: Option<Bytes>, isCoinbase: bool, height: Option<int>)

  /** stamp: the time and nonce of the header. */
  datatype Header = Header(hash: Bytes, previousHash: Bytes, merkleRoot: Bytes, stamp: Bytes, coinbaseTxid: Bytes)

  type Headers = map<int, Header>

  type Txs = map<Bytes, TxRow>

  type Utxos = map<Outpoint, UtxoRow>

  datatype Db = Db(headers: Headers, txs: Txs, utxos: Utxos)

  /** Double SHA-256, the binary form of a header, and the id of the coinbase transaction of a height. */
  datatype Env = Env(hash: Tree.Hash, headerBytes: (Bytes, Bytes, Bytes) -> Bytes, coinbaseId: int -> Bytes)

  // ----- Coinbase transactions

  /** The value a bitwise operator sees in a number that is not below -2^31. */
  function ToInt32(h: int): (r: int)
    ensures r < 0x8000_0000 && r <= h && (h < 0x8000_0000 ==> r == h)
    decreases Max(0, h)
  {
    if h < 0x8000_0000 then h else ToInt32(h - 0x1_0000_0000)
  }

  /** h >> 8 */
  function Shifted(h: int): int { ToInt32(h) / 256 }

  function Digits(h: int): Bytes
    decreases Max(0, h)
  {
    if h <= 0 then [] else [h % 256] + Digits(Shifted(h))
  }

  lemma DigitsFromTheFront(done: Bytes, h: int)
    requires h > 0
    ensures done + Digits(h) == done + [h % 256] + Digits(Shifted(h)) && Shifted(h) < h
  {
  }

  /** The bytes pushed for a height: its digits, and one more if the last one would make it negative. */
  function HeightBytes(height: int): Bytes {
    if height == 0 then [0]
    else
      var digits := Digits(height);
      if digits != [] && digits[|digits| - 1] >= 0x80 then digits + [0] else digits
  }

  /** The loop of createCoinbaseTransaction. */
  method EncodeDigits(height: int) returns (heightBytes: Bytes)
    ensures heightBytes == Digits(height)
  {
    heightBytes := [];
    var h := height;
    while h > 0
      invariant heightBytes + Digits(h) == Digits(height)
      decreases Max(0, h)
    {
      DigitsFromTheFront(heightBytes, h);
      heightBytes := heightBytes + [h % 256];
      h := Shifted(h);
    }
    assert heightBytes + [] == heightBytes;
  }

  /** The height bytes of createCoinbaseTransaction. */
  method EncodeHeight(height: int) returns (heightBytes: Bytes)
    ensures heightBytes == HeightBytes(height)
  {
    if height == 0 {
      return [0];
    }
    heightBytes := EncodeDigits(height);
    if |heightBytes| > 0 && heightBytes[|heightBytes| - 1] >= 0x80 {
      heightBytes := heightBytes + [0];
    }
  }

  lemma {:induction false} PaddedValue(b: Bytes)
    ensures FromLittleEndian(b + [0]) == FromLittleEndian(b)
  {
    if b != [] {
      assert (b + [0])[1..] == b[1..] + [0];
      PaddedValue(b[1..]);
    }
  }

  lemma {:induction false} DigitsDecode(h: nat)
    requires h < 0x8000_0000
    ensures FromLittleEndian(Digits(h)) == h
    ensures h > 0 ==> Digits(h) != [] && Digits(h)[|Digits(h)| - 1] != 0
  {
    if h > 0 {
      assert Shifted(h) == h / 256;
      DigitsDecode(h / 256);
      assert Digits(h)[1..] == Digits(h / 256);
    }
  }

  /** A wider height loses its upper bits after the first digit. */
  lemma WideDigits(h: nat)
    requires h >= 0x8000_0000
    ensures FromLittleEndian(Digits(h)) < 0x8000_0000
  {
    var s := Shifted(h);
    assert s <= 0x7F_FFFF;
    assert Digits(h) == [h % 256] + Digits(s) && Digits(h)[1..] == Digits(s);
    if s > 0 {
      DigitsDecode(s);
    }
  }

  /**
   * The height bytes decode to the height exactly for heights below 2^31.  There they are
   * non-negative as a script number, and minimal (BIP 34, Specification): the last byte is needed,
   * for its value or for the sign.
   */
  lemma HeightIsMinimalScriptNumber(height: nat)
    ensures FromLittleEndian(HeightBytes(height)) == height <==> height < 0x8000_0000
    ensures var b := HeightBytes(height);
            height < 0x8000_0000 ==>
              && b != [] && b[|b| - 1] < 0x80
              && (height > 0 && b[|b| - 1] == 0 ==> |b| > 1 && b[|b| - 2] >= 0x80)
  {
    PaddedValue(Digits(height));
    if height < 0x8000_0000 {
      DigitsDecode(height);
    } else {
      WideDigits(height);
    }
  }

  /** Heights below 2^31 have different height bytes; the first one above has those of the genesis block. */
  lemma HeightBytesAreInjective(a: nat, b: nat)
    ensures a < 0x8000_0000 && b < 0x8000_0000 ==> (HeightBytes(a) == HeightBytes(b) <==> a == b)
    ensures HeightBytes(0x8000_0000) == HeightBytes(0)
  {
    if a < 0x8000_0000 && b < 0x8000_0000 {
      HeightIsMinimalScriptNumber(a);
      HeightIsMinimalScriptNumber(b);
    }
    FirstWideHeight();
  }

  lemma FirstWideHeight()
    ensures HeightBytes(0x8000_0000) == [0]
  {
    assert Shifted(0x8000_0000) < 0;
    assert Digits(0x8000_0000) == [0];
  }

  const ZERO_HASH: Bytes := Zeros(32)

  const COINBASE := Tx([Outpoint(ZERO_HASH, 0xffff_ffff)], [COINBASE_SATOSHIS])

  function CoinbaseTxid(env: Env, height: int): Bytes { env.coinbaseId(height) }

  /** The id of a coinbase transaction is the hash of its binary form, in which only the height bytes vary. */
  ghost predicate IdsFromHeights(env: Env, coinbaseBytes: Bytes -> Bytes) {
    forall height :: env.coinbaseId(height) == Tree.DoubleHashBE(env.hash, coinbaseBytes(HeightBytes(height)))
  }

  // ----- Posting

  predicate IsTip(headers: Headers, tip: Option<int>) {
    match tip
    case None => headers == map[]
    case Some(h) => h in headers && forall k :: k in headers ==> k <= h
  }

  function CurrentHeight(tip: Option<int>): int { tip.GetOr(-1) }

  predicate Mature(row: UtxoRow, current: int) {
    row.isCoinbase && row.height.Some? ==> current - row.height.value >= COINBASE_MATURITY
  }

  /** The input refers to a known, unspent and mature output. */
  predicate Spendable(utxos: Utxos, current: int, input: Outpoint) {
    input in utxos && utxos[input].spentBy.None? && Mature(utxos[input], current)
  }

  /** The first n outputs of the transaction are inserted, unspent. */
  function StoreOutputs(utxos: Utxos, txid: Bytes, outputs: seq<int>, n: nat): Utxos
    requires n <= |outputs|
  {
    if n == 0 then utxos
    else StoreOutputs(utxos, txid, outputs, n - 1)[Outpoint(txid, n - 1) := UtxoRow(outputs[n - 1], None, false, None)]
  }

  /** Updates a row if it exists. */
  function MarkSpent(utxos: Utxos, o: Outpoint, txid: Bytes): Utxos {
    if o in utxos then utxos[o := utxos[o].(spentBy := Some(txid))] else utxos
  }

  function SpendInputs(utxos: Utxos, txid: Bytes, inputs: seq<Outpoint>, n: nat): Utxos
    requires n <= |inputs|
  {
    if n == 0 then utxos else MarkSpent(SpendInputs(utxos, txid, inputs, n - 1), inputs[n - 1], txid)
  }

  predicate InputsSpendable(db: Db, current: int, tx: Tx) {
    forall i :: 0 <= i < |tx.inputs| ==> Spendable(db.utxos, current, tx.inputs[i])
  }

  /** The state after the transaction is accepted. */
  function Accepted(db: Db, tx: Tx, txid: Bytes): Db {
    var stored := StoreOutputs(db.utxos, txid, tx.outputs, |tx.outputs|);
    Db(db.headers, db.txs[txid := TxRow(tx, None)], SpendInputs(stored, txid, tx.inputs, |tx.inputs|))
  }

  /** A transaction is accepted exactly when its inputs are spendable, its scripts verify and it is new. */
  predicate Acceptable(db: Db, current: int, tx: Tx, txid: Bytes, scriptsVerify: bool) {
    InputsSpendable(db, current, tx) && scriptsVerify && txid !in db.txs
  }

  /** Every unspent output can be spent, but that of a mined coinbase only 100 blocks above it. */
  lemma SpendableExactly(utxos: Utxos, current: int, o: Outpoint)
    ensures Spendable(utxos, current, o) <==>
              && o in utxos && utxos[o].spentBy == None
              && (utxos[o].isCoinbase && utxos[o].height != None ==> utxos[o].height.value + 100 <= current)
  {
  }

  // ----- Mining

  function PlaceTx(txs: Txs, txid: Bytes, place: Option<Place>): Txs {
    if txid in txs then txs[txid := txs[txid].(place := place)] else txs
  }

  /** The first n listed transactions get consecutive indexes after the coinbase. */
  function PlaceTxs(txs: Txs, height: int, list: seq<Bytes>, n: nat): Txs
    requires n <= |list|
  {
    if n == 0 then txs else PlaceTx(PlaceTxs(txs, height, list, n - 1), list[n - 1], Some(Place(height, n)))
  }

  /** The rows of the transaction get the height. */
  function SetHeight(utxos: Utxos, txid: Bytes, height: Option<int>): Utxos {
    map o | o in utxos :: if o.txid == txid then utxos[o].(height := height) else utxos[o]
  }

  function SetHeights(utxos: Utxos, height: int, list: seq<Bytes>, n: nat): Utxos
    requires n <= |list|
  {
    if n == 0 then utxos else SetHeight(SetHeights(utxos, height, list, n - 1), list[n - 1], Some(height))
  }

  function NewHeader(env: Env, height: int, previousHash: Bytes, list: seq<Bytes>, stamp: Bytes): Header {
    var coinbase := CoinbaseTxid(env, height);
    var root := Tree.Root(env.hash, [coinbase] + list);
    Header(Tree.DoubleHashBE(env.hash, env.headerBytes(previousHash, root, stamp)), previousHash, root, stamp, coinbase)
  }

  predicate HashInUse(headers: Headers, hash: Bytes) { exists h :: h in headers && headers[h].hash == hash }

  const DUPLICATE_KEY := "UNIQUE constraint failed"

  /** One block with the listed transactions after its coinbase; keys that exist already undo it. */
  function MineAt(env: Env, db: Db, height: int, previousHash: Bytes, list: seq<Bytes>, stamp: Bytes): Result<Db> {
    var header := NewHeader(env, height, previousHash, list, stamp);
    var coinbase := header.coinbaseTxid;
    if coinbase in db.txs || Outpoint(coinbase, 0) in db.utxos then Err(DUPLICATE_KEY)
    else if height in db.headers || HashInUse(db.headers, header.hash) then Err(DUPLICATE_KEY)
    else
      var txs := db.txs[coinbase := TxRow(COINBASE, Some(Place(height, 0)))];
      var utxos := db.utxos[Outpoint(coinbase, 0) := UtxoRow(COINBASE_SATOSHIS, None, true, Some(height))];
      Ok(Db(db.headers[height := header], PlaceTxs(txs, height, list, |list|), SetHeights(utxos, height, list, |list|)))
  }

  /** The database's answer to a query for the unmined transactions, in any order. */
  ghost predicate ListsUnmined(txs: Txs, list: seq<Bytes>) {
    NoDuplicates(list) && (forall t :: t in list <==> t in txs && txs[t].place.None?)
  }

  function Mine(env: Env, db: Db, tip: Option<int>, list: seq<Bytes>, stamp: Bytes): Result<Db>
    requires tip.Some? ==> tip.value in db.headers
  {
    MineAt(env, db, CurrentHeight(tip) + 1, if tip.Some? then db.headers[tip.value].hash else ZERO_HASH, list, stamp)
  }

  // ----- Reorganisation

  predicate MinedAt(row: TxRow, height: int) { row.place.Some? && row.place.value.height == height }

  function InBlock(txs: Txs, height: int): set<Bytes> { set t | t in txs && MinedAt(txs[t], height) }

  /** The transactions torn out of their block: the coinbase is deleted, the others become unmined. */
  function TearTxs(txs: Txs, torn: set<Bytes>, coinbase: Option<Bytes>): Txs {
    map t | t in txs && !(t in torn && coinbase == Some(t)) :: if t in torn then txs[t].(place := None) else txs[t]
  }

  function TearUtxos(utxos: Utxos, torn: set<Bytes>, coinbase: Option<Bytes>): Utxos {
    map o | o in utxos && !(o.txid in torn && coinbase == Some(o.txid)) ::
      if o.txid in torn then utxos[o].(height := None) else utxos[o]
  }

  function CoinbaseOf(headers: Headers, height: int): Option<Bytes> {
    if height in headers then Some(headers[height].coinbaseTxid) else None
  }

  /** Block by block: its transactions are torn out and its header is deleted. */
  function TearBlock(db: Db, height: int): Db {
    var torn := InBlock(db.txs, height);
    var coinbase := CoinbaseOf(db.headers, height);
    Db(db.headers - {height}, TearTxs(db.txs, torn, coinbase), TearUtxos(db.utxos, torn, coinbase))
  }

  function TearDown(db: Db, fromHeight: int, toHeight: int): Db
    decreases fromHeight - toHeight + 1
  {
    if fromHeight < toHeight then db else TearDown(TearBlock(db, fromHeight), fromHeight - 1, toHeight)
  }

  /** The txids mapped to the i-th new block, in the order of the map's entries. */
  function Mapped(txidMap: seq<(Bytes, int)>, i: int): seq<Bytes> {
    if txidMap == [] then []
    else (if txidMap[0].1 == i then [txidMap[0].0] else []) + Mapped(txidMap[1..], i)
  }

  function PreviousHash(headers: Headers, height: int): Result<Bytes> {
    if height == 0 then Ok(ZERO_HASH)
    else if height - 1 in headers then Ok(headers[height - 1].hash)
    else Err("Missing block header")
  }

  /** The new blocks from the i-th to the last, each on top of the one before. */
  function MineReorg(env: Env, db: Db, start: int, i: nat, numBlocks: int, txidMap: seq<(Bytes, int)>,
                     stamps: int -> Bytes): Result<Db>
    decreases numBlocks - i
  {
    if i >= numBlocks then Ok(db)
    else match MineNext(env, db, start + i, Mapped(txidMap, i), stamps(i))
      case Err(e) => Err(e)
      case Ok(next) => MineReorg(env, next, start, i + 1, numBlocks, txidMap, stamps)
  }

  /** A block on top of the header below it. */
  function MineNext(env: Env, db: Db, height: int, list: seq<Bytes>, stamp: Bytes): Result<Db> {
    match PreviousHash(db.headers, height)
    case Err(e) => Err(e)
    case Ok(previousHash) => MineAt(env, db, height, previousHash, list, stamp)
  }

  /** The reorganised database; an error undoes the tear-down. */
  function Reorganised(env: Env, db: Db, tip: Option<int>, start: int, numBlocks: int, txidMap: seq<(Bytes, int)>,
                       stamps: int -> Bytes): Result<Db> {
    if tip.None? then Err("Cannot reorg empty chain")
    else if start > tip.value then Err("startingHeight exceeds the current tip height")
    else MineReorg(env, TearDown(db, tip.value, start), start, 0, numBlocks, txidMap, stamps)
  }

  // ----- Queries

  function Rank(txs: Txs, t: Bytes): int {
    if t in txs && txs[t].place.Some? then txs[t].place.value.index else -1
  }

  /** The transactions of a block ordered by their index. */
  ghost predicate ListsBlock(txs: Txs, height: int, list: seq<Bytes>) {
    && NoDuplicates(list)
    && (forall t :: t in list <==> t in txs && MinedAt(txs[t], height))
    && (forall i :: 0 <= i < |list| ==> list[i] in list)
    && (forall i, j :: 0 <= i < j < |list| ==> Rank(txs, list[i]) <= Rank(txs, list[j]))
  }

  predicate Lowest(txs: Txs, s: set<Bytes>, t: Bytes) {
    t in s && forall u :: u in s ==> Rank(txs, t) <= Rank(txs, u)
  }

  lemma {:induction false} LowestExists(txs: Txs, s: set<Bytes>, t: Bytes)
    requires t in s
    ensures exists low :: Lowest(txs, s, low)
    decreases |s|
  {
    if !Lowest(txs, s, t) {
      var u :| u in s && Rank(txs, u) < Rank(txs, t);
      LowestExists(txs, s - {t}, u);
      var low :| Lowest(txs, s - {t}, low);
      assert Rank(txs, low) <= Rank(txs, u);
      forall v | v in s
        ensures Rank(txs, low) <= Rank(txs, v)
      {
        assert v == t || v in s - {t};
      }
      assert Lowest(txs, s, low);
    }
  }

  method OrderedBlock(txs: Txs, height: int) returns (list: seq<Bytes>)
    ensures ListsBlock(txs, height, list)
  {
    var rest := InBlock(txs, height);
    list := [];
    while rest != {}
      invariant forall t :: t in list || t in rest <==> t in InBlock(txs, height)
      invariant NoDuplicates(list) && forall t :: t in list ==> t !in rest
      invariant forall i :: 0 <= i < |list| ==> list[i] in list
      invariant forall i, j :: 0 <= i < j < |list| ==> Rank(txs, list[i]) <= Rank(txs, list[j])
      invariant forall i, u :: 0 <= i < |list| && u in rest ==> Rank(txs, list[i]) <= Rank(txs, u)
      decreases |rest|
    {
      var any :| any in rest;
      LowestExists(txs, rest, any);
      var t :| t in rest && Lowest(txs, rest, t);
      list := list + [t];
      rest := rest - {t};
    }
  }

  method Unmined(txs: Txs) returns (list: seq<Bytes>)
    ensures ListsUnmined(txs, list)
  {
    var rest := set t | t in txs && txs[t].place.None?;
    list := [];
    while rest != {}
      invariant forall t :: t in list || t in rest <==> t in txs && txs[t].place.None?
      invariant NoDuplicates(list) && forall t :: t in list ==> t !in rest
      decreases |rest|
    {
      var t :| t in rest;
      assert forall i :: 0 <= i < |list| ==> list[i] in list;
      list := list + [t];
      rest := rest - {t};
    }
  }

  method ChainTip(headers: Headers) returns (tip: Option<int>)
    ensures IsTip(headers, tip)
  {
    tip := None;
    var rest := headers.Keys;
    while rest != {}
      invariant rest <= headers.Keys
      invariant tip.None? ==> rest == headers.Keys
      invariant tip.Some? ==> tip.value in headers && forall k :: k in headers && k !in rest ==> k <= tip.value
      decreases |rest|
    {
      HasMember(rest);
      var h :| h in rest;
      if tip.None? || tip.value < h {
        tip := Some(h);
      }
      rest := rest - {h};
    }
    assert tip.None? ==> headers.Keys == {};
  }

  // ----- The services

  class MockServices {
    const env: Env
    const coinbaseBytes: Bytes -> Bytes
    var headers: Headers
    var txs: Txs
    var utxos: Utxos

    function Value(): Db
      reads this
    {
      Db(headers, txs, utxos)
    }

    /** Every output row belongs to a stored transaction. */
    ghost predicate Valid()
      reads this
    {
      OutputsBelong(Value()) && IdsFromHeights(env, coinbaseBytes)
    }

    constructor (hash: Tree.Hash, headerBytes: (Bytes, Bytes, Bytes) -> Bytes, coinbaseBytes: Bytes -> Bytes)
      ensures Value() == Db(map[], map[], map[]) && Valid()
      ensures env.hash == hash && env.headerBytes == headerBytes && this.coinbaseBytes == coinbaseBytes
    {
      env := Env(hash, headerBytes, height => Tree.DoubleHashBE(hash, coinbaseBytes(HeightBytes(height))));
      this.coinbaseBytes := coinbaseBytes;
      headers, txs, utxos := map[], map[], map[];
    }

    method PostOneTx(tx: Tx, txid: Bytes, scriptsVerify: bool) returns (r: Result<()>, ghost tip: Option<int>)
      requires Valid()
      modifies this
      ensures Valid() && IsTip(old(headers), tip)
      ensures r.Ok? <==> Acceptable(old(Value()), CurrentHeight(tip), tx, txid, scriptsVerify)
      ensures Value() == if r.Ok? then Accepted(old(Value()), tx, txid) else old(Value())
    {
      var current := ChainTip(headers);
      tip := current;
      var i := 0;
      while i < |tx.inputs|
        invariant 0 <= i <= |tx.inputs| && forall j :: 0 <= j < i ==>
                    Spendable(utxos, CurrentHeight(current), tx.inputs[j])
      {
        var input := tx.inputs[i];
        if input !in utxos {
          return Err("input must reference a known UTXO"), tip;
        }
        var utxo := utxos[input];
        if utxo.spentBy.Some? {
          return Err("input must not be already spent"), tip;
        }
        if utxo.isCoinbase && utxo.height.Some? && CurrentHeight(current) - utxo.height.value < 100 {
          return Err("input must not spend immature coinbase"), tip;
        }
        i := i + 1;
      }
      if !scriptsVerify {
        return Err("transaction must pass script validation"), tip;
      }
      if txid in txs {
        return Err(DUPLICATE_KEY), tip;
      }
      txs := txs[txid := TxRow(tx, None)];
      StoreAll(tx.outputs, txid);
      SpendAll(tx.inputs, txid);
      AcceptedBelong(old(Value()), tx, txid);
      return Ok(()), tip;
    }

    /** Inserts the output rows; none of their keys is taken. */
    method StoreAll(outputs: seq<int>, txid: Bytes)
      requires forall o :: o in utxos ==> o.txid != txid
      modifies `utxos
      ensures utxos == StoreOutputs(old(utxos), txid, outputs, |outputs|)
    {
      for vout := 0 to |outputs|
        invariant utxos == StoreOutputs(old(utxos), txid, outputs, vout)
      {
        StoredKeys(old(utxos), txid, outputs, vout);
        assert Outpoint(txid, vout) !in utxos;
        utxos := utxos[Outpoint(txid, vout) := UtxoRow(outputs[vout], None, false, None)];
      }
    }

    method SpendAll(inputs: seq<Outpoint>, txid: Bytes)
      modifies `utxos
      ensures utxos == SpendInputs(old(utxos), txid, inputs, |inputs|)
    {
      for i := 0 to |inputs|
        invariant utxos == SpendInputs(old(utxos), txid, inputs, i)
      {
        if inputs[i] in utxos {
          utxos := utxos[inputs[i] := utxos[inputs[i]].(spentBy := Some(txid))];
        }
      }
    }

    /** The rows of one block, in one storage transaction. */
    method InsertBlock(height: int, previousHash: Bytes, list: seq<Bytes>, stamp: Bytes) returns (r: Result<()>)
      requires Valid()
      modifies this
      ensures Valid()
      ensures var mined := MineAt(env, old(Value()), height, previousHash, list, stamp);
              (mined.Ok? ==> r.Ok? && Value() == mined.value) && (mined.Err? ==> r.Err? && Value() == old(Value()))
    {
      var heightBytes := EncodeHeight(height);
      var coinbase := Tree.DoubleHashBE(env.hash, coinbaseBytes(heightBytes));
      assert coinbase == CoinbaseTxid(env, height);
      var root := Tree.ComputeMerkleRoot(env.hash, [coinbase] + list);
      var hash := Tree.DoubleHashBE(env.hash, env.headerBytes(previousHash, root.value, stamp));
      if coinbase in txs || Outpoint(coinbase, 0) in utxos || height in headers || HashInUse(headers, hash) {
        return Err(DUPLICATE_KEY);
      }
      MineAtBelongs(env, Value(), height, previousHash, list, stamp);
      txs := txs[coinbase := TxRow(COINBASE, Some(Place(height, 0)))];
      utxos := utxos[Outpoint(coinbase, 0) := UtxoRow(COINBASE_SATOSHIS, None, true, Some(height))];
      PlaceAll(list, height);
      headers := headers[height := Header(hash, previousHash, root.value, stamp, coinbase)];
      return Ok(());
    }

    method PlaceAll(list: seq<Bytes>, height: int)
      modifies `txs, `utxos
      ensures txs == PlaceTxs(old(txs), height, list, |list|) && utxos == SetHeights(old(utxos), height, list, |list|)
    {
      for i := 0 to |list|
        invariant txs == PlaceTxs(old(txs), height, list, i) && utxos == SetHeights(old(utxos), height, list, i)
      {
        if list[i] in txs {
          txs := txs[list[i] := txs[list[i]].(place := Some(Place(height, i + 1)))];
        }
        utxos := SetHeight(utxos, list[i], Some(height));
      }
    }

    method MineBlock(stamp: Bytes) returns (r: Result<()>, list: seq<Bytes>, ghost tip: Option<int>)
      requires Valid()
      modifies this
      ensures Valid() && IsTip(old(headers), tip) && ListsUnmined(old(txs), list)
      ensures var mined := Mine(env, old(Value()), tip, list, stamp);
              (mined.Ok? ==> r.Ok? && Value() == mined.value) && (mined.Err? ==> r.Err? && Value() == old(Value()))
    {
      var top := ChainTip(headers);
      tip := top;
      list := Unmined(txs);
      var previousHash := if top.Some? then headers[top.value].hash else ZERO_HASH;
      r := InsertBlock(CurrentHeight(top) + 1, previousHash, list, stamp);
    }

    /** Deletes the coinbase with its outputs, unmines any other transaction. */
    method TearOne(t: Bytes, coinbase: Option<Bytes>)
      modifies `txs, `utxos
      ensures txs == TearTxs(old(txs), {t}, coinbase) && utxos == TearUtxos(old(utxos), {t}, coinbase)
    {
      if coinbase == Some(t) {
        utxos := map o | o in utxos && o.txid != t :: utxos[o];
        txs := txs - {t};
      } else {
        if t in txs {
          txs := txs[t := txs[t].(place := None)];
        }
        utxos := SetHeight(utxos, t, None);
      }
    }

    method TearDownBlock(height: int)
      requires Valid()
      modifies this
      ensures Valid() && Value() == TearBlock(old(Value()), height)
    {
      var txsInBlock := OrderedBlock(txs, height);
      var coinbase := CoinbaseOf(headers, height);
      ghost var torn: set<Bytes> := {};
      for i := 0 to |txsInBlock|
        invariant headers == old(headers)
        invariant torn == set t | t in txsInBlock[..i]
        invariant txs == TearTxs(old(txs), torn, coinbase) && utxos == TearUtxos(old(utxos), torn, coinbase)
      {
        var t := txsInBlock[i];
        TearOne(t, coinbase);
        TearOneMore(old(txs), old(utxos), torn, t, coinbase);
        torn := torn + {t};
        assert txsInBlock[..i + 1] == txsInBlock[..i] + [t];
      }
      assert txsInBlock[..|txsInBlock|] == txsInBlock;
      assert torn == InBlock(old(txs), height);
      headers := headers - {height};
      TearBlockBelongs(old(Value()), height);
    }

    method TearDownOldBlocks(fromHeight: int, toHeight: int)
      requires Valid()
      modifies this
      ensures Valid() && Value() == TearDown(old(Value()), fromHeight, toHeight)
    {
      var h := fromHeight;
      while h >= toHeight
        invariant Valid() && TearDown(Value(), h, toHeight) == TearDown(old(Value()), fromHeight, toHeight)
        decreases h - toHeight + 1
      {
        TearDownBlock(h);
        h := h - 1;
      }
    }

    method MineReorgBlocks(start: int, numBlocks: int, txidMap: seq<(Bytes, int)>,
                           stamps: int -> Bytes) returns (r: Result<()>)
      requires Valid()
      modifies this
      ensures Valid()
      ensures var mined := MineReorg(env, old(Value()), start, 0, numBlocks, txidMap, stamps);
              (mined.Ok? ==> r.Ok? && Value() == mined.value) && (mined.Err? ==> r.Err?)
    {
      var i: nat := 0;
      while i < numBlocks
        invariant Valid()
        invariant MineReorg(env, Value(), start, i, numBlocks, txidMap, stamps) ==
                  MineReorg(env, old(Value()), start, 0, numBlocks, txidMap, stamps)
        decreases numBlocks - i
      {
        r := MineIthBlock(start, i, numBlocks, txidMap, stamps);
        if r.Err? {
          return;
        }
        i := i + 1;
      }
      return Ok(());
    }

    method MineIthBlock(start: int, i: nat, numBlocks: int, txidMap: seq<(Bytes, int)>,
                        stamps: int -> Bytes) returns (r: Result<()>)
      requires Valid() && i < numBlocks
      modifies this
      ensures Valid()
      ensures r.Err? ==> MineReorg(env, old(Value()), start, i, numBlocks, txidMap, stamps).Err?
      ensures r.Ok? ==>
                MineReorg(env, old(Value()), start, i, numBlocks, txidMap, stamps) ==
                    MineReorg(env, Value(), start, i + 1, numBlocks, txidMap, stamps)
    {
      var height := start + i;
      var previousHash := PreviousHash(headers, height);
      if previousHash.Err? {
        return Err(previousHash.error);
      }
      r := InsertBlock(height, previousHash.value, Mapped(txidMap, i), stamps(i));
    }

    method Reorg(start: int, numBlocks: int, txidMap: seq<(Bytes, int)>, stamps: int -> Bytes)
      returns (r: Result<()>, ghost tip: Option<int>)
      requires Valid()
      modifies this
      ensures Valid() && IsTip(old(headers), tip)
      ensures var outcome := Reorganised(env, old(Value()), tip, start, numBlocks, txidMap, stamps);
              && (outcome.Ok? ==> Value() == outcome.value && (r.Ok? <==> outcome.value.headers != map[]))
              && (outcome.Err? ==> r.Err? && Value() == old(Value()))
    {
      var oldTip := ChainTip(headers);
      tip := oldTip;
      if oldTip.None? {
        return Err("Cannot reorg empty chain"), tip;
      }
      if start > oldTip.value {
        return Err("startingHeight exceeds the current tip height"), tip;
      }
      var headers0, txs0, utxos0 := headers, txs, utxos;
      TearDownOldBlocks(oldTip.value, start);
      r := MineReorgBlocks(start, numBlocks, txidMap, stamps);
      if r.Err? {
        headers, txs, utxos := headers0, txs0, utxos0;
        return;
      }
      var newTip := ChainTip(headers);
      if newTip.None? {
        return Err("Chain tip missing after reorg"), tip;
      }
      return Ok(()), tip;
    }

    /** The merkle path of a mined transaction, its index in it, and the header of its block. */
    method GetMerklePath(txid: Bytes) returns (path: Option<Tree.MerklePath>, index: int, header: Option<Header>)
      ensures path.Some? <==> txid in txs && txs[txid].place.Some?
      ensures path.Some? ==>
                exists list :: ListsBlock(txs, txs[txid].place.value.height, list) && 0 <= index < |list| &&
                    list[index] == txid
                               && path.value == Tree.MerklePath(txs[txid].place.value.height,
                                                                Tree.Path(env.hash, list, index))
      ensures path.Some? && txs[txid].place.value.height in headers ==>
                header == Some(headers[txs[txid].place.value.height])
    {
      path, index, header := None, -1, None;
      if txid !in txs || txs[txid].place.None? {
        return;
      }
      var height := txs[txid].place.value.height;
      var txids := OrderedBlock(txs, height);
      index := 0;
      assert txid in txids;
      while txids[index] != txid
        invariant 0 <= index < |txids| && txid in txids[index..]
        decreases |txids| - index
      {
        index := index + 1;
      }
      header := if height in headers then Some(headers[height]) else None;
      var computed := Tree.ComputeMerklePath(env.hash, txids, index, height);
      path := Some(computed.value);
    }
  }

  // ----- Rows belong to stored transactions

  predicate OutputsBelong(db: Db) { forall o :: o in db.utxos ==> o.txid in db.txs }

  lemma {:induction false} StoredKeys(utxos: Utxos, txid: Bytes, outputs: seq<int>, n: nat)
    requires n <= |outputs|
    ensures forall o :: o in StoreOutputs(utxos, txid, outputs, n) <==>
              o in utxos || (o.txid == txid && 0 <= o.vout < n)
  {
    if n > 0 {
      StoredKeys(utxos, txid, outputs, n - 1);
    }
  }

  lemma {:induction false} SpentKeys(utxos: Utxos, txid: Bytes, inputs: seq<Outpoint>, n: nat)
    requires n <= |inputs|
    ensures SpendInputs(utxos, txid, inputs, n).Keys == utxos.Keys
  {
    if n > 0 {
      SpentKeys(utxos, txid, inputs, n - 1);
    }
  }

  lemma AcceptedBelong(db: Db, tx: Tx, txid: Bytes)
    requires OutputsBelong(db)
    ensures OutputsBelong(Accepted(db, tx, txid))
  {
    StoredKeys(db.utxos, txid, tx.outputs, |tx.outputs|);
    SpentKeys(StoreOutputs(db.utxos, txid, tx.outputs, |tx.outputs|), txid, tx.inputs, |tx.inputs|);
  }

  lemma {:induction false} PlacedKeys(txs: Txs, height: int, list: seq<Bytes>, n: nat)
    requires n <= |list|
    ensures PlaceTxs(txs, height, list, n).Keys == txs.Keys
  {
    if n > 0 {
      PlacedKeys(txs, height, list, n - 1);
    }
  }

  lemma {:induction false} HeightKeys(utxos: Utxos, height: int, list: seq<Bytes>, n: nat)
    requires n <= |list|
    ensures SetHeights(utxos, height, list, n).Keys == utxos.Keys
  {
    if n > 0 {
      HeightKeys(utxos, height, list, n - 1);
    }
  }

  lemma MineAtBelongs(env: Env, db: Db, height: int, previousHash: Bytes, list: seq<Bytes>, stamp: Bytes)
    requires OutputsBelong(db) && MineAt(env, db, height, previousHash, list, stamp).Ok?
    ensures OutputsBelong(MineAt(env, db, height, previousHash, list, stamp).value)
  {
    var coinbase := CoinbaseTxid(env, height);
    PlacedKeys(db.txs[coinbase := TxRow(COINBASE, Some(Place(height, 0)))], height, list, |list|);
    HeightKeys(db.utxos[Outpoint(coinbase, 0) := UtxoRow(COINBASE_SATOSHIS, None, true, Some(height))], height, list,
               |list|);
  }

  lemma TearOneMore(txs: Txs, utxos: Utxos, torn: set<Bytes>, t: Bytes, coinbase: Option<Bytes>)
    ensures TearTxs(txs, torn + {t}, coinbase) == TearTxs(TearTxs(txs, torn, coinbase), {t}, coinbase)
    ensures TearUtxos(utxos, torn + {t}, coinbase) == TearUtxos(TearUtxos(utxos, torn, coinbase), {t}, coinbase)
  {
  }

  lemma TearBlockBelongs(db: Db, height: int)
    requires OutputsBelong(db)
    ensures OutputsBelong(TearBlock(db, height))
  {
  }
}
