/**
 * The block header cache: two key spaces (height:..., hash:...) and an insertion-ordered set of
 * hashes.  The class is proved to behave as a first-in-first-out list of headers in which no two
 * headers share a height or a hash.
 */
module HeaderCache {
  import opened Common

  datatype Header = Header(height: nat, hash: string, previousHash: string, merkleRoot: string)

  // ----- The cache as a list of headers, oldest first

  function DropHash(cached: seq<Header>, hash: string): seq<Header> { Filter(cached, (h: Header) => h.hash != hash) }

  function DropHeight(cached: seq<Header>, height: nat): seq<Header> {
    Filter(cached, (h: Header) => h.height != height)
  }

  function KeepBelow(cached: seq<Header>, height: int): seq<Header> { Filter(cached, (h: Header) => h.height < height) }

  /** The newest n elements. */
  function Newest<T>(s: seq<T>, n: int): seq<T> {
    if |s| <= n then s else if n <= 0 then [] else s[|s| - n..]
  }

  function AfterSet(cached: seq<Header>, header: Header, maxEntries: int): seq<Header> {
    Newest(Filter(cached, (h: Header) => h.height != header.height && h.hash != header.hash) + [header], maxEntries)
  }

  datatype Event =
    | Set(header: Header)
    | InvalidateHeight(height: nat)
    | InvalidateHash(hash: string)
    | HeightKeyExpired(height: nat)
    | HashKeyExpired(hash: string)
    | Mined(reported: Option<Header>, blockHeight: Option<nat>)
    | Reorg(depth: Option<int>, oldTip: Option<Header>, deactivated: seq<Header>)
    | Clear

  function DropHashes(cached: seq<Header>, gone: seq<Header>): seq<Header>
    decreases |gone|
  {
    if gone == [] then cached else DropHashes(DropHash(cached, gone[0].hash), gone[1..])
  }

  function After(cached: seq<Header>, e: Event, maxEntries: int): seq<Header> {
    match e
    case Set(h) => AfterSet(cached, h, maxEntries)
    case InvalidateHeight(n) => DropHeight(cached, n)
    case InvalidateHash(x) => DropHash(cached, x)
    case HeightKeyExpired(n) => DropHeight(cached, n)
    case HashKeyExpired(x) => DropHash(cached, x)
    case Mined(header, blockHeight) =>
      if header.Some? then AfterSet(KeepBelow(cached, header.value.height), header.value, maxEntries)
      else if blockHeight.Some? then KeepBelow(cached, blockHeight.value)
      else cached
    case Reorg(depth, oldTip, deactivated) =>
      if deactivated != [] then DropHashes(cached, deactivated)
      else if oldTip.Some? && depth.Some? then KeepBelow(cached, Max(0, oldTip.value.height - depth.value + 1))
      else []
    case Clear => []
  }

  function Run(events: seq<Event>, maxEntries: int): seq<Header> {
    if events == [] then [] else After(Run(events[..|events| - 1], maxEntries), events[|events| - 1], maxEntries)
  }

  // ----- The two indexes

  /** The headers that the hash index holds for a list of hashes. */
  ghost function Lookup(order: seq<string>, byHash: map<string, Header>): seq<Header>
    requires forall x :: x in order ==> x in byHash
  {
    if order == [] then [] else [byHash[order[0]]] + Lookup(order[1..], byHash)
  }

  function Without(order: seq<string>, hash: string): seq<string> { Filter(order, x => x != hash) }

  /** Each index leads to headers that the other one also leads to. */
  ghost predicate Mutual(byHeight: map<nat, Header>, byHash: map<string, Header>) {
    && (forall x :: x in byHash ==>
        byHash[x].hash == x && byHash[x].height in byHeight && byHeight[byHash[x].height] == byHash[x])
    && (forall n :: n in byHeight ==>
        byHeight[n].height == n && byHeight[n].hash in byHash && byHash[byHeight[n].hash] == byHeight[n])
  }

  /** The ordered set is exactly the domain of the hash index. */
  ghost predicate Enumerates(order: seq<string>, byHash: map<string, Header>) {
    NoDuplicates(order) && forall x :: x in order <==> x in byHash
  }

  ghost predicate Inverse(byHeight: map<nat, Header>, byHash: map<string, Header>, order: seq<string>) {
    Mutual(byHeight, byHash) && Enumerates(order, byHash)
  }

  class BlockHeaderCache {
    var byHeight: map<nat, Header>
    var byHash: map<string, Header>
    var headerHashes: seq<string>
    const maxEntries: int

    ghost predicate Indexed()
      reads this
    {
      Inverse(byHeight, byHash, headerHashes)
    }

    ghost predicate Valid()
      reads this
    {
      Indexed() && |headerHashes| <= Max(0, maxEntries)
    }

    ghost function Contents(): seq<Header>
      reads this
      requires Indexed()
    {
      Lookup(headerHashes, byHash)
    }

    constructor (maxEntries: int)
      ensures Valid() && Contents() == [] && this.maxEntries == maxEntries
    {
      byHeight, byHash, headerHashes := map[], map[], [];
      this.maxEntries := maxEntries;
    }

    method GetByHeight(height: nat) returns (r: Option<Header>)
      requires Indexed()
      ensures r.Some? ==> r.value in Contents() && r.value.height == height
      ensures r.None? ==> forall h :: h in Contents() ==> h.height != height
    {
      LookupMembers(headerHashes, byHash);
      r := if height in byHeight then Some(byHeight[height]) else None;
    }

    method GetByHash(hash: string) returns (r: Option<Header>)
      requires Indexed()
      ensures r.Some? ==> r.value in Contents() && r.value.hash == hash
      ensures r.None? ==> forall h :: h in Contents() ==> h.hash != hash
    {
      LookupMembers(headerHashes, byHash);
      r := if hash in byHash then Some(byHash[hash]) else None;
    }

    method DoInvalidateHash(hash: string)
      requires Indexed()
      modifies this
      ensures Indexed() && Contents() == DropHash(old(Contents()), hash)
      ensures headerHashes == Without(old(headerHashes), hash)
    {
      if hash in byHash {
        RemovalKeepsInverse(byHeight, byHash, headerHashes, hash);
        var header := byHash[hash];
        byHash := byHash - {hash};
        headerHashes := Without(headerHashes, hash);
        byHeight := byHeight - {header.height};
      } else {
        AbsentHash(byHeight, byHash, headerHashes, hash);
        headerHashes := Without(headerHashes, hash);
      }
    }

    method DoInvalidateHeight(height: nat)
      requires Indexed()
      modifies this
      ensures Indexed() && Contents() == DropHeight(old(Contents()), height)
      ensures |headerHashes| <= |old(headerHashes)|
    {
      DropHeightIsDropHash(byHeight, byHash, headerHashes, height);
      if height in byHeight {
        var header := byHeight[height];
        RemovalKeepsInverse(byHeight, byHash, headerHashes, header.hash);
        byHeight := byHeight - {height};
        byHash := byHash - {header.hash};
        headerHashes := Without(headerHashes, header.hash);
      }
    }

    /** The cache library has dropped a height key, and calls back. */
    method ExpireHeightKey(height: nat)
      requires Indexed() && height in byHeight
      modifies this
      ensures Indexed() && Contents() == DropHeight(old(Contents()), height)
      ensures |headerHashes| <= |old(headerHashes)|
    {
      var header := byHeight[height];
      DropHeightIsDropHash(byHeight, byHash, headerHashes, height);
      RemovalKeepsInverse(byHeight, byHash, headerHashes, header.hash);
      byHeight := byHeight - {height};
      byHash := byHash - {header.hash};
      headerHashes := Without(headerHashes, header.hash);
    }

    /** The cache library has dropped a hash key, and calls back. */
    method ExpireHashKey(hash: string)
      requires Indexed() && hash in byHash
      modifies this
      ensures Indexed() && Contents() == DropHash(old(Contents()), hash)
      ensures |headerHashes| <= |old(headerHashes)|
    {
      var header := byHash[hash];
      RemovalKeepsInverse(byHeight, byHash, headerHashes, hash);
      byHash := byHash - {hash};
      byHeight := byHeight - {header.height};
      headerHashes := Without(headerHashes, header.hash);
    }

    /** One turn of the loop of InvalidateFromHeight; was is the list that the loop started with. */
    method InvalidateOneFromHeight(hash: string, height: int, ghost was: seq<Header>,
                                   ghost i: nat) returns (removed: bool)
      requires Indexed() && UniqueKeys(was) && i < |was| && hash == was[i].hash
      requires Contents() == KeepBelow(was[..i], height) + was[i..]
      modifies this
      ensures Indexed() && Contents() == KeepBelow(was[..i + 1], height) + was[i + 1..]
      ensures |headerHashes| == |old(headerHashes)| - (if removed then 1 else 0)
    {
      KeepBelowStep(was, i, height);
      assert hash in byHash && byHash[hash] == was[i] by {
        NextIsCached(was, i, height);
        MemberIndexed(byHeight, byHash, headerHashes, was[i]);
      }
      removed := hash in byHash && byHash[hash].height >= height;
      if removed {
        RemovedOne(headerHashes, hash);
        DoInvalidateHash(hash);
      }
    }

    method InvalidateFromHeight(height: int) returns (removed: nat)
      requires Indexed()
      modifies this
      ensures Indexed() && Contents() == KeepBelow(old(Contents()), height)
      ensures removed == |old(headerHashes)| - |headerHashes|
    {
      removed := 0;
      var copy := headerHashes;
      ghost var was := Contents();
      ContentsUnique(byHeight, byHash, headerHashes);
      LookupAt(headerHashes, byHash);
      assert was[0..] == was;
      var i := 0;
      while i < |copy|
        invariant 0 <= i <= |copy| && Indexed()
        invariant Contents() == KeepBelow(was[..i], height) + was[i..]
        invariant removed + |headerHashes| == |copy|
      {
        var one := InvalidateOneFromHeight(copy[i], height, was, i);
        if one {
          removed := removed + 1;
        }
        i := i + 1;
      }
      assert was[..|was|] == was;
    }

    method EvictOldHeaders()
      requires Indexed()
      modifies this
      ensures Valid() && Contents() == Newest(old(Contents()), maxEntries)
    {
      ghost var was := Contents();
      ContentsUnique(byHeight, byHash, headerHashes);
      LookupAt(headerHashes, byHash);
      ghost var evicted := 0;
      while |headerHashes| > maxEntries
        invariant Indexed() && 0 <= evicted <= |was| && Contents() == was[evicted..]
        invariant |headerHashes| == |was| - evicted
        invariant evicted > 0 ==> |headerHashes| >= maxEntries
        decreases |headerHashes|
      {
        if headerHashes == [] {
          return;
        }
        LookupAt(headerHashes, byHash);
        DropOldest(was, evicted);
        assert was[evicted..][0] == was[evicted];
        DoInvalidateHash(headerHashes[0]);
        evicted := evicted + 1;
        LookupAt(headerHashes, byHash);
      }
    }

    method DoSet(header: Header)
      requires Indexed()
      modifies this
      ensures Valid() && Contents() == AfterSet(old(Contents()), header, maxEntries)
    {
      SetKeepsInverse(byHeight, byHash, headerHashes, header);
      if header.height in byHeight && byHeight[header.height].hash != header.hash {
        var previous := byHeight[header.height];
        byHash := byHash - {previous.hash};
        headerHashes := Without(headerHashes, previous.hash);
      }
      if header.hash in byHash && byHash[header.hash].height != header.height {
        byHeight := byHeight - {byHash[header.hash].height};
      }
      headerHashes := Without(headerHashes, header.hash) + [header.hash];
      byHeight := byHeight[header.height := header];
      byHash := byHash[header.hash := header];
      EvictOldHeaders();
    }

    method SetHeader(height: int, header: Header) returns (r: Result<()>)
      requires Valid()
      modifies this
      ensures Valid() && (r.Ok? <==> header.height == height)
      ensures Contents() == if r.Ok? then AfterSet(old(Contents()), header, maxEntries) else old(Contents())
    {
      if header.height != height {
        return Err("BLOCK_HEADER_CACHE_HEIGHT_MISMATCH");
      }
      DoSet(header);
      return Ok(());
    }

    method DoClear()
      modifies this
      ensures Valid() && Contents() == []
    {
      byHeight, byHash, headerHashes := map[], map[], [];
    }

    method OnBlockMined(header: Option<Header>, blockHeight: Option<nat>)
      requires Valid()
      modifies this
      ensures Valid() && Contents() == After(old(Contents()), Mined(header, blockHeight), maxEntries)
    {
      if header.Some? {
        var _ := InvalidateFromHeight(header.value.height);
        DoSet(header.value);
      } else if blockHeight.Some? {
        var _ := InvalidateFromHeight(blockHeight.value);
      }
    }

    method OnReorg(depth: Option<int>, oldTip: Option<Header>, deactivated: seq<Header>)
      requires Valid()
      modifies this
      ensures Valid() && Contents() == After(old(Contents()), Reorg(depth, oldTip, deactivated), maxEntries)
    {
      if deactivated != [] {
        var i := 0;
        while i < |deactivated|
          invariant 0 <= i <= |deactivated| && Valid()
          invariant DropHashes(Contents(), deactivated[i..]) == DropHashes(old(Contents()), deactivated)
        {
          assert deactivated[i..][1..] == deactivated[i + 1..];
          FilterMembers(headerHashes, x => x != deactivated[i].hash);
          DoInvalidateHash(deactivated[i].hash);
          i := i + 1;
        }
      } else if oldTip.Some? && depth.Some? {
        var _ := InvalidateFromHeight(Max(0, oldTip.value.height - depth.value + 1));
      } else {
        DoClear();
      }
    }
  }

  // ----- Proofs about the indexes

  lemma {:induction false} LookupMembers(order: seq<string>, byHash: map<string, Header>)
    requires forall x :: x in order ==> x in byHash
    ensures forall h :: h in Lookup(order, byHash) <==> exists x :: x in order && byHash[x] == h
  {
    if order != [] {
      LookupMembers(order[1..], byHash);
      assert order == [order[0]] + order[1..];
    }
  }

  lemma {:induction false} LookupAt(order: seq<string>, byHash: map<string, Header>)
    requires forall x :: x in order ==> x in byHash
    ensures |Lookup(order, byHash)| == |order|
    ensures forall i :: 0 <= i < |order| ==> Lookup(order, byHash)[i] == byHash[order[i]]
  {
    if order != [] {
      LookupAt(order[1..], byHash);
    }
  }

  lemma {:induction false} LookupWithout(order: seq<string>, byHash: map<string, Header>, hash: string)
    requires forall x :: x in order ==> x in byHash && byHash[x].hash == x
    ensures forall x :: x in Without(order, hash) <==> x in order && x != hash
    ensures Lookup(Without(order, hash), byHash - {hash}) == DropHash(Lookup(order, byHash), hash)
  {
    FilterMembers(order, x => x != hash);
    if order != [] {
      var rest := order[1..];
      assert order == [order[0]] + rest;
      LookupWithout(rest, byHash, hash);
      assert Lookup(order, byHash)[1..] == Lookup(rest, byHash);
      if order[0] != hash {
        assert ([order[0]] + Without(rest, hash))[1..] == Without(rest, hash);
      }
    }
  }

  /** Deleting a cached hash from both indexes and the ordered set. */
  lemma RemovalKeepsInverse(byHeight: map<nat, Header>, byHash: map<string, Header>, order: seq<string>, hash: string)
    requires Inverse(byHeight, byHash, order) && hash in byHash
    ensures |Without(order, hash)| <= |order|
    ensures Inverse(byHeight - {byHash[hash].height}, byHash - {hash}, Without(order, hash))
    ensures Lookup(Without(order, hash), byHash - {hash}) == DropHash(Lookup(order, byHash), hash)
  {
    LookupWithout(order, byHash, hash);
    EnumeratesWithout(order, byHash, hash);
    MutualWithout(byHeight, byHash, hash);
  }

  lemma MutualWithout(byHeight: map<nat, Header>, byHash: map<string, Header>, hash: string)
    requires Mutual(byHeight, byHash) && hash in byHash
    ensures Mutual(byHeight - {byHash[hash].height}, byHash - {hash})
  {
  }

  lemma EnumeratesWithout(order: seq<string>, byHash: map<string, Header>, hash: string)
    requires Enumerates(order, byHash)
    ensures Enumerates(Without(order, hash), byHash - {hash}) && |Without(order, hash)| <= |order|
  {
    FilterMembers(order, x => x != hash);
    FilterNoDuplicates(order, x => x != hash);
  }

  lemma AbsentHash(byHeight: map<nat, Header>, byHash: map<string, Header>, order: seq<string>, hash: string)
    requires Inverse(byHeight, byHash, order) && hash !in byHash
    ensures Without(order, hash) == order && DropHash(Lookup(order, byHash), hash) == Lookup(order, byHash)
  {
    assert forall i :: 0 <= i < |order| ==> order[i] in order;
    FilterAll(order, x => x != hash);
    LookupAt(order, byHash);
    FilterAll(Lookup(order, byHash), (h: Header) => h.hash != hash);
  }

  lemma MemberIndexed(byHeight: map<nat, Header>, byHash: map<string, Header>, order: seq<string>, h: Header)
    requires Inverse(byHeight, byHash, order) && h in Lookup(order, byHash)
    ensures h.hash in byHash && byHash[h.hash] == h && h.height in byHeight && byHeight[h.height] == h
  {
    LookupMembers(order, byHash);
  }

  predicate UniqueKeys(cached: seq<Header>) {
    forall i, j :: 0 <= i < j < |cached| ==> cached[i].hash != cached[j].hash && cached[i].height != cached[j].height
  }

  lemma ContentsUnique(byHeight: map<nat, Header>, byHash: map<string, Header>, order: seq<string>)
    requires Inverse(byHeight, byHash, order)
    ensures UniqueKeys(Lookup(order, byHash))
    ensures forall i :: 0 <= i < |order| ==> i < |Lookup(order, byHash)| && Lookup(order, byHash)[i].hash == order[i]
  {
    LookupAt(order, byHash);
    assert forall i :: 0 <= i < |order| ==> order[i] in order;
  }

  /** In a list without repeated heights, dropping a height drops the hash that the height index holds. */
  lemma DropHeightIsDropHash(byHeight: map<nat, Header>, byHash: map<string, Header>, order: seq<string>, height: nat)
    requires Inverse(byHeight, byHash, order)
    ensures height in byHeight ==>
              DropHeight(Lookup(order, byHash), height) == DropHash(Lookup(order, byHash), byHeight[height].hash)
    ensures height !in byHeight ==> DropHeight(Lookup(order, byHash), height) == Lookup(order, byHash)
  {
    var cached := Lookup(order, byHash);
    forall i | 0 <= i < |cached|
      ensures cached[i].height in byHeight && byHeight[cached[i].height] == cached[i] && cached[i].hash in byHash
    {
      MemberIndexed(byHeight, byHash, order, cached[i]);
    }
    if height in byHeight {
      var hash := byHeight[height].hash;
      FilterAgrees(cached, (h: Header) => h.height != height, (h: Header) => h.hash != hash);
    } else {
      FilterAll(cached, (h: Header) => h.height != height);
    }
  }

  lemma DropOldest(cached: seq<Header>, i: nat)
    requires UniqueKeys(cached) && i < |cached|
    ensures DropHash(cached[i..], cached[i].hash) == cached[i + 1..]
  {
    var hash := cached[i].hash;
    assert cached[i..][1..] == cached[i + 1..];
    FilterAll(cached[i + 1..], (h: Header) => h.hash != hash);
  }

  /** One turn of the loop of InvalidateFromHeight, on the list of headers. */
  lemma KeepBelowStep(cached: seq<Header>, i: nat, height: int)
    requires UniqueKeys(cached) && i < |cached|
    ensures cached[i].height < height ==>
              KeepBelow(cached[..i + 1], height) + cached[i + 1..] == KeepBelow(cached[..i], height) + cached[i..]
    ensures cached[i].height >= height ==>
              KeepBelow(cached[..i + 1], height) + cached[i + 1..]
              == DropHash(KeepBelow(cached[..i], height) + cached[i..], cached[i].hash)
  {
    var below := (h: Header) => h.height < height;
    assert cached[..i + 1] == cached[..i] + [cached[i]];
    FilterSnoc(cached[..i], cached[i], below);
    if cached[i].height < height {
      assert cached[i..] == [cached[i]] + cached[i + 1..];
    } else {
      var hash := cached[i].hash;
      var kept := KeepBelow(cached[..i], height);
      FilterConcat(kept, cached[i..], (h: Header) => h.hash != hash);
      DropOldest(cached, i);
      FilterMembers(cached[..i], below);
      assert forall k :: 0 <= k < |kept| ==> kept[k] in kept;
      FilterAll(kept, (h: Header) => h.hash != hash);
    }
  }

  lemma NextIsCached(cached: seq<Header>, i: nat, height: int)
    requires i < |cached|
    ensures cached[i] in KeepBelow(cached[..i], height) + cached[i..]
  {
    assert cached[i..][0] == cached[i];
  }

  lemma {:induction false} RemovedOne(order: seq<string>, hash: string)
    requires NoDuplicates(order) && hash in order
    ensures |Without(order, hash)| == |order| - 1
  {
    if order[0] == hash {
      assert forall i :: 0 <= i < |order[1..]| ==> order[1..][i] != hash;
      FilterAll(order[1..], x => x != hash);
    } else {
      RemovedOne(order[1..], hash);
    }
  }

  lemma FreshKeepsInverse(byHeight: map<nat, Header>, byHash: map<string, Header>, order: seq<string>, header: Header)
    requires Inverse(byHeight, byHash, order) && header.height !in byHeight && header.hash !in byHash
    ensures Inverse(byHeight[header.height := header], byHash[header.hash := header], order + [header.hash])
    ensures Lookup(order + [header.hash], byHash[header.hash := header]) == Lookup(order, byHash) + [header]
  {
    LookupAt(order, byHash);
    LookupAt(order + [header.hash], byHash[header.hash := header]);
    assert forall i :: 0 <= i < |order| ==> order[i] in order;
  }

  /** Deleting whatever the height index has under a height. */
  lemma HeightRemovalKeepsInverse(byHeight: map<nat, Header>, byHash: map<string, Header>, order: seq<string>,
                                  height: nat)
    requires Inverse(byHeight, byHash, order) && height in byHeight
    ensures var hash := byHeight[height].hash;
            && Inverse(byHeight - {height}, byHash - {hash}, Without(order, hash))
            && Lookup(Without(order, hash), byHash - {hash}) == DropHeight(Lookup(order, byHash), height)
  {
    DropHeightIsDropHash(byHeight, byHash, order, height);
    RemovalKeepsInverse(byHeight, byHash, order, byHeight[height].hash);
  }

  lemma RemoveThenStore<K, V>(m: map<K, V>, k: K, v: V)
    ensures (m - {k})[k := v] == m[k := v]
  {
  }

  lemma RemoveTwoThenStore<K, V>(m: map<K, V>, k: K, j: K, v: V)
    ensures (m - {k} - {j})[k := v] == (m - {j})[k := v]
  {
  }

  /** Storing a header whose height is free but whose hash may be cached under another height. */
  lemma StoreAtFreeHeight(byHeight: map<nat, Header>, byHash: map<string, Header>, order: seq<string>, header: Header)
    requires Inverse(byHeight, byHash, order) && header.height !in byHeight
    ensures
      var byHeight1 := if header.hash in byHash then byHeight - {byHash[header.hash].height} else byHeight;
      var order1 := Without(order, header.hash) + [header.hash];
      && Inverse(byHeight1[header.height := header], byHash[header.hash := header], order1)
      && Lookup(order1, byHash[header.hash := header]) == DropHash(Lookup(order, byHash), header.hash) + [header]
  {
    if header.hash in byHash {
      RemovalKeepsInverse(byHeight, byHash, order, header.hash);
      FreshKeepsInverse(byHeight - {byHash[header.hash].height}, byHash - {header.hash}, Without(order, header.hash),
                        header);
      RemoveThenStore(byHash, header.hash, header);
    } else {
      AbsentHash(byHeight, byHash, order, header.hash);
      FreshKeepsInverse(byHeight, byHash, order, header);
    }
  }

  /** The three indexes after the updates of set, before eviction. */
  function SetIndexes(byHeight: map<nat, Header>, byHash: map<string, Header>, order: seq<string>, header: Header)
    : (map<nat, Header>, map<string, Header>, seq<string>)
  {
    var conflict := header.height in byHeight && byHeight[header.height].hash != header.hash;
    var byHash1 := if conflict then byHash - {byHeight[header.height].hash} else byHash;
    var order1 := if conflict then Without(order, byHeight[header.height].hash) else order;
    var moved := header.hash in byHash1 && byHash1[header.hash].height != header.height;
    var byHeight1 := if moved then byHeight - {byHash1[header.hash].height} else byHeight;
    (byHeight1[header.height := header], byHash1[header.hash := header], Without(order1, header.hash) + [header.hash])
  }

  /** What set must achieve before eviction: the old headers without the new one's height and hash, then the new one. */
  ghost predicate StoresNewest(byHeight: map<nat, Header>, byHash: map<string, Header>, order: seq<string>,
                               cached: seq<Header>, header: Header)
  {
    && Inverse(byHeight, byHash, order)
    && Lookup(order, byHash) == DropHash(DropHeight(cached, header.height), header.hash) + [header]
  }

  lemma SetSameHash(byHeight: map<nat, Header>, byHash: map<string, Header>, order: seq<string>, header: Header)
    requires Inverse(byHeight, byHash, order)
    requires header.height in byHeight && byHeight[header.height].hash == header.hash
    ensures StoresNewest(byHeight[header.height := header], byHash[header.hash := header],
                         Without(order, header.hash) + [header.hash], Lookup(order, byHash), header)
  {
    var bh, bx, o := byHeight - {header.height}, byHash - {header.hash}, Without(order, header.hash);
    HeightRemovalKeepsInverse(byHeight, byHash, order, header.height);
    StoreAtFreeHeight(bh, bx, o, header);
    WithoutTwice(order, header.hash);
    RemoveThenStore(byHash, header.hash, header);
    RemoveThenStore(byHeight, header.height, header);
  }

  lemma SetOtherHash(byHeight: map<nat, Header>, byHash: map<string, Header>, order: seq<string>, header: Header)
    requires Inverse(byHeight, byHash, order)
    requires header.height in byHeight && byHeight[header.height].hash != header.hash
    ensures var (bh, bx, o) := SetIndexes(byHeight, byHash, order, header);
            StoresNewest(bh, bx, o, Lookup(order, byHash), header)
  {
    var previous := byHeight[header.height];
    var bh, bx, o := byHeight - {header.height}, byHash - {previous.hash}, Without(order, previous.hash);
    HeightRemovalKeepsInverse(byHeight, byHash, order, header.height);
    StoreAtFreeHeight(bh, bx, o, header);
    RemoveThenStore(byHeight, header.height, header);
    if header.hash in bx {
      var moved := bx[header.hash].height;
      assert moved in bh;
      RemoveTwoThenStore(byHeight, header.height, moved, header);
    }
  }

  /** set drops the height, drops the hash and appends. */
  lemma SetKeepsInverse(byHeight: map<nat, Header>, byHash: map<string, Header>, order: seq<string>, header: Header)
    requires Inverse(byHeight, byHash, order)
    ensures var (bh, bx, o) := SetIndexes(byHeight, byHash, order, header);
            Inverse(bh, bx, o) && Lookup(o, bx)
              == Filter(Lookup(order, byHash), (h: Header) => h.height != header.height && h.hash != header.hash) +
                  [header]
  {
    DropTwice(Lookup(order, byHash), header);
    if header.height !in byHeight {
      DropHeightIsDropHash(byHeight, byHash, order, header.height);
      StoreAtFreeHeight(byHeight, byHash, order, header);
    } else if byHeight[header.height].hash == header.hash {
      SetSameHash(byHeight, byHash, order, header);
    } else {
      SetOtherHash(byHeight, byHash, order, header);
    }
  }

  lemma WithoutTwice(order: seq<string>, hash: string)
    ensures Without(Without(order, hash), hash) == Without(order, hash)
  {
    FilterMembers(order, x => x != hash);
    var once := Without(order, hash);
    assert forall i :: 0 <= i < |once| ==> once[i] in once;
    FilterAll(once, x => x != hash);
  }

  lemma {:induction false} DropTwice(cached: seq<Header>, header: Header)
    ensures DropHash(DropHeight(cached, header.height), header.hash)
         == Filter(cached, (h: Header) => h.height != header.height && h.hash != header.hash)
  {
    if cached != [] {
      DropTwice(cached[1..], header);
      if cached[0].height != header.height {
        assert DropHeight(cached, header.height)[1..] == DropHeight(cached[1..], header.height);
      }
    }
  }

  // ----- What every run of operations, events and expiries keeps

  lemma {:induction false} FilterUnique(cached: seq<Header>, p: Header -> bool)
    requires UniqueKeys(cached)
    ensures UniqueKeys(Filter(cached, p))
  {
    if cached != [] {
      FilterUnique(cached[1..], p);
      FilterMembers(cached[1..], p);
      var rest := Filter(cached[1..], p);
      assert forall i :: 0 <= i < |rest| ==> rest[i] in rest;
    }
  }

  lemma SetUnique(cached: seq<Header>, header: Header, maxEntries: int)
    requires UniqueKeys(cached)
    ensures UniqueKeys(AfterSet(cached, header, maxEntries)) &&
            |AfterSet(cached, header, maxEntries)| <= Max(0, maxEntries)
  {
    var others := (h: Header) => h.height != header.height && h.hash != header.hash;
    FilterUnique(cached, others);
    FilterMembers(cached, others);
    var kept := Filter(cached, others);
    assert forall i :: 0 <= i < |kept| ==> kept[i] in kept;
  }

  lemma {:induction false} DropHashesUnique(cached: seq<Header>, gone: seq<Header>)
    requires UniqueKeys(cached)
    ensures UniqueKeys(DropHashes(cached, gone)) && |DropHashes(cached, gone)| <= |cached|
    ensures forall h :: h in DropHashes(cached, gone) <==>
                        h in cached && forall i :: 0 <= i < |gone| ==> gone[i].hash != h.hash
    decreases |gone|
  {
    if gone != [] {
      var hash := gone[0].hash;
      FilterUnique(cached, (h: Header) => h.hash != hash);
      FilterMembers(cached, (h: Header) => h.hash != hash);
      DropHashesUnique(DropHash(cached, hash), gone[1..]);
      assert forall i :: 0 < i < |gone| ==> gone[i] == gone[1..][i - 1];
    }
  }

  /** After any run no two cached headers share a height or a hash, and at most maxEntries are cached. */
  lemma {:induction false} RunUniqueAndBounded(events: seq<Event>, maxEntries: int)
    ensures UniqueKeys(Run(events, maxEntries)) && |Run(events, maxEntries)| <= Max(0, maxEntries)
  {
    if events != [] {
      var cached := Run(events[..|events| - 1], maxEntries);
      RunUniqueAndBounded(events[..|events| - 1], maxEntries);
      match events[|events| - 1]
      case Set(h) => SetUnique(cached, h, maxEntries);
      case InvalidateHeight(n) => FilterShrinks(cached, (h: Header) => h.height != n);
      case InvalidateHash(x) => FilterShrinks(cached, (h: Header) => h.hash != x);
      case HeightKeyExpired(n) => FilterShrinks(cached, (h: Header) => h.height != n);
      case HashKeyExpired(x) => FilterShrinks(cached, (h: Header) => h.hash != x);
      case Mined(header, blockHeight) =>
        if header.Some? {
          KeepBelowUnique(cached, header.value.height);
          SetUnique(KeepBelow(cached, header.value.height), header.value, maxEntries);
        } else if blockHeight.Some? {
          KeepBelowUnique(cached, blockHeight.value);
        }
      case Reorg(depth, oldTip, deactivated) =>
        DropHashesUnique(cached, deactivated);
        if oldTip.Some? && depth.Some? {
          KeepBelowUnique(cached, Max(0, oldTip.value.height - depth.value + 1));
        }
      case Clear =>
    }
  }

  lemma FilterShrinks(cached: seq<Header>, p: Header -> bool)
    requires UniqueKeys(cached)
    ensures UniqueKeys(Filter(cached, p)) && |Filter(cached, p)| <= |cached|
  {
    FilterUnique(cached, p);
    FilterMembers(cached, p);
  }

  lemma KeepBelowUnique(cached: seq<Header>, height: int)
    requires UniqueKeys(cached)
    ensures UniqueKeys(KeepBelow(cached, height)) && |KeepBelow(cached, height)| <= |cached|
  {
    FilterShrinks(cached, (h: Header) => h.height < height);
  }

  /** A reorg that reports only its depth removes exactly the headers above oldTip.height - depth. */
  lemma ReorgByDepthRemovesExactly(cached: seq<Header>, depth: int, oldTip: Header, maxEntries: int, h: Header)
    ensures h in After(cached, Reorg(Some(depth), Some(oldTip), []), maxEntries)
       <==> h in cached && !(h.height > oldTip.height - depth)
  {
    var bound := Max(0, oldTip.height - depth + 1);
    FilterMembers(cached, (x: Header) => x.height < bound);
  }

  /** A reorg that lists its deactivated headers removes exactly those hashes. */
  lemma ReorgByListRemovesExactly(cached: seq<Header>, depth: Option<int>, oldTip: Option<Header>, gone: seq<Header>,
                                  maxEntries: int, h: Header)
    requires gone != [] && UniqueKeys(cached)
    ensures h in After(cached, Reorg(depth, oldTip, gone), maxEntries)
       <==> h in cached && forall i :: 0 <= i < |gone| ==> gone[i].hash != h.hash
  {
    DropHashesUnique(cached, gone);
  }

  /** After a mined header is reported, it is the newest entry and every other cached header lies below it. */
  lemma MinedHeaderIsTheTip(cached: seq<Header>, header: Header, maxEntries: int)
    requires maxEntries > 0
    ensures var after := After(cached, Mined(Some(header), None), maxEntries);
            && after != [] && after[|after| - 1] == header
            && forall h :: h in after[..|after| - 1] ==>
                 h in cached && h.height < header.height && h.hash != header.hash
  {
    var below := KeepBelow(cached, header.height);
    var others := (h: Header) => h.height != header.height && h.hash != header.hash;
    FilterMembers(cached, (h: Header) => h.height < header.height);
    FilterMembers(below, others);
    NewestOfSnoc(Filter(below, others), header, maxEntries);
  }

  lemma NewestOfSnoc(kept: seq<Header>, header: Header, n: int)
    requires n > 0
    ensures var after := Newest(kept + [header], n);
            after != [] && after[|after| - 1] == header && forall h :: h in after[..|after| - 1] ==> h in kept
  {
  }

  /** A full cache makes room for an unrelated header by dropping its oldest entry, and only that. */
  lemma EvictionIsFirstInFirstOut(cached: seq<Header>, header: Header, maxEntries: int)
    requires 0 < maxEntries == |cached|
    requires forall i :: 0 <= i < |cached| ==> cached[i].height != header.height && cached[i].hash != header.hash
    ensures AfterSet(cached, header, maxEntries) == cached[1..] + [header]
  {
    FilterAll(cached, (h: Header) => h.height != header.height && h.hash != header.hash);
  }
}
