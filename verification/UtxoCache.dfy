/**
 * The UTXO status cache: an LRU cache whose removals call back into a secondary index by
 * outpoint, and a generation counter that guards asynchronous loads.
 */
module UtxoCache {
  import opened Common

  datatype Query = Query(format: string, output: string, outpoint: string)

  datatype UtxoResult = UtxoResult(status: string, isUtxo: Option<bool>, details: seq<(int, int)>)

  /** A cached result, with the outpoint of the query that stored it. */
  datatype Entry = Entry(outpoint: string, result: UtxoResult)

  predicate Cacheable(r: UtxoResult) { r.status == "success" && r.isUtxo.Some? }

  function MakeKey(q: Query): string {
    (if q.format == "" then "hashLE" else q.format) + ":" + q.output + ":" + q.outpoint
  }

  /** The part of a key after its last colon. */
  function AfterLastColon(key: string): (r: string)
    ensures ':' !in key ==> r == key
  {
    if key == [] then []
    else if ':' in key[1..] then AfterLastColon(key[1..])
    else if key[0] == ':' then key[1..]
    else key
  }

  type Index = map<string, set<string>>

  /** The dispose callback: forget a removed key, and its group when that was the last key. */
  function Forget(index: Index, key: string): Index {
    var outpoint := AfterLastColon(key);
    if outpoint !in index then index
    else if index[outpoint] - {key} == {} then index - {outpoint}
    else index[outpoint := index[outpoint] - {key}]
  }

  function Remember(index: Index, outpoint: string, key: string): Index {
    index[outpoint := (if outpoint in index then index[outpoint] else {}) + {key}]
  }

  function KeysOf(cache: map<string, Entry>, outpoint: string): set<string> {
    set k | k in cache && cache[k].outpoint == outpoint
  }

  /** The live keys grouped by outpoint, without empty groups. */
  ghost predicate Groups(index: Index, cache: map<string, Entry>) {
    && (forall o :: o in index <==> KeysOf(cache, o) != {})
    && (forall o :: o in index ==> index[o] == KeysOf(cache, o))
  }

  // ----- The cache as a value, and its events

  /** A load in flight: the query, the generation in which it began, and whether it has ended. */
  datatype Load = Load(query: Query, generation: nat, ended: bool)

  datatype State = State(cache: map<string, Entry>, inFlight: map<string, nat>, generation: nat, loads: seq<Load>)

  datatype Event =
    | Begin(query: Query)                          // getOrLoad on a miss with no load of the key in flight
    | Finish(load: nat, outcome: Result<UtxoResult>)
    | Store(query: Query, result: UtxoResult)      // set
    | Remove(key: string)                          // LRU eviction or expiry of one key
    | Invalidate(outpoint: string)
    | InvalidateBlock(outpoints: seq<string>)      // invalidateByBlock with outpoints
    | Clear

  const Empty := State(map[], map[], 0, [])

  function Stored(cache: map<string, Entry>, q: Query, r: UtxoResult): map<string, Entry> {
    if Cacheable(r) then cache[MakeKey(q) := Entry(q.outpoint, r)] else cache
  }

  function WithoutOutpoint(cache: map<string, Entry>, outpoint: string): map<string, Entry> {
    cache - KeysOf(cache, outpoint)
  }

  function WithoutOutpoints(cache: map<string, Entry>, outpoints: seq<string>): map<string, Entry>
    decreases |outpoints|
  {
    if outpoints == [] then cache else WithoutOutpoints(WithoutOutpoint(cache, outpoints[0]), outpoints[1..])
  }

  function Next(s: State, e: Event): State {
    match e
    case Begin(q) =>
      s.(inFlight := s.inFlight[MakeKey(q) := |s.loads|], loads := s.loads + [Load(q, s.generation, false)])
    case Finish(l, outcome) =>
      if l >= |s.loads| || s.loads[l].ended then s else
      var load := s.loads[l];
      State(if outcome.Ok? && load.generation == s.generation then Stored(s.cache, load.query, outcome.value)
            else s.cache,
            s.inFlight - {MakeKey(load.query)}, s.generation, s.loads[l := load.(ended := true)])
    case Store(q, r) => s.(cache := Stored(s.cache, q, r))
    case Remove(k) => s.(cache := s.cache - {k})
    case Invalidate(o) => s.(cache := WithoutOutpoint(s.cache, o), generation := s.generation + 1)
    case InvalidateBlock(os) => s.(cache := WithoutOutpoints(s.cache, os), generation := s.generation + 1)
    case Clear => State(map[], map[], s.generation + 1, s.loads)
  }

  /** The state that events lead to. */
  function Continue(s: State, events: seq<Event>): State {
    if events == [] then s else Next(Continue(s, events[..|events| - 1]), events[|events| - 1])
  }

  function Run(events: seq<Event>): State { Continue(Empty, events) }

  class UtxoCacheManager {
    var cache: map<string, Entry>
    var inFlight: map<string, nat>
    var outpointKeys: Index
    var generation: nat
    var loads: seq<Load>

    /** Keys carry the outpoint of their entry after the last colon, and the index groups them by it. */
    ghost predicate Valid()
      reads this
    {
      && Groups(outpointKeys, cache)
      && forall k :: k in cache ==> AfterLastColon(k) == cache[k].outpoint && Cacheable(cache[k].result)
    }

    ghost function View(): State
      reads this
    {
      State(cache, inFlight, generation, loads)
    }

    constructor ()
      ensures Valid() && View() == Empty
    {
      cache, inFlight, outpointKeys, generation, loads := map[], map[], map[], 0, [];
    }

    /** The cache library removes a key (eviction, expiry, deletion) and calls dispose. */
    method RemoveKey(key: string) returns (removed: bool)
      requires Valid()
      modifies this`cache, this`outpointKeys
      ensures Valid() && cache == old(cache) - {key} && removed == (key in old(cache))
    {
      removed := key in cache;
      if removed {
        ForgetKeepsGroups(outpointKeys, cache, key);
        cache := cache - {key};
        outpointKeys := Forget(outpointKeys, key);
      }
    }

    /** Storing keeps the index by outpoint exactly if the outpoint can be read off the key. */
    method Set(query: Query, result: UtxoResult)
      requires Valid()
      modifies this`cache, this`outpointKeys
      ensures View() == Next(old(View()), Store(query, result))
      ensures Valid() <==> ':' !in query.outpoint || !Cacheable(result)
    {
      if result.status != "success" || result.isUtxo.None? {
        return;
      }
      var key := MakeKey(query);
      KeyRecoversOutpoint(query);
      if key in cache {
        // overwriting disposes of the old value under the same key
        var _ := RemoveKey(key);
      }
      AddKey(key, Entry(query.outpoint, result));
    }

    method AddKey(key: string, entry: Entry)
      requires Valid() && key !in cache && Cacheable(entry.result)
      modifies this`cache, this`outpointKeys
      ensures cache == old(cache)[key := entry] && (Valid() <==> AfterLastColon(key) == entry.outpoint)
    {
      RememberKeepsGroups(outpointKeys, cache, key, entry);
      cache := cache[key := entry];
      outpointKeys := Remember(outpointKeys, entry.outpoint, key);
    }

    /** getOrLoad up to its first await; expired tells whether the library finds the key expired. */
    method BeginGetOrLoad(query: Query, expired: bool) returns (hit: Option<UtxoResult>, load: nat)
      requires Valid()
      modifies this
      ensures Valid()
      ensures var cache' := if expired then old(cache) - {MakeKey(query)} else old(cache);
              var joined := MakeKey(query) in old(inFlight);
              && hit == (if MakeKey(query) in cache' then Some(cache'[MakeKey(query)].result) else None)
              && View() == (if hit.Some? || joined then old(View()).(cache := cache')
                            else Next(old(View()).(cache := cache'), Begin(query)))
              && (hit.None? && joined ==> load == old(inFlight)[MakeKey(query)])
              && (hit.None? && !joined ==> load == |old(loads)|)
    {
      var key := MakeKey(query);
      load := 0;
      if expired {
        var _ := RemoveKey(key);
      }
      if key in cache {
        return Some(cache[key].result), load;
      }
      if key in inFlight {
        return None, inFlight[key];
      }
      load := |loads|;
      loads := loads + [Load(query, generation, false)];
      inFlight := inFlight[key := load];
      return None, load;
    }

    /** The continuation of a load. */
    method FinishLoad(l: nat, outcome: Result<UtxoResult>)
      requires Valid() && l < |loads| && !loads[l].ended
      modifies this
      ensures View() == Next(old(View()), Finish(l, outcome))
      ensures Valid() <==> var load := old(loads)[l];
                           || ':' !in load.query.outpoint || outcome.Err? || !Cacheable(outcome.value)
                           || load.generation != old(generation)
    {
      var load := loads[l];
      if outcome.Ok? && Cacheable(outcome.value) && load.generation == generation {
        Set(load.query, outcome.value);
      }
      inFlight := inFlight - {MakeKey(load.query)};
      loads := loads[l := load.(ended := true)];
    }

    /** getUtxoStatus; expired are the keys that the library finds expired. */
    method GetUtxoStatus(outpoint: string, expired: set<string>) returns (r: Option<bool>)
      requires Valid()
      modifies this`cache, this`outpointKeys
      ensures Valid()
      ensures forall k :: k in cache ==> k in old(cache) && cache[k] == old(cache)[k]
      ensures forall k :: k in old(cache) && k !in cache ==> k in expired && old(cache)[k].outpoint == outpoint
      ensures r.None? ==> KeysOf(cache, outpoint) == {}
      ensures r.Some? ==> exists k :: k in KeysOf(cache, outpoint) && cache[k].result.isUtxo == r
    {
      if outpoint !in outpointKeys {
        return None;
      }
      var keys := outpointKeys[outpoint];
      var todo := keys;
      while todo != {}
        invariant Valid() && Emptying(old(cache), cache, outpoint, keys, todo) && keys - todo <= expired
        decreases |todo|
      {
        var key :| key in todo;
        EmptyingStep(old(cache), cache, outpoint, keys, todo, key);
        if key in expired {
          var _ := RemoveKey(key);
          todo := todo - {key};
        } else {
          return cache[key].result.isUtxo;
        }
      }
      outpointKeys := outpointKeys - {outpoint};
      return None;
    }

    method InvalidateOutpoint(outpoint: string) returns (removed: nat)
      requires Valid()
      modifies this
      ensures Valid() && View() == Next(old(View()), Invalidate(outpoint))
      ensures removed == |KeysOf(old(cache), outpoint)|
    {
      generation := generation + 1;
      if outpoint !in outpointKeys {
        assert KeysOf(cache, outpoint) == {};
        return 0;
      }
      removed := DeleteGroup(outpoint);
    }

    /** The loop over one group that the invalidation methods share. */
    method DeleteGroup(outpoint: string) returns (removed: nat)
      requires Valid() && outpoint in outpointKeys
      modifies this`cache, this`outpointKeys
      ensures Valid() && cache == WithoutOutpoint(old(cache), outpoint)
      ensures removed == |KeysOf(old(cache), outpoint)|
    {
      removed := 0;
      var keys := outpointKeys[outpoint];
      var todo := keys;
      while todo != {}
        invariant Valid() && Emptying(old(cache), cache, outpoint, keys, todo)
        invariant removed + |todo| == |keys|
        decreases |todo|
      {
        var key :| key in todo;
        EmptyingStep(old(cache), cache, outpoint, keys, todo, key);
        var one := RemoveKey(key);
        if one {
          removed := removed + 1;
        }
        todo := todo - {key};
      }
      outpointKeys := outpointKeys - {outpoint};
    }

    method InvalidateByBlock(outpoints: Option<seq<string>>)
      requires Valid()
      modifies this
      ensures Valid()
      ensures View() == Next(old(View()), if outpoints.Some? then InvalidateBlock(outpoints.value) else Clear)
    {
      if outpoints.None? {
        ClearAll();
        return;
      }
      generation := generation + 1;
      var i := 0;
      while i < |outpoints.value|
        invariant 0 <= i <= |outpoints.value| && Valid()
        invariant WithoutOutpoints(cache, outpoints.value[i..]) == WithoutOutpoints(old(cache), outpoints.value)
        invariant generation == old(generation) + 1 && inFlight == old(inFlight) && loads == old(loads)
      {
        var outpoint := outpoints.value[i];
        assert outpoints.value[i..][1..] == outpoints.value[i + 1..];
        if outpoint in outpointKeys {
          var _ := DeleteGroup(outpoint);
        } else {
          assert KeysOf(cache, outpoint) == {};
          assert WithoutOutpoint(cache, outpoint) == cache;
        }
        i := i + 1;
      }
    }

    method ClearAll()
      modifies this
      ensures Valid() && View() == Next(old(View()), Clear)
    {
      generation := generation + 1;
      cache, inFlight, outpointKeys := map[], map[], map[];
    }
  }

  // ----- Keys

  lemma {:induction false} AfterColon(prefix: string, outpoint: string)
    ensures AfterLastColon(prefix + ":" + outpoint) == if ':' in outpoint then AfterLastColon(outpoint) else outpoint
  {
    var key := prefix + ":" + outpoint;
    if prefix == [] {
      assert key[1..] == outpoint;
    } else {
      assert key[1..] == prefix[1..] + ":" + outpoint;
      assert key[1..][|prefix| - 1] == ':';
      AfterColon(prefix[1..], outpoint);
    }
  }

  lemma {:induction false} AfterColonIsShorter(s: string)
    ensures ':' in s ==> |AfterLastColon(s)| < |s|
  {
    if s != [] && ':' in s[1..] {
      AfterColonIsShorter(s[1..]);
    }
  }

  /** The dispose callback recovers the outpoint of a key exactly when the outpoint has no colon. */
  lemma KeyRecoversOutpoint(q: Query)
    ensures AfterLastColon(MakeKey(q)) == q.outpoint <==> ':' !in q.outpoint
  {
    var prefix := (if q.format == "" then "hashLE" else q.format) + ":" + q.output;
    assert MakeKey(q) == prefix + ":" + q.outpoint;
    AfterColon(prefix, q.outpoint);
    AfterColonIsShorter(q.outpoint);
  }

  lemma LastColonSplits(a: string, b: string, c: string, d: string)
    requires ':' !in b && ':' !in d
    ensures a + ":" + b == c + ":" + d <==> a == c && b == d
  {
    var s, t := a + ":" + b, c + ":" + d;
    if s == t {
      assert s[|a|] == ':' && forall k :: |a| < k < |s| ==> s[k] == b[k - |a| - 1] && s[k] in b;
      assert t[|c|] == ':' && forall k :: |c| < k < |t| ==> t[k] == d[k - |c| - 1] && t[k] in d;
      assert |a| == |c|;
      assert s[..|a|] == a && t[..|c|] == c && s[|a| + 1..] == b && t[|c| + 1..] == d;
    }
  }

  lemma FirstColonSplits(a: string, b: string, c: string, d: string)
    requires ':' !in a && ':' !in c
    ensures a + ":" + b == c + ":" + d <==> a == c && b == d
  {
    var s, t := a + ":" + b, c + ":" + d;
    if s == t {
      assert s[|a|] == ':' && forall k :: 0 <= k < |a| ==> s[k] == a[k] && s[k] in a;
      assert t[|c|] == ':' && forall k :: 0 <= k < |c| ==> t[k] == c[k] && t[k] in c;
      assert |a| == |c|;
      assert s[..|a|] == a && t[..|c|] == c && s[|a| + 1..] == b && t[|c| + 1..] == d;
    }
  }

  function FormatOf(q: Query): string { if q.format == "" then "hashLE" else q.format }

  /**
   * Two queries share a key exactly when they ask for the same output in the same format, hashLE by
   * default, and outpoint -- if the outpoints, and either the outputs or the formats, have no colon.
   */
  lemma KeysIdentifyQueries(a: Query, b: Query)
    requires ':' !in a.outpoint && ':' !in b.outpoint
    requires (':' !in a.output && ':' !in b.output) || (':' !in FormatOf(a) && ':' !in FormatOf(b))
    ensures MakeKey(a) == MakeKey(b) <==> FormatOf(a) == FormatOf(b) && a.output == b.output && a.outpoint == b.outpoint
  {
    var x, y := FormatOf(a) + ":" + a.output, FormatOf(b) + ":" + b.output;
    assert MakeKey(a) == x + ":" + a.outpoint && MakeKey(b) == y + ":" + b.outpoint;
    LastColonSplits(x, a.outpoint, y, b.outpoint);
    if ':' !in a.output && ':' !in b.output {
      LastColonSplits(FormatOf(a), a.output, FormatOf(b), b.output);
    } else {
      FirstColonSplits(FormatOf(a), a.output, FormatOf(b), b.output);
    }
  }

  /** Storing one result and removing it again leaves the index empty exactly when the outpoint has no colon. */
  lemma StoreThenRemoveClearsIndex(q: Query)
    ensures Forget(Remember(map[], q.outpoint, MakeKey(q)), MakeKey(q)) == map[] <==> ':' !in q.outpoint
  {
    KeyRecoversOutpoint(q);
    var index := Remember(map[], q.outpoint, MakeKey(q));
    assert index[q.outpoint] == {MakeKey(q)};
    if ':' in q.outpoint {
      assert Forget(index, MakeKey(q)) == index && q.outpoint in index;
    }
  }

  // ----- The index

  lemma ForgetKeepsGroups(index: Index, cache: map<string, Entry>, key: string)
    requires Groups(index, cache) && key in cache && AfterLastColon(key) == cache[key].outpoint
    ensures Groups(Forget(index, key), cache - {key})
  {
    forall o
      ensures KeysOf(cache - {key}, o) == KeysOf(cache, o) - {key}
      ensures o != cache[key].outpoint ==> KeysOf(cache, o) - {key} == KeysOf(cache, o)
    {
    }
    assert key in KeysOf(cache, cache[key].outpoint);
  }

  lemma RememberKeepsGroups(index: Index, cache: map<string, Entry>, key: string, entry: Entry)
    requires Groups(index, cache) && key !in cache
    ensures Groups(Remember(index, entry.outpoint, key), cache[key := entry])
  {
    forall o
      ensures KeysOf(cache[key := entry], o) == KeysOf(cache, o) + (if o == entry.outpoint then {key} else {})
    {
    }
  }

  /** The group of an outpoint while its keys are being removed: only those of todo are left. */
  ghost predicate Emptying(start: map<string, Entry>, cache: map<string, Entry>, outpoint: string, keys: set<string>,
                           todo: set<string>) {
    && todo <= keys == KeysOf(start, outpoint)
    && cache == start - (keys - todo) && KeysOf(cache, outpoint) == todo
  }

  lemma EmptyingStep(start: map<string, Entry>, cache: map<string, Entry>, outpoint: string, keys: set<string>,
                     todo: set<string>, key: string)
    requires Emptying(start, cache, outpoint, keys, todo) && key in todo
    ensures key in cache && cache[key] == start[key] && cache[key].outpoint == outpoint
    ensures Emptying(start, cache - {key}, outpoint, keys, todo - {key})
  {
    assert key in KeysOf(cache, outpoint);
    assert keys - (todo - {key}) == (keys - todo) + {key};
    assert start - (keys - todo) - {key} == start - ((keys - todo) + {key});
    assert KeysOf(cache - {key}, outpoint) == todo - {key};
  }

  // ----- Loads and generations, over whole runs

  predicate Invalidates(e: Event) {
    e.Invalidate? || e.InvalidateBlock? || e.Clear?
  }

  function CountInvalidations(events: seq<Event>): nat {
    if events == [] then 0
    else CountInvalidations(events[..|events| - 1]) + if Invalidates(events[|events| - 1]) then 1 else 0
  }

  /** The generation counts invalidations, and a load keeps the generation in which it began. */
  lemma {:induction false} GenerationCounts(s: State, events: seq<Event>)
    ensures var s' := Continue(s, events);
            && s'.generation == s.generation + CountInvalidations(events)
            && |s.loads| <= |s'.loads|
            && forall l :: 0 <= l < |s.loads| ==>
                 s'.loads[l].query == s.loads[l].query && s'.loads[l].generation == s.loads[l].generation
  {
    if events != [] {
      GenerationCounts(s, events[..|events| - 1]);
    }
  }

  /**
   * A load that begins now and ends after any further events stores its result exactly when the
   * result is cacheable and none of those events was an invalidation -- of whatever outpoint.
   */
  lemma StoredExactlyWhenNotInvalidated(s: State, q: Query, events: seq<Event>, r: UtxoResult)
    requires var l, s' := |s.loads|, Continue(Next(s, Begin(q)), events);
             l < |s'.loads| && !s'.loads[l].ended
    ensures var l, s' := |s.loads|, Continue(Next(s, Begin(q)), events);
            Next(s', Finish(l, Ok(r))).cache ==
            if Cacheable(r) && CountInvalidations(events) == 0 then s'.cache[MakeKey(q) := Entry(q.outpoint, r)]
                else s'.cache
  {
    GenerationCounts(Next(s, Begin(q)), events);
    assert Next(s, Begin(q)).loads[|s.loads|] == Load(q, s.generation, false);
  }

  // ----- Sharing of loads in flight

  predicate Pending(s: State, l: int) { 0 <= l < |s.loads| && !s.loads[l].ended }

  function KeyOf(s: State, l: int): string
    requires 0 <= l < |s.loads|
  {
    MakeKey(s.loads[l].query)
  }

  predicate InFlight(s: State, l: int)
    requires 0 <= l < |s.loads|
  {
    KeyOf(s, l) in s.inFlight && s.inFlight[KeyOf(s, l)] == l
  }

  /** Every entry of the in-flight table is a pending load of its key. */
  ghost predicate EntriesPending(s: State) {
    forall k :: k in s.inFlight ==> Pending(s, s.inFlight[k]) && KeyOf(s, s.inFlight[k]) == k
  }

  /** A pending load that is not in the table: a new request for its key would load once more. */
  predicate Orphan(s: State, l: int) { Pending(s, l) && !InFlight(s, l) }

  /** The table is exactly the pending loads by key, so requests for one key share one load. */
  ghost predicate Shares(s: State) {
    EntriesPending(s) && forall l :: !Orphan(s, l)
  }

  predicate AllEnded(s: State) { forall l :: 0 <= l < |s.loads| ==> s.loads[l].ended }

  /** getOrLoad begins a load only for a key with none in flight. */
  predicate Legal(s: State, e: Event) { e.Begin? ==> MakeKey(e.query) !in s.inFlight }

  lemma EntriesStayPending(s: State, e: Event)
    requires EntriesPending(s) && Legal(s, e)
    ensures EntriesPending(Next(s, e))
  {
    var s' := Next(s, e);
    forall k | k in s'.inFlight
      ensures Pending(s', s'.inFlight[k]) && KeyOf(s', s'.inFlight[k]) == k
    {
      assert k in s.inFlight ==> Pending(s, s.inFlight[k]) && KeyOf(s, s.inFlight[k]) == k;
    }
  }

  predicate EndsOrphanOfKey(s: State, e: Event, key: string) {
    e.Finish? && Orphan(s, e.load) && KeyOf(s, e.load) == key
  }

  /**
   * Which event orphans which load: a load that is still pending after the event is an orphan then
   * exactly if it was one before, or the event is a clear, or the event ends an orphan of its key.
   */
  lemma OrphanedExactly(s: State, e: Event, l: int)
    requires EntriesPending(s) && Legal(s, e) && 0 <= l < |s.loads|
    ensures Orphan(Next(s, e), l) <==>
              Pending(Next(s, e), l) && (Orphan(s, l) || e.Clear? || EndsOrphanOfKey(s, e, KeyOf(s, l)))
  {
    var k := KeyOf(s, l);
    assert k in s.inFlight ==> Pending(s, s.inFlight[k]) && KeyOf(s, s.inFlight[k]) == k;
  }

  /** Sharing survives every event but a clear, and a clear exactly when every load has ended. */
  lemma SharesExactlyUnlessClearedEarly(s: State, e: Event)
    requires Shares(s) && Legal(s, e)
    ensures Shares(Next(s, e)) <==> (e.Clear? ==> AllEnded(s))
  {
    var s' := Next(s, e);
    EntriesStayPending(s, e);
    forall l | 0 <= l < |s.loads|
      ensures Orphan(s', l) <==> Pending(s, l) && e.Clear?
    {
      assert !Orphan(s, l);
      OrphanedExactly(s, e, l);
      assert e.Finish? ==> !Orphan(s, e.load);
    }
    if e.Begin? {
      assert InFlight(s', |s.loads|);
    }
    if l :| 0 <= l < |s.loads| && !s.loads[l].ended {
      assert Pending(s, l);
    }
  }

  ghost predicate LegalRun(events: seq<Event>) {
    events == [] || (var n := |events| - 1; LegalRun(events[..n]) && Legal(Run(events[..n]), events[n]))
  }

  /** Every clear of the run comes when no load is pending. */
  ghost predicate ClearsWhenIdle(events: seq<Event>) {
    events == []
    || (var n := |events| - 1; ClearsWhenIdle(events[..n]) && (events[n].Clear? ==> AllEnded(Run(events[..n]))))
  }

  /** Requests for one key share one load at every point of the run. */
  ghost predicate SharesThroughout(events: seq<Event>) {
    Shares(Run(events)) && (events == [] || SharesThroughout(events[..|events| - 1]))
  }

  /** Requests share loads throughout a run exactly when every clear of it comes when no load is pending. */
  lemma {:induction false} SharesThroughoutExactlyWhenClearsIdle(events: seq<Event>)
    requires LegalRun(events)
    ensures SharesThroughout(events) <==> ClearsWhenIdle(events)
  {
    if events != [] {
      var n := |events| - 1;
      SharesThroughoutExactlyWhenClearsIdle(events[..n]);
      assert SharesThroughout(events[..n]) ==> Shares(Run(events[..n]));
      if Shares(Run(events[..n])) {
        SharesExactlyUnlessClearedEarly(Run(events[..n]), events[n]);
      }
    }
  }

  /**
   * Orphans spread: if a load is pending at a clear and its key is then requested twice more, the end
   * of the first load drops the entry of the second, and the end of the second that of the third.
   */
  lemma OrphansSpread(s: State, q: Query, error: string)
    requires EntriesPending(s) && MakeKey(q) !in s.inFlight
    ensures var n, end := |s.loads|, Err(error);
            var cleared := Next(Next(s, Begin(q)), Clear);
            var first := Next(Next(cleared, Begin(q)), Finish(n, end));
            var second := Next(Next(first, Begin(q)), Finish(n + 1, end));
            Legal(cleared, Begin(q)) && Legal(first, Begin(q)) && Orphan(first, n + 1) && Orphan(second, n + 2)
  {
  }

  /** Right after an invalidation nothing of the outpoint is cached, and everything else is as before. */
  lemma InvalidationRemovesExactly(s: State, outpoint: string, k: string)
    ensures var s' := Next(s, Invalidate(outpoint));
            && (k in s'.cache <==> k in s.cache && s.cache[k].outpoint != outpoint)
            && (k in s'.cache ==> s'.cache[k] == s.cache[k])
  {
  }

  lemma {:induction false} BlockInvalidationRemovesExactly(cache: map<string, Entry>, outpoints: seq<string>, k: string)
    ensures var after := WithoutOutpoints(cache, outpoints);
            && (k in after <==> k in cache && cache[k].outpoint !in outpoints)
            && (k in after ==> after[k] == cache[k])
    decreases |outpoints|
  {
    if outpoints != [] {
      BlockInvalidationRemovesExactly(WithoutOutpoint(cache, outpoints[0]), outpoints[1..], k);
      assert outpoints == [outpoints[0]] + outpoints[1..];
    }
  }

  /** A result is stored exactly if it is a success that says whether the output is unspent. */
  lemma StoresAnswersOnly(s: State, q: Query, r: UtxoResult)
    ensures var after := Next(s, Store(q, r)).cache;
            if r.status == "success" && r.isUtxo != None then
              MakeKey(q) in after && after[MakeKey(q)] == Entry(q.outpoint, r) &&
                  after - {MakeKey(q)} == s.cache - {MakeKey(q)}
            else after == s.cache
  {
  }

  /** No run caches anything but successes that say whether the output is unspent. */
  lemma {:induction false} OnlyCacheableIsCached(events: seq<Event>)
    ensures forall k :: k in Run(events).cache ==>
              Run(events).cache[k].result.status == "success" && Run(events).cache[k].result.isUtxo != None
  {
    if events != [] {
      var s, e := Run(events[..|events| - 1]), events[|events| - 1];
      OnlyCacheableIsCached(events[..|events| - 1]);
      if e.InvalidateBlock? {
        forall k {
          BlockInvalidationRemovesExactly(s.cache, e.outpoints, k);
        }
      }
    }
  }
}
