/**
 * Building a BEEF for a list of outpoints: a depth-bounded depth-first search over source
 * transactions with one visited set, stopping at transactions that have a merkle proof.
 */
module Beef {
  import opened Common

  type Txid = string

  const MAX_SAFE_INTEGER := 0x1F_FFFF_FFFF_FFFF

  /** A parsed raw transaction: the hash of its bytes, and the source ids of its inputs (None: an input without one). */
  datatype Parsed = Parsed(id: Txid, sources: seq<Option<Txid>>)

  /** What the providers serve: raw transactions and proofs.  parse is None for data that is no transaction. */
  datatype Providers = Providers(raws: map<Txid, string>, parse: string -> Option<Parsed>, proven: set<Txid>)

  datatype Build = Build(fetched: set<Txid>, merged: seq<Txid>)

  // ----- Outpoints and raw transactions

  predicate IsDigit(ch: char) { '0' <= ch <= '9' }

  predicate IsHexDigit(ch: char) { IsDigit(ch) || 'a' <= ch <= 'f' || 'A' <= ch <= 'F' }

  function LowerCase(s: string): (r: string)
    ensures |r| == |s|
  {
    Map(s, ch => if 'A' <= ch <= 'Z' then ch - 'A' + 'a' else ch)
  }

  function Decimal(digits: string): nat
    requires forall i :: 0 <= i < |digits| ==> IsDigit(digits[i])
  {
    if digits == [] then 0
    else
      assert IsDigit(digits[|digits| - 1]);
      10 * Decimal(digits[..|digits| - 1]) + digits[|digits| - 1] as int - '0' as int
  }

  /** 64 hexadecimal digits, a dot, and a safe decimal integer. */
  function ParseOutpoint(s: string): Result<(Txid, nat)> {
    if |s| < 66 || s[64] != '.' || (exists i :: 0 <= i < 64 && !IsHexDigit(s[i])) then Err("Invalid outpoint format")
    else if exists i :: 0 <= i < |s[65..]| && !IsDigit(s[65..][i]) then Err("Invalid outpoint format")
    else if Decimal(s[65..]) > MAX_SAFE_INTEGER then Err("Invalid vout in outpoint")
    else Ok((LowerCase(s[..64]), Decimal(s[65..])))
  }

  lemma DigitsListed(ch: char)
    ensures IsDigit(ch) <==> ch in "0123456789"
    ensures IsHexDigit(ch) <==> ch in "0123456789abcdefABCDEF"
  {
  }

  predicate IsTxid(hex: string) { |hex| == 64 && forall i :: 0 <= i < 64 ==> IsHexDigit(hex[i]) }

  predicate IsDecimal(digits: string) { digits != "" && forall i :: 0 <= i < |digits| ==> IsDigit(digits[i]) }

  /**
   * Exactly the strings of a 64-digit hexadecimal txid, a dot and a decimal of at most 2^53 - 1
   * parse.  The txid comes back with its capitals, and nothing else, in lower case.
   */
  lemma OutpointParsesExactly(hex: string, digits: string)
    ensures ParseOutpoint(hex + "." + digits).Ok? <==>
              IsTxid(hex) && IsDecimal(digits) && Decimal(digits) <= 9_007_199_254_740_991
    ensures var r := ParseOutpoint(hex + "." + digits);
            r.Ok? ==>
              && r.value.1 == Decimal(digits) && |r.value.0| == |hex|
              && forall i :: 0 <= i < |hex| ==>
                   r.value.0[i] as int == hex[i] as int + if 'A' <= hex[i] <= 'F' then 32 else 0
  {
    var s := hex + "." + digits;
    if |hex| == 64 {
      assert s[..64] == hex && s[65..] == digits && s[64] == '.';
    } else if |hex| < 64 {
      if |s| >= 66 {
        assert s[|hex|] == '.' && !IsHexDigit(s[|hex|]);
      }
    } else if |hex| > 64 {
      assert s[65..][|hex| - 65] == s[|hex|] == '.';
    }
  }

  lemma OnlyOutpointsParse(s: string)
    requires ParseOutpoint(s).Ok?
    ensures exists hex, digits :: s == hex + "." + digits && IsTxid(hex) && IsDecimal(digits)
  {
    var hex, digits := s[..64], s[65..];
    assert s == hex + "." + digits;
    assert IsTxid(hex) && IsDecimal(digits);
  }

  /** The decimal notation of a number. */
  function Notation(n: nat): (r: string)
    ensures IsDecimal(r)
  {
    var last := ['0' + (n % 10) as char];
    if n < 10 then last else Notation(n / 10) + last
  }

  /** Reading a decimal inverts writing it, with any leading zeros. */
  lemma {:induction false} DecimalInverts(n: nat)
    ensures Decimal(Notation(n)) == n
  {
    var r := Notation(n);
    var last := ['0' + (n % 10) as char];
    if n < 10 {
      assert r == last && r[..0] == [];
    } else {
      DecimalInverts(n / 10);
      assert r[..|r| - 1] == Notation(n / 10);
    }
  }

  lemma {:induction false} LeadingZeroIsIdle(digits: string)
    requires IsDecimal(digits)
    ensures Decimal("0" + digits) == Decimal(digits)
  {
    var n, padded := |digits| - 1, "0" + digits;
    if n == 0 {
      assert padded[..1] == "0" && digits[..0] == [] && padded[..1][..0] == [];
    } else {
      LeadingZeroIsIdle(digits[..n]);
      assert padded[..|padded| - 1] == "0" + digits[..n];
    }
  }

  function TxidOf(outpoint: string): Txid {
    match ParseOutpoint(outpoint) case Ok(o) => o.0 case Err(_) => ""
  }

  /** The same hexadecimal digits, in any mixture of cases. */
  predicate SameId(a: Txid, b: Txid) {
    |a| == |b| && forall i :: 0 <= i < |a| ==> a[i] == b[i] || CaseVariants(a[i], b[i]) || CaseVariants(b[i], a[i])
  }

  predicate CaseVariants(upper: char, lower: char) { 'A' <= upper <= 'Z' && lower as int == upper as int + 32 }

  lemma LowerCaseForgetsCase(a: string, b: string)
    ensures LowerCase(a) == LowerCase(b) <==> SameId(a, b)
  {
    if LowerCase(a) == LowerCase(b) {
      forall i | 0 <= i < |a|
        ensures a[i] == b[i] || CaseVariants(a[i], b[i]) || CaseVariants(b[i], a[i])
      {
        assert LowerCase(a)[i] == LowerCase(b)[i];
      }
    }
  }

  /** The providers have a raw transaction for the id, and it hashes to it. */
  predicate Delivers(p: Providers, txid: Txid) {
    && txid in p.raws && p.raws[txid] != "" && p.parse(p.raws[txid]).Some?
    && SameId(p.parse(p.raws[txid]).value.id, txid)
  }

  /**
   * fetchRawTx and parseTxAndAssertId: the sources named by the raw transaction, if it has the id
   * that was asked for.
   */
  function Fetch(p: Providers, txid: Txid): (r: Result<seq<Option<Txid>>>)
    ensures r.Ok? <==> Delivers(p, txid)
    ensures r.Ok? ==> r.value == p.parse(p.raws[txid]).value.sources
  {
    if txid !in p.raws || p.raws[txid] == "" then Err("Failed to fetch raw transaction")
    else
      match p.parse(p.raws[txid])
      case None => Err("Failed to parse raw transaction")
      case Some(tx) =>
        LowerCaseForgetsCase(tx.id, txid);
        if LowerCase(tx.id) != LowerCase(txid) then Err("Fetched tx hex txid mismatch") else Ok(tx.sources)
  }

  predicate Fetches(p: Providers, txid: Txid) { Fetch(p, txid).Ok? }

  function Sources(p: Providers, txid: Txid): seq<Option<Txid>>
    requires Fetches(p, txid)
  {
    Fetch(p, txid).value
  }

  /** s is one of the source transactions that t needs because it has no proof of its own. */
  predicate Needs(p: Providers, t: Txid, s: Txid) {
    Delivers(p, t) && t !in p.proven && s != "" && Some(s) in p.parse(p.raws[t]).value.sources
  }

  // ----- The search

  function Measure(maxDepth: int, depth: nat): nat { Max(0, maxDepth + 1 - depth) }

  function AddTx(p: Providers, maxDepth: int, b: Build, txid: Txid, depth: nat): Result<Build>
    decreases Measure(maxDepth, depth), 0
  {
    if txid in b.fetched then Ok(b)
    else if depth > maxDepth then Err("BEEF build exceeded maxDepth")
    else if !Fetches(p, txid) then Err(Fetch(p, txid).error)
    else
      var visited := b.(fetched := b.fetched + {txid});
      var r := if txid in p.proven then Ok(visited) else AddInputs(p, maxDepth, visited, Sources(p, txid), depth + 1);
      if r.Err? then r else Ok(r.value.(merged := r.value.merged + [txid]))
  }

  function AddInputs(p: Providers, maxDepth: int, b: Build, inputs: seq<Option<Txid>>, depth: nat): Result<Build>
    decreases Measure(maxDepth, depth), 1 + |inputs|
  {
    if inputs == [] then Ok(b)
    else
      var r := if inputs[0].None? || inputs[0].value == "" then Ok(b)
          else AddTx(p, maxDepth, b, inputs[0].value, depth);
      if r.Err? then r else AddInputs(p, maxDepth, r.value, inputs[1..], depth)
  }

  function AddRoots(p: Providers, maxDepth: int, b: Build, outpoints: seq<string>): Result<Build>
    decreases |outpoints|
  {
    if outpoints == [] then Ok(b)
    else
      var outpoint :- ParseOutpoint(outpoints[0]);
      var next :- AddTx(p, maxDepth, b, outpoint.0, 0);
      AddRoots(p, maxDepth, next, outpoints[1..])
  }

  function BuildBeef(p: Providers, maxDepth: int, outpoints: seq<string>): Result<Build> {
    AddRoots(p, maxDepth, Build({}, []), outpoints)
  }

  /** The visited set and the BEEF, shared by the recursive calls. */
  class Builder {
    var fetched: set<Txid>
    var merged: seq<Txid>

    ghost function View(): Build
      reads this
    {
      Build(fetched, merged)
    }

    constructor ()
      ensures View() == Build({}, [])
    {
      fetched, merged := {}, [];
    }

    method AddTxToBeef(p: Providers, maxDepth: int, txid: Txid, depth: nat) returns (r: Result<()>)
      modifies this
      ensures r.Ok? <==> AddTx(p, maxDepth, old(View()), txid, depth).Ok?
      ensures r.Ok? ==> View() == AddTx(p, maxDepth, old(View()), txid, depth).value
      decreases Measure(maxDepth, depth)
    {
      if txid in fetched {
        return Ok(());
      }
      if depth > maxDepth {
        return Err("BEEF build exceeded maxDepth");
      }
      fetched := fetched + {txid};
      if txid !in p.raws || p.raws[txid] == "" {
        return Err("Failed to fetch raw transaction");
      }
      var tx := p.parse(p.raws[txid]);
      if tx.None? {
        return Err("Failed to parse raw transaction");
      }
      if LowerCase(tx.value.id) != LowerCase(txid) {
        return Err("Fetched tx hex txid mismatch");
      }
      ghost var visited := View();
      if txid !in p.proven {
        var inputs := tx.value.sources;
        var i := 0;
        while i < |inputs|
          invariant 0 <= i <= |inputs|
          invariant AddInputs(p, maxDepth, View(), inputs[i..], depth + 1) ==
                    AddInputs(p, maxDepth, visited, inputs, depth + 1)
        {
          assert inputs[i..][1..] == inputs[i + 1..];
          if inputs[i].Some? && inputs[i].value != "" {
            var source := AddTxToBeef(p, maxDepth, inputs[i].value, depth + 1);
            if source.Err? {
              return source;
            }
          }
          i := i + 1;
        }
      }
      merged := merged + [txid];
      return Ok(());
    }

    method BuildForOutpoints(p: Providers, maxDepth: int, outpoints: seq<string>) returns (r: Result<seq<Txid>>)
      requires View() == Build({}, [])
      modifies this
      ensures r.Ok? <==> BuildBeef(p, maxDepth, outpoints).Ok?
      ensures r.Ok? ==> r.value == BuildBeef(p, maxDepth, outpoints).value.merged
    {
      var i := 0;
      while i < |outpoints|
        invariant 0 <= i <= |outpoints|
        invariant AddRoots(p, maxDepth, View(), outpoints[i..]) == BuildBeef(p, maxDepth, outpoints)
      {
        assert outpoints[i..][1..] == outpoints[i + 1..];
        var outpoint :- ParseOutpoint(outpoints[i]);
        var root := AddTxToBeef(p, maxDepth, outpoint.0, 0);
        if root.Err? {
          return Err(root.error);
        }
        i := i + 1;
      }
      return Ok(merged);
    }
  }

  // ----- Order and closure

  /** Every merged transaction without a proof follows all of its source transactions. */
  ghost predicate SourcesFirst(p: Providers, merged: seq<Txid>) {
    forall i, s :: 0 <= i < |merged| && Needs(p, merged[i], s) ==> s in merged[..i]
  }

  /** rank witnesses that no transaction of the set needs itself, directly or through others. */
  ghost predicate Ranked(p: Providers, wanted: iset<Txid>, rank: Txid -> nat) {
    forall t, s :: t in wanted && Needs(p, t, s) ==> rank(s) < rank(t)
  }

  /** The set holds whatever its transactions need. */
  ghost predicate ClosedUnderNeeds(p: Providers, wanted: iset<Txid>) {
    forall t, s :: t in wanted && Needs(p, t, s) ==> s in wanted
  }

  ghost predicate HoldsRequests(wanted: iset<Txid>, outpoints: seq<string>) {
    forall i :: 0 <= i < |outpoints| ==> TxidOf(outpoints[i]) in wanted
  }

  /** The requested transactions and their unproven ancestors lie in the set, and none of them is its own ancestor. */
  ghost predicate AcyclicRequest(p: Providers, outpoints: seq<string>, wanted: iset<Txid>, rank: Txid -> nat) {
    HoldsRequests(wanted, outpoints) && ClosedUnderNeeds(p, wanted) && Ranked(p, wanted, rank)
  }

  ghost predicate Within(fetched: set<Txid>, wanted: iset<Txid>) { forall t :: t in fetched ==> t in wanted }

  /** The build while the transactions on the stack are being resolved: visited ones are merged or on the stack. */
  ghost predicate Consistent(p: Providers, b: Build, stack: set<Txid>) {
    && NoDuplicates(b.merged)
    && (forall t :: t in b.fetched <==> t in b.merged || t in stack)
    && (forall t :: t in stack ==> t !in b.merged)
    && SourcesFirst(p, b.merged)
  }

  lemma MergeNext(p: Providers, b: Build, stack: set<Txid>, txid: Txid)
    requires Consistent(p, b, stack) && txid in stack
    requires forall s :: Needs(p, txid, s) ==> s in b.merged
    ensures Consistent(p, b.(merged := b.merged + [txid]), stack - {txid})
  {
    var merged' := b.merged + [txid];
    forall i, s | 0 <= i < |merged'| && Needs(p, merged'[i], s)
      ensures s in merged'[..i]
    {
      assert merged'[..i] == b.merged[..i];
      assert b.merged[..|b.merged|] == b.merged;
    }
  }

  /** Visits only add: the visited set grows and the merged list is extended at its end. */
  lemma {:induction false} AddTxGrows(p: Providers, maxDepth: int, b: Build, txid: Txid, depth: nat)
    requires AddTx(p, maxDepth, b, txid, depth).Ok?
    ensures var b' := AddTx(p, maxDepth, b, txid, depth).value; b.fetched <= b'.fetched && b.merged <= b'.merged
    decreases Measure(maxDepth, depth), 0
  {
    if txid !in b.fetched && txid !in p.proven {
      AddInputsGrows(p, maxDepth, b.(fetched := b.fetched + {txid}), Sources(p, txid), depth + 1);
    }
  }

  lemma {:induction false} AddInputsGrows(p: Providers, maxDepth: int, b: Build, inputs: seq<Option<Txid>>, depth: nat)
    requires AddInputs(p, maxDepth, b, inputs, depth).Ok?
    ensures var b' := AddInputs(p, maxDepth, b, inputs, depth).value; b.fetched <= b'.fetched && b.merged <= b'.merged
    decreases Measure(maxDepth, depth), 1 + |inputs|
  {
    if inputs != [] {
      var mid := b;
      if inputs[0].Some? && inputs[0].value != "" {
        AddTxGrows(p, maxDepth, b, inputs[0].value, depth);
        mid := AddTx(p, maxDepth, b, inputs[0].value, depth).value;
      }
      AddInputsGrows(p, maxDepth, mid, inputs[1..], depth);
    }
  }

  lemma {:induction false} AddTxOrders(p: Providers, maxDepth: int, b: Build, txid: Txid, depth: nat,
                                       stack: set<Txid>, wanted: iset<Txid>, rank: Txid -> nat)
    requires AddTx(p, maxDepth, b, txid, depth).Ok? && Within(AddTx(p, maxDepth, b, txid, depth).value.fetched, wanted)
    requires Consistent(p, b, stack) && Ranked(p, wanted, rank)
    requires forall t :: t in stack ==> rank(txid) < rank(t)
    ensures var b' := AddTx(p, maxDepth, b, txid, depth).value; Consistent(p, b', stack) && txid in b'.merged
    decreases Measure(maxDepth, depth), 0
  {
    if txid !in b.fetched {
      var b1 := b.(fetched := b.fetched + {txid});
      var b2 := b1;
      assert txid !in stack;
      if txid !in p.proven {
        var b3 := AddTx(p, maxDepth, b, txid, depth).value;
        AddInputsGrows(p, maxDepth, b1, Sources(p, txid), depth + 1);
        AddInputsOrders(p, maxDepth, b1, Sources(p, txid), depth + 1, stack + {txid}, txid, wanted, rank);
        b2 := AddInputs(p, maxDepth, b1, Sources(p, txid), depth + 1).value;
      }
      MergeNext(p, b2, stack + {txid}, txid);
      assert stack + {txid} - {txid} == stack;
    }
  }

  /** inputs are (a suffix of) the inputs of the transaction on top of the stack. */
  lemma {:induction false} AddInputsOrders(p: Providers, maxDepth: int, b: Build, inputs: seq<Option<Txid>>, depth: nat,
                                           stack: set<Txid>, top: Txid, wanted: iset<Txid>, rank: Txid -> nat)
    requires AddInputs(p, maxDepth, b, inputs, depth).Ok? &&
             Within(AddInputs(p, maxDepth, b, inputs, depth).value.fetched, wanted)
    requires Consistent(p, b, stack) && Ranked(p, wanted, rank) && top in stack && top in b.fetched
    requires forall i :: 0 <= i < |inputs| && inputs[i].Some? && inputs[i].value != "" ==>
               Needs(p, top, inputs[i].value)
    requires forall t :: t in stack && t != top ==> rank(top) < rank(t)
    ensures var b' := AddInputs(p, maxDepth, b, inputs, depth).value;
            && Consistent(p, b', stack)
            && (forall s :: s != "" && Some(s) in inputs ==> s in b'.merged)
    decreases Measure(maxDepth, depth), 1 + |inputs|
  {
    AddInputsGrows(p, maxDepth, b, inputs, depth);
    if inputs != [] {
      var mid := b;
      if inputs[0].Some? && inputs[0].value != "" {
        mid := AddTx(p, maxDepth, b, inputs[0].value, depth).value;
        AddInputsGrows(p, maxDepth, mid, inputs[1..], depth);
        assert Needs(p, top, inputs[0].value);
        AddTxOrders(p, maxDepth, b, inputs[0].value, depth, stack, wanted, rank);
        AddTxGrows(p, maxDepth, b, inputs[0].value, depth);
      }
      AddInputsOrders(p, maxDepth, mid, inputs[1..], depth, stack, top, wanted, rank);
      AddInputsGrows(p, maxDepth, mid, inputs[1..], depth);
    }
  }

  lemma {:induction false} AddRootsOrders(p: Providers, maxDepth: int, b: Build, outpoints: seq<string>,
                                          wanted: iset<Txid>, rank: Txid -> nat)
    requires AddRoots(p, maxDepth, b, outpoints).Ok? &&
             Within(AddRoots(p, maxDepth, b, outpoints).value.fetched, wanted)
    requires Consistent(p, b, {}) && Ranked(p, wanted, rank)
    ensures var b' := AddRoots(p, maxDepth, b, outpoints).value;
            && Consistent(p, b', {}) && b.merged <= b'.merged && b.fetched <= b'.fetched
            && (forall i :: 0 <= i < |outpoints| ==> TxidOf(outpoints[i]) in b'.merged)
    decreases |outpoints|
  {
    if outpoints != [] {
      var root := TxidOf(outpoints[0]);
      var mid := AddTx(p, maxDepth, b, root, 0).value;
      AddTxGrows(p, maxDepth, b, root, 0);
      AddRootsGrows(p, maxDepth, mid, outpoints[1..]);
      AddTxOrders(p, maxDepth, b, root, 0, {}, wanted, rank);
      AddRootsOrders(p, maxDepth, mid, outpoints[1..], wanted, rank);
      assert forall i :: 0 < i < |outpoints| ==> outpoints[i] == outpoints[1..][i - 1];
    }
  }

  lemma {:induction false} AddRootsGrows(p: Providers, maxDepth: int, b: Build, outpoints: seq<string>)
    requires AddRoots(p, maxDepth, b, outpoints).Ok?
    ensures b.fetched <= AddRoots(p, maxDepth, b, outpoints).value.fetched
    decreases |outpoints|
  {
    if outpoints != [] {
      AddTxGrows(p, maxDepth, b, TxidOf(outpoints[0]), 0);
      AddRootsGrows(p, maxDepth, AddTx(p, maxDepth, b, TxidOf(outpoints[0]), 0).value, outpoints[1..]);
    }
  }

  /**
   * When no requested transaction or unproven ancestor is its own ancestor and the build succeeds,
   * every requested transaction is merged, none twice, and each one without a proof comes after all
   * of its sources.
   */
  lemma BuildIsOrderedAndClosed(p: Providers, maxDepth: int, outpoints: seq<string>, wanted: iset<Txid>,
                                rank: Txid -> nat)
    requires BuildBeef(p, maxDepth, outpoints).Ok? && AcyclicRequest(p, outpoints, wanted, rank)
    ensures var b := BuildBeef(p, maxDepth, outpoints).value;
            && (forall i :: 0 <= i < |outpoints| ==> TxidOf(outpoints[i]) in b.merged)
            && NoDuplicates(b.merged) && SourcesFirst(p, b.merged)
            && (forall t :: t in b.fetched <==> t in b.merged)
  {
    BuildIsMinimal(p, maxDepth, Build({}, []), outpoints, wanted);
    AddRootsOrders(p, maxDepth, Build({}, []), outpoints, wanted, rank);
  }

  function Position(merged: seq<Txid>, t: Txid): nat {
    if merged == [] then 0 else if merged[0] == t then 0 else 1 + Position(merged[1..], t)
  }

  lemma {:induction false} PositionFinds(merged: seq<Txid>, t: Txid, i: nat)
    ensures t in merged ==> Position(merged, t) < |merged| && merged[Position(merged, t)] == t
    ensures i <= |merged| && t in merged[..i] ==> Position(merged, t) < i
  {
    if merged != [] && merged[0] != t {
      PositionFinds(merged[1..], t, if i == 0 then 0 else i - 1);
      if 0 < i <= |merged| {
        assert merged[..i] == [merged[0]] + merged[1..][..i - 1];
      }
    }
  }

  /**
   * A successful build is in that order exactly when no requested transaction or unproven ancestor
   * of one is its own ancestor.
   */
  lemma OrderedExactlyWhenAcyclic(p: Providers, maxDepth: int, outpoints: seq<string>)
    requires BuildBeef(p, maxDepth, outpoints).Ok?
    ensures SourcesFirst(p, BuildBeef(p, maxDepth, outpoints).value.merged)
       <==> exists wanted: iset<Txid>, rank: Txid -> nat :: AcyclicRequest(p, outpoints, wanted, rank)
  {
    var b := BuildBeef(p, maxDepth, outpoints).value;
    if SourcesFirst(p, b.merged) {
      AllVisitedAreMerged(p, maxDepth, Build({}, []), outpoints);
      var wanted: iset<Txid> := iset t | t in b.fetched;
      var rank: Txid -> nat := t => Position(b.merged, t);
      forall t, s | t in wanted && Needs(p, t, s)
        ensures s in wanted && rank(s) < rank(t)
      {
        PositionFinds(b.merged, t, 0);
        PositionFinds(b.merged, s, Position(b.merged, t));
      }
      assert AcyclicRequest(p, outpoints, wanted, rank);
    }
    if wanted: iset<Txid>, rank: Txid -> nat :| AcyclicRequest(p, outpoints, wanted, rank) {
      BuildIsOrderedAndClosed(p, maxDepth, outpoints, wanted, rank);
    }
  }

  /** Acyclic or not, a finished visit has merged everything it has marked. */
  lemma {:induction false} AddTxMerges(p: Providers, maxDepth: int, b: Build, txid: Txid, depth: nat)
    requires AddTx(p, maxDepth, b, txid, depth).Ok?
    ensures var b' := AddTx(p, maxDepth, b, txid, depth).value;
            && (forall t :: t in b'.merged <==> t in b.merged || (t in b'.fetched && t !in b.fetched))
            && (forall t :: t in b'.merged && t !in b.merged ==> Fetches(p, t))
    decreases Measure(maxDepth, depth), 0
  {
    if txid !in b.fetched && txid !in p.proven {
      AddInputsMerges(p, maxDepth, b.(fetched := b.fetched + {txid}), Sources(p, txid), depth + 1);
      AddInputsGrows(p, maxDepth, b.(fetched := b.fetched + {txid}), Sources(p, txid), depth + 1);
    }
  }

  lemma {:induction false} AddInputsMerges(p: Providers, maxDepth: int, b: Build, inputs: seq<Option<Txid>>, depth: nat)
    requires AddInputs(p, maxDepth, b, inputs, depth).Ok?
    ensures var b' := AddInputs(p, maxDepth, b, inputs, depth).value;
            && (forall t :: t in b'.merged <==> t in b.merged || (t in b'.fetched && t !in b.fetched))
            && (forall t :: t in b'.merged && t !in b.merged ==> Fetches(p, t))
    decreases Measure(maxDepth, depth), 1 + |inputs|
  {
    if inputs != [] {
      var mid := b;
      if inputs[0].Some? && inputs[0].value != "" {
        mid := AddTx(p, maxDepth, b, inputs[0].value, depth).value;
        AddTxMerges(p, maxDepth, b, inputs[0].value, depth);
        AddTxGrows(p, maxDepth, b, inputs[0].value, depth);
      }
      AddInputsMerges(p, maxDepth, mid, inputs[1..], depth);
      AddInputsGrows(p, maxDepth, mid, inputs[1..], depth);
    }
  }

  /** Acyclic or not, what a build has visited is what it has merged, and holds all requested transactions. */
  lemma {:induction false} AllVisitedAreMerged(p: Providers, maxDepth: int, b: Build, outpoints: seq<string>)
    requires AddRoots(p, maxDepth, b, outpoints).Ok? && forall t :: t in b.merged <==> t in b.fetched
    ensures var b' := AddRoots(p, maxDepth, b, outpoints).value;
            && (forall t :: t in b'.merged <==> t in b'.fetched) && b.fetched <= b'.fetched
            && (forall t :: t in b'.merged && t !in b.merged ==> Fetches(p, t))
            && (forall i :: 0 <= i < |outpoints| ==> TxidOf(outpoints[i]) in b'.fetched)
    decreases |outpoints|
  {
    if outpoints != [] {
      var root := TxidOf(outpoints[0]);
      AddTxMerges(p, maxDepth, b, root, 0);
      AddTxGrows(p, maxDepth, b, root, 0);
      AllVisitedAreMerged(p, maxDepth, AddTx(p, maxDepth, b, root, 0).value, outpoints[1..]);
      assert forall i :: 0 < i < |outpoints| ==> outpoints[i] == outpoints[1..][i - 1];
    }
  }

  /** Whatever the providers serve, every merged id is the hash of the raw transaction merged for it, up to case. */
  lemma MergedIdsAreHashes(p: Providers, maxDepth: int, outpoints: seq<string>, t: Txid)
    requires BuildBeef(p, maxDepth, outpoints).Ok? && t in BuildBeef(p, maxDepth, outpoints).value.merged
    ensures t in p.raws && p.parse(p.raws[t]).Some? && SameId(p.parse(p.raws[t]).value.id, t)
  {
    AllVisitedAreMerged(p, maxDepth, Build({}, []), outpoints);
    assert Fetches(p, t);
  }

  // ----- Minimality

  lemma {:induction false} AddTxStaysInside(p: Providers, maxDepth: int, b: Build, txid: Txid, depth: nat,
                                            wanted: iset<Txid>)
    requires AddTx(p, maxDepth, b, txid, depth).Ok? && ClosedUnderNeeds(p, wanted)
    requires txid in wanted && forall t :: t in b.fetched ==> t in wanted
    ensures forall t :: t in AddTx(p, maxDepth, b, txid, depth).value.fetched ==> t in wanted
    decreases Measure(maxDepth, depth), 0
  {
    if txid !in b.fetched && txid !in p.proven {
      forall i | 0 <= i < |Sources(p, txid)| && Sources(p, txid)[i].Some? && Sources(p, txid)[i].value != ""
        ensures Sources(p, txid)[i].value in wanted
      {
        assert Needs(p, txid, Sources(p, txid)[i].value);
      }
      AddInputsStaysInside(p, maxDepth, b.(fetched := b.fetched + {txid}), Sources(p, txid), depth + 1, wanted);
    }
  }

  lemma {:induction false} AddInputsStaysInside(p: Providers, maxDepth: int, b: Build, inputs: seq<Option<Txid>>,
                                                depth: nat,
                                                wanted: iset<Txid>)
    requires AddInputs(p, maxDepth, b, inputs, depth).Ok? && ClosedUnderNeeds(p, wanted)
    requires forall i :: 0 <= i < |inputs| && inputs[i].Some? && inputs[i].value != "" ==> inputs[i].value in wanted
    requires forall t :: t in b.fetched ==> t in wanted
    ensures forall t :: t in AddInputs(p, maxDepth, b, inputs, depth).value.fetched ==> t in wanted
    decreases Measure(maxDepth, depth), 1 + |inputs|
  {
    if inputs != [] {
      var mid := b;
      if inputs[0].Some? && inputs[0].value != "" {
        mid := AddTx(p, maxDepth, b, inputs[0].value, depth).value;
        AddTxStaysInside(p, maxDepth, b, inputs[0].value, depth, wanted);
      }
      AddInputsStaysInside(p, maxDepth, mid, inputs[1..], depth, wanted);
    }
  }

  /** Any set that holds the requested transactions and is closed under needed sources holds all that was merged. */
  lemma {:induction false} BuildIsMinimal(p: Providers, maxDepth: int, b: Build, outpoints: seq<string>,
                                          wanted: iset<Txid>)
    requires AddRoots(p, maxDepth, b, outpoints).Ok? && ClosedUnderNeeds(p, wanted)
    requires HoldsRequests(wanted, outpoints) && Within(b.fetched, wanted)
    ensures Within(AddRoots(p, maxDepth, b, outpoints).value.fetched, wanted)
    decreases |outpoints|
  {
    if outpoints != [] {
      var root := TxidOf(outpoints[0]);
      assert root in wanted;
      AddTxStaysInside(p, maxDepth, b, root, 0, wanted);
      assert forall i :: 0 < i < |outpoints| ==> outpoints[i] == outpoints[1..][i - 1];
      BuildIsMinimal(p, maxDepth, AddTx(p, maxDepth, b, root, 0).value, outpoints[1..], wanted);
    }
  }

  /** Everything that may be needed is served, and rank bounds how many unproven generations lie above a transaction. */
  ghost predicate Served(p: Providers, wanted: iset<Txid>, rank: Txid -> nat) {
    && ClosedUnderNeeds(p, wanted)
    && (forall t :: t in wanted ==> Delivers(p, t))
    && Ranked(p, wanted, rank)
  }

  lemma {:induction false} AddTxSucceeds(p: Providers, maxDepth: int, b: Build, txid: Txid, depth: nat,
                                         wanted: iset<Txid>, rank: Txid -> nat)
    requires Served(p, wanted, rank) && txid in wanted && depth + rank(txid) <= maxDepth
    ensures AddTx(p, maxDepth, b, txid, depth).Ok?
    decreases Measure(maxDepth, depth), 0
  {
    if txid !in b.fetched && txid !in p.proven {
      forall i | 0 <= i < |Sources(p, txid)| && Sources(p, txid)[i].Some? && Sources(p, txid)[i].value != ""
        ensures Sources(p, txid)[i].value in wanted && rank(Sources(p, txid)[i].value) < rank(txid)
      {
        assert Needs(p, txid, Sources(p, txid)[i].value);
      }
      AddInputsSucceeds(p, maxDepth, b.(fetched := b.fetched + {txid}), Sources(p, txid), depth + 1, wanted, rank);
    }
  }

  lemma {:induction false} AddInputsSucceeds(p: Providers, maxDepth: int, b: Build, inputs: seq<Option<Txid>>,
                                             depth: nat,
                                             wanted: iset<Txid>, rank: Txid -> nat)
    requires Served(p, wanted, rank)
    requires forall i :: 0 <= i < |inputs| && inputs[i].Some? && inputs[i].value != "" ==>
               inputs[i].value in wanted && depth + rank(inputs[i].value) <= maxDepth
    ensures AddInputs(p, maxDepth, b, inputs, depth).Ok?
    decreases Measure(maxDepth, depth), 1 + |inputs|
  {
    if inputs != [] {
      var mid := b;
      if inputs[0].Some? && inputs[0].value != "" {
        AddTxSucceeds(p, maxDepth, b, inputs[0].value, depth, wanted, rank);
        mid := AddTx(p, maxDepth, b, inputs[0].value, depth).value;
      }
      AddInputsSucceeds(p, maxDepth, mid, inputs[1..], depth, wanted, rank);
    }
  }

  /** The build succeeds whenever everything needed is served and no unproven chain is longer than maxDepth. */
  lemma {:induction false} BuildSucceedsWithinDepth(p: Providers, maxDepth: int, b: Build, outpoints: seq<string>,
                                                    wanted: iset<Txid>, rank: Txid -> nat)
    requires Served(p, wanted, rank) && HoldsRequests(wanted, outpoints)
    requires forall i :: 0 <= i < |outpoints| ==>
               ParseOutpoint(outpoints[i]).Ok? && rank(TxidOf(outpoints[i])) <= maxDepth
    ensures AddRoots(p, maxDepth, b, outpoints).Ok?
    decreases |outpoints|
  {
    if outpoints != [] {
      var root := TxidOf(outpoints[0]);
      assert root in wanted;
      AddTxSucceeds(p, maxDepth, b, root, 0, wanted, rank);
      assert forall i :: 0 < i < |outpoints| ==> outpoints[i] == outpoints[1..][i - 1];
      BuildSucceedsWithinDepth(p, maxDepth, AddTx(p, maxDepth, b, root, 0).value, outpoints[1..], wanted, rank);
    }
  }

  // ----- The depth bound

  /** t is needed from `from` over k generations. */
  ghost predicate NeededAfter(p: Providers, from: Txid, t: Txid, k: nat)
    decreases k
  {
    if k == 0 then t == from else exists s :: Needs(p, from, s) && NeededAfter(p, s, t, k - 1)
  }

  ghost predicate NeededWithin(p: Providers, from: Txid, t: Txid, generations: int) {
    exists k: nat :: k <= generations && NeededAfter(p, from, t, k)
  }

  lemma NeedExtends(p: Providers, from: Txid, s: Txid, t: Txid, generations: int)
    requires Needs(p, from, s) && NeededWithin(p, s, t, generations)
    ensures NeededWithin(p, from, t, generations + 1)
  {
    var k: nat :| k <= generations && NeededAfter(p, s, t, k);
    assert NeededAfter(p, from, t, k + 1);
  }

  lemma {:induction false} AddTxWithinDepth(p: Providers, maxDepth: int, b: Build, txid: Txid, depth: nat, t: Txid)
    requires AddTx(p, maxDepth, b, txid, depth).Ok?
    requires t in AddTx(p, maxDepth, b, txid, depth).value.fetched && t !in b.fetched
    ensures NeededWithin(p, txid, t, maxDepth - depth)
    decreases Measure(maxDepth, depth), 0
  {
    if t == txid {
      assert NeededAfter(p, txid, t, 0);
    } else {
      AddInputsWithinDepth(p, maxDepth, b.(fetched := b.fetched + {txid}), Sources(p, txid), depth + 1, txid, t);
    }
  }

  lemma {:induction false} AddInputsWithinDepth(p: Providers, maxDepth: int, b: Build, inputs: seq<Option<Txid>>,
                                                depth: nat, top: Txid, t: Txid)
    requires AddInputs(p, maxDepth, b, inputs, depth).Ok?
    requires t in AddInputs(p, maxDepth, b, inputs, depth).value.fetched && t !in b.fetched
    requires forall i :: 0 <= i < |inputs| && inputs[i].Some? && inputs[i].value != "" ==>
               Needs(p, top, inputs[i].value)
    ensures NeededWithin(p, top, t, maxDepth - depth + 1)
    decreases Measure(maxDepth, depth), 1 + |inputs|
  {
    var mid := b;
    if inputs[0].Some? && inputs[0].value != "" {
      mid := AddTx(p, maxDepth, b, inputs[0].value, depth).value;
      if t in mid.fetched {
        AddTxWithinDepth(p, maxDepth, b, inputs[0].value, depth, t);
        NeedExtends(p, top, inputs[0].value, t, maxDepth - depth);
      }
    }
    if t !in mid.fetched {
      AddInputsWithinDepth(p, maxDepth, mid, inputs[1..], depth, top, t);
    }
  }

  /** A build follows unproven sources over at most maxDepth generations: it fails rather than go deeper. */
  lemma {:induction false} BuildStaysWithinDepth(p: Providers, maxDepth: int, b: Build, outpoints: seq<string>, t: Txid)
    requires AddRoots(p, maxDepth, b, outpoints).Ok?
    requires t in AddRoots(p, maxDepth, b, outpoints).value.fetched && t !in b.fetched
    ensures exists i :: 0 <= i < |outpoints| && NeededWithin(p, TxidOf(outpoints[i]), t, maxDepth)
    decreases |outpoints|
  {
    var mid := AddTx(p, maxDepth, b, TxidOf(outpoints[0]), 0).value;
    if t in mid.fetched {
      AddTxWithinDepth(p, maxDepth, b, TxidOf(outpoints[0]), 0, t);
    } else {
      var rest := outpoints[1..];
      BuildStaysWithinDepth(p, maxDepth, mid, rest, t);
      var i :| 0 <= i < |rest| && NeededWithin(p, TxidOf(rest[i]), t, maxDepth);
      assert rest[i] == outpoints[i + 1];
    }
  }

  // ----- Requests written out

  /** An output that is asked for: 64 hexadecimal digits and an index within the safe integers. */
  datatype Request = Request(hex: string, index: nat)

  predicate Addressable(r: Request) { IsTxid(r.hex) && r.index <= 9_007_199_254_740_991 }

  function Written(requests: seq<Request>): (r: seq<string>)
    ensures |r| == |requests|
    ensures forall i :: 0 <= i < |r| ==> r[i] == requests[i].hex + "." + Notation(requests[i].index)
  {
    if requests == [] then [] else [requests[0].hex + "." + Notation(requests[0].index)] + Written(requests[1..])
  }

  lemma WrittenParses(r: Request)
    requires Addressable(r)
    ensures ParseOutpoint(r.hex + "." + Notation(r.index)) == Ok((LowerCase(r.hex), r.index))
  {
    OutpointParsesExactly(r.hex, Notation(r.index));
    DecimalInverts(r.index);
    assert (r.hex + "." + Notation(r.index))[..64] == r.hex;
  }

  /**
   * For any list of addressable outputs, in either case: when everything needed is served and no
   * unproven chain is longer than maxDepth, the build succeeds and merges every requested
   * transaction, each one without a proof after its sources.
   */
  lemma RequestsAreBuilt(p: Providers, maxDepth: int, requests: seq<Request>, wanted: iset<Txid>, rank: Txid -> nat)
    requires Served(p, wanted, rank) && forall i :: 0 <= i < |requests| ==> Addressable(requests[i])
    requires forall i :: 0 <= i < |requests| ==>
               LowerCase(requests[i].hex) in wanted && rank(LowerCase(requests[i].hex)) <= maxDepth
    ensures var r := BuildBeef(p, maxDepth, Written(requests));
            && r.Ok? && NoDuplicates(r.value.merged) && SourcesFirst(p, r.value.merged)
            && forall i :: 0 <= i < |requests| ==> LowerCase(requests[i].hex) in r.value.merged
  {
    var outpoints := Written(requests);
    forall i | 0 <= i < |outpoints|
      ensures ParseOutpoint(outpoints[i]).Ok? && TxidOf(outpoints[i]) == LowerCase(requests[i].hex)
    {
      WrittenParses(requests[i]);
    }
    BuildSucceedsWithinDepth(p, maxDepth, Build({}, []), outpoints, wanted, rank);
    BuildIsOrderedAndClosed(p, maxDepth, outpoints, wanted, rank);
  }
}
