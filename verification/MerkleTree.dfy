/**
 * The mock chain's merkle tree: a level-by-level root builder and an independent path builder
 * (BRC-74, Specification section).  Double SHA-256 is any function hash from bytes to bytes.
 */
module MerkleTree {
  import opened Common

  type Hash = Bytes -> Bytes

  function Reverse(s: Bytes): (r: Bytes)
    ensures |r| == |s|
  {
    seq(|s|, i requires 0 <= i < |s| => s[|s| - 1 - i])
  }

  lemma ReverseTwice(s: Bytes)
    ensures Reverse(Reverse(s)) == s
  {
  }

  /** The digest with its bytes in big-endian order, as block headers show it. */
  function DoubleHashBE(hash: Hash, data: Bytes): Bytes { Reverse(hash(data)) }

  /** The parent of two big-endian nodes: hashing works on little-endian bytes. */
  function Parent(hash: Hash, left: Bytes, right: Bytes): Bytes {
    DoubleHashBE(hash, Reverse(left) + Reverse(right))
  }

  /** The right child of pair k; an odd last node is its own sibling. */
  function RightOf(level: seq<Bytes>, k: nat): Bytes
    requires 2 * k < |level|
  {
    if 2 * k + 1 < |level| then level[2 * k + 1] else level[2 * k]
  }

  /** One parent for every pair, from the left. */
  function NextLevel(hash: Hash, level: seq<Bytes>): (next: seq<Bytes>)
    ensures |level| <= 2 * |next| <= |level| + 1
  {
    if level == [] then []
    else if |level| == 1 then [Parent(hash, level[0], level[0])]
    else [Parent(hash, level[0], level[1])] + NextLevel(hash, level[2..])
  }

  lemma {:induction false} NextLevelAt(hash: Hash, level: seq<Bytes>, k: nat)
    requires 2 * k < |level|
    ensures k < |NextLevel(hash, level)|
    ensures NextLevel(hash, level)[k] == Parent(hash, level[2 * k], RightOf(level, k))
  {
    if k > 0 {
      NextLevelAt(hash, level[2..], k - 1);
      assert RightOf(level[2..], k - 1) == RightOf(level, k);
    }
  }

  lemma {:induction false} NextLevelSnoc(hash: Hash, level: seq<Bytes>, k: nat)
    requires 2 * k < |level|
    ensures NextLevel(hash, level[..Min(2 * k + 2, |level|)])
         == NextLevel(hash, level[..2 * k]) + [Parent(hash, level[2 * k], RightOf(level, k))]
  {
    var more := level[..Min(2 * k + 2, |level|)];
    if k == 0 {
      assert level[..0] == [];
      assert |more| == 2 ==> more[2..] == [];
    } else {
      NextLevelSnoc(hash, level[2..], k - 1);
      assert more[2..] == level[2..][..Min(2 * k, |level| - 2)];
      assert level[..2 * k][2..] == level[2..][..2 * k - 2];
      assert RightOf(level[2..], k - 1) == RightOf(level, k);
    }
  }

  function Root(hash: Hash, level: seq<Bytes>): Bytes
    requires level != []
    decreases |level|
  {
    if |level| == 1 then level[0] else Root(hash, NextLevel(hash, level))
  }

  function ReverseAll(level: seq<Bytes>): (r: seq<Bytes>)
    ensures |r| == |level| && forall i :: 0 <= i < |r| ==> r[i] == Reverse(level[i])
  {
    seq(|level|, i requires 0 <= i < |level| => Reverse(level[i]))
  }

  lemma ReversedParent(hash: Hash, left: Bytes, right: Bytes)
    ensures Reverse(DoubleHashBE(hash, left + right)) == Reverse(Parent(hash, Reverse(left), Reverse(right)))
  {
    ReverseTwice(left);
    ReverseTwice(right);
  }

  /** The inner loop of computeMerkleRoot, on little-endian nodes. */
  method HashPairsLE(hash: Hash, level: seq<Bytes>) returns (next: seq<Bytes>)
    ensures ReverseAll(next) == NextLevel(hash, ReverseAll(level))
  {
    next := [];
    var i := 0;
    ghost var nodes := ReverseAll(level);
    while i < |level|
      invariant 0 <= i <= |level| + 1 && i == 2 * |next|
      invariant ReverseAll(next) == NextLevel(hash, nodes[..Min(i, |level|)])
    {
      var left := level[i];
      var right := if i + 1 < |level| then level[i + 1] else level[i];
      var digest := DoubleHashBE(hash, left + right);
      ReversedParent(hash, left, right);
      ReverseTwice(digest);
      ReverseTwice(Parent(hash, Reverse(left), Reverse(right)));
      NextLevelSnoc(hash, nodes, |next|);
      assert RightOf(nodes, |next|) == Reverse(right);
      assert ReverseAll(next + [Reverse(digest)]) == ReverseAll(next) + [digest];
      next := next + [Reverse(digest)];
      i := i + 2;
    }
    assert nodes[..|level|] == nodes;
  }

  /** computeMerkleRoot: the levels are kept little-endian. */
  method ComputeMerkleRoot(hash: Hash, txids: seq<Bytes>) returns (r: Result<Bytes>)
    ensures txids == [] <==> r.Err?
    ensures txids != [] ==> r == Ok(Root(hash, txids))
  {
    if txids == [] {
      return Err("Cannot compute merkle root of empty txid list");
    }
    var level := ReverseAll(txids);
    ReverseAllTwice(txids);
    while |level| > 1
      invariant level != [] && Root(hash, ReverseAll(level)) == Root(hash, txids)
      decreases |level|
    {
      level := HashPairsLE(hash, level);
    }
    return Ok(Reverse(level[0]));
  }

  lemma ReverseAllTwice(level: seq<Bytes>)
    ensures ReverseAll(ReverseAll(level)) == level
  {
    forall i | 0 <= i < |level| { ReverseTwice(level[i]); }
  }

  datatype Leaf = Leaf(offset: int, hash: Option<Bytes>, txid: bool, duplicate: bool)

  datatype MerklePath = MerklePath(blockHeight: int, path: seq<seq<Leaf>>)

  /** The offset with its lowest bit flipped. */
  function SiblingOffset(index: nat): nat {
    if index % 2 == 1 then index - 1 else index + 1
  }

  function SiblingLeaf(level: seq<Bytes>, index: nat): Leaf {
    var sibling := SiblingOffset(index);
    if sibling >= |level| then Leaf(sibling, None, false, true) else Leaf(sibling, Some(level[sibling]), false, false)
  }

  /** The leaves of the lowest level, the one with the smaller offset first. */
  function BottomLeaves(level: seq<Bytes>, index: nat): seq<Leaf>
    requires index < |level|
  {
    var target := Leaf(index, Some(level[index]), true, false);
    if index % 2 == 1 then [SiblingLeaf(level, index), target] else [target, SiblingLeaf(level, index)]
  }

  /** The leaves that one turn of the path loop pushes. */
  function LeavesAt(level: seq<Bytes>, index: nat, bottom: bool): seq<Leaf>
    requires index < |level|
  {
    if bottom then BottomLeaves(level, index) else [SiblingLeaf(level, index)]
  }

  /** The path levels from level upwards, one for every halving. */
  function Levels(hash: Hash, level: seq<Bytes>, index: nat, bottom: bool): seq<seq<Leaf>>
    requires index < |level|
    decreases |level|
  {
    if |level| == 1 then []
    else
      [LeavesAt(level, index, bottom)] +
      Levels(hash, NextLevel(hash, level), index / 2, false)
  }

  function Path(hash: Hash, txids: seq<Bytes>, index: nat): seq<seq<Leaf>>
    requires index < |txids|
  {
    if |txids| == 1 then [[Leaf(0, Some(txids[0]), true, false)]] else Levels(hash, txids, index, true)
  }

  function TreeHeight(n: nat): nat {
    if n <= 1 then 0 else 1 + TreeHeight((n + 1) / 2)
  }

  /** The inner loop of computeMerklePath, on big-endian nodes. */
  method HashPairsBE(hash: Hash, level: seq<Bytes>) returns (next: seq<Bytes>)
    ensures next == NextLevel(hash, level)
  {
    next := [];
    var i := 0;
    while i < |level|
      invariant 0 <= i <= |level| + 1 && i == 2 * |next|
      invariant next == NextLevel(hash, level[..Min(i, |level|)])
    {
      var left := Reverse(level[i]);
      var right := if i + 1 < |level| then Reverse(level[i + 1]) else left;
      assert right == Reverse(RightOf(level, |next|));
      NextLevelSnoc(hash, level, |next|);
      next := next + [DoubleHashBE(hash, left + right)];
      i := i + 2;
    }
    assert level[..|level|] == level;
  }

  method ComputeTreeHeight(count: nat) returns (treeHeight: nat)
    ensures treeHeight == TreeHeight(count)
  {
    treeHeight := 0;
    var n := count;
    while n > 1
      invariant TreeHeight(count) == treeHeight + TreeHeight(n)
    {
      treeHeight := treeHeight + 1;
      n := (n + 1) / 2;
    }
  }

  /** The leaves that one turn of the loop of computeMerklePath pushes. */
  method SiblingLeaves(levelTxids: seq<Bytes>, index: nat, bottom: bool) returns (leaves: seq<Leaf>)
    requires index < |levelTxids|
    ensures leaves == LeavesAt(levelTxids, index, bottom)
  {
    var isOdd := index % 2 == 1;
    var siblingIndex := if isOdd then index - 1 else index + 1;
    var siblingLeaf := if siblingIndex >= |levelTxids| then Leaf(siblingIndex, None, false, true)
                       else Leaf(siblingIndex, Some(levelTxids[siblingIndex]), false, false);
    if bottom {
      var targetLeaf := Leaf(index, Some(levelTxids[index]), true, false);
      leaves := if siblingIndex < |levelTxids| && isOdd then [siblingLeaf, targetLeaf] else [targetLeaf, siblingLeaf];
    } else {
      leaves := [siblingLeaf];
    }
  }

  method ComputeMerklePath(hash: Hash, txids: seq<Bytes>, targetIndex: int,
                           blockHeight: int) returns (r: Result<MerklePath>)
    ensures r.Ok? <==> 0 <= targetIndex < |txids|
    ensures 0 <= targetIndex < |txids| ==> r == Ok(MerklePath(blockHeight, Path(hash, txids, targetIndex)))
  {
    if txids == [] {
      return Err("Cannot compute merkle path of empty txid list");
    }
    if targetIndex < 0 || targetIndex >= |txids| {
      return Err("targetIndex out of range");
    }
    if |txids| == 1 {
      return Ok(MerklePath(blockHeight, [[Leaf(0, Some(txids[0]), true, false)]]));
    }
    var treeHeight := ComputeTreeHeight(|txids|);
    var path: seq<seq<Leaf>> := [];
    var index: nat, level, levelTxids := targetIndex, 0, txids;
    while level < treeHeight
      invariant 0 <= level <= treeHeight && index < |levelTxids|
      invariant TreeHeight(|levelTxids|) == treeHeight - level
      invariant path + Levels(hash, levelTxids, index, level == 0) == Path(hash, txids, targetIndex)
    {
      var leaves := SiblingLeaves(levelTxids, index, level == 0);
      var nextLevel := HashPairsBE(hash, levelTxids);
      PathStep(hash, path, levelTxids, index, level == 0);
      path := path + [leaves];
      levelTxids, index, level := nextLevel, index / 2, level + 1;
    }
    assert path + [] == path;
    return Ok(MerklePath(blockHeight, path));
  }

  lemma LevelsUnfold(hash: Hash, level: seq<Bytes>, index: nat, bottom: bool)
    requires index < |level| && |level| > 1
    ensures Levels(hash, level, index, bottom) != []
    ensures Levels(hash, level, index, bottom)[0] == LeavesAt(level, index, bottom)
    ensures Levels(hash, level, index, bottom)[1..] == Levels(hash, NextLevel(hash, level), index / 2, false)
  {
  }

  /** What one turn of the loop of computeMerklePath does to the path and to the levels that remain. */
  lemma PathStep(hash: Hash, path: seq<seq<Leaf>>, level: seq<Bytes>, index: nat, bottom: bool)
    requires index < |level| && TreeHeight(|level|) > 0
    ensures index / 2 < |NextLevel(hash, level)| && TreeHeight(|NextLevel(hash, level)|) == TreeHeight(|level|) - 1
    ensures path + [LeavesAt(level, index, bottom)] + Levels(hash, NextLevel(hash, level), index / 2, false)
         == path + Levels(hash, level, index, bottom)
  {
    LevelsUnfold(hash, level, index, bottom);
    ShiftHead(path, Levels(hash, level, index, bottom));
    assert |NextLevel(hash, level)| == (|level| + 1) / 2;
  }

  lemma ShiftHead<T>(done: seq<T>, rest: seq<T>)
    requires rest != []
    ensures done + rest == done + [rest[0]] + rest[1..]
  {
  }

  // ----- Recomputing the root from a path, as a verifier does

  function FindLeaf(leaves: seq<Leaf>, offset: nat): Option<Leaf> {
    if leaves == [] then None
    else if leaves[0].offset == offset then Some(leaves[0])
    else FindLeaf(leaves[1..], offset)
  }

  /** The sibling goes to the right of an even node and to the left of an odd one. */
  function ClimbPast(hash: Hash, leaf: Leaf, working: Bytes): Option<Bytes> {
    if leaf.duplicate then Some(Parent(hash, working, working))
    else if leaf.hash.None? then None
    else if leaf.offset % 2 == 1 then Some(Parent(hash, working, leaf.hash.value))
    else Some(Parent(hash, leaf.hash.value, working))
  }

  function Climb(hash: Hash, leaves: seq<Leaf>, index: nat, working: Bytes): Option<Bytes> {
    match FindLeaf(leaves, SiblingOffset(index))
    case None => None
    case Some(leaf) => ClimbPast(hash, leaf, working)
  }

  function Fold(hash: Hash, path: seq<seq<Leaf>>, index: nat, working: Bytes): Option<Bytes> {
    if path == [] then Some(working)
    else
      var up := Climb(hash, path[0], index, working);
      if up.None? then None else Fold(hash, path[1..], index / 2, up.value)
  }

  /** A path with a single leaf is that of a block with one transaction. */
  function RootFromPath(hash: Hash, path: seq<seq<Leaf>>, index: nat, txid: Bytes): Option<Bytes> {
    if |path| == 1 && |path[0]| == 1 then Some(txid) else Fold(hash, path, index, txid)
  }

  lemma SiblingAtThisLevel(level: seq<Bytes>, index: nat, bottom: bool)
    requires index < |level|
    ensures FindLeaf(LeavesAt(level, index, bottom), SiblingOffset(index)) == Some(SiblingLeaf(level, index))
  {
    var sibling := SiblingLeaf(level, index);
    assert FindLeaf([sibling], SiblingOffset(index)) == Some(sibling);
    if bottom && index % 2 == 0 {
      var target := Leaf(index, Some(level[index]), true, false);
      assert [target, sibling][1..] == [sibling];
    }
  }

  lemma ClimbPastSibling(hash: Hash, level: seq<Bytes>, index: nat, k: nat)
    requires index < |level| && |level| > 1 && 2 * k <= index <= 2 * k + 1
    ensures ClimbPast(hash, SiblingLeaf(level, index), level[index]) ==
            Some(Parent(hash, level[2 * k], RightOf(level, k)))
  {
  }

  lemma ClimbReachesParent(hash: Hash, level: seq<Bytes>, index: nat, bottom: bool)
    requires index < |level| && |level| > 1
    ensures index / 2 < |NextLevel(hash, level)|
    ensures Climb(hash, LeavesAt(level, index, bottom), index, level[index]) == Some(NextLevel(hash, level)[index / 2])
  {
    SiblingAtThisLevel(level, index, bottom);
    NextLevelAt(hash, level, index / 2);
    ClimbPastSibling(hash, level, index, index / 2);
  }

  lemma {:induction false} LevelsFold(hash: Hash, level: seq<Bytes>, index: nat, bottom: bool)
    requires index < |level|
    ensures Fold(hash, Levels(hash, level, index, bottom), index, level[index]) == Some(Root(hash, level))
    decreases |level|
  {
    if |level| > 1 {
      ClimbReachesParent(hash, level, index, bottom);
      LevelsFold(hash, NextLevel(hash, level), index / 2, false);
      LevelsUnfold(hash, level, index, bottom);
    }
  }

  /** Folding the computed path from the leaf gives the computed root, for every non-empty list and every index. */
  lemma PathProvesInclusion(hash: Hash, txids: seq<Bytes>, index: nat)
    requires index < |txids|
    ensures RootFromPath(hash, Path(hash, txids, index), index, txids[index]) == Some(Root(hash, txids))
  {
    LevelsFold(hash, txids, index, true);
    if |txids| > 1 {
      assert |Levels(hash, txids, index, true)[0]| == 2;
    }
  }

  /** The index shifted right by l bits. */
  function ShiftRight(index: nat, l: nat): nat { if l == 0 then index else ShiftRight(index / 2, l - 1) }

  lemma DoubleBounds(index: nat, k: nat, p: nat)
    requires k * p <= index / 2 < (k + 1) * p
    ensures k * (2 * p) <= index < (k + 1) * (2 * p)
  {
    assert k * (2 * p) == 2 * (k * p) && (k + 1) * (2 * p) == 2 * ((k + 1) * p);
  }

  lemma {:induction false} ShiftIsDivision(index: nat, l: nat)
    ensures ShiftRight(index, l) * Pow2(l) <= index < (ShiftRight(index, l) + 1) * Pow2(l)
  {
    if l > 0 {
      ShiftIsDivision(index / 2, l - 1);
      DoubleBounds(index, ShiftRight(index, l), Pow2(l - 1));
    }
  }

  /** The path has one level for every halving. */
  lemma {:induction false} OneLevelPerHalving(hash: Hash, level: seq<Bytes>, index: nat, bottom: bool)
    requires index < |level|
    ensures |Levels(hash, level, index, bottom)| == TreeHeight(|level|)
    decreases |level|
  {
    if |level| > 1 {
      OneLevelPerHalving(hash, NextLevel(hash, level), index / 2, false);
    }
  }

  /** Level l of the path holds the sibling of index / 2^l, and above the bottom nothing else. */
  lemma {:induction false} SiblingAtEveryLevel(hash: Hash, level: seq<Bytes>, index: nat, bottom: bool, l: nat)
    requires index < |level| && l < |Levels(hash, level, index, bottom)|
    ensures var leaves := Levels(hash, level, index, bottom)[l];
            && FindLeaf(leaves, SiblingOffset(ShiftRight(index, l))).Some?
            && (l > 0 || !bottom ==> |leaves| == 1 && leaves[0].offset == SiblingOffset(ShiftRight(index, l)))
    decreases |level|
  {
    LevelsUnfold(hash, level, index, bottom);
    if l == 0 {
      SiblingAtThisLevel(level, index, bottom);
    } else {
      SiblingAtEveryLevel(hash, NextLevel(hash, level), index / 2, false, l - 1);
      assert Levels(hash, level, index, bottom)[l] == Levels(hash, level, index, bottom)[1..][l - 1];
      assert ShiftRight(index, l) == ShiftRight(index / 2, l - 1);
    }
  }

  lemma {:induction false} OnlySiblingsAbove(hash: Hash, level: seq<Bytes>, index: nat, bottom: bool, l: nat, k: nat)
    requires index < |level| && l < |Levels(hash, level, index, bottom)|
    requires k < |Levels(hash, level, index, bottom)[l]| && (bottom ==> l > 0)
    ensures var leaf := Levels(hash, level, index, bottom)[l][k]; !leaf.txid && (leaf.duplicate <==> leaf.hash.None?)
    decreases |level|
  {
    LevelsUnfold(hash, level, index, bottom);
    if l > 0 {
      assert Levels(hash, level, index, bottom)[l] == Levels(hash, level, index, bottom)[1..][l - 1];
      OnlySiblingsAbove(hash, NextLevel(hash, level), index / 2, false, l - 1, k);
    }
  }

  /**
   * The bottom of a path has the target, marked as a txid, and its sibling in the order of their
   * offsets; a single transaction has no sibling.
   */
  lemma BottomHasTheTarget(hash: Hash, txids: seq<Bytes>, index: nat)
    requires index < |txids|
    ensures Path(hash, txids, index) != []
    ensures var bottom := Path(hash, txids, index)[0];
            var target := Leaf(index, Some(txids[index]), true, false);
            if |txids| == 1 then bottom == [target]
            else
              && |bottom| == 2 && bottom[0].offset + 1 == bottom[1].offset && bottom[0].offset % 2 == 0
              && bottom[index % 2] == target && !bottom[1 - index % 2].txid
              && (if index % 2 == 0 && index + 1 == |txids| then bottom[1].duplicate && bottom[1].hash.None?
                  else bottom[1 - index % 2].hash == Some(txids[bottom[1 - index % 2].offset])
                       && !bottom[1 - index % 2].duplicate)
  {
    if |txids| > 1 {
      LevelsUnfold(hash, txids, index, true);
    }
  }

  /** No other leaf of the path is marked as a txid, and exactly the leaves without a hash are duplicates. */
  lemma OnlyTheTargetIsMarked(hash: Hash, txids: seq<Bytes>, index: nat, l: nat, k: nat)
    requires index < |txids| && l < |Path(hash, txids, index)| && k < |Path(hash, txids, index)[l]|
    ensures var leaf := Path(hash, txids, index)[l][k];
            (leaf.txid <==> l == 0 && leaf.offset == index) && (leaf.duplicate <==> leaf.hash.None?)
  {
    BottomHasTheTarget(hash, txids, index);
    if l > 0 {
      OnlySiblingsAbove(hash, txids, index, true, l, k);
    }
  }

  /** The path length is the base-2 logarithm of the number of transactions, rounded up. */
  lemma {:induction false} HeightIsLogarithm(n: nat)
    requires n > 0
    ensures n <= Pow2(TreeHeight(n)) && (n > 1 ==> Pow2(TreeHeight(n) - 1) < n)
  {
    if n > 2 {
      HeightIsLogarithm((n + 1) / 2);
    } else if n == 2 {
      assert TreeHeight(2) == 1 + TreeHeight(1);
    }
  }

  // ----- A path of the right length proves nothing else, unless the hash collides on the inputs at hand

  predicate Digests(level: seq<Bytes>) { forall i :: 0 <= i < |level| ==> |level[i]| == 32 }

  predicate DigestLeaves(path: seq<seq<Leaf>>) {
    forall l, i :: 0 <= l < |path| && 0 <= i < |path[l]| && path[l][i].hash.Some? ==> |path[l][i].hash.value| == 32
  }

  /** What is hashed to obtain node k of the next level. */
  function Preimage(level: seq<Bytes>, k: nat): Bytes
    requires 2 * k < |level|
  {
    Reverse(level[2 * k]) + Reverse(RightOf(level, k))
  }

  /** What is hashed when climbing from working past the given sibling. */
  function ClimbPreimage(leaf: Leaf, working: Bytes): Bytes {
    if leaf.duplicate || leaf.hash.None? then Reverse(working) + Reverse(working)
    else if leaf.offset % 2 == 1 then Reverse(working) + Reverse(leaf.hash.value)
    else Reverse(leaf.hash.value) + Reverse(working)
  }

  /** At no level does the hash give the tree's input and a different input of the path the same digest. */
  ghost predicate NoCollision(hash: Hash, level: seq<Bytes>, index: nat, path: seq<seq<Leaf>>, working: Bytes)
    requires index < |level|
    decreases |level|
  {
    |level| > 1 && path != [] && Climb(hash, path[0], index, working).Some? ==>
      var y := ClimbPreimage(FindLeaf(path[0], SiblingOffset(index)).value, working);
      && (hash(y) == hash(Preimage(level, index / 2)) ==> y == Preimage(level, index / 2))
      && |hash(y)| == 32 && Digests(NextLevel(hash, level))
      && NoCollision(hash, NextLevel(hash, level), index / 2, path[1..], Climb(hash, path[0], index, working).value)
  }

  lemma SplitConcat(a: Bytes, b: Bytes, c: Bytes, d: Bytes)
    requires |a| == |b| == |c| == |d| == 32 && Reverse(a) + Reverse(b) == Reverse(c) + Reverse(d)
    ensures a == c && b == d
  {
    var x := Reverse(a) + Reverse(b);
    assert x[..32] == Reverse(a) && x[32..] == Reverse(b);
    assert x[..32] == Reverse(c) && x[32..] == Reverse(d);
    ReverseTwice(a);
    ReverseTwice(b);
    ReverseTwice(c);
    ReverseTwice(d);
  }

  lemma {:induction false} FindLeafMember(leaves: seq<Leaf>, offset: nat)
    ensures FindLeaf(leaves, offset).Some? ==>
              FindLeaf(leaves, offset).value in leaves && FindLeaf(leaves, offset).value.offset == offset
  {
    if leaves != [] && leaves[0].offset != offset {
      FindLeafMember(leaves[1..], offset);
    }
  }

  /** If climbing past some sibling gives the parent of index, the climber started at the node itself. */
  lemma ClimbStartsAtNode(hash: Hash, level: seq<Bytes>, index: nat, leaves: seq<Leaf>, working: Bytes)
    requires index < |level| && |level| > 1 && Digests(level) && |working| == 32
    requires forall i :: 0 <= i < |leaves| && leaves[i].hash.Some? ==> |leaves[i].hash.value| == 32
    requires Climb(hash, leaves, index, working) == Some(NextLevel(hash, level)[index / 2])
    requires ClimbPreimage(FindLeaf(leaves, SiblingOffset(index)).value, working) == Preimage(level, index / 2)
    ensures working == level[index]
  {
    NextLevelAt(hash, level, index / 2);
    FindLeafMember(leaves, SiblingOffset(index));
    var sibling := FindLeaf(leaves, SiblingOffset(index)).value;
    var left, right := level[2 * (index / 2)], RightOf(level, index / 2);
    if sibling.duplicate {
      SplitConcat(working, working, left, right);
    } else if index % 2 == 0 {
      SplitConcat(working, sibling.hash.value, left, right);
    } else {
      SplitConcat(sibling.hash.value, working, left, right);
    }
  }

  lemma ClimbHashes(hash: Hash, leaves: seq<Leaf>, index: nat, working: Bytes)
    requires Climb(hash, leaves, index, working).Some?
    ensures Climb(hash, leaves, index, working).value
         == Reverse(hash(ClimbPreimage(FindLeaf(leaves, SiblingOffset(index)).value, working)))
  {
  }

  /**
   * If any path as long as the tree is high leads from a 32-byte value at the index to the root,
   * the value is the leaf.
   */
  lemma {:induction false} OnlyTheLeafFolds(hash: Hash, level: seq<Bytes>, index: nat, path: seq<seq<Leaf>>,
                                            leaf: Bytes)
    requires index < |level| && |path| == TreeHeight(|level|)
    requires Digests(level) && DigestLeaves(path) && |leaf| == 32
    requires NoCollision(hash, level, index, path, leaf)
    requires Fold(hash, path, index, leaf) == Some(Root(hash, level))
    ensures leaf == level[index]
    decreases |level|
  {
    if |level| > 1 {
      var up := Climb(hash, path[0], index, leaf).value;
      ClimbHashes(hash, path[0], index, leaf);
      OnlyTheLeafFolds(hash, NextLevel(hash, level), index / 2, path[1..], up);
      NextLevelAt(hash, level, index / 2);
      ReverseTwice(hash(Preimage(level, index / 2)));
      ReverseTwice(hash(ClimbPreimage(FindLeaf(path[0], SiblingOffset(index)).value, leaf)));
      ClimbStartsAtNode(hash, level, index, path[0], leaf);
    }
  }
}
