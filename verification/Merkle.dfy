/** The binary Merkle tree of `crates/core/src/merkle.rs` and its twin in
    `crates/consensus/src/lib.rs`. Hashes are free terms: two digests are equal exactly when
    they were computed from equal inputs, and no digest of a leaf is a digest of a pair. */
module Merkle {
  import opened Arithmetic
  import opened Collections

  datatype Hash<T> = Zero | Leaf(content: T) | Node(left: Hash<T>, right: Hash<T>)

  // ----- specification -----

  /** The right partner of position `i` (even): an odd last node is paired with itself. */
  function RightOf<T>(level: seq<Hash<T>>, i: nat): Hash<T>
    requires i < |level|
  {
    if i + 1 < |level| then level[i + 1] else level[i]
  }

  function PairUp<T>(level: seq<Hash<T>>): (r: seq<Hash<T>>)
    ensures |r| == (|level| + 1) / 2
  {
    seq((|level| + 1) / 2, i requires 0 <= i < (|level| + 1) / 2 =>
      Node(level[2 * i], RightOf(level, 2 * i)))
  }

  function Root<T>(leaves: seq<Hash<T>>): Hash<T>
    decreases |leaves|
  {
    if leaves == [] then Zero
    else if |leaves| == 1 then leaves[0]
    else Root(PairUp(leaves))
  }

  /** Number of halvings that bring `n` leaves down to one. */
  function Height(n: nat): nat {
    if n <= 1 then 0 else 1 + Height((n + 1) / 2)
  }

  function Sibling<T>(level: seq<Hash<T>>, i: nat): Hash<T>
    requires i < |level|
  {
    if i % 2 == 1 then level[i - 1] else RightOf(level, i)
  }

  function Path<T>(leaves: seq<Hash<T>>, index: nat): seq<Hash<T>>
    requires index < |leaves|
    decreases |leaves|
  {
    if |leaves| == 1 then []
    else [Sibling(leaves, index)] + Path(PairUp(leaves), index / 2)
  }

  function Join<T>(node: Hash<T>, index: nat, sibling: Hash<T>): Hash<T> {
    if index % 2 == 0 then Node(node, sibling) else Node(sibling, node)
  }

  function Climb<T>(node: Hash<T>, index: nat, proof: seq<Hash<T>>): Hash<T>
    decreases |proof|
  {
    if proof == [] then node
    else Climb(Join(node, index, proof[0]), index / 2, proof[1..])
  }

  // ----- the code's loops -----

  method NextLevel<T>(level: seq<Hash<T>>) returns (next: seq<Hash<T>>)
    ensures next == PairUp(level)
  {
    next := [];
    var i := 0;
    while i < |level|
      invariant i == 2 * |next| || (i == |level| && i == 2 * |next| - 1)
      invariant i <= |level|
      invariant |next| <= |PairUp(level)| && next == PairUp(level)[..|next|]
    {
      if i + 1 < |level| {
        next := next + [Node(level[i], level[i + 1])];
        i := i + 2;
      } else {
        next := next + [Node(level[i], level[i])];
        i := i + 1;
      }
    }
  }

  method MerkleRoot<T>(leaves: seq<Hash<T>>) returns (root: Hash<T>)
    ensures root == Root(leaves)
  {
    if leaves == [] {
      return Zero;
    }
    var level := leaves;
    while |level| > 1
      invariant level != [] && Root(level) == Root(leaves)
      decreases |level|
    {
      level := NextLevel(level);
    }
    return level[0];
  }

  method VerifyMerkleProof<T(==)>(root: Hash<T>, leaf: Hash<T>, leafIndex: nat, proof: seq<Hash<T>>)
    returns (ok: bool)
    ensures ok <==> Climb(leaf, leafIndex, proof) == root
  {
    var node, index := leaf, leafIndex;
    for i := 0 to |proof|
      invariant Climb(node, index, proof[i..]) == Climb(leaf, leafIndex, proof)
    {
      node := if index % 2 == 0 then Node(node, proof[i]) else Node(proof[i], node);
      index := index / 2;
      assert proof[i..][1..] == proof[i + 1..];
    }
    ok := node == root;
  }

  lemma PathStep<T>(prefix: seq<Hash<T>>, level: seq<Hash<T>>, idx: nat)
    requires 1 < |level| && idx < |level|
    ensures prefix + Path(level, idx) == prefix + [Sibling(level, idx)] + Path(PairUp(level), idx / 2)
  {
  }

  method MerkleProof<T>(leaves: seq<Hash<T>>, index: nat) returns (proof: Option<seq<Hash<T>>>)
    ensures proof == if index < |leaves| then Some(Path(leaves, index)) else None
  {
    if leaves == [] || index >= |leaves| {
      return None;
    }
    var level, idx, path := leaves, index, [];
    while |level| > 1
      invariant 0 <= idx < |level|
      invariant path + Path(level, idx) == Path(leaves, index)
      decreases |level|
    {
      var siblingIdx := if idx % 2 == 0 then idx + 1 else idx - 1;
      var sib := if siblingIdx < |level| then level[siblingIdx] else level[idx];
      assert sib == Sibling(level, idx);
      PathStep(path, level, idx);
      path := path + [sib];
      idx := idx / 2;
      level := NextLevel(level);
    }
    assert path + Path(level, idx) == path;
    return Some(path);
  }

  method MerklePathFromHashes<T>(hashes: seq<Hash<T>>, index: nat) returns (path: seq<Hash<T>>)
    ensures path == if index < |hashes| then Path(hashes, index) else []
  {
    path := [];
    if hashes == [] || index >= |hashes| {
      return;
    }
    var level, idx := hashes, index;
    while |level| > 1
      invariant 0 <= idx < |level|
      invariant path + Path(level, idx) == Path(hashes, index)
      decreases |level|
    {
      var sibling;
      if idx % 2 == 0 {
        sibling := if idx + 1 < |level| then level[idx + 1] else level[idx];
      } else {
        sibling := level[idx - 1];
      }
      assert sibling == Sibling(level, idx);
      PathStep(path, level, idx);
      path := path + [sibling];
      idx := idx / 2;
      level := NextLevel(level);
    }
    assert path + Path(level, idx) == path;
  }

  method MerklePathLen(leafCount: nat) returns (len: nat)
    ensures len == Height(leafCount)
  {
    var n := leafCount;
    len := 0;
    while n > 1
      invariant len + Height(n) == Height(leafCount)
    {
      n := (n + 1) / 2;
      len := len + 1;
    }
  }

  predicate AcceptsPath<T(==)>(leaf: Hash<T>, index: nat, leafCount: nat, path: seq<Hash<T>>, root: Hash<T>) {
    index < leafCount && |path| == Height(leafCount) && Climb(leaf, index, path) == root
  }

  method VerifyMerklePath<T(==)>(leaf: Hash<T>, index: nat, leafCount: nat, path: seq<Hash<T>>, root: Hash<T>)
    returns (ok: bool)
    ensures ok <==> AcceptsPath(leaf, index, leafCount, path, root)
  {
    if leafCount == 0 || index >= leafCount {
      return false;
    }
    var len := MerklePathLen(leafCount);
    if |path| != len {
      return false;
    }
    ok := VerifyMerkleProof(root, leaf, index, path);
  }

  // ----- completeness -----

  lemma JoinComplete<T>(level: seq<Hash<T>>, index: nat)
    requires index < |level|
    ensures Join(level[index], index, Sibling(level, index)) == PairUp(level)[index / 2]
  {
  }

  /** Every leaf's path leads back to the root and has exactly the prescribed length. */
  lemma {:induction false} PathComplete<T>(leaves: seq<Hash<T>>, index: nat)
    requires index < |leaves|
    ensures |Path(leaves, index)| == Height(|leaves|)
    ensures Climb(leaves[index], index, Path(leaves, index)) == Root(leaves)
    decreases |leaves|
  {
    if |leaves| > 1 {
      hide PairUp, Join, Sibling;
      var up := PairUp(leaves);
      PathComplete(up, index / 2);
      assert Path(leaves, index)[1..] == Path(up, index / 2);
      JoinComplete(leaves, index);
    }
  }

  // ----- soundness -----

  lemma PairUpInjective<T>(a: seq<Hash<T>>, b: seq<Hash<T>>)
    requires |a| == |b| && PairUp(a) == PairUp(b)
    ensures a == b
  {
    forall i | 0 <= i < |a|
      ensures a[i] == b[i]
    {
      assert PairUp(a)[i / 2] == PairUp(b)[i / 2];
    }
  }

  /** At a fixed leaf count the root determines the whole leaf list. */
  lemma {:induction false} RootInjective<T>(a: seq<Hash<T>>, b: seq<Hash<T>>)
    requires |a| == |b| && Root(a) == Root(b)
    ensures a == b
    decreases |a|
  {
    if |a| > 1 {
      RootInjective(PairUp(a), PairUp(b));
      PairUpInjective(a, b);
    }
  }

  lemma JoinSound<T>(level: seq<Hash<T>>, node: Hash<T>, index: nat, sibling: Hash<T>)
    requires index < |level| && Join(node, index, sibling) == PairUp(level)[index / 2]
    ensures node == level[index] && sibling == Sibling(level, index)
  {
    assert PairUp(level)[index / 2] == Node(level[index / 2 * 2], RightOf(level, index / 2 * 2));
  }

  /** A path of the right length proves the leaf at that index and no other, and there is
      only one such path. */
  lemma {:induction false} PathSound<T>(leaves: seq<Hash<T>>, leaf: Hash<T>, index: nat, path: seq<Hash<T>>)
    requires AcceptsPath(leaf, index, |leaves|, path, Root(leaves))
    ensures leaf == leaves[index] && path == Path(leaves, index)
    decreases |leaves|
  {
    if |leaves| > 1 {
      hide PairUp, Join, Sibling;
      var up := PairUp(leaves);
      PathSound(up, Join(leaf, index, path[0]), index / 2, path[1..]);
      JoinSound(leaves, leaf, index, path[0]);
      assert path == [path[0]] + path[1..];
    }
  }

  /** Acceptance at the true leaf count is exactly "this is the leaf and its path". */
  lemma AcceptsPathExactly<T>(leaves: seq<Hash<T>>, leaf: Hash<T>, index: nat, path: seq<Hash<T>>)
    ensures AcceptsPath(leaf, index, |leaves|, path, Root(leaves))
       <==> index < |leaves| && leaf == leaves[index] && path == Path(leaves, index)
  {
    if AcceptsPath(leaf, index, |leaves|, path, Root(leaves)) {
      PathSound(leaves, leaf, index, path);
    }
    if index < |leaves| {
      PathComplete(leaves, index);
    }
  }

  // ----- soundness of the variant without a length check -----

  /** Everything hashed below a node. */
  ghost function Contents<T>(h: Hash<T>): set<T> {
    match h
    case Zero => {}
    case Leaf(x) => {x}
    case Node(l, r) => Contents(l) + Contents(r)
  }

  ghost function LevelContents<T>(level: seq<Hash<T>>): set<T> {
    set i, x | 0 <= i < |level| && x in Contents(level[i]) :: x
  }

  lemma PairUpContents<T>(level: seq<Hash<T>>)
    ensures LevelContents(PairUp(level)) == LevelContents(level)
  {
    var up := PairUp(level);
    forall x | x in LevelContents(up)
      ensures x in LevelContents(level)
    {
      var i :| 0 <= i < |up| && x in Contents(up[i]);
      assert x in Contents(level[2 * i]) || x in Contents(RightOf(level, 2 * i));
    }
    forall x | x in LevelContents(level)
      ensures x in LevelContents(up)
    {
      var i :| 0 <= i < |level| && x in Contents(level[i]);
      assert x in Contents(up[i / 2]);
    }
  }

  lemma {:induction false} RootContents<T>(leaves: seq<Hash<T>>)
    ensures Contents(Root(leaves)) == LevelContents(leaves)
    decreases |leaves|
  {
    if |leaves| == 1 {
      assert LevelContents(leaves) == Contents(leaves[0]);
    } else if |leaves| > 1 {
      RootContents(PairUp(leaves));
      PairUpContents(leaves);
    }
  }

  lemma {:induction false} ClimbContents<T>(node: Hash<T>, index: nat, proof: seq<Hash<T>>)
    ensures Contents(node) <= Contents(Climb(node, index, proof))
    decreases |proof|
  {
    if proof != [] {
      ClimbContents(Join(node, index, proof[0]), index / 2, proof[1..]);
    }
  }

  function LeafHashes<T>(items: seq<T>): (r: seq<Hash<T>>)
    ensures |r| == |items|
  {
    seq(|items|, i requires 0 <= i < |items| => Leaf(items[i]))
  }

  lemma RootOfItems<T>(items: seq<T>)
    ensures Contents(Root(LeafHashes(items))) == set x | x in items
  {
    var leaves := LeafHashes(items);
    RootContents(leaves);
    forall x | x in items
      ensures x in LevelContents(leaves)
    {
      var i :| 0 <= i < |items| && items[i] == x;
      assert x in Contents(leaves[i]);
    }
  }

  /** Even without a length check, an item can only be proved if it was hashed as a leaf, and
      every hashed item can be proved: some index and proof convince the verifier of `item`
      exactly when the list holds it. */
  lemma ProvableExactlyMembers<T>(items: seq<T>, item: T)
    ensures (exists index: nat, proof :: Climb(Leaf(item), index, proof) == Root(LeafHashes(items)))
       <==> item in items
  {
    var root := Root(LeafHashes(items));
    RootOfItems(items);
    if index: nat, proof :| Climb(Leaf(item), index, proof) == root {
      ClimbContents(Leaf(item), index, proof);
      assert item in Contents(root);
    }
    if item in items {
      var i :| 0 <= i < |items| && items[i] == item;
      PathComplete(LeafHashes(items), i);
      assert Climb(Leaf(item), i, Path(LeafHashes(items), i)) == root;
    }
  }

  // ----- which indices the variant without a length check accepts -----

  /** Every digest of the tree lies at one depth: an odd node is paired with itself, not promoted. */
  ghost predicate Uniform<T>(h: Hash<T>, depth: nat) {
    match h
    case Zero => false
    case Leaf(_) => depth == 0
    case Node(l, r) => depth > 0 && Uniform(l, depth - 1) && Uniform(r, depth - 1)
  }

  lemma {:induction false} RootUniform<T>(level: seq<Hash<T>>, depth: nat)
    requires level != [] && forall i :: 0 <= i < |level| ==> Uniform(level[i], depth)
    ensures Uniform(Root(level), depth + Height(|level|))
    decreases |level|
  {
    if |level| > 1 {
      var up := PairUp(level);
      assert forall i :: 0 <= i < |up| ==> Uniform(up[i], depth + 1);
      RootUniform(up, depth + 1);
    }
  }

  /** A proof cannot reach a uniform tree except from a node at the matching depth. */
  lemma {:induction false} ClimbUniform<T>(node: Hash<T>, index: nat, proof: seq<Hash<T>>, depth: nat)
    requires Uniform(Climb(node, index, proof), depth)
    ensures |proof| <= depth && Uniform(node, depth - |proof|)
    decreases |proof|
  {
    if proof != [] {
      ClimbUniform(Join(node, index, proof[0]), index / 2, proof[1..], depth);
    }
  }

  /** The leaf an index leads to: itself inside the tree; outside, the walk is cut back to the
      last node of every level it overshoots. */
  function Mirror(index: nat, n: nat): (r: nat)
    requires n > 0
    ensures r < n
    decreases n
  {
    if n == 1 then 0 else Min(2 * Mirror(index / 2, (n + 1) / 2) + index % 2, n - 1)
  }

  lemma {:induction false} MirrorInRange(index: nat, n: nat)
    requires index < n
    ensures Mirror(index, n) == index
    decreases n
  {
    if n > 1 {
      MirrorInRange(index / 2, (n + 1) / 2);
    }
  }

  /** The siblings met on the way up from the mirrored leaf. */
  function MirrorPath<T>(level: seq<Hash<T>>, index: nat): (r: seq<Hash<T>>)
    requires level != []
    ensures |r| == Height(|level|)
    decreases |level|
  {
    if |level| == 1 then []
    else
      var j := 2 * Mirror(index / 2, (|level| + 1) / 2);
      [if index % 2 == 0 then RightOf(level, j) else level[j]] + MirrorPath(PairUp(level), index / 2)
  }

  lemma MirrorJoin<T>(level: seq<Hash<T>>, node: Hash<T>, index: nat, sibling: Hash<T>)
    requires |level| > 1
    ensures var j := Mirror(index / 2, (|level| + 1) / 2);
      (Join(node, index, sibling) == PairUp(level)[j])
      <==> (node == level[Mirror(index, |level|)]
            && sibling == if index % 2 == 0 then RightOf(level, 2 * j) else level[2 * j])
  {
  }

  /** At full height, climbing from a node reaches the root only along the mirrored path. */
  lemma {:induction false} ClimbExactly<T>(level: seq<Hash<T>>, node: Hash<T>, index: nat, proof: seq<Hash<T>>)
    requires level != [] && |proof| == Height(|level|)
    ensures Climb(node, index, proof) == Root(level)
       <==> node == level[Mirror(index, |level|)] && proof == MirrorPath(level, index)
    decreases |level|
  {
    if |level| > 1 {
      hide PairUp, Join, RightOf;
      var up := PairUp(level);
      ClimbExactly(up, Join(node, index, proof[0]), index / 2, proof[1..]);
      MirrorJoin(level, node, index, proof[0]);
      assert proof == [proof[0]] + proof[1..];
      assert MirrorPath(level, index)[1..] == MirrorPath(up, index / 2);
    }
  }

  /** What the verifier without a length check accepts: for every index exactly one leaf, the
      mirrored one, with exactly one proof. */
  lemma UncheckedAcceptsExactly<T>(items: seq<T>, item: T, index: nat, proof: seq<Hash<T>>)
    requires items != []
    ensures Climb(Leaf(item), index, proof) == Root(LeafHashes(items))
       <==> item == items[Mirror(index, |items|)] && proof == MirrorPath(LeafHashes(items), index)
  {
    var leaves := LeafHashes(items);
    RootUniform(leaves, 0);
    if Climb(Leaf(item), index, proof) == Root(leaves) {
      ClimbUniform(Leaf(item), index, proof, Height(|items|));
    }
    if |proof| == Height(|items|) {
      ClimbExactly(leaves, Leaf(item), index, proof);
    }
  }

  /** The index is bound exactly inside the list: there an item is provable at an index if and only
      if it is the item at that index. Every index outside still proves one item of the list. */
  lemma UncheckedIndexExactly<T>(items: seq<T>, item: T, index: nat)
    requires items != []
    ensures (exists proof :: Climb(Leaf(item), index, proof) == Root(LeafHashes(items)))
       <==> item == items[Mirror(index, |items|)]
    ensures index < |items| ==> Mirror(index, |items|) == index
  {
    var path := MirrorPath(LeafHashes(items), index);
    UncheckedAcceptsExactly(items, item, index, path);
    if proof :| Climb(Leaf(item), index, proof) == Root(LeafHashes(items)) {
      UncheckedAcceptsExactly(items, item, index, proof);
    }
    if item == items[Mirror(index, |items|)] {
      assert Climb(Leaf(item), index, path) == Root(LeafHashes(items));
    }
    if index < |items| {
      MirrorInRange(index, |items|);
    }
  }

  /** What the missing length check costs: for every list and every index outside it there is a
      proof that one verifier accepts, and none that the other does. */
  lemma UncheckedIndexIsFree<T>(items: seq<T>, index: nat)
    requires items != [] && |items| <= index
    ensures exists item, proof :: Climb(Leaf(item), index, proof) == Root(LeafHashes(items))
    ensures forall leaf, proof :: !AcceptsPath(leaf, index, |items|, proof, Root(LeafHashes(items)))
  {
    var item := items[Mirror(index, |items|)];
    UncheckedIndexExactly(items, item, index);
    var proof :| Climb(Leaf(item), index, proof) == Root(LeafHashes(items));
  }
}
