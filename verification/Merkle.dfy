/** Merkle branches for the Electrum protocol: the level-by-level loop, the reference tree it
    must agree with, and what a client checks. */
module Merkle {
  import opened Chain

  type Hash = nat

  /** `merklize`: nothing is known of it but that it is a function. */
  type Combine = (Hash, Hash) -> Hash

  // ----- the reference tree

  /** Nodes at a level of the tree over `n` leaves. */
  function Width(n: nat, level: nat): nat {
    if level == 0 then n else (Width(n, level - 1) + 1) / 2
  }

  /** The node at a position, where a missing right child repeats the left one. */
  function Node(f: Combine, leaves: seq<Hash>, level: nat, pos: nat): Hash
    requires pos < Width(|leaves|, level)
  {
    if level == 0 then leaves[pos]
    else
      var left := Node(f, leaves, level - 1, 2 * pos);
      f(left, if 2 * pos + 1 < Width(|leaves|, level - 1) then Node(f, leaves, level - 1, 2 * pos + 1) else left)
  }

  function Pow2(k: nat): nat {
    if k == 0 then 1 else 2 * Pow2(k - 1)
  }

  /** `d` is the ceiling of the logarithm of `n`. */
  predicate IsLog2(d: nat, n: nat) {
    Pow2(d) >= n && (d > 0 ==> Pow2(d - 1) < n)
  }

  lemma {:induction false} Doubled(w: nat, p: nat)
    ensures w * (2 * p) == (2 * w) * p
  {
  }

  lemma {:induction false} WidthIs(n: nat, k: nat, w: nat)
    requires n > 0
    ensures Width(n, k) <= w <==> n <= w * Pow2(k)
  {
    if k > 0 {
      WidthIs(n, k - 1, 2 * w);
      Doubled(w, Pow2(k - 1));
    }
  }

  /** The level at which one node is left is the only logarithm. */
  lemma {:induction false} DepthIs(n: nat, k: nat)
    requires n > 0 && Width(n, k) == 1 && (k > 0 ==> Width(n, k - 1) > 1)
    ensures IsLog2(k, n)
  {
    WidthIs(n, k, 1);
    if k > 0 {
      WidthIs(n, k - 1, 1);
    }
  }

  lemma {:induction false} OneLog2(n: nat, d: nat, e: nat)
    requires IsLog2(d, n) && IsLog2(e, n)
    ensures d == e
  {
    if d < e {
      Pow2Grows(d, e - 1);
    }
    if e < d {
      Pow2Grows(e, d - 1);
    }
  }

  lemma {:induction false} Pow2Grows(j: nat, k: nat)
    requires j <= k
    ensures Pow2(j) <= Pow2(k)
  {
    if j < k {
      Pow2Grows(j, k - 1);
    }
  }

  // ----- what a client computes

  /** Folds a leaf up its branch; bit `k` of the index says on which side it stands. */
  function Climb(f: Combine, leaf: Hash, branch: seq<Hash>, index: nat): Hash
    decreases |branch|
  {
    if branch == [] then leaf
    else Climb(f, if index % 2 == 0 then f(leaf, branch[0]) else f(branch[0], leaf), branch[1..], index / 2)
  }

  function Shift(index: nat, k: nat): nat {
    if k == 0 then index else Shift(index / 2, k - 1)
  }

  lemma {:induction false} ShiftOnce(index: nat, k: nat)
    ensures Shift(index, k + 1) == Shift(index, k) / 2
  {
    if k > 0 {
      ShiftOnce(index / 2, k - 1);
    }
  }

  lemma {:induction false} ClimbPush(f: Combine, leaf: Hash, branch: seq<Hash>, b: Hash, index: nat)
    ensures var v, i := Climb(f, leaf, branch, index), Shift(index, |branch|);
            Climb(f, leaf, branch + [b], index) == if i % 2 == 0 then f(v, b) else f(b, v)
    decreases |branch|
  {
    if branch == [] {
      assert (branch + [b])[1..] == [];
    } else {
      assert (branch + [b])[1..] == branch[1..] + [b];
      ClimbPush(f, if index % 2 == 0 then f(leaf, branch[0]) else f(branch[0], leaf), branch[1..], b, index / 2);
    }
  }

  /** Without collisions, only the listed leaf climbs to the root, and by one branch. */
  lemma {:induction false} ClimbUnique(f: Combine, x: Hash, y: Hash, a: seq<Hash>, b: seq<Hash>, index: nat)
    requires forall p, q, r, s :: f(p, q) == f(r, s) ==> p == r && q == s
    requires |a| == |b| && Climb(f, x, a, index) == Climb(f, y, b, index)
    ensures x == y && a == b
    decreases |a|
  {
    if a != [] {
      var p := if index % 2 == 0 then f(x, a[0]) else f(a[0], x);
      var q := if index % 2 == 0 then f(y, b[0]) else f(b[0], y);
      ClimbUnique(f, p, q, a[1..], b[1..], index / 2);
      assert a == [a[0]] + a[1..] && b == [b[0]] + b[1..];
    }
  }

  // ----- the loop

  ghost predicate IsLevel(f: Combine, leaves: seq<Hash>, level: nat, hashes: seq<Hash>) {
    && |hashes| == Width(|leaves|, level)
    && forall p :: 0 <= p < |hashes| ==> hashes[p] == Node(f, leaves, level, p)
  }

  function Pairs(f: Combine, hashes: seq<Hash>): (r: seq<Hash>)
    requires |hashes| % 2 == 0
    ensures |r| == |hashes| / 2 && forall p :: 0 <= p < |r| ==> r[p] == f(hashes[2 * p], hashes[2 * p + 1])
  {
    seq(|hashes| / 2, p requires 0 <= p < |hashes| / 2 => f(hashes[2 * p], hashes[2 * p + 1]))
  }

  lemma {:induction false} NodeAbove(f: Combine, leaves: seq<Hash>, level: nat, hashes: seq<Hash>, even: seq<Hash>,
                                     p: nat)
    requires IsLevel(f, leaves, level, hashes)
    requires even == if |hashes| % 2 == 0 then hashes else hashes + [hashes[|hashes| - 1]]
    requires 2 * p < |even|
    ensures 2 * p + 1 < |even| && p < Width(|leaves|, level + 1)
    ensures f(even[2 * p], even[2 * p + 1]) == Node(f, leaves, level + 1, p)
  {
    var n := |hashes|;
    assert 2 * p < n && hashes[2 * p] == Node(f, leaves, level, 2 * p);
    if 2 * p + 1 < n {
      assert hashes[2 * p + 1] == Node(f, leaves, level, 2 * p + 1);
    } else {
      assert even[2 * p + 1] == hashes[n - 1] == hashes[2 * p];
    }
  }

  /** One round of the loop computes the level above. */
  lemma {:induction false} NextLevel(f: Combine, leaves: seq<Hash>, level: nat, hashes: seq<Hash>, even: seq<Hash>)
    requires IsLevel(f, leaves, level, hashes) && |hashes| > 1
    requires even == if |hashes| % 2 == 0 then hashes else hashes + [hashes[|hashes| - 1]]
    ensures |even| % 2 == 0 && IsLevel(f, leaves, level + 1, Pairs(f, even)) && Width(|leaves|, level) > 1
    ensures forall p :: 0 <= p < |hashes| ==> even[p] == hashes[p]
  {
    hide Node;
    var up := Pairs(f, even);
    forall p | 0 <= p < |up|
      ensures up[p] == Node(f, leaves, level + 1, p)
    {
      NodeAbove(f, leaves, level, hashes, even, p);
    }
  }

  function Sibling(i: nat): (s: nat)
    ensures s / 2 == i / 2
  {
    if i % 2 == 0 then i + 1 else i - 1
  }

  lemma {:induction false} PairOf(f: Combine, hashes: seq<Hash>, i: nat)
    requires |hashes| % 2 == 0 && i < |hashes|
    ensures var s := Sibling(i);
            s < |hashes| && i / 2 < |Pairs(f, hashes)|
            && Pairs(f, hashes)[i / 2] == if i % 2 == 0 then f(hashes[i], hashes[s]) else f(hashes[s], hashes[i])
  {
  }

  lemma {:induction false} Ground(f: Combine, leaves: seq<Hash>, leaf: nat)
    requires leaf < |leaves|
    ensures IsLevel(f, leaves, 0, leaves) && Shift(leaf, 0) == leaf && Climb(f, leaves[leaf], [], leaf) == leaves[leaf]
  {
  }

  lemma {:induction false} Top(f: Combine, leaves: seq<Hash>, level: nat, hashes: seq<Hash>)
    requires leaves != [] && IsLevel(f, leaves, level, hashes) && |hashes| == 1
             && (level > 0 ==> Width(|leaves|, level - 1) > 1)
    ensures IsLog2(level, |leaves|) && Width(|leaves|, level) == 1 && hashes[0] == Node(f, leaves, level, 0)
  {
    DepthIs(|leaves|, level);
  }

  /** The branch of a leaf and the root. Climbing the branch gives the root, which is the root
      of the reference tree whatever the index; the branch is as long as the tree is high. */
  method CreateMerkleBranchAndRoot(f: Combine, leaves: seq<Hash>, leaf: nat) returns (merkle: seq<Hash>, root: Hash)
    requires leaf < |leaves|
    ensures Climb(f, leaves[leaf], merkle, leaf) == root
    ensures IsLog2(|merkle|, |leaves|)
    ensures Width(|leaves|, |merkle|) == 1 && root == Node(f, leaves, |merkle|, 0)
  {
    hide Node, Width, Climb, Shift, IsLog2, IsLevel, Pairs, Sibling;
    Ground(f, leaves, leaf);
    var hashes, index := leaves, leaf;
    merkle := [];
    while |hashes| > 1
      invariant IsLevel(f, leaves, |merkle|, hashes) && index < |hashes|
      invariant |merkle| > 0 ==> Width(|leaves|, |merkle| - 1) > 1
      invariant index == Shift(leaf, |merkle|)
      invariant Climb(f, leaves[leaf], merkle, leaf) == hashes[index]
      decreases |hashes|
    {
      ghost var was := hashes;
      if |hashes| % 2 != 0 {
        hashes := hashes + [hashes[|hashes| - 1]];
      }
      NextLevel(f, leaves, |merkle|, was, hashes);
      ShiftOnce(leaf, |merkle|);
      PairOf(f, hashes, index);
      index := Sibling(index);
      ClimbPush(f, leaves[leaf], merkle, hashes[index], leaf);
      merkle := merkle + [hashes[index]];
      index := index / 2;
      hashes := Pairs(f, hashes);
    }
    Top(f, leaves, |merkle|, hashes);
    root := hashes[0];
  }

  // ----- proofs for transactions

  /** The proof that a block holds a transaction: given exactly for the block's transactions,
      and accepted by a client that knows the root of the block. */
  method GetTxMerkleProof(f: Combine, txids: seq<Hash>, tx: Hash) returns (r: Option<(seq<Hash>, nat)>)
    ensures r.Some? <==> tx in txids
    ensures r.Some? ==> r.value.1 < |txids| && txids[r.value.1] == tx && tx !in txids[..r.value.1]
    ensures r.Some? ==> Width(|txids|, |r.value.0|) == 1
    ensures r.Some? ==> Climb(f, tx, r.value.0, r.value.1) == Node(f, txids, |r.value.0|, 0)
    ensures r.Some? ==> IsLog2(|r.value.0|, |txids|)
  {
    var pos := 0;
    while pos < |txids| && txids[pos] != tx
      invariant 0 <= pos <= |txids| && tx !in txids[..pos]
    {
      pos := pos + 1;
    }
    if pos == |txids| {
      return None;
    }
    var branch, _ := CreateMerkleBranchAndRoot(f, txids, pos);
    return Some((branch, pos));
  }

  /** All leaves share one root: two calls return branches of one length and the same root. */
  lemma {:induction false} OneRoot(f: Combine, leaves: seq<Hash>, i: nat, j: nat, a: seq<Hash>, b: seq<Hash>)
    requires i < |leaves| && j < |leaves|
    requires IsLog2(|a|, |leaves|) && IsLog2(|b|, |leaves|)
    requires Width(|leaves|, |a|) == 1 && Climb(f, leaves[i], a, i) == Node(f, leaves, |a|, 0)
    requires Width(|leaves|, |b|) == 1 && Climb(f, leaves[j], b, j) == Node(f, leaves, |b|, 0)
    ensures |a| == |b| && Climb(f, leaves[i], a, i) == Climb(f, leaves[j], b, j)
  {
    OneLog2(|leaves|, |a|, |b|);
  }
}
