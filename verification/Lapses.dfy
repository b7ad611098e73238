/** Concrete inputs on which the two conditions of an update fail. */
module Lapses {
  import opened Chain
  import opened Daemon
  import opened HistStore
  import opened Rollover
  import opened Indexer

  function Bare(hash: BlockHash, prev: BlockHash): Block {
    Block(Header(hash, prev, 0), [])
  }

  /** A genesis block 1 with the branches 2, 4 and 3. */
  function Branches(): Node {
    var blocks := map[1 := Bare(1, NULL_HASH), 2 := Bare(2, 1), 3 := Bare(3, 1), 4 := Bare(4, 2)];
    Node(blocks, map[1 := 0, 2 := 1, 3 := 1, 4 := 2])
  }

  lemma {:induction false} BareChain(c: seq<Block>)
    requires forall i :: 0 <= i < |c| ==> c[i].txs == []
    ensures Flatten(c) == []
  {
    if c != [] {
      BareChain(c[..|c| - 1]);
    }
  }

  lemma {:induction false} BareValid(c: seq<Block>)
    requires |c| <= 3 && forall i :: 0 <= i < |c| ==> c[i].txs == []
    requires forall i, j :: 0 <= i < j < |c| ==> c[i].header.hash != c[j].header.hash
    ensures ValidChain(c)
  {
    BareChain(c);
  }

  lemma {:induction false} BranchesRooted()
    ensures Branches().Rooted()
  {
  }

  lemma {:induction false} BranchChains()
    ensures Branches().Rooted()
    ensures Branches().ChainTo(1) == [Bare(1, NULL_HASH)]
    ensures Branches().ChainTo(2) == [Bare(1, NULL_HASH), Bare(2, 1)]
    ensures Branches().ChainTo(3) == [Bare(1, NULL_HASH), Bare(3, 1)]
    ensures Branches().ChainTo(4) == [Bare(1, NULL_HASH), Bare(2, 1), Bare(4, 2)]
  {
    hide Node.Rooted;
    BranchesRooted();
    var d := Branches();
    assert d.ChainTo(NULL_HASH) == [];
    assert d.ChainTo(1) == d.ChainTo(NULL_HASH) + [Bare(1, NULL_HASH)];
    assert d.ChainTo(2) == d.ChainTo(1) + [Bare(2, 1)];
    assert d.ChainTo(3) == d.ChainTo(1) + [Bare(3, 1)];
    assert d.ChainTo(4) == d.ChainTo(2) + [Bare(4, 2)];
  }

  lemma {:induction false} BranchesAre()
    ensures Branches().Valid()
    ensures Branches().ChainTo(2) == [Bare(1, NULL_HASH), Bare(2, 1)]
    ensures Branches().ChainTo(3) == [Bare(1, NULL_HASH), Bare(3, 1)]
    ensures Branches().ChainTo(4) == [Bare(1, NULL_HASH), Bare(2, 1), Bare(4, 2)]
  {
    hide Node.Rooted, Node.ChainTo, ValidChain;
    BranchChains();
    var d := Branches();
    forall h | h in d.blocks
      ensures d.ValidAt(h)
    {
      BareValid(d.ChainTo(h));
    }
  }

  /** A node that goes back from block 4 to block 2 leaves the header list behind: an update
      stops there. */
  lemma {:induction false} NodeRewound()
    ensures Branches().Valid() && StrictAncestor(Branches(), 2, 4)
  {
    BranchesAre();
    assert Branches().ChainTo(4)[1].header.hash == 2;
  }

  /** A store opened on block 2, moved to block 3 and then to block 4, does not index block 2
      again: its history lacks rows of the best chain. */
  lemma {:induction false} BlockCameBack(unspendables: bool)
    ensures var d := Branches();
            var known, n := Hashes(d.ChainTo(2)), d.ChainTo(4);
            && d.Valid() && !StrictAncestor(d, 3, 2) && !StrictAncestor(d, 4, 3)
            && NoneKnown(d.ChainTo(3), Fork(d.ChainTo(3), d.ChainTo(2)), known)
            && HistOf(n, Covered(n, Fork(n, d.ChainTo(3)), known), unspendables) != HistDb(n, unspendables)
  {
    BranchesAre();
    hide HistOf, HistDb;
    var d := Branches();
    var known, n := Hashes(d.ChainTo(2)), d.ChainTo(4);
    assert d.ChainTo(2)[1].header.hash == 2;
    assert d.ChainTo(2)[0] == d.ChainTo(3)[0] == n[0] && d.ChainTo(3)[1] != n[1];
    PrefixBelowFork(d.ChainTo(3), d.ChainTo(2), 1);
    assert Fork(n, d.ChainTo(3)) <= 1;
    assert n[1].header.hash == 2 && 2 in known;
    TipValid(d, 4);
    CompleteIff(n, Fork(n, d.ChainTo(3)), known, unspendables);
  }
}
