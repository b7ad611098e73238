/** The states that one update passes through, and what each of them guarantees. */
module Rollover {
  import opened Chain
  import opened Daemon
  import opened History
  import opened TxStore
  import opened HistStore
  import opened Visibility

  function Range(n: nat): (hs: set<nat>)
    ensures forall h: nat :: h in hs <==> h < n
  {
    if n == 0 then {} else Range(n - 1) + {n - 1}
  }

  /** The rows of some blocks of a chain. */
  function TxOf(c: seq<Block>, hs: set<nat>): set<TxRow> {
    set h, r | h in hs && h < |c| && r in BlockRows(c[h], h) :: r
  }

  function HistOf(c: seq<Block>, hs: set<nat>, unspendables: bool): set<HistKey> {
    set h, k | h in hs && h < |c| && k in HistAt(c, h, unspendables) :: k
  }

  function Hashes(c: seq<Block>): set<BlockHash> {
    set h | 0 <= h < |c| :: c[h].header.hash
  }

  function HashesAt(c: seq<Block>, hs: set<nat>): set<BlockHash> {
    set h | h in hs && h < |c| :: c[h].header.hash
  }

  function TipRow(c: seq<Block>): Option<BlockHash> {
    if c == [] then None else Some(c[|c| - 1].header.hash)
  }

  lemma {:induction false} PrefixRows(c: seq<Block>, n: nat, unspendables: bool)
    requires n <= |c|
    ensures TxDb(c[..n]) == TxOf(c, Range(n))
    ensures HistDb(c[..n], unspendables) == HistOf(c, Range(n), unspendables)
  {
    hide BlockRows, HistAt;
    forall h | 0 <= h < n
      ensures c[..n][h] == c[h] && HistAt(c[..n], h, unspendables) == HistAt(c, h, unspendables)
    {
      HistAtPrefix(c, n, h, unspendables);
    }
    PrefixTx(c, n);
    forall k
      ensures k in HistDb(c[..n], unspendables) <==> k in HistOf(c, Range(n), unspendables)
    {
      if k in HistDb(c[..n], unspendables) {
        var h :| 0 <= h < n && k in HistAt(c[..n], h, unspendables);
        assert h in Range(n) && k in HistAt(c, h, unspendables);
      }
      if k in HistOf(c, Range(n), unspendables) {
        var h :| h in Range(n) && h < |c| && k in HistAt(c, h, unspendables);
        assert k in HistAt(c[..n], h, unspendables);
      }
    }
  }

  lemma {:induction false} PrefixTx(c: seq<Block>, n: nat)
    requires n <= |c|
    ensures TxDb(c[..n]) == TxOf(c, Range(n))
  {
    hide BlockRows;
    forall r
      ensures r in TxDb(c[..n]) <==> r in TxOf(c, Range(n))
    {
      if r in TxDb(c[..n]) {
        var h :| 0 <= h < n && r in BlockRows(c[..n][h], h);
        assert h in Range(n) && r in BlockRows(c[h], h);
      }
      if r in TxOf(c, Range(n)) {
        var h :| h in Range(n) && h < |c| && r in BlockRows(c[h], h);
        assert r in BlockRows(c[..n][h], h);
      }
    }
  }

  lemma {:induction false} AllRows(c: seq<Block>, unspendables: bool)
    ensures TxDb(c) == TxOf(c, Range(|c|))
    ensures HistDb(c, unspendables) == HistOf(c, Range(|c|), unspendables)
  {
    hide TxDb, TxOf, HistDb, HistOf;
    PrefixRows(c, |c|, unspendables);
    assert c[..|c|] == c;
  }

  lemma {:induction false} MoreRows(c: seq<Block>, hs: set<nat>, more: set<nat>, unspendables: bool)
    ensures TxOf(c, hs + more) == TxOf(c, hs) + TxOf(c, more)
    ensures HistOf(c, hs + more, unspendables) == HistOf(c, hs, unspendables) + HistOf(c, more, unspendables)
  {
    hide BlockRows, HistAt;
  }

  lemma {:induction false} FewerRows(c: seq<Block>, hs: set<nat>, more: set<nat>)
    requires hs <= more
    ensures TxOf(c, hs) <= TxOf(c, more)
  {
    hide BlockRows;
  }

  lemma {:induction false} PrefixHashes(c: seq<Block>, n: nat)
    requires n <= |c|
    ensures Hashes(c[..n]) == HashesAt(c, Range(n))
  {
    forall x
      ensures x in Hashes(c[..n]) <==> x in HashesAt(c, Range(n))
    {
      if x in Hashes(c[..n]) {
        var h :| 0 <= h < n && c[..n][h].header.hash == x;
        assert h in Range(n) && c[h].header.hash == x;
      }
      if x in HashesAt(c, Range(n)) {
        var h :| h in Range(n) && h < |c| && c[h].header.hash == x;
        assert c[..n][h].header.hash == x;
      }
    }
  }

  /** Deleting the last block's rows leaves those of the blocks below, and touches none of the
      shared ones. */
  lemma {:induction false} HistBack(c: seq<Block>, h: nat, f: nat, unspendables: bool)
    requires ValidChain(c) && f <= h < |c|
    ensures HistDb(c[..h + 1], unspendables) - HistAt(c, h, unspendables) == HistDb(c[..h], unspendables)
    ensures HistAt(c, h, unspendables) !! HistDb(c[..f], unspendables)
    ensures HistAt(c, h, unspendables) <= HistDb(c[..h + 1], unspendables) <= HistDb(c, unspendables)
  {
    HistStep(c, h, unspendables);
    hide HistDb, HistAt, ValidChain;
    PrefixRows(c, f, unspendables);
    PrefixRows(c, h, unspendables);
  }

  lemma {:induction false} TxBack(c: seq<Block>, h: nat, f: nat)
    requires ValidChain(c) && f <= h < |c|
    ensures TxDb(c[..h + 1]) - BlockRows(c[h], h) == TxDb(c[..h])
    ensures BlockRows(c[h], h) !! TxDb(c[..f])
    ensures BlockRows(c[h], h) <= TxDb(c)
  {
    TxDbStep(c, h);
    hide TxDb, BlockRows, ValidChain;
    PrefixTx(c, f);
    PrefixTx(c, h);
  }

  // ----- the persisted tip

  /** `Store::open` can rebuild its header list: every header row is that of a block of the
      node, and the tip and all its ancestors have header rows. */
  ghost predicate Recoverable(d: Node, txdb: set<TxRow>, tip: Option<BlockHash>)
    requires d.Rooted()
  {
    && HeaderRowsOf(d, txdb)
    && (tip.Some? ==> tip.value in d.blocks && HeadersKept(d.ChainTo(tip.value), txdb))
  }

  ghost predicate HeaderRowsOf(d: Node, txdb: set<TxRow>) {
    forall h, header :: B(h, header) in txdb ==> h in d.blocks && header == d.blocks[h].header
  }

  ghost predicate HeadersKept(c: seq<Block>, txdb: set<TxRow>) {
    forall i :: 0 <= i < |c| ==> B(c[i].header.hash, c[i].header) in txdb
  }

  lemma {:induction false} TipRecoverable(d: Node, h: BlockHash, n: nat, txdb: set<TxRow>)
    requires d.Rooted() && d.Knows(h) && n <= |d.ChainTo(h)|
    requires TxDb(d.ChainTo(h)[..n]) <= txdb <= TxDb(d.ChainTo(h))
    ensures Recoverable(d, txdb, TipRow(d.ChainTo(h)[..n]))
  {
    hide Node.Rooted, Node.ChainTo, TxDb, HeaderRowsOf, HeadersKept;
    var c := d.ChainTo(h)[..n];
    TreeHeaders(d, h, txdb);
    if n > 0 {
      ChainToPrefix(d, h, n - 1);
      KeepsHeaders(c, txdb);
    }
  }

  lemma {:induction false} TreeHeaders(d: Node, h: BlockHash, txdb: set<TxRow>)
    requires d.Rooted() && d.Knows(h) && txdb <= TxDb(d.ChainTo(h))
    ensures HeaderRowsOf(d, txdb)
  {
    hide Node.Rooted, Node.ChainTo, TxRows;
    forall g, header | B(g, header) in txdb
      ensures g in d.blocks && header == d.blocks[g].header
    {
      var i, _ := Owner(d.ChainTo(h), B(g, header));
      ChainToPrefix(d, h, i);
    }
  }

  lemma {:induction false} KeepsHeaders(c: seq<Block>, txdb: set<TxRow>)
    requires TxDb(c) <= txdb
    ensures HeadersKept(c, txdb)
  {
    forall i | 0 <= i < |c|
      ensures B(c[i].header.hash, c[i].header) in txdb
    {
      assert B(c[i].header.hash, c[i].header) in BlockRows(c[i], i);
    }
  }

  // ----- two chains of the tree

  lemma {:induction false} ForkParts(d: Node, tip: BlockHash, best: BlockHash)
    requires d.Rooted() && d.Knows(tip) && d.Knows(best)
    ensures PartAt(d.ChainTo(tip), d.ChainTo(best), Fork(d.ChainTo(best), d.ChainTo(tip)))
    ensures var c, n := d.ChainTo(tip), d.ChainTo(best);
            forall i :: 0 <= i < |n| ==> (Contains(c, n[i].header.hash) <==> i < Fork(n, c))
  {
    hide Node.Rooted, Node.ChainTo, Fork;
    var c, n := d.ChainTo(tip), d.ChainTo(best);
    var f := Fork(n, c);
    forall i | 0 <= i < |n|
      ensures Contains(c, n[i].header.hash) <==> i < f
    {
      ForkShares(d, best, tip, i);
    }
  }

  /** One update: from the chain `c0` to the best chain `n`, which part after `f` blocks. */
  datatype Move = Move(d: Node, tip: BlockHash, best: BlockHash, c0: seq<Block>, n: seq<Block>, f: nat) {
    ghost predicate Ok() {
      && d.Valid() && d.Knows(tip) && d.Knows(best)
      && c0 == d.ChainTo(tip) && n == d.ChainTo(best) && f == Fork(n, c0)
    }
  }

  lemma {:induction false} MoveFacts(g: Move)
    requires g.Ok()
    ensures g.d.Rooted() && ValidChain(g.c0) && ValidChain(g.n) && PartAt(g.c0, g.n, g.f)
    ensures g.f <= |g.c0| && g.f <= |g.n| && g.c0[..g.f] == g.n[..g.f]
    ensures forall i :: 0 <= i < |g.n| ==> (Contains(g.c0, g.n[i].header.hash) <==> i < g.f)
  {
    hide Fork, ValidChain, Node.ChainTo, Node.Rooted, Contains;
    ForkParts(g.d, g.tip, g.best);
    TipValid(g.d, g.tip);
    TipValid(g.d, g.best);
  }

  /** The blocks of a chain hold exactly their own hashes. */
  lemma {:induction false} PrefixContains(n: seq<Block>, p: nat)
    requires ValidChain(n) && p <= |n|
    ensures forall i :: 0 <= i < |n| ==> (Contains(n[..p], n[i].header.hash) <==> i < p)
  {
    forall i | 0 <= i < |n|
      ensures Contains(n[..p], n[i].header.hash) <==> i < p
    {
      if i < p {
        assert n[..p][i].header.hash == n[i].header.hash;
      }
      if Contains(n[..p], n[i].header.hash) {
        var j :| 0 <= j < p && n[..p][j].header.hash == n[i].header.hash;
        assert n[j].header.hash == n[i].header.hash;
      }
    }
  }
}
