/** The history database: what a block contributes, the database built from scratch for a
    chain, and its agreement with the histories of the scripts. */
module HistStore {
  import opened Chain
  import opened History
  import opened TxStore

  /** The rows of `index_blocks` for one block, given the outputs it spends. */
  function BlockHist(b: Block, height: nat, outs: map<OutPoint, TxOut>, unspendables: bool): set<HistKey> {
    (set i, k | 0 <= i < |b.txs| && k in TxHist(Placed(IdOf(b, height), i, b.txs[i]), outs, unspendables) :: k)
    + {D(b.header.hash)}
  }

  /** The rows of the block at a height of a chain. */
  function HistAt(c: seq<Block>, h: nat, unspendables: bool): set<HistKey>
    requires h < |c|
  {
    BlockHist(c[h], h, Outs(Flatten(c[..h + 1])), unspendables)
  }

  /** The history database built from scratch for a chain. */
  function HistDb(c: seq<Block>, unspendables: bool): set<HistKey> {
    set h, k | 0 <= h < |c| && k in HistAt(c, h, unspendables) :: k
  }

  // ----- rows of a chain belong to one block

  ghost predicate InBlock(k: HistKey, b: Block, h: nat) {
    match k
    case H(r) => r.height == h
    case S(_, txid, _) => exists i :: 0 <= i < |b.txs| && b.txs[i].txid == txid
    case D(hash) => hash == b.header.hash
  }

  lemma {:induction false} BlockHistIn(b: Block, height: nat, outs: map<OutPoint, TxOut>, unspendables: bool,
                                       k: HistKey)
    requires k in BlockHist(b, height, outs, unspendables)
    ensures InBlock(k, b, height)
  {
    if k != D(b.header.hash) {
      var i :| 0 <= i < |b.txs| && k in TxHist(Placed(IdOf(b, height), i, b.txs[i]), outs, unspendables);
    }
  }

  lemma {:induction false} OneBlock(c: seq<Block>, k: HistKey, g: nat, h: nat)
    requires ValidChain(c) && g < |c| && h < |c| && InBlock(k, c[g], g) && InBlock(k, c[h], h)
    ensures g == h
  {
    if k.S? {
      var i :| 0 <= i < |c[g].txs| && c[g].txs[i].txid == k.txid;
      var j :| 0 <= j < |c[h].txs| && c[h].txs[j].txid == k.txid;
      OnePlace(c, g, i, h, j);
    }
  }

  lemma {:induction false} HistAtPrefix(c: seq<Block>, m: nat, h: nat, unspendables: bool)
    requires h < m <= |c|
    ensures HistAt(c[..m], h, unspendables) == HistAt(c, h, unspendables)
  {
    hide BlockHist, Outs, Flatten;
    assert c[..m][..h + 1] == c[..h + 1] && c[..m][h] == c[h];
  }

  lemma {:induction false} HistAtDisjoint(c: seq<Block>, g: nat, h: nat, unspendables: bool)
    requires ValidChain(c) && g < h < |c|
    ensures HistAt(c, g, unspendables) !! HistAt(c, h, unspendables)
  {
    hide BlockHist, Outs, Flatten, ValidChain, InBlock;
    forall k | k in HistAt(c, g, unspendables) && k in HistAt(c, h, unspendables)
      ensures false
    {
      BlockHistIn(c[g], g, Outs(Flatten(c[..g + 1])), unspendables, k);
      BlockHistIn(c[h], h, Outs(Flatten(c[..h + 1])), unspendables, k);
      OneBlock(c, k, g, h);
    }
  }

  /** Indexing the next block, or deleting the last one, moves between the databases
      built from scratch. */
  lemma {:induction false} HistStep(c: seq<Block>, n: nat, unspendables: bool)
    requires ValidChain(c) && n < |c|
    ensures HistDb(c[..n + 1], unspendables) == HistDb(c[..n], unspendables) + HistAt(c, n, unspendables)
    ensures HistDb(c[..n], unspendables) !! HistAt(c, n, unspendables)
    ensures HistDb(c[..n + 1], unspendables) <= HistDb(c, unspendables)
  {
    hide HistAt, ValidChain;
    forall h | 0 <= h <= n
      ensures HistAt(c[..n + 1], h, unspendables) == HistAt(c, h, unspendables)
      ensures h < n ==> HistAt(c[..n], h, unspendables) == HistAt(c, h, unspendables)
      ensures h < n ==> HistAt(c, h, unspendables) !! HistAt(c, n, unspendables)
    {
      HistAtPrefix(c, n + 1, h, unspendables);
      if h < n {
        HistAtPrefix(c, n, h, unspendables);
        HistAtDisjoint(c, h, n, unspendables);
      }
    }
    var a, b := c[..n + 1], c[..n];
    forall k
      ensures k in HistDb(a, unspendables) <==> k in HistDb(b, unspendables) || k in HistAt(c, n, unspendables)
    {
      if k in HistDb(b, unspendables) {
        var h :| 0 <= h < |b| && k in HistAt(b, h, unspendables);
        assert k in HistAt(a, h, unspendables);
      }
      if k in HistAt(c, n, unspendables) {
        assert k in HistAt(a, n, unspendables);
      }
      if k in HistDb(a, unspendables) {
        var h :| 0 <= h < |a| && k in HistAt(a, h, unspendables);
        assert h < n ==> k in HistAt(b, h, unspendables);
      }
    }
  }

  // ----- the outputs that inputs spend are found

  ghost predicate Covers(outs: map<OutPoint, TxOut>, tx: Tx) {
    forall k :: 0 <= k < |tx.inputs| && HasPrevout(tx.inputs[k]) ==> tx.inputs[k] in outs
  }

  lemma {:induction false} InputsCovered(fs: seq<Placed>, j: nat)
    requires ValidTxs(fs) && j < |fs|
    ensures Covers(Outs(fs[..j]), fs[j].tx)
  {
    ValidTxsPrefix(fs, j + 1);
    assert fs[..j + 1][..j] == fs[..j];
    assert ValidNext(fs[..j], fs[j].tx);
    LedgerOrigin(fs[..j]);
  }

  ghost predicate Agree(a: map<OutPoint, TxOut>, b: map<OutPoint, TxOut>, tx: Tx) {
    && Covers(a, tx) && Covers(b, tx)
    && forall k :: 0 <= k < |tx.inputs| && HasPrevout(tx.inputs[k]) ==> a[tx.inputs[k]] == b[tx.inputs[k]]
  }

  lemma {:induction false} TxHistAgree(p: Placed, a: map<OutPoint, TxOut>, b: map<OutPoint, TxOut>, unspendables: bool)
    requires Agree(a, b, p.tx)
    ensures TxHist(p, a, unspendables) == TxHist(p, b, unspendables)
  {
    var x, y := TxHist(p, a, unspendables), TxHist(p, b, unspendables);
    forall i | 0 <= i < |p.tx.inputs| && HasPrevout(p.tx.inputs[i])
      ensures SpendRow(p, i, a[p.tx.inputs[i]]) == SpendRow(p, i, b[p.tx.inputs[i]])
    {
    }
  }

  /** The place of a confirmed transaction in the flattened chain. */
  lemma {:induction false} PlaceOf(c: seq<Block>, n: nat, h: nat, i: nat) returns (j: nat)
    requires h < n <= |c| && i < |c[h].txs|
    ensures j < |Flatten(c)| && Flatten(c)[j] == Placed(IdOf(c[h], h), i, c[h].txs[i])
    ensures j < |Flatten(c[..n])| && Flatten(c[..n])[..j] == Flatten(c)[..j]
  {
    FlattenPlaces(c[..n]);
    assert c[..n][h] == c[h];
    assert Placed(IdOf(c[h], h), i, c[h].txs[i]) in Flatten(c[..n]);
    j :| 0 <= j < |Flatten(c[..n])| && Flatten(c[..n])[j] == Placed(IdOf(c[h], h), i, c[h].txs[i]);
    FlattenPrefix(c, n);
  }

  /** The outputs of the whole chain, of the chain up to the block, and of what precedes the
      transaction give a transaction the same history rows. */
  lemma {:induction false} OutsAgree(c: seq<Block>, h: nat, i: nat, j: nat)
    requires ValidChain(c) && h < |c| && i < |c[h].txs|
    requires j < |Flatten(c)| && Flatten(c)[j] == Placed(IdOf(c[h], h), i, c[h].txs[i])
    requires j < |Flatten(c[..h + 1])| && Flatten(c[..h + 1])[..j] == Flatten(c)[..j]
    ensures Agree(Outs(Flatten(c)[..j]), Outs(Flatten(c[..h + 1])), c[h].txs[i])
    ensures Agree(Outs(Flatten(c)), Outs(Flatten(c[..h + 1])), c[h].txs[i])
  {
    var fs, gs := Flatten(c), Flatten(c[..h + 1]);
    InputsCovered(fs, j);
    OutsGrow(fs, j);
    ValidChainPrefix(c, h + 1);
    OutsGrow(gs, j);
  }

  lemma {:induction false} LookedUpTx(c: seq<Block>, h: nat, i: nat, outs: map<OutPoint, TxOut>, unspendables: bool)
    requires ValidChain(c) && h < |c| && i < |c[h].txs| && Covers(outs, c[h].txs[i])
    requires forall o :: o in outs ==> O(o, outs[o]) in TxDb(c)
    ensures var p := Placed(IdOf(c[h], h), i, c[h].txs[i]);
            TxHist(p, outs, unspendables) == TxHist(p, Outs(Flatten(c[..h + 1])), unspendables)
  {
    var j := PlaceOf(c, h + 1, h, i);
    OutsAgree(c, h, i, j);
    var tx, all := c[h].txs[i], Outs(Flatten(c[..h + 1]));
    forall k | 0 <= k < |tx.inputs| && HasPrevout(tx.inputs[k])
      ensures outs[tx.inputs[k]] == all[tx.inputs[k]]
    {
      OutputRows(c, tx.inputs[k], outs[tx.inputs[k]]);
    }
    TxHistAgree(Placed(IdOf(c[h], h), i, tx), outs, all, unspendables);
  }

  /** Rows computed from outputs looked up in the txstore of the chain are the right ones. */
  lemma {:induction false} LookedUp(c: seq<Block>, h: nat, outs: map<OutPoint, TxOut>, unspendables: bool)
    requires ValidChain(c) && h < |c|
    requires forall i :: 0 <= i < |c[h].txs| ==> Covers(outs, c[h].txs[i])
    requires forall o :: o in outs ==> O(o, outs[o]) in TxDb(c)
    ensures BlockHist(c[h], h, outs, unspendables) == HistAt(c, h, unspendables)
  {
    var all := Outs(Flatten(c[..h + 1]));
    forall i | 0 <= i < |c[h].txs|
      ensures TxHist(Placed(IdOf(c[h], h), i, c[h].txs[i]), outs, unspendables)
           == TxHist(Placed(IdOf(c[h], h), i, c[h].txs[i]), all, unspendables)
    {
      LookedUpTx(c, h, i, outs, unspendables);
    }
  }

  /** No input of the chain misses its output. */
  lemma {:induction false} PrevoutFound(c: seq<Block>, h: nat, i: nat, k: nat)
    requires ValidChain(c) && h < |c| && i < |c[h].txs| && k < |c[h].txs[i].inputs| && HasPrevout(c[h].txs[i].inputs[k])
    ensures exists out :: O(c[h].txs[i].inputs[k], out) in TxDb(c)
  {
    var j := PlaceOf(c, h + 1, h, i);
    OutsAgree(c, h, i, j);
    var o := c[h].txs[i].inputs[k];
    OutputRows(c, o, Outs(Flatten(c))[o]);
  }

  /** The H rows of the database are exactly the entries of the scripts. */
  lemma {:induction false} RowsAreEntries(c: seq<Block>, unspendables: bool, r: Row)
    requires ValidChain(c)
    ensures H(r) in HistDb(c, unspendables) ==>
              r.height < |c| && Entry(r, IdOf(c[r.height], r.height)) in ChainEntries(c, unspendables, r.script)
    ensures forall at :: Entry(r, at) in ChainEntries(c, unspendables, r.script) ==> H(r) in HistDb(c, unspendables)
  {
    if H(r) in HistDb(c, unspendables) {
      RowHasEntry(c, unspendables, r);
    }
    forall at | Entry(r, at) in ChainEntries(c, unspendables, r.script)
      ensures H(r) in HistDb(c, unspendables)
    {
      EntryHasRow(c, unspendables, r, at);
    }
  }

  lemma {:induction false} RowHasEntry(c: seq<Block>, unspendables: bool, r: Row)
    requires ValidChain(c) && H(r) in HistDb(c, unspendables)
    ensures r.height < |c| && Entry(r, IdOf(c[r.height], r.height)) in ChainEntries(c, unspendables, r.script)
  {
    hide Flatten, Entries, TxEntries, Outs, TxHist, ValidChain;
    var h :| 0 <= h < |c| && H(r) in HistAt(c, h, unspendables);
    BlockHistIn(c[h], h, Outs(Flatten(c[..h + 1])), unspendables, H(r));
    var i :| 0 <= i < |c[h].txs|
      && H(r) in TxHist(Placed(IdOf(c[h], h), i, c[h].txs[i]), Outs(Flatten(c[..h + 1])), unspendables);
    var j := PlaceOf(c, h + 1, h, i);
    RowIffEntry(c, h, i, j, unspendables, r);
    EntryIn(Flatten(c), j, unspendables, r.script, Entry(r, IdOf(c[h], h)));
  }

  lemma {:induction false} RowIffEntry(c: seq<Block>, h: nat, i: nat, j: nat, unspendables: bool, r: Row)
    requires ValidChain(c) && h < |c| && i < |c[h].txs|
    requires j < |Flatten(c)| && Flatten(c)[j] == Placed(IdOf(c[h], h), i, c[h].txs[i])
    requires j < |Flatten(c[..h + 1])| && Flatten(c[..h + 1])[..j] == Flatten(c)[..j]
    ensures H(r) in TxHist(Placed(IdOf(c[h], h), i, c[h].txs[i]), Outs(Flatten(c[..h + 1])), unspendables)
       <==> Entry(r, IdOf(c[h], h)) in TxEntries(Flatten(c)[j], Outs(Flatten(c)[..j]), unspendables, r.script)
  {
    var fs := Flatten(c);
    OutsAgree(c, h, i, j);
    TxHistAgree(fs[j], Outs(fs[..j]), Outs(Flatten(c[..h + 1])), unspendables);
    TxRowsAre(fs[j], Outs(fs[..j]), unspendables, r);
  }

  lemma {:induction false} EntryHasRow(c: seq<Block>, unspendables: bool, r: Row, at: BlockId)
    requires ValidChain(c) && Entry(r, at) in ChainEntries(c, unspendables, r.script)
    ensures H(r) in HistDb(c, unspendables)
  {
    hide Flatten, Entries, TxEntries, Outs, TxHist, ValidTxs;
    var fs := Flatten(c);
    var j := EntryTx(fs, unspendables, r.script, Entry(r, at));
    FlattenPlaces(c);
    var h, i := fs[j].at.height, fs[j].pos;
    assert fs[j] in fs;
    var k := PlaceOf(c, h + 1, h, i);
    UniqueTxids(fs);
    RowIffEntry(c, h, i, j, unspendables, r);
    assert H(r) in HistAt(c, h, unspendables);
  }
}
