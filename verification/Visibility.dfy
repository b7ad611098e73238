/** What a query sees of the databases at one moment: the history rows whose transaction
    is confirmed, at the height of the row, by a block of the current header list. */
module Visibility {
  import opened Chain
  import opened History
  import opened TxStore
  import opened HistStore
  import opened Codec

  /** What `tx_confirming_block` may answer. */
  ghost predicate ConfirmedAt(txdb: set<TxRow>, n: seq<Block>, t: Txid, at: BlockId) {
    at.height < |n| && at == IdOf(n[at.height], at.height) && C(t, at.hash) in txdb
  }

  ghost predicate ConfirmedOnce(txdb: set<TxRow>, n: seq<Block>) {
    forall t, a, b :: ConfirmedAt(txdb, n, t, a) && ConfirmedAt(txdb, n, t, b) ==> a == b
  }

  ghost predicate Visible(txdb: set<TxRow>, hist: set<HistKey>, n: seq<Block>, e: Entry) {
    H(e.row) in hist && ConfirmedAt(txdb, n, e.row.info.txid, e.at) && e.at.height == e.row.height
  }

  /** The databases show exactly the first `p` blocks of the header list. */
  ghost predicate Shows(txdb: set<TxRow>, hist: set<HistKey>, n: seq<Block>, p: nat, unspendables: bool) {
    && p <= |n|
    && ConfirmedOnce(txdb, n) && AllFit(hist)
    && (forall e :: Visible(txdb, hist, n, e) <==> e in ChainEntries(n[..p], unspendables, e.row.script))
  }

  /** Every history row fits its key. */
  ghost predicate AllFit(hist: set<HistKey>) {
    forall r :: H(r) in hist ==> Storable(r)
  }

  lemma {:induction false} AllTyped(fs: seq<Placed>)
    requires ValidTxs(fs)
    ensures forall p :: p in fs ==> Typed(p.tx)
  {
    if fs != [] {
      hide Typed;
      AllTyped(fs[..|fs| - 1]);
      assert fs == fs[..|fs| - 1] + [fs[|fs| - 1]];
    }
  }

  /** The rows of a transaction fit their keys. */
  lemma {:induction false} TxRowFits(p: Placed, outs: map<OutPoint, TxOut>, unspendables: bool, r: Row)
    requires Typed(p.tx) && p.at.height < U32 && H(r) in TxHist(p, outs, unspendables)
    requires forall o :: o in outs ==> outs[o].script < U256 && outs[o].value < U64
    ensures Storable(r)
  {
    hide Pow256;
    Powers();
    WidePowers();
  }

  lemma {:induction false} OutsFit(fs: seq<Placed>)
    requires ValidTxs(fs)
    ensures forall o :: o in Outs(fs) ==> Outs(fs)[o].script < U256 && Outs(fs)[o].value < U64
  {
    hide ValidTxs, Outs;
    AllTyped(fs);
    OutsOrigin(fs);
    forall o | o in Outs(fs)
      ensures Outs(fs)[o].script < U256 && Outs(fs)[o].value < U64
    {
      var p :| p in fs && p.tx.txid == o.txid && o.vout < |p.tx.outputs| && p.tx.outputs[o.vout] == Outs(fs)[o];
    }
  }

  /** The history rows of a valid chain fit their keys. */
  lemma {:induction false} ChainFits(c: seq<Block>, unspendables: bool)
    requires ValidChain(c)
    ensures AllFit(HistDb(c, unspendables))
  {
    hide Storable, HistDb, ValidChain;
    forall r | H(r) in HistDb(c, unspendables)
      ensures Storable(r)
    {
      RowOfChainFits(c, unspendables, r);
    }
  }

  lemma {:induction false} RowOfChainFits(c: seq<Block>, unspendables: bool, r: Row)
    requires ValidChain(c) && H(r) in HistDb(c, unspendables)
    ensures Storable(r)
  {
    hide Flatten, Outs, TxHist, Storable, ValidTxs, Typed;
    var h :| 0 <= h < |c| && H(r) in HistAt(c, h, unspendables);
    var outs := Outs(Flatten(c[..h + 1]));
    BlockHistIn(c[h], h, outs, unspendables, H(r));
    var i :| 0 <= i < |c[h].txs| && H(r) in TxHist(Placed(IdOf(c[h], h), i, c[h].txs[i]), outs, unspendables);
    FlattenPlaces(c);
    AllTyped(Flatten(c));
    ValidChainPrefix(c, h + 1);
    OutsFit(Flatten(c[..h + 1]));
    TxRowFits(Placed(IdOf(c[h], h), i, c[h].txs[i]), outs, unspendables, r);
  }

  lemma {:induction false} OneConfirmation(c: seq<Block>, txdb: set<TxRow>, n: seq<Block>)
    requires ValidChain(c) && ValidChain(n) && txdb <= TxDb(c)
    ensures ConfirmedOnce(txdb, n)
  {
    forall t, a, b | ConfirmedAt(txdb, n, t, a) && ConfirmedAt(txdb, n, t, b)
      ensures a == b
    {
      ConfRows(c, t, a.hash);
      ConfRows(c, t, b.hash);
      UniqueTxids(Flatten(c));
    }
  }

  /** An entry of a shown block is visible. */
  lemma {:induction false} ShownIsVisible(n: seq<Block>, p: nat, txdb: set<TxRow>, hist: set<HistKey>,
                                        unspendables: bool, e: Entry)
    requires ValidChain(n) && p <= |n|
    requires TxDb(n[..p]) <= txdb && HistDb(n[..p], unspendables) <= hist
    requires e in ChainEntries(n[..p], unspendables, e.row.script)
    ensures Visible(txdb, hist, n, e)
  {
    ValidChainPrefix(n, p);
    EntryHasRow(n[..p], unspendables, e.row, e.at);
    var q := EntryFacts(n[..p], unspendables, e.row.script, e);
    ConfRows(n[..p], e.row.info.txid, e.at.hash);
  }

  /** Two chains that share their first `f` blocks and none of the others. */
  ghost predicate PartAt(c: seq<Block>, n: seq<Block>, f: nat) {
    && f <= |c| && f <= |n| && c[..f] == n[..f]
    && forall i, j :: f <= i < |n| && 0 <= j < |c| ==> n[i].header.hash != c[j].header.hash
  }

  /** While rows of the abandoned blocks `c[f..]` are being deleted, and none of the new
      blocks has been added, queries see exactly the shared blocks. */
  lemma {:induction false} RollbackShows(c: seq<Block>, n: seq<Block>, f: nat, txdb: set<TxRow>, hist: set<HistKey>,
                                        unspendables: bool)
    requires ValidChain(c) && ValidChain(n) && PartAt(c, n, f)
    requires TxDb(c[..f]) <= txdb <= TxDb(c)
    requires HistDb(c[..f], unspendables) <= hist <= HistDb(c, unspendables)
    ensures Shows(txdb, hist, n, f, unspendables)
  {
    OneConfirmation(c, txdb, n);
    ChainFits(c, unspendables);
    forall e
      ensures Visible(txdb, hist, n, e) <==> e in ChainEntries(n[..f], unspendables, e.row.script)
    {
      if Visible(txdb, hist, n, e) {
        SharedOnly(c, n, f, txdb, hist, unspendables, e);
      }
      if e in ChainEntries(n[..f], unspendables, e.row.script) {
        ShownIsVisible(n, f, txdb, hist, unspendables, e);
      }
    }
  }

  lemma {:induction false} SharedOnly(c: seq<Block>, n: seq<Block>, f: nat, txdb: set<TxRow>, hist: set<HistKey>,
                                      unspendables: bool, e: Entry)
    requires ValidChain(c) && ValidChain(n) && PartAt(c, n, f)
    requires txdb <= TxDb(c) && hist <= HistDb(c, unspendables)
    requires Visible(txdb, hist, n, e)
    ensures e in ChainEntries(n[..f], unspendables, e.row.script)
  {
    RowHasEntry(c, unspendables, e.row);
    ConfRows(c, e.row.info.txid, e.at.hash);
    var p :| p in Flatten(c) && p.tx.txid == e.row.info.txid && p.at.hash == e.at.hash;
    FlattenPlaces(c);
    var h := e.at.height;
    assert h < f;
    assert c[h] == c[..f][h] == n[..f][h] == n[h];
    EntryBelow(c, f, unspendables, e.row.script, e);
  }

  /** While the new blocks are being added, and then indexed in order, queries see exactly
      the blocks indexed so far. */
  lemma {:induction false} ForwardShows(n: seq<Block>, p: nat, txdb: set<TxRow>, unspendables: bool)
    requires ValidChain(n) && p <= |n|
    requires TxDb(n[..p]) <= txdb <= TxDb(n)
    ensures Shows(txdb, HistDb(n[..p], unspendables), n, p, unspendables)
  {
    OneConfirmation(n, txdb, n);
    var hist := HistDb(n[..p], unspendables);
    ValidChainPrefix(n, p);
    ChainFits(n[..p], unspendables);
    forall e
      ensures Visible(txdb, hist, n, e) <==> e in ChainEntries(n[..p], unspendables, e.row.script)
    {
      if Visible(txdb, hist, n, e) {
        RowHasEntry(n[..p], unspendables, e.row);
      }
      if e in ChainEntries(n[..p], unspendables, e.row.script) {
        ShownIsVisible(n, p, txdb, hist, unspendables, e);
      }
    }
  }
}
