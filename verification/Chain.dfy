/** Transactions, blocks and chains: the data that the index describes, and the
    consensus facts about a chain that the index relies on. */
module Chain {

  datatype Option<+T> = None | Some(value: T)

  function Reversed<T>(s: seq<T>): seq<T> {
    seq(|s|, i requires 0 <= i < |s| => s[|s| - 1 - i])
  }

  type BlockHash = nat
  type Txid = nat
  type Script = nat // the SHA-256 of a scriptPubKey, the key under which history is kept

  const NULL_HASH: BlockHash := 0

  // one more than the largest value of the type
  const U32: nat := 0x1_0000_0000
  const U64: nat := 0x1_0000_0000_0000_0000
  const U256: nat := 0x1_0000_0000_0000_0000_0000_0000_0000_0000_0000_0000_0000_0000_0000_0000_0000_0000

  datatype OutPoint = OutPoint(txid: Txid, vout: nat)

  const NULL_OUTPOINT := OutPoint(0, 0xFFFF_FFFF)

  predicate HasPrevout(input: OutPoint) {
    input != NULL_OUTPOINT
  }

  datatype TxOut = TxOut(script: Script, value: nat, spendable: bool)

  datatype Tx = Tx(txid: Txid, inputs: seq<OutPoint>, outputs: seq<TxOut>)

  datatype Header = Header(hash: BlockHash, prev: BlockHash, time: nat)

  datatype Block = Block(header: Header, txs: seq<Tx>)

  datatype BlockId = BlockId(height: nat, hash: BlockHash, time: nat)

  /** A transaction together with the block and the position that confirm it. */
  datatype Placed = Placed(at: BlockId, pos: nat, tx: Tx)

  /** An output together with the block that created it. */
  datatype Coin = Coin(at: BlockId, out: TxOut)

  function IdOf(b: Block, height: nat): BlockId {
    BlockId(height, b.header.hash, b.header.time)
  }

  function PlacedIn(b: Block, height: nat): seq<Placed> {
    seq(|b.txs|, i requires 0 <= i < |b.txs| => Placed(IdOf(b, height), i, b.txs[i]))
  }

  /** All transactions of a chain in confirmation order. */
  function Flatten(c: seq<Block>): seq<Placed> {
    if c == [] then [] else Flatten(c[..|c| - 1]) + PlacedIn(c[|c| - 1], |c| - 1)
  }

  function Created(p: Placed): map<OutPoint, Coin> {
    map i | 0 <= i < |p.tx.outputs| :: OutPoint(p.tx.txid, i) := Coin(p.at, p.tx.outputs[i])
  }

  function Inputs(tx: Tx): set<OutPoint> {
    set o | o in tx.inputs
  }

  /** The coins left after the given transactions: the consensus view of what is unspent. */
  function Ledger(fs: seq<Placed>): map<OutPoint, Coin> {
    if fs == [] then map[]
    else
      var p := fs[|fs| - 1];
      (Ledger(fs[..|fs| - 1]) - Inputs(p.tx)) + Created(p)
  }

  /** Every spendable output ever created, which is what the txstore O rows hold. */
  function Outs(fs: seq<Placed>): map<OutPoint, TxOut> {
    if fs == [] then map[] else Outs(fs[..|fs| - 1]) + TxOuts(fs[|fs| - 1].tx)
  }

  function TxOuts(tx: Tx): map<OutPoint, TxOut> {
    map i | 0 <= i < |tx.outputs| && tx.outputs[i].spendable :: OutPoint(tx.txid, i) := tx.outputs[i]
  }

  /** The transaction fits the types it is decoded into. */
  ghost predicate Typed(tx: Tx) {
    && tx.txid < U256 && |tx.inputs| < U32 && |tx.outputs| < U32
    && (forall i :: 0 <= i < |tx.inputs| ==> tx.inputs[i].txid < U256 && tx.inputs[i].vout < U32)
    && (forall i :: 0 <= i < |tx.outputs| ==> tx.outputs[i].script < U256 && tx.outputs[i].value < U64)
  }

  /** What consensus demands of the next transaction: a fresh txid (BIP 30) and inputs
      that each spend a different, spendable, unspent output of an earlier transaction. */
  ghost predicate ValidNext(fs: seq<Placed>, tx: Tx) {
    && (forall i :: 0 <= i < |fs| ==> fs[i].tx.txid != tx.txid)
    && Typed(tx)
    && (forall k :: 0 <= k < |tx.inputs| && HasPrevout(tx.inputs[k]) ==>
                      tx.inputs[k] in Ledger(fs) && Ledger(fs)[tx.inputs[k]].out.spendable)
    && (forall k, l :: 0 <= k < l < |tx.inputs| && HasPrevout(tx.inputs[k]) ==> tx.inputs[k] != tx.inputs[l])
  }

  ghost predicate ValidTxs(fs: seq<Placed>) {
    fs == [] || (ValidTxs(fs[..|fs| - 1]) && ValidNext(fs[..|fs| - 1], fs[|fs| - 1].tx))
  }

  const MAX_BLOCK_TXS := 0xFFFF

  ghost predicate ValidChain(c: seq<Block>) {
    && |c| <= 0xFFFF_FFFF
    && (forall h :: 0 <= h < |c| ==> |c[h].txs| <= MAX_BLOCK_TXS)
    && (forall g, h :: 0 <= g < h < |c| ==> c[g].header.hash != c[h].header.hash)
    && ValidTxs(Flatten(c))
  }

  // ----- prefixes

  lemma {:induction false} FlattenPrefix(c: seq<Block>, n: nat)
    requires n <= |c|
    ensures Flatten(c[..n]) <= Flatten(c)
  {
    if n < |c| {
      FlattenPrefix(c[..|c| - 1], n);
      assert c[..|c| - 1][..n] == c[..n];
    } else {
      assert c[..n] == c;
    }
  }

  lemma {:induction false} ValidTxsPrefix(fs: seq<Placed>, n: nat)
    requires ValidTxs(fs) && n <= |fs|
    ensures ValidTxs(fs[..n])
  {
    if n < |fs| {
      ValidTxsPrefix(fs[..|fs| - 1], n);
      assert fs[..|fs| - 1][..n] == fs[..n];
    } else {
      assert fs[..n] == fs;
    }
  }

  lemma {:induction false} ValidChainPrefix(c: seq<Block>, n: nat)
    requires ValidChain(c) && n <= |c|
    ensures ValidChain(c[..n])
  {
    FlattenPrefix(c, n);
    var k := |Flatten(c[..n])|;
    ValidTxsPrefix(Flatten(c), k);
    assert Flatten(c)[..k] == Flatten(c[..n]);
  }

  /** Confirmed transactions sit where their block and position say, in chain order. */
  lemma {:induction false} FlattenPlaces(c: seq<Block>)
    ensures forall p :: p in Flatten(c) ==>
                          && p.at.height < |c| && p.at == IdOf(c[p.at.height], p.at.height)
                          && p.pos < |c[p.at.height].txs| && p.tx == c[p.at.height].txs[p.pos]
    ensures forall h, i :: 0 <= h < |c| && 0 <= i < |c[h].txs| ==>
                             Placed(IdOf(c[h], h), i, c[h].txs[i]) in Flatten(c)
    ensures forall i, j :: 0 <= i < j < |Flatten(c)| ==> Before(Flatten(c)[i], Flatten(c)[j])
  {
    if c != [] {
      var n := |c| - 1;
      FlattenPlaces(c[..n]);
      var last := PlacedIn(c[n], n);
      forall i | 0 <= i < |c[n].txs|
        ensures Placed(IdOf(c[n], n), i, c[n].txs[i]) in Flatten(c)
      {
        assert last[i] in Flatten(c);
      }
    }
  }

  predicate Before(a: Placed, b: Placed) {
    a.at.height < b.at.height || (a.at.height == b.at.height && a.pos < b.pos)
  }

  /** On a valid list a txid names one transaction. */
  lemma {:induction false} UniqueTxids(fs: seq<Placed>)
    requires ValidTxs(fs)
    ensures forall i, j :: 0 <= i < j < |fs| ==> fs[i].tx.txid != fs[j].tx.txid
    ensures forall p, q :: p in fs && q in fs && p.tx.txid == q.tx.txid ==> p == q
  {
    if fs != [] {
      UniqueTxids(fs[..|fs| - 1]);
    }
  }

  // ----- coins

  lemma {:induction false} LedgerOrigin(fs: seq<Placed>)
    requires ValidTxs(fs)
    ensures forall o :: o in Ledger(fs) ==>
                          && HasPrevout(o)
                          && (exists i :: 0 <= i < |fs| && fs[i].tx.txid == o.txid)
                          && (Ledger(fs)[o].out.spendable ==> o in Outs(fs) && Outs(fs)[o] == Ledger(fs)[o].out)
  {
    if fs != [] {
      var init, p := fs[..|fs| - 1], fs[|fs| - 1];
      LedgerOrigin(init);
      forall o | o in Ledger(fs)
        ensures HasPrevout(o)
        ensures exists i :: 0 <= i < |fs| && fs[i].tx.txid == o.txid
        ensures Ledger(fs)[o].out.spendable ==> o in Outs(fs) && Outs(fs)[o] == Ledger(fs)[o].out
      {
        if o in Created(p) {
          assert fs[|fs| - 1].tx.txid == o.txid;
        } else {
          var i :| 0 <= i < |init| && init[i].tx.txid == o.txid;
          assert fs[i].tx.txid == o.txid;
        }
      }
    }
  }

  lemma {:induction false} OutsOrigin(fs: seq<Placed>)
    ensures forall o :: o in Outs(fs) ==>
                          exists p :: p in fs && p.tx.txid == o.txid && o.vout < |p.tx.outputs|
                            && p.tx.outputs[o.vout] == Outs(fs)[o]
  {
    if fs != [] {
      var init, p := fs[..|fs| - 1], fs[|fs| - 1];
      OutsOrigin(init);
      forall o | o in Outs(fs)
        ensures exists q ::
                  q in fs && q.tx.txid == o.txid && o.vout < |q.tx.outputs| && q.tx.outputs[o.vout] == Outs(fs)[o]
      {
        if o in TxOuts(p.tx) {
          assert p in fs;
        } else {
          var q :| q in init && q.tx.txid == o.txid && o.vout < |q.tx.outputs| && q.tx.outputs[o.vout] == Outs(init)[o];
          assert q in fs;
        }
      }
    }
  }

  /** A later transaction never rebinds an existing output. */
  lemma {:induction false} OutsGrow(fs: seq<Placed>, n: nat)
    requires ValidTxs(fs) && n <= |fs|
    ensures forall o :: o in Outs(fs[..n]) ==> o in Outs(fs) && Outs(fs)[o] == Outs(fs[..n])[o]
  {
    if n < |fs| {
      var init, p := fs[..|fs| - 1], fs[|fs| - 1];
      OutsGrow(init, n);
      assert init[..n] == fs[..n];
      OutsOrigin(init);
      forall o | o in Outs(init)
        ensures o !in TxOuts(p.tx)
      {
        var q :| q in init && q.tx.txid == o.txid && o.vout < |q.tx.outputs| && q.tx.outputs[o.vout] == Outs(init)[o];
      }
    } else {
      assert fs[..n] == fs;
    }
  }
}
