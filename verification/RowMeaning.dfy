/** What the rows of both databases say, in terms of the blocks of the chain alone. */
module RowMeaning {
  import opened Chain
  import opened History
  import opened TxStore
  import opened HistStore

  // ----- the txstore

  /** A block's txids are stored in order, whole, under its hash. */
  lemma {:induction false} BlockTxidsRows(c: seq<Block>, x: BlockHash, ts: seq<Txid>)
    ensures X(x, ts) in TxDb(c) <==>
              exists h :: && 0 <= h < |c| && c[h].header.hash == x && |ts| == |c[h].txs|
                          && forall i :: 0 <= i < |ts| ==> ts[i] == c[h].txs[i].txid
  {
    hide TxRows;
    if X(x, ts) in TxDb(c) {
      var h, _ := Owner(c, X(x, ts));
      assert c[h].header.hash == x;
    }
    if h :| && 0 <= h < |c| && c[h].header.hash == x && |ts| == |c[h].txs|
            && forall i :: 0 <= i < |ts| ==> ts[i] == c[h].txs[i].txid {
      assert ts == seq(|c[h].txs|, i requires 0 <= i < |c[h].txs| => c[h].txs[i].txid);
      HeadRowIn(c, h, X(x, ts));
    }
  }

  lemma {:induction false} HeadRowIn(c: seq<Block>, h: nat, r: TxRow)
    requires h < |c| && r in HeadRows(c[h])
    ensures r in TxDb(c)
  {
    hide TxRows, HeadRows;
    assert r in BlockRows(c[h], h);
  }

  lemma {:induction false} BlockMetaRows(c: seq<Block>, x: BlockHash, n: nat)
    ensures M(x, n) in TxDb(c) <==> exists h :: 0 <= h < |c| && c[h].header.hash == x && |c[h].txs| == n
  {
    hide TxRows;
    if M(x, n) in TxDb(c) {
      var h, _ := Owner(c, M(x, n));
      assert c[h].header.hash == x;
    }
    if h :| 0 <= h < |c| && c[h].header.hash == x && |c[h].txs| == n {
      HeadRowIn(c, h, M(x, n));
    }
  }

  lemma {:induction false} HeaderRows(c: seq<Block>, x: BlockHash, header: Header)
    ensures B(x, header) in TxDb(c) <==>
              exists h :: 0 <= h < |c| && c[h].header == header && c[h].header.hash == x
    ensures Added(x) in TxDb(c) <==> exists h :: 0 <= h < |c| && c[h].header.hash == x
  {
    hide TxRows;
    if B(x, header) in TxDb(c) {
      var h, _ := Owner(c, B(x, header));
      assert c[h].header == header;
    }
    if h :| 0 <= h < |c| && c[h].header == header && c[h].header.hash == x {
      HeadRowIn(c, h, B(x, header));
    }
    if Added(x) in TxDb(c) {
      var h, _ := Owner(c, Added(x));
      assert c[h].header.hash == x;
    }
    if h :| 0 <= h < |c| && c[h].header.hash == x {
      HeadRowIn(c, h, Added(x));
    }
  }

  lemma {:induction false} TxRowIn(c: seq<Block>, h: nat, i: nat, r: TxRow)
    requires h < |c| && i < |c[h].txs| && r in TxRows(Placed(IdOf(c[h], h), i, c[h].txs[i]))
    ensures r in TxDb(c)
  {
    hide TxRows, HeadRows;
    assert r in BlockRows(c[h], h);
  }

  /** Every transaction of the chain is stored as it is, under its txid. */
  lemma {:induction false} TransactionRows(c: seq<Block>, t: Txid, tx: Tx)
    ensures T(t, tx) in TxDb(c) <==>
              tx.txid == t && exists h, i :: 0 <= h < |c| && 0 <= i < |c[h].txs| && c[h].txs[i] == tx
  {
    if T(t, tx) in TxDb(c) {
      var h, i := Owner(c, T(t, tx));
      assert c[h].txs[i] == tx;
    }
    if h, i :| tx.txid == t && 0 <= h < |c| && 0 <= i < |c[h].txs| && c[h].txs[i] == tx {
      TxRowIn(c, h, i, T(t, tx));
    }
  }

  lemma {:induction false} ConfirmationRows(c: seq<Block>, t: Txid, x: BlockHash)
    ensures C(t, x) in TxDb(c) <==>
              exists h, i :: 0 <= h < |c| && 0 <= i < |c[h].txs| && c[h].header.hash == x && c[h].txs[i].txid == t
  {
    if C(t, x) in TxDb(c) {
      var h, i := Owner(c, C(t, x));
      assert c[h].txs[i].txid == t;
    }
    if h, i :| 0 <= h < |c| && 0 <= i < |c[h].txs| && c[h].header.hash == x && c[h].txs[i].txid == t {
      TxRowIn(c, h, i, C(t, x));
    }
  }

  /** The spendable outputs are stored, and no others. */
  lemma {:induction false} SpendableRows(c: seq<Block>, o: OutPoint, out: TxOut)
    ensures O(o, out) in TxDb(c) <==>
              out.spendable && exists h, i ::
                && 0 <= h < |c| && 0 <= i < |c[h].txs| && c[h].txs[i].txid == o.txid
                && o.vout < |c[h].txs[i].outputs| && c[h].txs[i].outputs[o.vout] == out
  {
    if O(o, out) in TxDb(c) {
      var h, i := Owner(c, O(o, out));
      assert c[h].txs[i].txid == o.txid;
    }
    if h, i :| && out.spendable && 0 <= h < |c| && 0 <= i < |c[h].txs| && c[h].txs[i].txid == o.txid
               && o.vout < |c[h].txs[i].outputs| && c[h].txs[i].outputs[o.vout] == out {
      TxRowIn(c, h, i, O(o, out));
    }
  }

  // ----- the history

  /** Where a key of the history comes from. */
  lemma {:induction false} KeyOwner(c: seq<Block>, unspendables: bool, k: HistKey) returns (h: nat, i: nat)
    requires k in HistDb(c, unspendables) && !k.D?
    ensures h < |c| && i < |c[h].txs|
    ensures k in TxHist(Placed(IdOf(c[h], h), i, c[h].txs[i]), Outs(Flatten(c[..h + 1])), unspendables)
  {
    hide TxHist, Outs, Flatten;
    h :| 0 <= h < |c| && k in HistAt(c, h, unspendables);
    i :| 0 <= i < |c[h].txs|
      && k in TxHist(Placed(IdOf(c[h], h), i, c[h].txs[i]), Outs(Flatten(c[..h + 1])), unspendables);
  }

  lemma {:induction false} KeyIn(c: seq<Block>, unspendables: bool, h: nat, i: nat, k: HistKey)
    requires h < |c| && i < |c[h].txs|
    requires k in TxHist(Placed(IdOf(c[h], h), i, c[h].txs[i]), Outs(Flatten(c[..h + 1])), unspendables)
    ensures k in HistDb(c, unspendables)
  {
    hide TxHist, Outs, Flatten;
    assert k in HistAt(c, h, unspendables);
  }

  /** An output has a funding row exactly when it is spendable, or unspendable ones are indexed
      too. */
  lemma {:induction false} FundingRows(c: seq<Block>, unspendables: bool, s: Script, h: nat, i: nat, t: Txid, v: nat,
                                       value: nat)
    requires ValidChain(c)
    ensures H(Row(s, h, i, Funding(t, v, value))) in HistDb(c, unspendables) <==>
              && h < |c| && i < |c[h].txs| && c[h].txs[i].txid == t && v < |c[h].txs[i].outputs|
              && c[h].txs[i].outputs[v].script == s && c[h].txs[i].outputs[v].value == value
              && (c[h].txs[i].outputs[v].spendable || unspendables)
  {
    hide HistDb, Outs, Flatten, ValidTxs;
    var k := H(Row(s, h, i, Funding(t, v, value)));
    if k in HistDb(c, unspendables) {
      var g, j := KeyOwner(c, unspendables, k);
      assert j < 0x1_0000;
    }
    if && h < |c| && i < |c[h].txs| && c[h].txs[i].txid == t && v < |c[h].txs[i].outputs|
       && c[h].txs[i].outputs[v].script == s && c[h].txs[i].outputs[v].value == value
       && (c[h].txs[i].outputs[v].spendable || unspendables) {
      assert i < 0x1_0000;
      assert k == H(FundRow(Placed(IdOf(c[h], h), i, c[h].txs[i]), v));
      KeyIn(c, unspendables, h, i, k);
    }
  }

  /** Some transaction of the chain has this output. */
  ghost predicate HasOutput(c: seq<Block>, o: OutPoint, s: Script, value: nat) {
    exists h, i ::
      && 0 <= h < |c| && 0 <= i < |c[h].txs| && c[h].txs[i].txid == o.txid && o.vout < |c[h].txs[i].outputs|
      && c[h].txs[i].outputs[o.vout].script == s && c[h].txs[i].outputs[o.vout].value == value
  }

  /** Every input but that of a coinbase has a spending row, under the script that the spent output
      paid to and with its value. */
  lemma {:induction false} SpendingRows(c: seq<Block>, unspendables: bool, s: Script, h: nat, i: nat, t: Txid, v: nat,
                                        prev: OutPoint, value: nat)
    requires ValidChain(c)
    ensures H(Row(s, h, i, Spending(t, v, prev, value))) in HistDb(c, unspendables) <==>
              && h < |c| && i < |c[h].txs| && c[h].txs[i].txid == t && v < |c[h].txs[i].inputs|
              && c[h].txs[i].inputs[v] == prev && prev != OutPoint(0, 0xFFFF_FFFF) && HasOutput(c, prev, s, value)
  {
    hide HistDb, Outs, Flatten, ValidTxs, HasOutput;
    var k := H(Row(s, h, i, Spending(t, v, prev, value)));
    if k in HistDb(c, unspendables) {
      var g, j := KeyOwner(c, unspendables, k);
      assert j < 0x1_0000;
      SpentOutput(c, g, j, v);
    }
    if && h < |c| && i < |c[h].txs| && c[h].txs[i].txid == t && v < |c[h].txs[i].inputs|
       && c[h].txs[i].inputs[v] == prev && prev != OutPoint(0, 0xFFFF_FFFF) && HasOutput(c, prev, s, value) {
      assert i < 0x1_0000;
      SpentOutput(c, h, i, v);
      var out := Outs(Flatten(c[..h + 1]))[prev];
      OneOutput(c, prev, s, value, out.script, out.value);
      assert k == H(SpendRow(Placed(IdOf(c[h], h), i, c[h].txs[i]), v, out));
      KeyIn(c, unspendables, h, i, k);
    }
  }

  /** The output that an input spends, as it was looked up, is the one on the chain. */
  lemma {:induction false} SpentOutput(c: seq<Block>, h: nat, i: nat, v: nat)
    requires ValidChain(c) && h < |c| && i < |c[h].txs| && v < |c[h].txs[i].inputs| && HasPrevout(c[h].txs[i].inputs[v])
    ensures var outs, o := Outs(Flatten(c[..h + 1])), c[h].txs[i].inputs[v];
            o in outs && HasOutput(c, o, outs[o].script, outs[o].value)
  {
    hide Outs, Flatten, ValidTxs;
    var o := c[h].txs[i].inputs[v];
    var j := PlaceOf(c, h + 1, h, i);
    OutsAgree(c, h, i, j);
    var fs := Flatten(c);
    OutsOrigin(fs);
    var p :| p in fs && p.tx.txid == o.txid && o.vout < |p.tx.outputs| && p.tx.outputs[o.vout] == Outs(fs)[o];
    FlattenPlaces(c);
    assert c[p.at.height].txs[p.pos].txid == o.txid;
  }

  lemma {:induction false} OneOutput(c: seq<Block>, o: OutPoint, s: Script, value: nat, s': Script, value': nat)
    requires ValidChain(c) && HasOutput(c, o, s, value) && HasOutput(c, o, s', value')
    ensures s == s' && value == value'
  {
    hide ValidChain;
    var h, i :| && 0 <= h < |c| && 0 <= i < |c[h].txs| && c[h].txs[i].txid == o.txid && o.vout < |c[h].txs[i].outputs|
                && c[h].txs[i].outputs[o.vout].script == s && c[h].txs[i].outputs[o.vout].value == value;
    var g, j :| && 0 <= g < |c| && 0 <= j < |c[g].txs| && c[g].txs[j].txid == o.txid && o.vout < |c[g].txs[j].outputs|
                && c[g].txs[j].outputs[o.vout].script == s' && c[g].txs[j].outputs[o.vout].value == value';
    OnePlace(c, h, i, g, j);
  }

  /** A spend edge names the transaction and the very input that spends the outpoint. */
  lemma {:induction false} EdgeRows(c: seq<Block>, unspendables: bool, o: OutPoint, t: Txid, v: nat)
    ensures S(o, t, v) in HistDb(c, unspendables) <==>
              o != OutPoint(0, 0xFFFF_FFFF) && exists h, i ::
                && 0 <= h < |c| && 0 <= i < |c[h].txs| && c[h].txs[i].txid == t
                && v < |c[h].txs[i].inputs| && c[h].txs[i].inputs[v] == o
  {
    hide HistDb, Outs, Flatten;
    if S(o, t, v) in HistDb(c, unspendables) {
      var h, i := KeyOwner(c, unspendables, S(o, t, v));
      assert c[h].txs[i].txid == t;
    }
    if h, i :| && o != OutPoint(0, 0xFFFF_FFFF) && 0 <= h < |c| && 0 <= i < |c[h].txs| && c[h].txs[i].txid == t
               && v < |c[h].txs[i].inputs| && c[h].txs[i].inputs[v] == o {
      KeyIn(c, unspendables, h, i, S(o, t, v));
    }
  }

  lemma {:induction false} DoneRows(c: seq<Block>, unspendables: bool, x: BlockHash)
    ensures D(x) in HistDb(c, unspendables) <==> exists h :: 0 <= h < |c| && c[h].header.hash == x
  {
    hide TxHist, Outs, Flatten;
    if D(x) in HistDb(c, unspendables) {
      var h :| 0 <= h < |c| && D(x) in HistAt(c, h, unspendables);
      BlockHistIn(c[h], h, Outs(Flatten(c[..h + 1])), unspendables, D(x));
    }
    if h :| 0 <= h < |c| && c[h].header.hash == x {
      assert D(x) in HistAt(c, h, unspendables);
    }
  }
}
