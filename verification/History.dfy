/** History rows: what one transaction contributes to the history of a script, in the
    order in which a scan returns it, and what the row sets of a whole chain are. */
module History {
  import opened Chain

  datatype Info =
    | Spending(txid: Txid, vin: nat, prev: OutPoint, value: nat)
    | Funding(txid: Txid, vout: nat, value: nat)
  {
    function FundedOutPoint(): OutPoint {
      if Spending? then prev else OutPoint(txid, vout)
    }

    function Index(): nat {
      if Spending? then vin else vout
    }
  }

  /** The key of an H row; `height` and `pos` are stored as u32 and u16. */
  datatype Row = Row(script: Script, height: nat, pos: nat, info: Info)

  /** A row joined with the block that currently confirms its transaction. */
  datatype Entry = Entry(row: Row, at: BlockId)

  predicate Indexed(out: TxOut, unspendables: bool) {
    out.spendable || unspendables
  }

  function SpendRow(p: Placed, i: nat, out: TxOut): Row
    requires i < |p.tx.inputs|
  {
    Row(out.script, p.at.height, p.pos % 0x1_0000, Spending(p.tx.txid, i, p.tx.inputs[i], out.value))
  }

  function FundRow(p: Placed, i: nat): Row
    requires i < |p.tx.outputs|
  {
    Row(p.tx.outputs[i].script, p.at.height, p.pos % 0x1_0000, Funding(p.tx.txid, i, p.tx.outputs[i].value))
  }

  predicate SpendsScript(p: Placed, outs: map<OutPoint, TxOut>, s: Script, i: nat)
    requires i < |p.tx.inputs|
  {
    var o := p.tx.inputs[i];
    HasPrevout(o) && o in outs && outs[o].script == s
  }

  predicate FundsScript(p: Placed, unspendables: bool, s: Script, i: nat)
    requires i < |p.tx.outputs|
  {
    p.tx.outputs[i].script == s && Indexed(p.tx.outputs[i], unspendables)
  }

  function SpendEntries(p: Placed, outs: map<OutPoint, TxOut>, s: Script, n: nat): seq<Entry>
    requires n <= |p.tx.inputs|
  {
    if n == 0 then []
    else
      SpendEntries(p, outs, s, n - 1)
      + if SpendsScript(p, outs, s, n - 1) then [Entry(SpendRow(p, n - 1, outs[p.tx.inputs[n - 1]]), p.at)] else []
  }

  function FundEntries(p: Placed, unspendables: bool, s: Script, n: nat): seq<Entry>
    requires n <= |p.tx.outputs|
  {
    if n == 0 then []
    else
      FundEntries(p, unspendables, s, n - 1)
      + if FundsScript(p, unspendables, s, n - 1) then [Entry(FundRow(p, n - 1), p.at)] else []
  }

  /** The entries of one transaction for one script: spends first, then fundings. */
  function TxEntries(p: Placed, outs: map<OutPoint, TxOut>, unspendables: bool, s: Script): seq<Entry> {
    SpendEntries(p, outs, s, |p.tx.inputs|) + FundEntries(p, unspendables, s, |p.tx.outputs|)
  }

  /** The whole history of a script. */
  function Entries(fs: seq<Placed>, unspendables: bool, s: Script): seq<Entry> {
    if fs == [] then []
    else
      var init := fs[..|fs| - 1];
      Entries(init, unspendables, s) + TxEntries(fs[|fs| - 1], Outs(init), unspendables, s)
  }

  function ChainEntries(c: seq<Block>, unspendables: bool, s: Script): seq<Entry> {
    Entries(Flatten(c), unspendables, s)
  }

  // ----- the keys of the history database

  datatype HistKey =
    | H(row: Row)                                  // history row
    | S(prev: OutPoint, txid: Txid, vin: nat)      // spend edge
    | D(hash: BlockHash)                           // block indexed

  function TxHist(p: Placed, outs: map<OutPoint, TxOut>, unspendables: bool): set<HistKey> {
    (set i | 0 <= i < |p.tx.outputs| && Indexed(p.tx.outputs[i], unspendables) :: H(FundRow(p, i)))
    + (set i | 0 <= i < |p.tx.inputs| && HasPrevout(p.tx.inputs[i]) && p.tx.inputs[i] in outs ::
         H(SpendRow(p, i, outs[p.tx.inputs[i]])))
    + (set i | 0 <= i < |p.tx.inputs| && HasPrevout(p.tx.inputs[i]) :: S(p.tx.inputs[i], p.tx.txid, i))
  }

  // ----- key order

  predicate InfoLess(a: Info, b: Info) {
    if a.Spending? != b.Spending? then a.Spending?
    else if a.txid != b.txid then a.txid < b.txid
    else if a.Index() != b.Index() then a.Index() < b.Index()
    else if a.Spending? && a.prev.txid != b.prev.txid then a.prev.txid < b.prev.txid
    else if a.Spending? && a.prev.vout != b.prev.vout then a.prev.vout < b.prev.vout
    else a.value < b.value
  }

  /** The order of the encoded keys (module Codec proves that it is). */
  predicate RowLess(a: Row, b: Row) {
    if a.script != b.script then a.script < b.script
    else if a.height != b.height then a.height < b.height
    else if a.pos != b.pos then a.pos < b.pos
    else InfoLess(a.info, b.info)
  }

  predicate Sorted(es: seq<Entry>) {
    forall i, j :: 0 <= i < j < |es| ==> RowLess(es[i].row, es[j].row)
  }

  /** A set of entries has at most one sorted listing. */
  lemma {:induction false} SortedUnique(a: seq<Entry>, b: seq<Entry>)
    requires Sorted(a) && Sorted(b)
    requires forall e :: e in a <==> e in b
    ensures a == b
  {
    assert a != [] ==> a[0] in b;
    assert b != [] ==> b[0] in a;
    if a != [] {
      assert a[0] == b[0];
      forall e
        ensures e in a[1..] <==> e in b[1..]
      {
        if e in a[1..] {
          assert e in a && e != a[0];
        }
        if e in b[1..] {
          assert e in b && e != b[0];
        }
      }
      SortedUnique(a[1..], b[1..]);
      assert a == [a[0]] + a[1..] && b == [b[0]] + b[1..];
    }
  }

  // ----- entries and rows name the same facts

  /** An entry of a transaction is one of its indexed inputs or outputs, and conversely. */
  lemma {:induction false} SpendEntriesAre(p: Placed, outs: map<OutPoint, TxOut>, s: Script, n: nat)
    requires n <= |p.tx.inputs|
    ensures forall e :: e in SpendEntries(p, outs, s, n) <==>
                          && e.at == p.at
                          && exists i ::
                               && 0 <= i < n && SpendsScript(p, outs, s, i)
                               && e.row == SpendRow(p, i, outs[p.tx.inputs[i]])
    ensures Sorted(SpendEntries(p, outs, s, n))
  {
    if n > 0 {
      SpendEntriesAre(p, outs, s, n - 1);
    }
  }

  lemma {:induction false} FundEntriesAre(p: Placed, unspendables: bool, s: Script, n: nat)
    requires n <= |p.tx.outputs|
    ensures forall e :: e in FundEntries(p, unspendables, s, n) <==>
                          && e.at == p.at
                          && exists i :: 0 <= i < n && FundsScript(p, unspendables, s, i) && e.row == FundRow(p, i)
    ensures Sorted(FundEntries(p, unspendables, s, n))
  {
    if n > 0 {
      FundEntriesAre(p, unspendables, s, n - 1);
    }
  }

  ghost predicate OfTx(p: Placed, s: Script, e: Entry) {
    && e.at == p.at
    && e.row.script == s
    && e.row.height == p.at.height
    && e.row.pos == p.pos % 0x1_0000
    && e.row.info.txid == p.tx.txid
  }

  lemma {:induction false} TxEntriesAre(p: Placed, outs: map<OutPoint, TxOut>, unspendables: bool, s: Script)
    ensures forall e :: e in TxEntries(p, outs, unspendables, s) ==> OfTx(p, s, e)
    ensures Sorted(TxEntries(p, outs, unspendables, s))
  {
    SpendEntriesAre(p, outs, s, |p.tx.inputs|);
    FundEntriesAre(p, unspendables, s, |p.tx.outputs|);
  }

  lemma {:induction false} TxRowsAre(p: Placed, outs: map<OutPoint, TxOut>, unspendables: bool, r: Row)
    ensures H(r) in TxHist(p, outs, unspendables) <==> Entry(r, p.at) in TxEntries(p, outs, unspendables, r.script)
  {
    SpendEntriesAre(p, outs, r.script, |p.tx.inputs|);
    FundEntriesAre(p, unspendables, r.script, |p.tx.outputs|);
  }

  /** Every entry of a list comes from one of its transactions. */
  lemma {:induction false} EntryTx(fs: seq<Placed>, unspendables: bool, s: Script, e: Entry) returns (j: nat)
    requires e in Entries(fs, unspendables, s)
    ensures j < |fs| && e in TxEntries(fs[j], Outs(fs[..j]), unspendables, s) && OfTx(fs[j], s, e)
  {
    var n := |fs| - 1;
    if e in TxEntries(fs[n], Outs(fs[..n]), unspendables, s) {
      j := n;
    } else {
      j := EntryTx(fs[..n], unspendables, s, e);
      assert fs[..n][..j] == fs[..j];
    }
    TxEntriesAre(fs[j], Outs(fs[..j]), unspendables, s);
  }

  lemma {:induction false} EntryIn(fs: seq<Placed>, j: nat, unspendables: bool, s: Script, e: Entry)
    requires j < |fs| && e in TxEntries(fs[j], Outs(fs[..j]), unspendables, s)
    ensures e in Entries(fs, unspendables, s)
  {
    var n := |fs| - 1;
    if j < n {
      assert fs[..n][..j] == fs[..j];
      EntryIn(fs[..n], j, unspendables, s, e);
    }
  }

  ghost predicate Ordered(fs: seq<Placed>) {
    && (forall i, j :: 0 <= i < j < |fs| ==> Before(fs[i], fs[j]))
    && (forall i :: 0 <= i < |fs| ==> fs[i].pos < MAX_BLOCK_TXS)
  }

  lemma {:induction false} ChainOrdered(c: seq<Block>)
    requires ValidChain(c)
    ensures Ordered(Flatten(c))
  {
    FlattenPlaces(c);
    forall i | 0 <= i < |Flatten(c)|
      ensures Flatten(c)[i].pos < MAX_BLOCK_TXS
    {
      assert Flatten(c)[i] in Flatten(c);
    }
  }

  lemma {:induction false} SortedConcat(a: seq<Entry>, b: seq<Entry>)
    requires Sorted(a) && Sorted(b)
    requires forall x, y :: x in a && y in b ==> RowLess(x.row, y.row)
    ensures Sorted(a + b)
  {
    hide RowLess;
  }

  lemma {:induction false} LaterTx(p: Placed, q: Placed, s: Script, x: Entry, y: Entry)
    requires OfTx(p, s, x) && OfTx(q, s, y) && Before(p, q) && p.pos < MAX_BLOCK_TXS && q.pos < MAX_BLOCK_TXS
    ensures RowLess(x.row, y.row)
  {
    hide InfoLess;
  }

  /** Entries come in key order. */
  lemma {:induction false} EntriesSorted(fs: seq<Placed>, unspendables: bool, s: Script)
    requires Ordered(fs)
    ensures Sorted(Entries(fs, unspendables, s))
  {
    if fs != [] {
      var n := |fs| - 1;
      EntriesSorted(fs[..n], unspendables, s);
      TxEntriesAre(fs[n], Outs(fs[..n]), unspendables, s);
      var a, b := Entries(fs[..n], unspendables, s), TxEntries(fs[n], Outs(fs[..n]), unspendables, s);
      assert Entries(fs, unspendables, s) == a + b;
      hide Entries, TxEntries, Outs, Sorted, RowLess, OfTx;
      forall x, y | x in a && y in b
        ensures RowLess(x.row, y.row)
      {
        var j := EntryTx(fs[..n], unspendables, s, x);
        LaterTx(fs[j], fs[n], s, x, y);
      }
      SortedConcat(a, b);
    }
  }

  lemma {:induction false} EntriesPrefix(fs: seq<Placed>, n: nat, unspendables: bool, s: Script)
    requires n <= |fs|
    ensures Entries(fs[..n], unspendables, s) <= Entries(fs, unspendables, s)
  {
    if n < |fs| {
      EntriesPrefix(fs[..|fs| - 1], n, unspendables, s);
      assert fs[..|fs| - 1][..n] == fs[..n];
    } else {
      assert fs[..n] == fs;
    }
  }

  /** An entry of a chain: its height, its block, its transaction. */
  lemma {:induction false} EntryFacts(c: seq<Block>, unspendables: bool, s: Script, e: Entry) returns (p: Placed)
    requires e in ChainEntries(c, unspendables, s)
    ensures p in Flatten(c) && OfTx(p, s, e)
    ensures e.row.height < |c| && e.at == IdOf(c[e.row.height], e.row.height)
  {
    var j := EntryTx(Flatten(c), unspendables, s, e);
    p := Flatten(c)[j];
    FlattenPlaces(c);
  }

  lemma {:induction false} EntryBelow(c: seq<Block>, n: nat, unspendables: bool, s: Script, e: Entry)
    requires ValidChain(c) && n <= |c|
    requires e in ChainEntries(c, unspendables, s) && e.row.height < n
    ensures e in ChainEntries(c[..n], unspendables, s)
  {
    var fs, gs := Flatten(c), Flatten(c[..n]);
    hide Flatten, Entries, TxEntries, Outs;
    FlattenPrefix(c, n);
    var j := EntryTx(fs, unspendables, s, e);
    PlacedBelow(c, n, j);
    assert gs[..j] == fs[..j];
    EntryIn(gs, j, unspendables, s, e);
  }

  lemma {:induction false} PlacedBelow(c: seq<Block>, n: nat, j: nat)
    requires ValidChain(c) && n <= |c| && j < |Flatten(c)| && Flatten(c)[j].at.height < n
    ensures j < |Flatten(c[..n])| && Flatten(c[..n])[j] == Flatten(c)[j]
  {
    var fs, gs := Flatten(c), Flatten(c[..n]);
    hide Flatten, ValidTxs;
    FlattenPrefix(c, n);
    FlattenPlaces(c);
    FlattenPlaces(c[..n]);
    assert fs[j] in fs;
    var h := fs[j].at.height;
    assert c[..n][h] == c[h];
    assert Placed(IdOf(c[h], h), fs[j].pos, c[h].txs[fs[j].pos]) in gs;
    var k :| 0 <= k < |gs| && gs[k] == fs[j];
    assert fs[k] == fs[j];
  }

  /** Splitting a chain at a height splits each history at that height. */
  lemma {:induction false} EntriesSplit(c: seq<Block>, n: nat, unspendables: bool, s: Script)
    requires ValidChain(c) && n <= |c|
    ensures ChainEntries(c[..n], unspendables, s) <= ChainEntries(c, unspendables, s)
    ensures forall i :: 0 <= i < |ChainEntries(c, unspendables, s)| ==>
                          (i < |ChainEntries(c[..n], unspendables, s)| <==>
                              ChainEntries(c, unspendables, s)[i].row.height < n)
  {
    var fs, gs := Flatten(c), Flatten(c[..n]);
    FlattenPrefix(c, n);
    assert fs[..|gs|] == gs;
    EntriesPrefix(fs, |gs|, unspendables, s);
    var es, ds := ChainEntries(c, unspendables, s), ChainEntries(c[..n], unspendables, s);
    ChainOrdered(c);
    EntriesSorted(fs, unspendables, s);
    forall i | 0 <= i < |es|
      ensures i < |ds| <==> es[i].row.height < n
    {
      if i < |ds| {
        assert es[i] == ds[i];
        var _ := EntryFacts(c[..n], unspendables, s, ds[i]);
      }
      if es[i].row.height < n {
        EntryBelow(c, n, unspendables, s, es[i]);
        var k :| 0 <= k < |ds| && ds[k] == es[i];
        assert es[k] == es[i] && k == i;
      }
    }
  }
}
