/** What the address summaries say, in terms of the blocks of the chain alone. */
module SummaryMeaning {
  import opened Chain
  import opened History
  import opened Balance
  import opened Statistics
  import opened Amounts
  import opened TxStore
  import opened HistStore
  import opened Scan
  import opened Summaries
  import opened RowMeaning

  /** The rows are those of the chain's history. */
  ghost predicate RowsOfChain(c: seq<Block>, unspendables: bool, all: set<Row>) {
    forall r :: r in all <==> H(r) in HistDb(c, unspendables)
  }

  // ----- the value of a summary

  /** What the outputs of a transaction pay to the scripts, by output. */
  ghost predicate PaidTo(tx: Tx, unspendables: bool, scripts: seq<Script>, m: map<nat, nat>) {
    && (forall v: nat :: v in m <==>
          v < |tx.outputs| && tx.outputs[v].script in scripts && (tx.outputs[v].spendable || unspendables))
    && (forall v: nat :: v in m && v < |tx.outputs| ==> m[v] == tx.outputs[v].value)
  }

  /** The input spends an output that paid this to one of the scripts. */
  ghost predicate SpendsFrom(c: seq<Block>, tx: Tx, scripts: seq<Script>, v: nat, value: nat) {
    && v < |tx.inputs| && tx.inputs[v] != OutPoint(0, 0xFFFF_FFFF)
    && exists s :: s in scripts && HasOutput(c, tx.inputs[v], s, value)
  }

  /** What the outputs that a transaction spends had paid to the scripts, by input. */
  ghost predicate SpentFrom(c: seq<Block>, tx: Tx, scripts: seq<Script>, m: map<nat, nat>) {
    && (forall v: nat :: v in m <==> exists value: nat :: SpendsFrom(c, tx, scripts, v, value))
    && (forall v: nat, value: nat :: SpendsFrom(c, tx, scripts, v, value) ==> v in m && m[v] == value)
  }

  /** Rows of one kind, one to an index. */
  ghost predicate OneKind(rows: set<Row>, funding: bool, m: map<nat, nat>) {
    && (forall r :: r in rows ==>
          r.info.Funding? == funding && r.info.Index() in m && m[r.info.Index()] == r.info.value)
    && (forall v :: v in m ==> exists r :: r in rows && r.info.Index() == v)
    && (forall r, q :: r in rows && q in rows && r.info.Index() == q.info.Index() ==> r == q)
  }

  lemma {:induction false} KindSum(rows: set<Row>, funding: bool, m: map<nat, nat>)
    requires OneKind(rows, funding, m)
    ensures if funding then Sum(rows, true) == SumOf(m) else Sum(rows, true) + SumOf(m) == 0
    ensures Sum(rows, false) == SumOf(m)
    decreases rows
  {
    hide Sum, SumOf;
    if rows == {} {
      assert m == map[];
      NoSums();
    } else {
      var r :| r in rows;
      var v := r.info.Index();
      SumRemove(rows, r, true);
      SumRemove(rows, r, false);
      SumOfRemove(m, v);
      KindLess(rows, funding, m, r);
      KindSum(rows - {r}, funding, m - {v});
    }
  }

  lemma {:induction false} NoSums()
    ensures Sum({}, true) == 0 && Sum({}, false) == 0 && SumOf<nat>(map[]) == 0
  {
  }

  lemma {:induction false} KindLess(rows: set<Row>, funding: bool, m: map<nat, nat>, r: Row)
    requires OneKind(rows, funding, m) && r in rows
    ensures OneKind(rows - {r}, funding, m - {r.info.Index()})
  {
    forall v | v in m - {r.info.Index()}
      ensures exists q :: q in rows - {r} && q.info.Index() == v
    {
      var q :| q in rows && q.info.Index() == v;
      assert q in rows - {r};
    }
  }

  lemma {:induction false} SumJoin(a: set<Row>, b: set<Row>, signed: bool)
    requires a !! b
    ensures Sum(a + b, signed) == Sum(a, signed) + Sum(b, signed)
    decreases b
  {
    hide Sum, Weight;
    if b == {} {
      NoSums();
      assert a + b == a;
    } else {
      var r :| r in b;
      SumRemove(b, r, signed);
      SumRemove(a + b, r, signed);
      SumJoin(a, b - {r}, signed);
      assert a + b - {r} == a + (b - {r});
    }
  }

  /** A row of a transaction stands where the transaction does. */
  lemma {:induction false} RowPlace(c: seq<Block>, unspendables: bool, r: Row, h: nat, i: nat)
    requires ValidChain(c) && H(r) in HistDb(c, unspendables)
    requires h < |c| && i < |c[h].txs| && c[h].txs[i].txid == r.info.txid
    ensures r.height == h && r.pos == i
  {
    hide HistDb, Outs, Flatten, ValidTxs;
    var g, j, k := RowSource(c, unspendables, r);
    OnePlace(c, g, j, h, i);
    assert j < 0x1_0000;
  }

  /** The rows of a transaction that a group holds: all of those of its scripts. */
  ghost predicate WholeTx(c: seq<Block>, unspendables: bool, scripts: seq<Script>, h: nat, i: nat, rows: set<Row>)
    requires h < |c| && i < |c[h].txs|
  {
    forall r :: r in rows <==>
                  H(r) in HistDb(c, unspendables) && r.script in scripts && r.info.txid == c[h].txs[i].txid
  }

  function RowFor(tx: Tx, h: nat, i: nat, v: nat): (r: Row)
    requires v < |tx.outputs|
    ensures r.info.Funding? && r.info.Index() == v && r.info.txid == tx.txid
  {
    Row(tx.outputs[v].script, h, i, Funding(tx.txid, v, tx.outputs[v].value))
  }

  lemma {:induction false} FundingRowIs(c: seq<Block>, unspendables: bool, scripts: seq<Script>, h: nat, i: nat, r: Row,
                                        m: map<nat, nat>)
    requires ValidChain(c) && h < |c| && i < |c[h].txs| && PaidTo(c[h].txs[i], unspendables, scripts, m)
    requires H(r) in HistDb(c, unspendables) && r.script in scripts && r.info.txid == c[h].txs[i].txid
    requires r.info.Funding?
    ensures r.info.vout < |c[h].txs[i].outputs| && r == RowFor(c[h].txs[i], h, i, r.info.vout)
    ensures r.info.vout in m && m[r.info.vout] == r.info.value
  {
    hide ValidChain, HistDb;
    RowPlace(c, unspendables, r, h, i);
    FundingRows(c, unspendables, r.script, h, i, r.info.txid, r.info.vout, r.info.value);
  }

  lemma {:induction false} RowForIn(c: seq<Block>, unspendables: bool, scripts: seq<Script>, h: nat, i: nat, v: nat,
                                    m: map<nat, nat>)
    requires ValidChain(c) && h < |c| && i < |c[h].txs| && PaidTo(c[h].txs[i], unspendables, scripts, m) && v in m
    ensures v < |c[h].txs[i].outputs|
    ensures var r := RowFor(c[h].txs[i], h, i, v); H(r) in HistDb(c, unspendables) && r.script in scripts
  {
    hide ValidChain, HistDb;
    var tx := c[h].txs[i];
    FundingRows(c, unspendables, tx.outputs[v].script, h, i, tx.txid, v, tx.outputs[v].value);
  }

  lemma {:induction false} FundingKind(c: seq<Block>, unspendables: bool, scripts: seq<Script>, h: nat, i: nat,
                                       rows: set<Row>, m: map<nat, nat>)
    requires ValidChain(c) && h < |c| && i < |c[h].txs| && WholeTx(c, unspendables, scripts, h, i, rows)
    requires PaidTo(c[h].txs[i], unspendables, scripts, m)
    ensures OneKind(set r | r in rows && r.info.Funding?, true, m)
  {
    hide ValidChain, HistDb, PaidTo, RowFor;
    var tx, fund := c[h].txs[i], set r | r in rows && r.info.Funding?;
    forall r | r in fund
      ensures r.info.Funding? && r.info.Index() in m && m[r.info.Index()] == r.info.value
    {
      FundingRowIs(c, unspendables, scripts, h, i, r, m);
    }
    forall v | v in m
      ensures exists r :: r in fund && r.info.Index() == v
    {
      RowForIn(c, unspendables, scripts, h, i, v, m);
      assert RowFor(tx, h, i, v) in fund;
    }
    forall r, q | r in fund && q in fund && r.info.Index() == q.info.Index()
      ensures r == q
    {
      FundingRowIs(c, unspendables, scripts, h, i, r, m);
      FundingRowIs(c, unspendables, scripts, h, i, q, m);
    }
  }

  lemma {:induction false} SpendingKind(c: seq<Block>, unspendables: bool, scripts: seq<Script>, h: nat, i: nat,
                                        rows: set<Row>, m: map<nat, nat>)
    requires ValidChain(c) && h < |c| && i < |c[h].txs| && WholeTx(c, unspendables, scripts, h, i, rows)
    requires SpentFrom(c, c[h].txs[i], scripts, m)
    ensures OneKind(set r | r in rows && r.info.Spending?, false, m)
  {
    hide ValidChain, HistDb, HasOutput;
    var tx, spend := c[h].txs[i], set r | r in rows && r.info.Spending?;
    forall r | r in spend
      ensures r.height == h && r.pos == i && r.info.vin in m && m[r.info.vin] == r.info.value
      ensures r.info.vin < |tx.inputs| && r.info.prev == tx.inputs[r.info.vin]
      ensures HasOutput(c, tx.inputs[r.info.vin], r.script, r.info.value)
    {
      RowPlace(c, unspendables, r, h, i);
      SpendingRows(c, unspendables, r.script, h, i, r.info.txid, r.info.vin, r.info.prev, r.info.value);
      assert SpendsFrom(c, tx, scripts, r.info.vin, r.info.value);
    }
    forall v | v in m
      ensures exists r :: r in spend && r.info.Index() == v
    {
      var value: nat :| SpendsFrom(c, tx, scripts, v, value);
      var s :| s in scripts && HasOutput(c, tx.inputs[v], s, value);
      SpendingRows(c, unspendables, s, h, i, tx.txid, v, tx.inputs[v], value);
      assert Row(s, h, i, Spending(tx.txid, v, tx.inputs[v], value)) in spend;
    }
    forall r, q | r in spend && q in spend && r.info.Index() == q.info.Index()
      ensures r == q
    {
      OneOutput(c, tx.inputs[r.info.vin], r.script, r.info.value, q.script, q.info.value);
    }
  }

  lemma {:induction false} TxSum(c: seq<Block>, unspendables: bool, scripts: seq<Script>, h: nat, i: nat,
                                 rows: set<Row>, paid: map<nat, nat>, spent: map<nat, nat>)
    requires ValidChain(c) && h < |c| && i < |c[h].txs| && WholeTx(c, unspendables, scripts, h, i, rows)
    requires PaidTo(c[h].txs[i], unspendables, scripts, paid) && SpentFrom(c, c[h].txs[i], scripts, spent)
    ensures Sum(rows, true) == SumOf(paid) - SumOf(spent) && Sum(rows, false) == SumOf(paid) + SumOf(spent)
  {
    hide *;
    var fund, spend := set r | r in rows && r.info.Funding?, set r | r in rows && r.info.Spending?;
    FundingKind(c, unspendables, scripts, h, i, rows, paid);
    SpendingKind(c, unspendables, scripts, h, i, rows, spent);
    KindSum(fund, true, paid);
    KindSum(spend, false, spent);
    SumJoin(fund, spend, true);
    SumJoin(fund, spend, false);
    assert rows == fund + spend;
  }

  /** A group that holds one row of a transaction holds all that belong to its scripts. */
  lemma {:induction false} GroupWhole(c: seq<Block>, unspendables: bool, all: set<Row>, scripts: seq<Script>,
                                      start: Option<nat>, h: nat, i: nat)
    requires ValidChain(c) && RowsOfChain(c, unspendables, all) && h < |c| && i < |c[h].txs|
    requires exists r :: r in Group(all, scripts, start) && r.info.txid == c[h].txs[i].txid
    ensures WholeTx(c, unspendables, scripts, h, i, OfTxid(Group(all, scripts, start), c[h].txs[i].txid))
  {
    hide ValidChain, HistDb;
    var q :| q in Group(all, scripts, start) && q.info.txid == c[h].txs[i].txid;
    RowPlace(c, unspendables, q, h, i);
    forall r | H(r) in HistDb(c, unspendables) && r.info.txid == c[h].txs[i].txid
      ensures InRange(r, start)
    {
      RowPlace(c, unspendables, r, h, i);
    }
  }

  /** A summary's value is what the outputs of its transaction pay to the listed scripts, less what
      the outputs that it spends had paid to them, whenever these amounts together fit an i64. */
  lemma {:induction false} SummaryValue(c: seq<Block>, unspendables: bool, confirming: map<Txid, BlockId>,
                                        all: set<Row>, scripts: seq<Script>, lastSeen: Option<Txid>,
                                        start: Option<nat>, limit: nat, out: seq<Summary>, x: Summary, h: nat, i: nat,
                                        paid: map<nat, nat>, spent: map<nat, nat>)
    requires ValidChain(c) && RowsOfChain(c, unspendables, all)
    requires Summarises(Group(all, scripts, start), confirming, lastSeen, limit, out) && x in out
    requires h < |c| && i < |c[h].txs| && c[h].txs[i].txid == x.txid
    requires PaidTo(c[h].txs[i], unspendables, scripts, paid) && SpentFrom(c, c[h].txs[i], scripts, spent)
    ensures SumOf(paid) + SumOf(spent) <= 0x7FFF_FFFF_FFFF_FFFF ==> x.value == SumOf(paid) - SumOf(spent)
  {
    hide ValidChain, RowsOfChain, HistDb, PaidTo, SpentFrom, Sum, SumOf, Group, InOrder, Older, BelowCursor, WholeTx;
    assert Due(Group(all, scripts, start), confirming, lastSeen, x.txid);
    GroupWhole(c, unspendables, all, scripts, start, h, i);
    TxSum(c, unspendables, scripts, h, i, OfTxid(Group(all, scripts, start), x.txid), paid, spent);
  }

  // ----- all summaries of a script

  ghost function SumValues(out: seq<Summary>): int {
    if out == [] then 0 else SumValues(out[..|out| - 1]) + out[|out| - 1].value
  }

  lemma {:induction false} ByTransaction(rows: set<Row>, out: seq<Summary>)
    requires forall i, j :: 0 <= i < j < |out| ==> out[i].txid != out[j].txid
    requires forall i :: 0 <= i < |out| ==> out[i].value == Sum(OfTxid(rows, out[i].txid), true)
    requires forall r :: r in rows ==> Has(out, r.info.txid)
    ensures SumValues(out) == Sum(rows, true)
    decreases |out|
  {
    hide Sum;
    if out == [] {
      assert rows == {};
      NoSums();
    } else {
      var n := |out| - 1;
      var x, init := out[n], out[..n];
      var mine := OfTxid(rows, x.txid);
      var rest := rows - mine;
      forall i | 0 <= i < n
        ensures OfTxid(rest, out[i].txid) == OfTxid(rows, out[i].txid)
      {
      }
      forall r | r in rest
        ensures Has(init, r.info.txid)
      {
        var i :| 0 <= i < |out| && out[i].txid == r.info.txid;
        assert init[i].txid == r.info.txid;
      }
      ByTransaction(rest, init);
      SumJoin(rest, mine, true);
      assert rows == rest + mine;
    }
  }

  function RowsIn(es: seq<Entry>): set<Row> {
    set e | e in es :: e.row
  }

  lemma {:induction false} EntriesSum(es: seq<Entry>)
    requires Sorted(es)
    ensures Sum(RowsIn(es), true) == Counts(es).fundedSum - Counts(es).spentSum
  {
    hide Sum, RowLess;
    if es == [] {
      NoSums();
      assert RowsIn(es) == {};
    } else {
      var n := |es| - 1;
      EntriesSum(es[..n]);
      LastIsNew(es);
      SumRemove(RowsIn(es), es[n].row, true);
      assert Counts(es) == Count(Counts(es[..n]), es[n].row.info);
    }
  }

  lemma {:induction false} LastIsNew(es: seq<Entry>)
    requires Sorted(es) && es != []
    ensures es[|es| - 1].row in RowsIn(es) && RowsIn(es) - {es[|es| - 1].row} == RowsIn(es[..|es| - 1])
  {
    var n := |es| - 1;
    assert es == es[..n] + [es[n]];
    forall i | 0 <= i < n
      ensures es[i].row != es[n].row
    {
      assert RowLess(es[i].row, es[n].row);
    }
  }

  /** Without a cursor, when every transaction is listed and none moves more than an i64 holds, the
      values of the summaries of one script add up to what the script has unspent. */
  lemma {:induction false} ValuesAddUp(c: seq<Block>, unspendables: bool, confirming: map<Txid, BlockId>, all: set<Row>,
                                       s: Script, limit: nat, out: seq<Summary>)
    requires ValidChain(c) && RowsOfChain(c, unspendables, all)
    requires Summarises(Group(all, [s], None), confirming, None, limit, out)
    requires forall r :: r in Group(all, [s], None) ==> Has(out, r.info.txid)
    requires forall t :: Sum(OfTxid(Group(all, [s], None), t), false) <= 0x7FFF_FFFF_FFFF_FFFF
    ensures SumValues(out) == Total(Unspents(c, unspendables, s))
  {
    hide ValidChain, RowsOfChain, HistDb, Sum, Total, Unspents, Counts, TxidsOf, ChainEntries, Group, InOrder, Older;
    var group := Group(all, [s], None);
    forall i | 0 <= i < |out|
      ensures out[i].value == Sum(OfTxid(group, out[i].txid), true)
    {
      assert Tells(group, confirming, out[i]);
    }
    ByTransaction(group, out);
    GroupIsHistory(c, unspendables, all, s);
    EntriesInOrder(c, unspendables, s);
    EntriesSum(ChainEntries(c, unspendables, s));
    Conservation(c, unspendables, s);
  }

  lemma {:induction false} EntriesInOrder(c: seq<Block>, unspendables: bool, s: Script)
    requires ValidChain(c)
    ensures Sorted(ChainEntries(c, unspendables, s))
  {
    ChainOrdered(c);
    EntriesSorted(Flatten(c), unspendables, s);
  }

  lemma {:induction false} GroupIsHistory(c: seq<Block>, unspendables: bool, all: set<Row>, s: Script)
    requires ValidChain(c) && RowsOfChain(c, unspendables, all)
    ensures Group(all, [s], None) == RowsIn(ChainEntries(c, unspendables, s))
  {
    hide HistDb, ChainEntries, ValidTxs, Flatten;
    forall r
      ensures r in Group(all, [s], None) <==> r in RowsIn(ChainEntries(c, unspendables, s))
    {
      if r in Group(all, [s], None) {
        RowHasEntry(c, unspendables, r);
      }
      if r in RowsIn(ChainEntries(c, unspendables, s)) {
        var e :| e in ChainEntries(c, unspendables, s) && e.row == r;
        var _ := EntryFacts(c, unspendables, s, e);
        EntryHasRow(c, unspendables, r, e.at);
      }
    }
  }

  /** With the chain's confirming blocks, and fewer summaries than the limit, every transaction is
      listed. */
  lemma {:induction false} AllListed(c: seq<Block>, unspendables: bool, confirming: map<Txid, BlockId>, all: set<Row>,
                                     scripts: seq<Script>, start: Option<nat>, limit: nat, out: seq<Summary>)
    requires ValidChain(c) && ConfirmingOf(c, confirming) && RowsOfChain(c, unspendables, all)
    requires Summarises(Group(all, scripts, start), confirming, None, limit, out) && |out| < limit
    ensures forall r :: r in Group(all, scripts, start) ==> Has(out, r.info.txid)
  {
    hide ValidChain, ConfirmingOf, HistDb, Tells, InOrder, Older, InRange;
    forall r | r in Group(all, scripts, start)
      ensures Has(out, r.info.txid)
    {
      RowIsConfirmed(c, unspendables, confirming, r);
      assert Due(Group(all, scripts, start), confirming, None, r.info.txid);
    }
  }

  // ----- the order of the summaries

  /** The summaries come newest first: by block, and within a block by position. */
  lemma {:induction false} NewestFirst(c: seq<Block>, unspendables: bool, confirming: map<Txid, BlockId>, all: set<Row>,
                                       scripts: seq<Script>, lastSeen: Option<Txid>, start: Option<nat>, limit: nat,
                                       out: seq<Summary>, i: nat, j: nat)
    requires ValidChain(c) && ConfirmingOf(c, confirming) && RowsOfChain(c, unspendables, all)
    requires Summarises(Group(all, scripts, start), confirming, lastSeen, limit, out) && i < j < |out|
    ensures out[j].height < out[i].height || (out[j].height == out[i].height && out[j].pos < out[i].pos)
    ensures Older(Group(all, scripts, start), out[j].txid, out[i].txid)
  {
    hide ValidChain, ConfirmingOf, HistDb, Due, Tells, InRange;
    GroupStands(c, unspendables, confirming, all, scripts, start, lastSeen, limit, out);
    var x, y := out[i], out[j];
    assert Stands(c, x) && Stands(c, y);
    forall a, b | && a in Group(all, scripts, start) && b in Group(all, scripts, start)
                  && a.info.txid == y.txid && b.info.txid == x.txid
      ensures Lower(a, b)
    {
      RowPlace(c, unspendables, a, y.height, y.pos);
      RowPlace(c, unspendables, b, x.height, x.pos);
    }
  }
}
