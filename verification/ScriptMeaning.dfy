/** What the unspent outputs and the statistics of a script are, in terms of the blocks of the
    chain alone. */
module ScriptMeaning {
  import opened Chain
  import opened History
  import opened Balance
  import opened Statistics
  import opened Amounts
  import opened HistStore
  import opened RowMeaning

  /** The transaction at a place of the chain pays the output to the script, and the output is
      spendable, or unspendable ones are indexed too. */
  ghost predicate PaysAt(c: seq<Block>, h: nat, i: nat, unspendables: bool, s: Script, o: OutPoint) {
    && h < |c| && i < |c[h].txs| && c[h].txs[i].txid == o.txid && o.vout < |c[h].txs[i].outputs|
    && c[h].txs[i].outputs[o.vout].script == s && (c[h].txs[i].outputs[o.vout].spendable || unspendables)
  }

  ghost predicate Pays(c: seq<Block>, unspendables: bool, s: Script, o: OutPoint) {
    exists h: nat, i: nat :: PaysAt(c, h, i, unspendables, s, o)
  }

  /** Some input of the chain spends the output. */
  ghost predicate Spent(c: seq<Block>, o: OutPoint) {
    exists h, i :: 0 <= h < |c| && 0 <= i < |c[h].txs| && o in c[h].txs[i].inputs
  }

  lemma {:induction false} SpentIs(c: seq<Block>, o: OutPoint)
    ensures Spent(c, o) <==> Spends(Flatten(c), o)
  {
    hide Flatten;
    FlattenPlaces(c);
    if Spent(c, o) {
      var h, i :| 0 <= h < |c| && 0 <= i < |c[h].txs| && o in c[h].txs[i].inputs;
      assert Placed(IdOf(c[h], h), i, c[h].txs[i]) in Flatten(c);
    }
    if Spends(Flatten(c), o) {
      var q :| q in Flatten(c) && o in q.tx.inputs;
      assert o in c[q.at.height].txs[q.pos].inputs;
    }
  }

  // ----- unspent outputs

  /** The output as the transaction at a place of the chain made it. */
  ghost function CoinAt(c: seq<Block>, h: nat, i: nat, o: OutPoint): Unspent
    requires h < |c| && i < |c[h].txs| && o.vout < |c[h].txs[i].outputs|
  {
    Unspent(BlockId(h, c[h].header.hash, c[h].header.time), c[h].txs[i].outputs[o.vout].value)
  }

  /** A script's unspent outputs are those that the chain pays to it and does not spend, with the
      block and the value of the paying transaction. */
  lemma {:induction false} UnspentMeaning(c: seq<Block>, unspendables: bool, s: Script, o: OutPoint)
    requires ValidChain(c)
    ensures o in Unspents(c, unspendables, s) <==> Pays(c, unspendables, s, o) && !Spent(c, o)
    ensures forall h: nat, i: nat :: o in Unspents(c, unspendables, s) && PaysAt(c, h, i, unspendables, s, o) ==>
                                       Unspents(c, unspendables, s)[o] == CoinAt(c, h, i, o)
  {
    hide Unspents, ValidChain, Spent, CoinAt;
    if o in Unspents(c, unspendables, s) {
      var h, i := UnspentIsPaid(c, unspendables, s, o);
    }
    forall h: nat, i: nat | PaysAt(c, h, i, unspendables, s, o)
      ensures !Spent(c, o) <==> o in Unspents(c, unspendables, s)
      ensures o in Unspents(c, unspendables, s) ==> Unspents(c, unspendables, s)[o] == CoinAt(c, h, i, o)
    {
      PaidIsUnspent(c, unspendables, s, o, h, i);
    }
  }

  lemma {:induction false} UnspentIsPaid(c: seq<Block>, unspendables: bool, s: Script, o: OutPoint)
    returns (h: nat, i: nat)
    requires ValidChain(c) && o in Unspents(c, unspendables, s)
    ensures PaysAt(c, h, i, unspendables, s, o)
  {
    hide Flatten, Ledger, ValidTxs, Spends;
    var fs := Flatten(c);
    FlattenPlaces(c);
    LedgerOrigin(fs);
    LedgerMeaning(fs, o);
    var p :| p in fs && p.tx.txid == o.txid && o.vout < |p.tx.outputs|;
    LedgerWorth(fs, o, p);
    h, i := p.at.height, p.pos;
  }

  lemma {:induction false} PaidIsUnspent(c: seq<Block>, unspendables: bool, s: Script, o: OutPoint, h: nat, i: nat)
    requires ValidChain(c) && PaysAt(c, h, i, unspendables, s, o)
    ensures o in Unspents(c, unspendables, s) <==> !Spent(c, o)
    ensures o in Unspents(c, unspendables, s) ==> Unspents(c, unspendables, s)[o] == CoinAt(c, h, i, o)
  {
    hide Flatten, Ledger, ValidTxs, Spends, Spent;
    SpentIs(c, o);
    PaidCoin(c, h, i, o);
    var fs := Flatten(c);
    LedgerMeaning(fs, o);
    if o in Ledger(fs) {
      LedgerWorth(fs, o, Placed(IdOf(c[h], h), i, c[h].txs[i]));
    }
  }

  lemma {:induction false} PaidCoin(c: seq<Block>, h: nat, i: nat, o: OutPoint)
    requires ValidChain(c) && h < |c| && i < |c[h].txs| && c[h].txs[i].txid == o.txid && o.vout < |c[h].txs[i].outputs|
    ensures Placed(IdOf(c[h], h), i, c[h].txs[i]) in Flatten(c) && HasPrevout(o)
    ensures !Spends(Flatten(c), o) ==> o in Ledger(Flatten(c))
  {
    hide Flatten, Ledger, ValidTxs, Spends;
    FlattenPlaces(c);
    var p := Placed(IdOf(c[h], h), i, c[h].txs[i]);
    SomeOutputs(Flatten(c), p);
    LedgerMeaning(Flatten(c), o);
  }

  lemma {:induction false} SomeOutputs(fs: seq<Placed>, p: Placed)
    requires ValidTxs(fs) && p in fs
    ensures |p.tx.outputs| < U32
  {
    if p != fs[|fs| - 1] {
      SomeOutputs(fs[..|fs| - 1], p);
    }
  }

  // ----- statistics

  /** All outputs that the chain ever paid to the script. */
  ghost predicate IsPaid(c: seq<Block>, unspendables: bool, s: Script, paid: map<OutPoint, nat>) {
    && (forall o :: o in paid <==> Pays(c, unspendables, s, o))
    && (forall o, h: nat, i: nat :: PaysAt(c, h, i, unspendables, s, o) ==> paid[o] == CoinAt(c, h, i, o).value)
  }

  /** The same, transaction by transaction. */
  ghost function Paid(fs: seq<Placed>, unspendables: bool, s: Script): UtxoMap {
    if fs == [] then map[]
    else
      var p := fs[|fs| - 1];
      Paid(fs[..|fs| - 1], unspendables, s) + FundedBy(p, unspendables, s, |p.tx.outputs|)
  }

  /** The output is one of the transaction's that the script's history lists. */
  ghost predicate PaidBy(p: Placed, unspendables: bool, s: Script, o: OutPoint) {
    && p.tx.txid == o.txid && o.vout < |p.tx.outputs|
    && p.tx.outputs[o.vout].script == s && (p.tx.outputs[o.vout].spendable || unspendables)
  }

  lemma {:induction false} PaidAre(fs: seq<Placed>, unspendables: bool, s: Script, o: OutPoint)
    requires ValidTxs(fs)
    ensures o in Paid(fs, unspendables, s) <==> exists p :: p in fs && PaidBy(p, unspendables, s, o)
    ensures forall p :: p in fs && PaidBy(p, unspendables, s, o) ==>
                          Paid(fs, unspendables, s)[o].value == p.tx.outputs[o.vout].value
  {
    if fs != [] {
      hide FundedBy, FundsScript;
      var init, q := fs[..|fs| - 1], fs[|fs| - 1];
      PaidAre(init, unspendables, s, o);
      FundedHere(q, unspendables, s, o);
      UniqueTxids(fs);
      assert forall p :: p in fs <==> p in init || p == q;
    }
  }

  lemma {:induction false} FundedHere(p: Placed, unspendables: bool, s: Script, o: OutPoint)
    ensures var m := FundedBy(p, unspendables, s, |p.tx.outputs|);
            && (o in m <==> PaidBy(p, unspendables, s, o))
            && (o in m ==> m[o].value == p.tx.outputs[o.vout].value)
  {
    hide FundedBy;
    FundedByIs(p, unspendables, s, |p.tx.outputs|);
  }

  lemma {:induction false} PaidIs(c: seq<Block>, unspendables: bool, s: Script)
    requires ValidChain(c)
    ensures IsPaid(c, unspendables, s, Values(Paid(Flatten(c), unspendables, s)))
  {
    hide Flatten, ValidTxs, Paid;
    var paid := Values(Paid(Flatten(c), unspendables, s));
    forall o
      ensures o in paid <==> Pays(c, unspendables, s, o)
    {
      PaidAre(Flatten(c), unspendables, s, o);
      PaidPlaces(c, unspendables, s, o);
    }
    forall o, h: nat, i: nat | PaysAt(c, h, i, unspendables, s, o)
      ensures paid[o] == CoinAt(c, h, i, o).value
    {
      PaidAre(Flatten(c), unspendables, s, o);
      PaidPlace(c, unspendables, s, o, h, i);
    }
  }

  lemma {:induction false} PaidPlaces(c: seq<Block>, unspendables: bool, s: Script, o: OutPoint)
    ensures Pays(c, unspendables, s, o) <==> exists p :: p in Flatten(c) && PaidBy(p, unspendables, s, o)
  {
    hide Flatten;
    FlattenPlaces(c);
    if Pays(c, unspendables, s, o) {
      var h: nat, i: nat :| PaysAt(c, h, i, unspendables, s, o);
      PaidPlace(c, unspendables, s, o, h, i);
    }
    if p :| p in Flatten(c) && PaidBy(p, unspendables, s, o) {
      assert PaysAt(c, p.at.height, p.pos, unspendables, s, o);
    }
  }

  lemma {:induction false} PaidPlace(c: seq<Block>, unspendables: bool, s: Script, o: OutPoint, h: nat, i: nat)
    requires PaysAt(c, h, i, unspendables, s, o)
    ensures var p := Placed(IdOf(c[h], h), i, c[h].txs[i]); p in Flatten(c) && PaidBy(p, unspendables, s, o)
  {
    hide Flatten;
    FlattenPlaces(c);
  }

  lemma {:induction false} SpendCounts(p: Placed, outs: map<OutPoint, TxOut>, s: Script, n: nat)
    requires n <= |p.tx.inputs|
    ensures var st := Counts(SpendEntries(p, outs, s, n)); st.fundedCount == 0 && st.fundedSum == 0
  {
    if n > 0 {
      SpendCounts(p, outs, s, n - 1);
      var es := SpendEntries(p, outs, s, n - 1);
      if SpendsScript(p, outs, s, n - 1) {
        OneMore(es, Entry(SpendRow(p, n - 1, outs[p.tx.inputs[n - 1]]), p.at));
      } else {
        assert SpendEntries(p, outs, s, n) == es + [] == es;
      }
    }
  }

  lemma {:induction false} OneMore(es: seq<Entry>, e: Entry)
    ensures Counts(es + [e]) == Count(Counts(es), e.row.info)
  {
    assert (es + [e])[..|es|] == es;
  }

  lemma {:induction false} FundCounts(p: Placed, unspendables: bool, s: Script, n: nat)
    requires n <= |p.tx.outputs|
    ensures var st, m := Counts(FundEntries(p, unspendables, s, n)), FundedBy(p, unspendables, s, n);
            st.fundedCount == |m| && st.fundedSum == Total(m)
  {
    hide Total;
    if n == 0 {
      NoTotal();
    } else {
      FundCounts(p, unspendables, s, n - 1);
      var es := FundEntries(p, unspendables, s, n - 1);
      if FundsScript(p, unspendables, s, n - 1) {
        OneMore(es, Entry(FundRow(p, n - 1), p.at));
        FundedByIs(p, unspendables, s, n - 1);
        var coin := Unspent(p.at, p.tx.outputs[n - 1].value);
        TotalMore(FundedBy(p, unspendables, s, n - 1), OutPoint(p.tx.txid, n - 1), coin);
      } else {
        assert FundEntries(p, unspendables, s, n) == es + [] == es;
      }
    }
  }

  lemma {:induction false} NoTotal()
    ensures Total(map[]) == 0
  {
    assert Values(map[]) == map[];
  }

  lemma {:induction false} TotalMore(m: UtxoMap, o: OutPoint, u: Unspent)
    requires o !in m
    ensures Total(m[o := u]) == Total(m) + u.value && |m[o := u]| == |m| + 1
  {
    hide Total;
    TotalRemove(m[o := u], o);
    assert m[o := u] - {o} == m;
  }

  /** What the funding entries add up to is what was ever paid. */
  lemma {:induction false} FundedIsPaid(fs: seq<Placed>, unspendables: bool, s: Script)
    requires ValidTxs(fs)
    ensures var st, paid := Counts(Entries(fs, unspendables, s)), Paid(fs, unspendables, s);
            st.fundedCount == |paid| && st.fundedSum == Total(paid)
  {
    hide Total, Counts, FundedBy, SpendEntries, FundEntries;
    if fs == [] {
      NoTotal();
      NoCounts();
    } else {
      var init, p := fs[..|fs| - 1], fs[|fs| - 1];
      FundedIsPaid(init, unspendables, s);
      var a, b := SpendEntries(p, Outs(init), s, |p.tx.inputs|), FundEntries(p, unspendables, s, |p.tx.outputs|);
      SpendCounts(p, Outs(init), s, |p.tx.inputs|);
      FundCounts(p, unspendables, s, |p.tx.outputs|);
      CountsAppend(a, b);
      CountsAppend(Entries(init, unspendables, s), a + b);
      PaidFresh(init, p, unspendables, s);
      TotalJoin(Paid(init, unspendables, s), FundedBy(p, unspendables, s, |p.tx.outputs|));
      CountJoin(Paid(init, unspendables, s), FundedBy(p, unspendables, s, |p.tx.outputs|));
    }
  }

  lemma {:induction false} NoCounts()
    ensures Counts([]) == ScriptStats(0, 0, 0, 0, 0)
  {
  }

  lemma {:induction false} PaidFresh(fs: seq<Placed>, p: Placed, unspendables: bool, s: Script)
    requires ValidTxs(fs) && ValidNext(fs, p.tx)
    ensures Paid(fs, unspendables, s).Keys !! FundedBy(p, unspendables, s, |p.tx.outputs|).Keys
  {
    hide Paid, FundedBy, ValidTxs;
    forall o | o in Paid(fs, unspendables, s)
      ensures o !in FundedBy(p, unspendables, s, |p.tx.outputs|)
    {
      PaidAre(fs, unspendables, s, o);
      FundedHere(p, unspendables, s, o);
    }
  }

  /** The statistics of a script, from the blocks: how many outputs were ever paid to it and what
      they are worth, and how many of these were spent and what those are worth. */
  lemma {:induction false} StatsMeaning(c: seq<Block>, unspendables: bool, s: Script, paid: map<OutPoint, nat>)
    requires ValidChain(c) && IsPaid(c, unspendables, s, paid)
    ensures var st := StatsOf(ChainEntries(c, unspendables, s));
            var spent := map o | o in paid && Spent(c, o) :: paid[o];
            && st.fundedCount == |paid| && st.fundedSum == SumOf(paid)
            && st.spentCount == |spent| && st.spentSum == SumOf(spent)
  {
    hide Flatten, ValidTxs, Paid, Counts, TxidsOf, SumOf, Unspents, Spent, Pays, PaysAt;
    var all, left := Values(Paid(Flatten(c), unspendables, s)), Values(Unspents(c, unspendables, s));
    PaidIs(c, unspendables, s);
    SamePaid(c, unspendables, s, paid, all);
    FundedIsPaid(Flatten(c), unspendables, s);
    Conservation(c, unspendables, s);
    var spent := map o | o in paid && Spent(c, o) :: paid[o];
    LeftIs(c, unspendables, s, paid);
    SumOfJoin(left, spent);
    CountJoin(left, spent);
    SameSize(Paid(Flatten(c), unspendables, s));
    SameSize(Unspents(c, unspendables, s));
  }

  lemma {:induction false} SameSize(m: UtxoMap)
    ensures |Values(m)| == |m|
  {
    assert Values(m).Keys == m.Keys;
  }

  lemma {:induction false} SamePaid(c: seq<Block>, unspendables: bool, s: Script, a: map<OutPoint, nat>,
                                    b: map<OutPoint, nat>)
    requires IsPaid(c, unspendables, s, a) && IsPaid(c, unspendables, s, b)
    ensures a == b
  {
    hide PaysAt;
    forall o | o in a
      ensures o in b && a[o] == b[o]
    {
      var h: nat, i: nat :| PaysAt(c, h, i, unspendables, s, o);
    }
  }

  /** What was paid is what is left and what was spent. */
  lemma {:induction false} LeftIs(c: seq<Block>, unspendables: bool, s: Script, paid: map<OutPoint, nat>)
    requires ValidChain(c) && IsPaid(c, unspendables, s, paid)
    ensures var left, spent := Values(Unspents(c, unspendables, s)), map o | o in paid && Spent(c, o) :: paid[o];
            left.Keys !! spent.Keys && paid == left + spent
  {
    hide ValidChain, Unspents, Spent, PaysAt;
    forall o
      ensures o in Unspents(c, unspendables, s) <==> o in paid && !Spent(c, o)
      ensures o in Unspents(c, unspendables, s) ==> Unspents(c, unspendables, s)[o].value == paid[o]
    {
      UnspentMeaning(c, unspendables, s, o);
      if o in paid {
        var h: nat, i: nat :| PaysAt(c, h, i, unspendables, s, o);
      }
    }
  }

  // ----- transactions

  /** The transaction at a place of the chain has an output that the script's history lists, or
      spends one that paid to the script. */
  ghost predicate ConcernsAt(c: seq<Block>, h: nat, i: nat, unspendables: bool, s: Script)
    requires h < |c| && i < |c[h].txs|
  {
    || (exists v ::
          && 0 <= v < |c[h].txs[i].outputs| && c[h].txs[i].outputs[v].script == s
          && (c[h].txs[i].outputs[v].spendable || unspendables))
    || (exists v, value ::
          && 0 <= v < |c[h].txs[i].inputs| && c[h].txs[i].inputs[v] != OutPoint(0, 0xFFFF_FFFF)
          && HasOutput(c, c[h].txs[i].inputs[v], s, value))
  }

  ghost predicate Concerns(c: seq<Block>, unspendables: bool, s: Script, t: Txid) {
    exists h, i ::
      0 <= h < |c| && 0 <= i < |c[h].txs| && c[h].txs[i].txid == t && ConcernsAt(c, h, i, unspendables, s)
  }

  /** An entry of the history is of a transaction that concerns the script. */
  lemma {:induction false} EntryConcerns(c: seq<Block>, unspendables: bool, s: Script, e: Entry)
    requires ValidChain(c) && e in ChainEntries(c, unspendables, s)
    ensures Concerns(c, unspendables, s, e.row.info.txid)
  {
    hide ChainEntries, ValidChain, HistDb, HasOutput;
    var _ := EntryFacts(c, unspendables, s, e);
    EntryHasRow(c, unspendables, e.row, e.at);
    var h, i := e.row.height, e.row.pos;
    match e.row.info
    case Funding(t, v, value) =>
      FundingRows(c, unspendables, s, h, i, t, v, value);
      assert ConcernsAt(c, h, i, unspendables, s);
    case Spending(t, v, prev, value) =>
      SpendingRows(c, unspendables, s, h, i, t, v, prev, value);
      assert ConcernsAt(c, h, i, unspendables, s);
  }

  lemma {:induction false} ConcernsEntry(c: seq<Block>, unspendables: bool, s: Script, h: nat, i: nat)
    returns (e: Entry)
    requires ValidChain(c) && h < |c| && i < |c[h].txs| && ConcernsAt(c, h, i, unspendables, s)
    ensures e in ChainEntries(c, unspendables, s) && e.row.info.txid == c[h].txs[i].txid
  {
    hide ChainEntries, ValidChain, HistDb, HasOutput;
    var tx := c[h].txs[i];
    var info: Info;
    if v :| 0 <= v < |tx.outputs| && tx.outputs[v].script == s && (tx.outputs[v].spendable || unspendables) {
      info := Funding(tx.txid, v, tx.outputs[v].value);
      FundingRows(c, unspendables, s, h, i, tx.txid, v, tx.outputs[v].value);
    } else {
      var v, value :| && 0 <= v < |tx.inputs| && tx.inputs[v] != OutPoint(0, 0xFFFF_FFFF)
                      && HasOutput(c, tx.inputs[v], s, value);
      info := Spending(tx.txid, v, tx.inputs[v], value);
      SpendingRows(c, unspendables, s, h, i, tx.txid, v, tx.inputs[v], value);
    }
    RowHasEntry(c, unspendables, Row(s, h, i, info));
    e := Entry(Row(s, h, i, info), IdOf(c[h], h));
  }

  /** The transaction count is the number of transactions that concern the script. */
  lemma {:induction false} TxCountMeaning(c: seq<Block>, unspendables: bool, s: Script, txids: set<Txid>)
    requires ValidChain(c) && forall t :: t in txids <==> Concerns(c, unspendables, s, t)
    ensures StatsOf(ChainEntries(c, unspendables, s)).txCount == |txids|
  {
    hide ChainEntries, ValidChain, ConcernsAt, Counts, TxidsOf;
    var es := ChainEntries(c, unspendables, s);
    TxidsAre(es);
    forall t
      ensures t in TxidsOf(es) <==> t in txids
    {
      if t in TxidsOf(es) {
        var e :| e in es && e.row.info.txid == t;
        EntryConcerns(c, unspendables, s, e);
      }
      if t in txids {
        var h, i :|
          0 <= h < |c| && 0 <= i < |c[h].txs| && c[h].txs[i].txid == t && ConcernsAt(c, h, i, unspendables, s);
        var e := ConcernsEntry(c, unspendables, s, h, i);
      }
    }
    assert TxidsOf(es) == txids;
  }
}
