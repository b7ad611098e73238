/** Per-script statistics and their conservation law. */
module Statistics {
  import opened Chain
  import opened History
  import opened Balance
  import opened Amounts

  datatype ScriptStats = ScriptStats(
    txCount: nat, fundedCount: nat, spentCount: nat, fundedSum: nat, spentSum: nat)

  const NO_STATS := ScriptStats(0, 0, 0, 0, 0)

  predicate IsSane(st: ScriptStats) {
    && st.spentCount <= st.fundedCount
    && st.txCount <= st.spentCount + st.fundedCount
    && st.spentSum <= st.fundedSum
    && (st.fundedCount == st.spentCount) == (st.fundedSum == st.spentSum)
  }

  /** What one history entry adds, apart from the transaction count. */
  function Count(st: ScriptStats, info: Info): ScriptStats {
    if info.Funding?
    then st.(fundedCount := st.fundedCount + 1, fundedSum := st.fundedSum + info.value)
    else st.(spentCount := st.spentCount + 1, spentSum := st.spentSum + info.value)
  }

  function Plus(a: ScriptStats, b: ScriptStats): ScriptStats {
    ScriptStats(a.txCount + b.txCount, a.fundedCount + b.fundedCount, a.spentCount + b.spentCount,
                a.fundedSum + b.fundedSum, a.spentSum + b.spentSum)
  }

  function TxidsOf(es: seq<Entry>): set<Txid> {
    if es == [] then {} else TxidsOf(es[..|es| - 1]) + {es[|es| - 1].row.info.txid}
  }

  /** The statistics of a history: distinct transactions, and both sides counted and summed. */
  function StatsOf(es: seq<Entry>): ScriptStats {
    Counts(es).(txCount := |TxidsOf(es)|)
  }

  function Counts(es: seq<Entry>): ScriptStats {
    if es == [] then NO_STATS else Count(Counts(es[..|es| - 1]), es[|es| - 1].row.info)
  }

  lemma {:induction false} TxidsAre(es: seq<Entry>)
    ensures forall t :: t in TxidsOf(es) <==> exists e :: e in es && e.row.info.txid == t
  {
    if es != [] {
      var n := |es| - 1;
      TxidsAre(es[..n]);
      assert forall e :: e in es <==> e in es[..n] || e == es[n];
    }
  }

  lemma {:induction false} TxidsAppend(a: seq<Entry>, b: seq<Entry>)
    ensures TxidsOf(a + b) == TxidsOf(a) + TxidsOf(b)
  {
    if b == [] {
      assert a + b == a;
    } else {
      var c, n := a + b, |b| - 1;
      TxidsAppend(a, b[..n]);
      assert c[..|c| - 1] == a + b[..n] && c[|c| - 1] == b[n];
    }
  }

  lemma {:induction false} CountsAppend(a: seq<Entry>, b: seq<Entry>)
    ensures Counts(a + b) == Plus(Counts(a), Counts(b))
  {
    if b == [] {
      assert a + b == a;
    } else {
      var c, n := a + b, |b| - 1;
      CountsAppend(a, b[..n]);
      assert c[..|c| - 1] == a + b[..n] && c[|c| - 1] == b[n];
      assert Counts(c) == Count(Counts(a + b[..n]), b[n].row.info);
    }
  }

  lemma {:induction false} StatsAppend(a: seq<Entry>, b: seq<Entry>)
    requires TxidsOf(a) !! TxidsOf(b)
    ensures StatsOf(a + b) == Plus(StatsOf(a), StatsOf(b))
  {
    TxidsAppend(a, b);
    CardDisjoint(TxidsOf(a), TxidsOf(b));
    CountsAppend(a, b);
  }

  lemma {:induction false} CardDisjoint(x: set<Txid>, y: set<Txid>)
    requires x !! y
    ensures |x + y| == |x| + |y|
  {
  }

  /** A script's transactions below a height and from that height on are different ones. */
  lemma {:induction false} TxidsSplit(c: seq<Block>, n: nat, unspendables: bool, s: Script, a: seq<Entry>,
                                      b: seq<Entry>)
    requires ValidChain(c) && a + b == ChainEntries(c, unspendables, s)
    requires forall e :: e in a ==> e.row.height < n
    requires forall e :: e in b ==> e.row.height >= n
    ensures TxidsOf(a) !! TxidsOf(b)
  {
    UniqueTxids(Flatten(c));
    TxidsAre(a);
    TxidsAre(b);
    forall x, y | x in a && y in b
      ensures x.row.info.txid != y.row.info.txid
    {
      assert x in a + b && y in a + b;
      var p := EntryFacts(c, unspendables, s, x);
      var q := EntryFacts(c, unspendables, s, y);
    }
  }

  // ----- conservation

  function Values(m: UtxoMap): map<OutPoint, nat> {
    map o | o in m :: m[o].value
  }

  ghost function Total(m: UtxoMap): nat {
    SumOf(Values(m))
  }

  lemma {:induction false} TotalRemove(m: UtxoMap, o: OutPoint)
    requires o in m
    ensures Total(m) == m[o].value + Total(m - {o})
  {
    hide SumOf;
    SumOfRemove(Values(m), o);
    assert Values(m) - {o} == Values(m - {o});
  }

  lemma {:induction false} TotalJoin(a: UtxoMap, b: UtxoMap)
    requires a.Keys !! b.Keys
    ensures Total(a + b) == Total(a) + Total(b)
  {
    hide SumOf;
    SumOfJoin(Values(a), Values(b));
    assert Values(a + b) == Values(a) + Values(b);
  }

  /** An entry that a consistent history can continue with: it funds a new outpoint, or
      spends a present one at the value it was funded with. */
  predicate SoundStep(m: UtxoMap, e: Entry) {
    var o := e.row.info.FundedOutPoint();
    if e.row.info.Funding? then o !in m else o in m && m[o].value == e.row.info.value
  }

  predicate Sound(m: UtxoMap, es: seq<Entry>) {
    es == [] || (Sound(m, es[..|es| - 1]) && SoundStep(Fold(m, es[..|es| - 1]), es[|es| - 1]))
  }

  lemma {:induction false} SoundPush(m: UtxoMap, es: seq<Entry>, e: Entry)
    requires Sound(m, es) && SoundStep(Fold(m, es), e)
    ensures Sound(m, es + [e])
  {
    var c := es + [e];
    assert c[..|c| - 1] == es;
  }

  lemma {:induction false} SoundAppend(m: UtxoMap, a: seq<Entry>, b: seq<Entry>)
    requires Sound(m, a) && Sound(Fold(m, a), b)
    ensures Sound(m, a + b)
  {
    if b == [] {
      assert a + b == a;
    } else {
      var n := |b| - 1;
      SoundAppend(m, a, b[..n]);
      FoldAppend(m, a, b[..n]);
      assert (a + b)[..|a + b| - 1] == a + b[..n];
    }
  }

  lemma {:induction false} SpendSound(m: UtxoMap, p: Placed, outs: map<OutPoint, TxOut>, s: Script, n: nat)
    requires n <= |p.tx.inputs|
    requires forall i :: 0 <= i < |p.tx.inputs| && SpendsScript(p, outs, s, i) ==>
                           p.tx.inputs[i] in m && m[p.tx.inputs[i]].value == outs[p.tx.inputs[i]].value
    requires forall k, l :: 0 <= k < l < |p.tx.inputs| && HasPrevout(p.tx.inputs[k]) ==>
                              p.tx.inputs[k] != p.tx.inputs[l]
    ensures Sound(m, SpendEntries(p, outs, s, n))
  {
    if n > 0 {
      SpendSound(m, p, outs, s, n - 1);
      var es := SpendEntries(p, outs, s, n - 1);
      if SpendsScript(p, outs, s, n - 1) {
        hide Sound, Fold;
        SpendFold(m, p, outs, s, n - 1);
        SoundPush(m, es, Entry(SpendRow(p, n - 1, outs[p.tx.inputs[n - 1]]), p.at));
      } else {
        assert SpendEntries(p, outs, s, n) == es + [] == es;
      }
    }
  }

  lemma {:induction false} FundSound(m: UtxoMap, p: Placed, unspendables: bool, s: Script, n: nat)
    requires n <= |p.tx.outputs|
    requires forall o :: o in m ==> o.txid != p.tx.txid
    ensures Sound(m, FundEntries(p, unspendables, s, n))
  {
    if n > 0 {
      FundSound(m, p, unspendables, s, n - 1);
      var es := FundEntries(p, unspendables, s, n - 1);
      if FundsScript(p, unspendables, s, n - 1) {
        hide Sound, Fold;
        FundFold(m, p, unspendables, s, n - 1);
        FundedByIs(p, unspendables, s, n - 1);
        SoundPush(m, es, Entry(FundRow(p, n - 1), p.at));
      } else {
        assert FundEntries(p, unspendables, s, n) == es + [] == es;
      }
    }
  }

  /** Every history of a valid chain funds before it spends, once, at the same value. */
  lemma {:induction false} HistorySound(fs: seq<Placed>, unspendables: bool, s: Script)
    requires ValidTxs(fs)
    ensures Sound(map[], Entries(fs, unspendables, s))
  {
    if fs != [] {
      var init, p := fs[..|fs| - 1], fs[|fs| - 1];
      HistorySound(init, unspendables, s);
      FoldIsLedger(init, unspendables, s);
      LedgerOrigin(init);
      LedgerFresh(init, p.tx);
      var es, m := Entries(init, unspendables, s), View(Ledger(init), unspendables, s);
      var a, b := SpendEntries(p, Outs(init), s, |p.tx.inputs|), FundEntries(p, unspendables, s, |p.tx.outputs|);
      SpendSound(m, p, Outs(init), s, |p.tx.inputs|);
      SpendFold(m, p, Outs(init), s, |p.tx.inputs|);
      FundSound(Fold(m, a), p, unspendables, s, |p.tx.outputs|);
      SoundAppend(m, a, b);
      SoundAppend(map[], es, a + b);
    }
  }

  lemma {:induction false} StepConserves(m: UtxoMap, e: Entry)
    requires SoundStep(m, e)
    ensures e.row.info.Funding? ==> |Step(m, e)| == |m| + 1 && Total(Step(m, e)) == Total(m) + e.row.info.value
    ensures e.row.info.Spending? ==> |m| == |Step(m, e)| + 1 && Total(m) == Total(Step(m, e)) + e.row.info.value
  {
    var o := e.row.info.FundedOutPoint();
    if e.row.info.Funding? {
      TotalRemove(Step(m, e), o);
      assert Step(m, e) - {o} == m;
    } else {
      TotalRemove(m, o);
      assert m == (m - {o})[o := m[o]];
    }
  }

  lemma {:induction false} SoundConserves(es: seq<Entry>)
    requires Sound(map[], es)
    ensures |Fold(map[], es)| + Counts(es).spentCount == Counts(es).fundedCount
    ensures Total(Fold(map[], es)) + Counts(es).spentSum == Counts(es).fundedSum
  {
    if es != [] {
      var n := |es| - 1;
      SoundConserves(es[..n]);
      assert Counts(es) == Count(Counts(es[..n]), es[n].row.info);
      StepConserves(Fold(map[], es[..n]), es[n]);
    }
  }

  /** On every chain, for every script: what was funded and not spent is what is unspent,
      in number and in value. */
  lemma {:induction false} Conservation(c: seq<Block>, unspendables: bool, s: Script)
    requires ValidChain(c)
    ensures var st := StatsOf(ChainEntries(c, unspendables, s));
            && st.spentCount <= st.fundedCount && st.spentSum <= st.fundedSum
            && st.fundedCount - st.spentCount == |Unspents(c, unspendables, s)|
            && st.fundedSum - st.spentSum == Total(Unspents(c, unspendables, s))
  {
    hide Flatten, Sound, Entries, Unspents, Fold, Counts, TxidsOf;
    HistorySound(Flatten(c), unspendables, s);
    SoundConserves(ChainEntries(c, unspendables, s));
    UnspentsAreFold(c, unspendables, s);
  }

  lemma {:induction false} EntriesCounted(es: seq<Entry>)
    ensures |TxidsOf(es)| <= |es| && Counts(es).fundedCount + Counts(es).spentCount == |es|
  {
    if es != [] {
      var n := |es| - 1;
      EntriesCounted(es[..n]);
      assert Counts(es) == Count(Counts(es[..n]), es[n].row.info);
      var t, before := es[n].row.info.txid, TxidsOf(es[..n]);
      if t in before {
        assert before + {t} == before;
      }
    }
  }

  /** The sanity test accepts the statistics of a script's history if and only if the script has
      no unspent output, or one that is worth something. */
  lemma {:induction false} SaneIff(c: seq<Block>, unspendables: bool, s: Script)
    requires ValidChain(c)
    ensures IsSane(StatsOf(ChainEntries(c, unspendables, s)))
       <==> Unspents(c, unspendables, s) == map[] || Worth(Unspents(c, unspendables, s))
  {
    hide ChainEntries, Unspents, Counts, TxidsOf, Total, ValidChain;
    Conservation(c, unspendables, s);
    EntriesCounted(ChainEntries(c, unspendables, s));
    TotalWorth(Unspents(c, unspendables, s));
    var m := Unspents(c, unspendables, s);
    assert |m| == 0 <==> m == map[];
  }

  /** An output is worth something. */
  ghost predicate Worth(m: UtxoMap) {
    exists o :: o in m && m[o].value > 0
  }

  lemma {:induction false} TotalWorth(m: UtxoMap)
    ensures Total(m) > 0 <==> Worth(m)
  {
    if m != map[] {
      var p :| p in m;
      TotalRemove(m, p);
      TotalWorth(m - {p});
      if o :| o in m && m[o].value > 0 {
        assert o == p || o in m - {p};
      }
      if Worth(m - {p}) {
        var o :| o in m - {p} && m[o].value > 0;
        assert o in m;
      }
    }
  }

  /** The Electrum balance of a script, as u64 subtraction: None is an underflow. */
  function ConfirmedBalance(st: ScriptStats): Option<nat> {
    if st.spentSum <= st.fundedSum then Some(st.fundedSum - st.spentSum) else None
  }

  lemma {:induction false} BalanceIsUnspentTotal(c: seq<Block>, unspendables: bool, s: Script)
    requires ValidChain(c)
    ensures ConfirmedBalance(StatsOf(ChainEntries(c, unspendables, s))) == Some(Total(Unspents(c, unspendables, s)))
  {
    hide StatsOf, ChainEntries, Unspents, Total;
    Conservation(c, unspendables, s);
  }
}
