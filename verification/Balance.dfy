/** Unspent outputs and statistics as folds over a script's history, and their agreement
    with the consensus ledger and with each other. */
module Balance {
  import opened Chain
  import opened History

  datatype Unspent = Unspent(at: BlockId, value: nat)

  type UtxoMap = map<OutPoint, Unspent>

  /** One round of `apply_utxo_delta`. */
  function Step(m: UtxoMap, e: Entry): UtxoMap {
    var o := e.row.info.FundedOutPoint();
    if e.row.info.Funding? then m[o := Unspent(e.at, e.row.info.value)] else m - {o}
  }

  function Fold(m: UtxoMap, es: seq<Entry>): UtxoMap {
    if es == [] then m else Step(Fold(m, es[..|es| - 1]), es[|es| - 1])
  }

  lemma {:induction false} FoldPush(m: UtxoMap, es: seq<Entry>, e: Entry)
    ensures Fold(m, es + [e]) == Step(Fold(m, es), e)
  {
    var c := es + [e];
    assert c[..|c| - 1] == es;
  }

  lemma {:induction false} FoldAppend(m: UtxoMap, a: seq<Entry>, b: seq<Entry>)
    ensures Fold(m, a + b) == Fold(Fold(m, a), b)
  {
    if b == [] {
      assert a + b == a;
    } else {
      var n := |b| - 1;
      FoldAppend(m, a, b[..n]);
      FoldPush(m, a + b[..n], b[n]);
      assert a + b == a + b[..n] + [b[n]];
    }
  }

  /** The script's share of the ledger. */
  function View(coins: map<OutPoint, Coin>, unspendables: bool, s: Script): UtxoMap {
    map o | o in coins && coins[o].out.script == s && Indexed(coins[o].out, unspendables) ::
      Unspent(coins[o].at, coins[o].out.value)
  }

  function Unspents(c: seq<Block>, unspendables: bool, s: Script): UtxoMap {
    View(Ledger(Flatten(c)), unspendables, s)
  }

  // ----- the fold computes the ledger

  function SpentOf(p: Placed, outs: map<OutPoint, TxOut>, s: Script, n: nat): set<OutPoint>
    requires n <= |p.tx.inputs|
  {
    set i | 0 <= i < n && SpendsScript(p, outs, s, i) :: p.tx.inputs[i]
  }

  function FundedBy(p: Placed, unspendables: bool, s: Script, n: nat): UtxoMap
    requires n <= |p.tx.outputs|
  {
    if n == 0 then map[]
    else
      var m := FundedBy(p, unspendables, s, n - 1);
      if FundsScript(p, unspendables, s, n - 1)
      then m[OutPoint(p.tx.txid, n - 1) := Unspent(p.at, p.tx.outputs[n - 1].value)]
      else m
  }

  lemma {:induction false} FundedByIs(p: Placed, unspendables: bool, s: Script, n: nat)
    requires n <= |p.tx.outputs|
    ensures var m := FundedBy(p, unspendables, s, n);
            && (forall o :: o in m <==> o.txid == p.tx.txid && o.vout < n && FundsScript(p, unspendables, s, o.vout))
            && (forall o :: o in m ==> m[o] == Unspent(p.at, p.tx.outputs[o.vout].value))
  {
    if n > 0 {
      FundedByIs(p, unspendables, s, n - 1);
    }
  }

  lemma {:induction false} SpendFold(m: UtxoMap, p: Placed, outs: map<OutPoint, TxOut>, s: Script, n: nat)
    requires n <= |p.tx.inputs|
    ensures Fold(m, SpendEntries(p, outs, s, n)) == m - SpentOf(p, outs, s, n)
  {
    if n > 0 {
      SpendFold(m, p, outs, s, n - 1);
      var es := SpendEntries(p, outs, s, n - 1);
      if SpendsScript(p, outs, s, n - 1) {
        hide Fold;
        assert SpentOf(p, outs, s, n) == SpentOf(p, outs, s, n - 1) + {p.tx.inputs[n - 1]};
        FoldPush(m, es, Entry(SpendRow(p, n - 1, outs[p.tx.inputs[n - 1]]), p.at));
      } else {
        assert SpentOf(p, outs, s, n) == SpentOf(p, outs, s, n - 1);
        assert SpendEntries(p, outs, s, n) == es + [] == es;
      }
    }
  }

  lemma {:induction false} FundFold(m: UtxoMap, p: Placed, unspendables: bool, s: Script, n: nat)
    requires n <= |p.tx.outputs|
    ensures Fold(m, FundEntries(p, unspendables, s, n)) == m + FundedBy(p, unspendables, s, n)
  {
    if n > 0 {
      FundFold(m, p, unspendables, s, n - 1);
      var es := FundEntries(p, unspendables, s, n - 1);
      if FundsScript(p, unspendables, s, n - 1) {
        hide Fold;
        FoldPush(m, es, Entry(FundRow(p, n - 1), p.at));
        var k, v := OutPoint(p.tx.txid, n - 1), Unspent(p.at, p.tx.outputs[n - 1].value);
        PutOver(m, FundedBy(p, unspendables, s, n - 1), k, v);
      } else {
        assert FundEntries(p, unspendables, s, n) == es + [] == es;
      }
    }
  }

  lemma {:induction false} PutOver(a: UtxoMap, b: UtxoMap, k: OutPoint, v: Unspent)
    ensures (a + b)[k := v] == a + b[k := v]
  {
  }

  lemma {:induction false} SpentAt(fs: seq<Placed>, p: Placed, s: Script, o: OutPoint)
    requires ValidTxs(fs) && ValidNext(fs, p.tx)
    requires o in Ledger(fs) && Ledger(fs)[o].out.script == s
    ensures o in Inputs(p.tx) <==> o in SpentOf(p, Outs(fs), s, |p.tx.inputs|)
  {
    LedgerOrigin(fs);
    if o in Inputs(p.tx) {
      var i :| 0 <= i < |p.tx.inputs| && p.tx.inputs[i] == o;
      assert SpendsScript(p, Outs(fs), s, i);
    }
  }

  /** What a transaction does to the ledger, it does to every script's share of it. */
  lemma {:induction false} ViewStep(fs: seq<Placed>, p: Placed, unspendables: bool, s: Script)
    requires ValidTxs(fs) && ValidNext(fs, p.tx)
    ensures View((Ledger(fs) - Inputs(p.tx)) + Created(p), unspendables, s)
         == (View(Ledger(fs), unspendables, s) - SpentOf(p, Outs(fs), s, |p.tx.inputs|))
            + FundedBy(p, unspendables, s, |p.tx.outputs|)
  {
    var coins, spent, made := Ledger(fs), SpentOf(p, Outs(fs), s, |p.tx.inputs|), Created(p);
    forall o | o in coins && coins[o].out.script == s
      ensures o in Inputs(p.tx) <==> o in spent
    {
      SpentAt(fs, p, s, o);
    }
    assert View(coins - Inputs(p.tx), unspendables, s) == View(coins, unspendables, s) - spent;
    LedgerFresh(fs, p.tx);
    ViewUnion(coins - Inputs(p.tx), made, unspendables, s);
    ViewCreated(p, unspendables, s);
  }

  lemma {:induction false} ViewCreated(p: Placed, unspendables: bool, s: Script)
    ensures View(Created(p), unspendables, s) == FundedBy(p, unspendables, s, |p.tx.outputs|)
  {
    FundedByIs(p, unspendables, s, |p.tx.outputs|);
    var made := Created(p);
    assert forall o :: o in made <==> o.txid == p.tx.txid && o.vout < |p.tx.outputs|;
  }

  lemma {:induction false} LedgerFresh(fs: seq<Placed>, tx: Tx)
    requires ValidTxs(fs) && ValidNext(fs, tx)
    ensures forall o :: o in Ledger(fs) ==> o.txid != tx.txid
  {
    LedgerOrigin(fs);
  }

  lemma {:induction false} ViewUnion(a: map<OutPoint, Coin>, b: map<OutPoint, Coin>, unspendables: bool, s: Script)
    requires a.Keys !! b.Keys
    ensures View(a + b, unspendables, s) == View(a, unspendables, s) + View(b, unspendables, s)
  {
  }

  /** Replaying a script's history gives exactly its unspent coins. */
  lemma {:induction false} FoldIsLedger(fs: seq<Placed>, unspendables: bool, s: Script)
    requires ValidTxs(fs)
    ensures Fold(map[], Entries(fs, unspendables, s)) == View(Ledger(fs), unspendables, s)
  {
    if fs != [] {
      var init, p := fs[..|fs| - 1], fs[|fs| - 1];
      FoldIsLedger(init, unspendables, s);
      var es := Entries(init, unspendables, s);
      var a, b := SpendEntries(p, Outs(init), s, |p.tx.inputs|), FundEntries(p, unspendables, s, |p.tx.outputs|);
      FoldAppend(map[], es, a + b);
      FoldAppend(Fold(map[], es), a, b);
      SpendFold(Fold(map[], es), p, Outs(init), s, |p.tx.inputs|);
      FundFold(Fold(Fold(map[], es), a), p, unspendables, s, |p.tx.outputs|);
      ViewStep(init, p, unspendables, s);
    }
  }

  lemma {:induction false} UnspentsAreFold(c: seq<Block>, unspendables: bool, s: Script)
    requires ValidChain(c)
    ensures Fold(map[], ChainEntries(c, unspendables, s)) == Unspents(c, unspendables, s)
  {
    FoldIsLedger(Flatten(c), unspendables, s);
  }

  // ----- the ledger, without replaying anything

  ghost predicate Funds(fs: seq<Placed>, o: OutPoint) {
    exists p :: p in fs && p.tx.txid == o.txid && o.vout < |p.tx.outputs|
  }

  ghost predicate Spends(fs: seq<Placed>, o: OutPoint) {
    exists q :: q in fs && o in q.tx.inputs
  }

  /** A coin is unspent exactly when some transaction created it and none spends it. */
  lemma {:induction false} LedgerMeaning(fs: seq<Placed>, o: OutPoint)
    requires ValidTxs(fs) && HasPrevout(o)
    ensures o in Ledger(fs) <==> Funds(fs, o) && !Spends(fs, o)
  {
    if fs != [] {
      var init, p := fs[..|fs| - 1], fs[|fs| - 1];
      LedgerMeaning(init, o);
      SpendsEarlier(fs, o);
      assert forall q :: q in fs <==> q in init || q == p;
      assert Spends(fs, o) <==> Spends(init, o) || o in p.tx.inputs;
      assert Funds(fs, o) <==> Funds(init, o) || (p.tx.txid == o.txid && o.vout < |p.tx.outputs|);
      assert o in Created(p) <==> p.tx.txid == o.txid && o.vout < |p.tx.outputs|;
    }
  }

  /** ... and it is worth what that transaction says. */
  lemma {:induction false} LedgerWorth(fs: seq<Placed>, o: OutPoint, p: Placed)
    requires ValidTxs(fs) && o in Ledger(fs) && p in fs && p.tx.txid == o.txid
    ensures o.vout < |p.tx.outputs| && Ledger(fs)[o] == Coin(p.at, p.tx.outputs[o.vout])
  {
    var init, q := fs[..|fs| - 1], fs[|fs| - 1];
    UniqueTxids(fs);
    LedgerOrigin(init);
    if o !in Created(q) {
      LedgerWorth(init, o, p);
    }
  }

  lemma {:induction false} SpendsEarlier(fs: seq<Placed>, o: OutPoint)
    requires ValidTxs(fs) && HasPrevout(o)
    ensures forall q :: q in fs && o in q.tx.inputs ==> exists i :: 0 <= i < |fs| - 1 && fs[i].tx.txid == o.txid
  {
    if fs != [] {
      var init := fs[..|fs| - 1];
      LedgerOrigin(init);
      SpendsEarlier(init, o);
      forall q | q in fs && o in q.tx.inputs
        ensures exists i :: 0 <= i < |fs| - 1 && fs[i].tx.txid == o.txid
      {
        var i :| 0 <= i < |init| && init[i].tx.txid == o.txid;
        assert fs[i].tx.txid == o.txid;
      }
    }
  }
}
