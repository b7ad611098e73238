/** Unspent outputs of a script over the chain and the mempool together. */
module Overlay {
  import opened Chain
  import opened History
  import opened Balance
  import opened Mempool
  import opened Daemon
  import ChainQuery
  import Store

  datatype Utxo = Utxo(out: OutPoint, confirmed: Option<BlockId>, value: nat)

  // ----- what the query returns

  /** A confirmed output without an edge, or an unconfirmed funding without one. */
  ghost predicate Returned(w: World, unspendables: bool, coins: UtxoMap, edges: Edges, done: set<Txid>, s: Script,
                           x: Utxo) {
    x.out !in edges &&
    if x.confirmed.Some? then x.out in coins && coins[x.out] == Unspent(x.confirmed.value, x.value)
    else x.out.txid in done && IsInfo(w, unspendables, s, Funding(x.out.txid, x.out.vout, x.value))
  }

  /** Each of them once, and nothing else. */
  ghost predicate Lists(utxos: seq<Utxo>, w: World, unspendables: bool, coins: UtxoMap, edges: Edges, done: set<Txid>,
                        s: Script) {
    forall x :: multiset(utxos)[x] == if Returned(w, unspendables, coins, edges, done, s, x) then 1 else 0
  }

  ghost predicate FromMempool(x: Utxo, edges: Edges, es: seq<Info>) {
    x.confirmed.None? && x.out !in edges && Funding(x.out.txid, x.out.vout, x.value) in es
  }

  /** `Mempool::utxo`. */
  method MempoolUtxo(es: seq<Info>, edges: Edges) returns (utxos: seq<Utxo>)
    requires forall e :: multiset(es)[e] <= 1
    ensures forall x :: multiset(utxos)[x] == if FromMempool(x, edges, es) then 1 else 0
  {
    utxos := [];
    for i := 0 to |es|
      invariant forall x :: multiset(utxos)[x] == if FromMempool(x, edges, es[..i]) then 1 else 0
    {
      ghost var was := utxos;
      OneEntry(es, i);
      assert es[..i + 1] == es[..i] + [es[i]];
      if es[i].Funding? && es[i].FundedOutPoint() !in edges {
        utxos := utxos + [Utxo(es[i].FundedOutPoint(), None, es[i].value)];
      }
      forall x
        ensures multiset(utxos)[x] == if FromMempool(x, edges, es[..i + 1]) then 1 else 0
      {
        assert multiset(was)[x] == if FromMempool(x, edges, es[..i]) then 1 else 0;
      }
    }
    assert es[..|es|] == es;
  }

  lemma {:induction false} OneEntry(es: seq<Info>, i: nat)
    requires i < |es| && forall e :: multiset(es)[e] <= 1
    ensures es[i] !in es[..i]
  {
    assert es == es[..i] + [es[i]] + es[i + 1..];
    assert multiset(es)[es[i]] == multiset(es[..i])[es[i]] + 1 + multiset(es[i + 1..])[es[i]];
  }

  ghost predicate FromChain(x: Utxo, edges: Edges, coins: UtxoMap, among: set<OutPoint>) {
    && x.confirmed.Some? && x.out in among && x.out in coins && x.out !in edges
    && coins[x.out] == Unspent(x.confirmed.value, x.value)
  }

  /** The chain's outputs that the mempool does not spend, in any order. */
  method ChainUtxos(coins: UtxoMap, edges: Edges) returns (utxos: seq<Utxo>)
    ensures forall x :: multiset(utxos)[x] == if FromChain(x, edges, coins, coins.Keys) then 1 else 0
  {
    utxos := [];
    var rest := coins.Keys;
    while rest != {}
      invariant rest <= coins.Keys
      invariant forall x :: multiset(utxos)[x] == if FromChain(x, edges, coins, coins.Keys - rest) then 1 else 0
      decreases rest
    {
      var o :| o in rest;
      ghost var was, left := utxos, rest;
      rest := rest - {o};
      if o !in edges {
        utxos := utxos + [Utxo(o, Some(coins[o].at), coins[o].value)];
      }
      forall x
        ensures multiset(utxos)[x] == if FromChain(x, edges, coins, coins.Keys - rest) then 1 else 0
      {
        assert multiset(was)[x] == if FromChain(x, edges, coins, coins.Keys - left) then 1 else 0;
      }
    }
    assert coins.Keys - rest == coins.Keys;
  }

  /** The mempool over the chain, given what the chain query answered. */
  method WithMempool(ghost w: World, pool: Pool, coins: UtxoMap, s: Script) returns (utxos: seq<Utxo>)
    requires pool.Valid(w)
    ensures Lists(utxos, w, pool.unspendables, coins, pool.edges, pool.feeinfo.Keys, s)
  {
    hide Good, Logged, IsInfo, Returned;
    GoodGives(w, pool.unspendables, pool.txstore, pool.feeinfo, pool.history, pool.edges);
    var es := At(pool.history, s);
    OnceEach(w, pool.unspendables, pool.history, pool.feeinfo.Keys, s);
    var confirmed := ChainUtxos(coins, pool.edges);
    var unconfirmed := MempoolUtxo(es, pool.edges);
    utxos := confirmed + unconfirmed;
    ghost var done := pool.feeinfo.Keys;
    forall x
      ensures multiset(utxos)[x] == if Returned(w, pool.unspendables, coins, pool.edges, done, s, x) then 1 else 0
    {
      assert multiset(utxos)[x] == multiset(confirmed)[x] + multiset(unconfirmed)[x];
      ReturnedIs(w, pool.unspendables, coins, pool.history, pool.edges, done, s, x);
    }
  }

  lemma {:induction false} OnceEach(w: World, unspendables: bool, lists: Lists, done: set<Txid>, s: Script)
    requires Exact(w, unspendables, lists, done)
    ensures forall e :: multiset(At(lists, s))[e] <= 1
    ensures forall e :: e in At(lists, s) <==> e.txid in done && IsInfo(w, unspendables, s, e)
  {
    hide IsInfo;
    forall e
      ensures multiset(At(lists, s))[e] <= 1
      ensures e in At(lists, s) <==> e.txid in done && IsInfo(w, unspendables, s, e)
    {
      assert Count(lists, s, e) == Expected(w, unspendables, done, s, e);
      assert e in At(lists, s) <==> e in multiset(At(lists, s));
    }
  }

  lemma {:induction false} ReturnedIs(w: World, unspendables: bool, coins: UtxoMap, lists: Lists, edges: Edges,
                                      done: set<Txid>, s: Script, x: Utxo)
    requires Exact(w, unspendables, lists, done)
    ensures Returned(w, unspendables, coins, edges, done, s, x)
       <==> FromChain(x, edges, coins, coins.Keys) || FromMempool(x, edges, At(lists, s))
    ensures !(FromChain(x, edges, coins, coins.Keys) && FromMempool(x, edges, At(lists, s)))
  {
    hide IsInfo, Exact;
    OnceEach(w, unspendables, lists, done, s);
  }

  // ----- what it should return

  /** A processed mempool transaction spends the outpoint. */
  ghost predicate PoolSpends(w: World, done: set<Txid>, o: OutPoint) {
    exists t :: t in done && SpendsIt(w, t, o)
  }

  ghost predicate Confirms(c: seq<Block>, t: Txid) {
    exists p :: p in Flatten(c) && p.tx.txid == t
  }

  /** An output that pays to the script, created on the chain or by a processed mempool
      transaction that is not confirmed yet, and spent by neither. */
  ghost predicate Owned(w: World, unspendables: bool, c: seq<Block>, done: set<Txid>, s: Script, x: Utxo) {
    && !PoolSpends(w, done, x.out) && !Spends(Flatten(c), x.out)
    && if x.confirmed.Some? then PaidOn(c, unspendables, s, x)
       else
         && x.out.txid in done && x.out.txid in w && !Confirms(c, x.out.txid)
         && Pays(w[x.out.txid], unspendables, s, x)
  }

  /** A transaction of the block pays it. */
  ghost predicate PaidOn(c: seq<Block>, unspendables: bool, s: Script, x: Utxo) {
    exists p ::
      p in Flatten(c) && p.tx.txid == x.out.txid && Some(p.at) == x.confirmed && Pays(p.tx, unspendables, s, x)
  }

  ghost predicate Pays(tx: Tx, unspendables: bool, s: Script, x: Utxo) {
    && x.out.vout < |tx.outputs| && tx.outputs[x.out.vout].script == s && tx.outputs[x.out.vout].value == x.value
    && (tx.outputs[x.out.vout].spendable || unspendables)
  }

  /** Every mempool spend of an output that the query looks at has its edge. */
  ghost predicate EdgesCover(w: World, unspendables: bool, c: seq<Block>, edges: Edges, done: set<Txid>, s: Script) {
    forall o :: PoolSpends(w, done, o) && Looked(w, unspendables, c, done, s, o) ==> o in edges
  }

  ghost predicate Looked(w: World, unspendables: bool, c: seq<Block>, done: set<Txid>, s: Script, o: OutPoint) {
    o in Unspents(c, unspendables, s) || PoolPays(w, unspendables, done, s, o)
  }

  ghost predicate PoolPays(w: World, unspendables: bool, done: set<Txid>, s: Script, o: OutPoint) {
    && o.txid in done && o.txid in w && o.vout < |w[o.txid].outputs| && w[o.txid].outputs[o.vout].script == s
    && (w[o.txid].outputs[o.vout].spendable || unspendables)
  }

  /** No output without an edge is listed as unconfirmed although its transaction is on the
      chain, as happens between a new block and the next update of the mempool. */
  ghost predicate NoneStale(w: World, unspendables: bool, c: seq<Block>, edges: Edges, done: set<Txid>, s: Script) {
    forall o :: PoolPays(w, unspendables, done, s, o) && o !in edges ==> !Confirms(c, o.txid)
  }

  /** The answer holds exactly the outputs that are the script's and unspent. */
  ghost predicate IsExact(w: World, unspendables: bool, c: seq<Block>, edges: Edges, done: set<Txid>, s: Script) {
    forall x :: Returned(w, unspendables, Unspents(c, unspendables, s), edges, done, s, x) <==>
                  Owned(w, unspendables, c, done, s, x)
  }

  /** A confirmed output is the script's and unspent on the chain exactly when the chain query
      lists it. */
  lemma {:induction false} ChainCoin(c: seq<Block>, unspendables: bool, s: Script, x: Utxo)
    requires ValidChain(c) && x.confirmed.Some? && HasPrevout(x.out)
    ensures x.out in Unspents(c, unspendables, s)
            && Unspents(c, unspendables, s)[x.out] == Unspent(x.confirmed.value, x.value)
       <==> !Spends(Flatten(c), x.out) && PaidOn(c, unspendables, s, x)
  {
    hide Flatten, Ledger, ValidTxs;
    var fs := Flatten(c);
    LedgerMeaning(fs, x.out);
    UniqueTxids(fs);
    if x.out in Ledger(fs) {
      var p :| p in fs && p.tx.txid == x.out.txid && x.out.vout < |p.tx.outputs|;
      LedgerWorth(fs, x.out, p);
    }
  }

  /** The chain spends nothing that an unconfirmed transaction creates. */
  lemma {:induction false} NotSpentOnChain(c: seq<Block>, o: OutPoint)
    requires ValidChain(c) && !Confirms(c, o.txid) && HasPrevout(o)
    ensures !Spends(Flatten(c), o)
  {
    hide Flatten, ValidTxs;
    SpendsEarlier(Flatten(c), o);
  }

  lemma {:induction false} EdgesSpend(w: World, edges: Edges, done: set<Txid>, o: OutPoint)
    requires Sound(w, edges, done) && o in edges
    ensures PoolSpends(w, done, o)
  {
    assert Spender(w, edges[o].0, edges[o].1, o);
  }

  lemma {:induction false} FewOutputs(fs: seq<Placed>)
    requires ValidTxs(fs)
    ensures forall p :: p in fs ==> |p.tx.outputs| < U32
  {
    if fs != [] {
      FewOutputs(fs[..|fs| - 1]);
      assert fs == fs[..|fs| - 1] + [fs[|fs| - 1]];
    }
  }

  /** What is returned, and what is the script's, is an output that exists. */
  lemma {:induction false} RealOutput(w: World, unspendables: bool, c: seq<Block>, edges: Edges, done: set<Txid>,
                                      s: Script, x: Utxo)
    requires Sane(w) && ValidChain(c)
    ensures Returned(w, unspendables, Unspents(c, unspendables, s), edges, done, s, x) ==> HasPrevout(x.out)
    ensures Owned(w, unspendables, c, done, s, x) ==> HasPrevout(x.out)
  {
    hide Flatten, Ledger, ValidTxs, PoolSpends;
    LedgerOrigin(Flatten(c));
    FewOutputs(Flatten(c));
  }

  /** Where the edges cover the mempool's spends and nothing is stale, an output is returned
      exactly when it is the script's and unspent. */
  lemma {:induction false} CoveredIsRight(w: World, unspendables: bool, c: seq<Block>, edges: Edges, done: set<Txid>,
                                          s: Script, x: Utxo)
    requires Sane(w) && ValidChain(c) && HasPrevout(x.out)
    requires Looked(w, unspendables, c, done, s, x.out) ==> (PoolSpends(w, done, x.out) <==> x.out in edges)
    requires PoolPays(w, unspendables, done, s, x.out) && x.out !in edges ==> !Confirms(c, x.out.txid)
    ensures Returned(w, unspendables, Unspents(c, unspendables, s), edges, done, s, x) <==>
              Owned(w, unspendables, c, done, s, x)
  {
    hide ValidChain, Flatten, Unspents, PoolSpends, Spends, Confirms, PaidOn;
    if x.confirmed.Some? {
      ChainCoin(c, unspendables, s, x);
    } else if !Confirms(c, x.out.txid) {
      NotSpentOnChain(c, x.out);
    }
  }

  /** The query is exact for the script if and only if the edges cover the mempool's spends of
      the outputs it looks at and none of its unconfirmed outputs is stale. */
  lemma {:induction false} ExactIff(w: World, unspendables: bool, c: seq<Block>, edges: Edges, done: set<Txid>,
                                    s: Script)
    requires Sane(w) && ValidChain(c) && Sound(w, edges, done)
    ensures IsExact(w, unspendables, c, edges, done, s)
       <==> EdgesCover(w, unspendables, c, edges, done, s) && NoneStale(w, unspendables, c, edges, done, s)
  {
    hide ValidChain, Flatten, Unspents, Sound, PoolSpends, Returned, Owned, Looked, PoolPays, Confirms;
    if !EdgesCover(w, unspendables, c, edges, done, s) {
      var o :| PoolSpends(w, done, o) && Looked(w, unspendables, c, done, s, o) && o !in edges;
      var x := Wrong(w, unspendables, c, edges, done, s, o);
    } else if !NoneStale(w, unspendables, c, edges, done, s) {
      var o :| PoolPays(w, unspendables, done, s, o) && o !in edges && Confirms(c, o.txid);
      var x := Stale(w, unspendables, c, edges, done, s, o);
    } else {
      forall x
        ensures Returned(w, unspendables, Unspents(c, unspendables, s), edges, done, s, x) <==>
                  Owned(w, unspendables, c, done, s, x)
      {
        RealOutput(w, unspendables, c, edges, done, s, x);
        if x.out in edges {
          EdgesSpend(w, edges, done, x.out);
        }
        if HasPrevout(x.out) {
          CoveredIsRight(w, unspendables, c, edges, done, s, x);
        }
      }
    }
  }

  /** A spend without an edge: the output is returned although the mempool spends it. */
  lemma {:induction false} Wrong(w: World, unspendables: bool, c: seq<Block>, edges: Edges, done: set<Txid>,
                                 s: Script, o: OutPoint) returns (x: Utxo)
    requires PoolSpends(w, done, o) && Looked(w, unspendables, c, done, s, o) && o !in edges
    ensures x.out == o && Returned(w, unspendables, Unspents(c, unspendables, s), edges, done, s, x)
            && !Owned(w, unspendables, c, done, s, x)
  {
    hide Flatten, Unspents, PoolSpends;
    if o in Unspents(c, unspendables, s) {
      var u := Unspents(c, unspendables, s)[o];
      x := Utxo(o, Some(u.at), u.value);
    } else {
      x := Utxo(o, None, w[o.txid].outputs[o.vout].value);
    }
  }

  /** A confirmed output is returned as unconfirmed. */
  lemma {:induction false} Stale(w: World, unspendables: bool, c: seq<Block>, edges: Edges, done: set<Txid>,
                                 s: Script, o: OutPoint) returns (x: Utxo)
    requires PoolPays(w, unspendables, done, s, o) && o !in edges && Confirms(c, o.txid)
    ensures x.out == o && Returned(w, unspendables, Unspents(c, unspendables, s), edges, done, s, x)
            && !Owned(w, unspendables, c, done, s, x)
  {
    hide Flatten, Unspents, PoolSpends;
    x := Utxo(o, None, w[o.txid].outputs[o.vout].value);
  }

  /** The edges cover what the query looks at if and only if none of it is deserted: spent by a
      transaction that stays, after the spender processed last was removed. */
  lemma {:induction false} CoverIff(w: World, unspendables: bool, c: seq<Block>, events: seq<Event>, edges: Edges,
                                    done: set<Txid>, s: Script)
    requires Logged(w, events, edges, done)
    ensures EdgesCover(w, unspendables, c, edges, done, s)
       <==> forall o :: Looked(w, unspendables, c, done, s, o) ==> !Deserted(w, events, o)
  {
    hide Unspents, Looked, Newest, Stays, Kept, SpendsIt;
    if o :| Looked(w, unspendables, c, done, s, o) && Deserted(w, events, o) {
      var k: nat :| Newest(w, events, o, k) && !Kept(events, k);
      var j: nat, t :| Stays(events, j, t) && SpendsIt(w, t, o);
      assert t in done;
      NoEdge(w, events, edges, done, o, k);
    } else {
      forall o | PoolSpends(w, done, o) && Looked(w, unspendables, c, done, s, o)
        ensures o in edges
      {
        var t :| t in done && SpendsIt(w, t, o);
        KeptEdge(w, events, edges, done, t, o);
      }
    }
  }

  /** With an edge for every mempool spend, which a mempool without conflicts keeps, and no
      mempool transaction on the chain, the query is exact for every script. */
  lemma {:induction false} CompleteIsExact(w: World, unspendables: bool, c: seq<Block>, edges: Edges,
                                           done: set<Txid>, s: Script)
    requires Sane(w) && ValidChain(c) && Sound(w, edges, done) && Complete(w, edges, done)
    requires forall t :: t in done ==> !Confirms(c, t)
    ensures IsExact(w, unspendables, c, edges, done, s)
  {
    hide ValidChain, Unspents, Sound, Confirms, Looked, IsExact;
    forall o | PoolSpends(w, done, o)
      ensures o in edges
    {
      var t :| t in done && SpendsIt(w, t, o);
      var i :| 0 <= i < |w[t].inputs| && w[t].inputs[i] == o;
      assert Spender(w, t, i, o);
    }
    ExactIff(w, unspendables, c, edges, done, s);
  }

  // ----- the query

  /** `Query::utxo`: it fails exactly when the chain query does, that is when a limit is exceeded
      on the way from the cached block. Otherwise it lists, each once, exactly the outputs that
      are the script's and that neither the shown chain nor the mempool spends, if and only if
      nothing it looks at is deserted or stale. */
  method QueryUtxo(store: Store.Store, ghost d: Node, ghost p: nat, ghost c: seq<Block>, ghost w: World, pool: Pool,
                   s: Script, limit: nat) returns (r: ChainQuery.Result<seq<Utxo>>, ghost from: nat)
    requires ChainQuery.Ready(store, d, p) && ChainQuery.CachesReady(store, d, p, c)
    requires pool.Valid(w) && pool.unspendables == store.unspendables && s < U256
    modifies store`utxoCache
    ensures ChainQuery.Ready(store, d, p) && ChainQuery.CachesReady(store, d, p, c) && pool.Valid(w)
    ensures var n := d.ChainTo(store.headers.tip);
            && ValidChain(n) && from <= p <= |n|
            && (r.Ok? <==> ChainQuery.FitsFrom(n, p, from, store.unspendables, s, limit))
            && (r.Err? ==> ChainQuery.FailsFrom(n, p, from, store.unspendables, s, limit, r.error))
            && (from > 0 <==> s in old(store.utxoCache) && Contains(n, old(store.utxoCache)[s].stamp))
    ensures var shown, done := d.ChainTo(store.headers.tip)[..p], pool.feeinfo.Keys;
            r.Ok? ==>
              (Right(r.value, w, store.unspendables, shown, done, s) <==>
                 && (forall o :: Looked(w, store.unspendables, shown, done, s, o) ==> !Deserted(w, pool.events, o))
                 && NoneStale(w, store.unspendables, shown, pool.edges, done, s))
  {
    hide *;
    var coins;
    coins, from := ChainQuery.Utxo(store, d, p, c, s, limit);
    ChainQuery.ReadyMeans(store, d, p);
    if coins.Err? {
      return ChainQuery.Err(coins.error), from;
    }
    var utxos := WithMempool(w, pool, coins.value, s);
    ghost var shown, done := d.ChainTo(store.headers.tip)[..p], pool.feeinfo.Keys;
    ValidChainPrefix(d.ChainTo(store.headers.tip), p);
    pool.Gives(w);
    ExactIff(w, store.unspendables, shown, pool.edges, done, s);
    CoverIff(w, store.unspendables, shown, pool.events, pool.edges, done, s);
    RightIff(utxos, w, store.unspendables, shown, pool.edges, done, s);
    r := ChainQuery.Ok(utxos);
  }

  /** The script's unspent outputs, each once. */
  ghost predicate Right(utxos: seq<Utxo>, w: World, unspendables: bool, c: seq<Block>, done: set<Txid>, s: Script) {
    forall x :: multiset(utxos)[x] == if Owned(w, unspendables, c, done, s, x) then 1 else 0
  }

  lemma {:induction false} RightIff(utxos: seq<Utxo>, w: World, unspendables: bool, c: seq<Block>, edges: Edges,
                                    done: set<Txid>, s: Script)
    requires Lists(utxos, w, unspendables, Unspents(c, unspendables, s), edges, done, s)
    ensures Right(utxos, w, unspendables, c, done, s) <==> IsExact(w, unspendables, c, edges, done, s)
  {
    hide Unspents, Returned, Owned;
    if Right(utxos, w, unspendables, c, done, s) {
      forall x
        ensures Returned(w, unspendables, Unspents(c, unspendables, s), edges, done, s, x) <==>
                  Owned(w, unspendables, c, done, s, x)
      {
        assert multiset(utxos)[x] == if Owned(w, unspendables, c, done, s, x) then 1 else 0;
      }
    }
  }

  // ----- a lost edge

  const FUNDING: Tx := Tx(1, [], [TxOut(7, 100, true)])
  const FIRST: Tx := Tx(2, [OutPoint(1, 0)], [])
  const SECOND: Tx := Tx(3, [OutPoint(1, 0)], [])

  const NET: World := map[1 := FUNDING, 2 := FIRST, 3 := SECOND]

  lemma {:induction false} SaneNet()
    ensures Sane(NET)
  {
  }

  lemma {:induction false} BothFound(confirmed: map<OutPoint, TxOut>, txstore: map<Txid, Tx>)
    requires OutPoint(1, 0) in confirmed
    ensures AllFound(NET, 2, confirmed, txstore) && AllFound(NET, 3, confirmed, txstore)
    ensures Ids([FIRST, SECOND]) == {2, 3}
  {
    assert forall x :: x in [FIRST, SECOND] <==> x == FIRST || x == SECOND;
  }

  lemma {:induction false} Spenders(t: Txid)
    requires t == 2 || t == 3
    ensures forall i, o :: Spender(NET, t, i, o) <==> i == 0 && o == OutPoint(1, 0)
    ensures Spender(NET, t, 0, OutPoint(1, 0)) && NoConflict(NET, {t})
  {
  }

  const GENESIS: Block := Block(Header(1, NULL_HASH, 0), [FUNDING])
  const COIN: Utxo := Utxo(OutPoint(1, 0), Some(IdOf(GENESIS, 0)), 100)

  lemma {:induction false} OneCoin()
    ensures ValidChain([GENESIS])
    ensures Unspents([GENESIS], false, 7) == map[COIN.out := Unspent(IdOf(GENESIS, 0), 100)]
    ensures !Confirms([GENESIS], 2) && !Confirms([GENESIS], 3)
  {
    hide Ledger, ValidTxs;
    var p := Placed(IdOf(GENESIS, 0), 0, FUNDING);
    assert Flatten([GENESIS]) == [p] by {
      assert [GENESIS][..0] == [] && Flatten([]) == [] && PlacedIn(GENESIS, 0) == [p];
    }
    OneTx(p);
  }

  lemma {:induction false} OneTx(p: Placed)
    requires p == Placed(IdOf(GENESIS, 0), 0, FUNDING)
    ensures ValidTxs([p]) && Ledger([p]) == map[COIN.out := Coin(IdOf(GENESIS, 0), FUNDING.outputs[0])]
  {
    assert [p][..0] == [] && ValidTxs([]) && ValidNext([], FUNDING);
    assert Created(p) == map[COIN.out := Coin(IdOf(GENESIS, 0), FUNDING.outputs[0])];
  }

  /** Two transactions spend the same confirmed output; the one that holds the edge is removed.
      The other stays, no two conflict any more, nothing is stale, and yet the query returns the
      output that it spends. */
  method LostEdge() returns (pool: Pool, utxos: seq<Utxo>, ghost left: Txid)
    ensures ValidChain([GENESIS]) && pool.Valid(NET) && pool.feeinfo.Keys == {left} && NoConflict(NET, {left})
    ensures Lists(utxos, NET, false, Unspents([GENESIS], false, 7), pool.edges, {left}, 7)
    ensures NoneStale(NET, false, [GENESIS], pool.edges, {left}, 7)
            && !EdgesCover(NET, false, [GENESIS], pool.edges, {left}, 7)
    ensures COIN in utxos && PoolSpends(NET, {left}, COIN.out)
            && !Owned(NET, false, [GENESIS], {left}, 7, COIN)
  {
    hide *;
    pool := TwoSpenders();
    var gone := pool.edges[OutPoint(1, 0)].0;
    left := if gone == 2 then 3 else 2;
    pool.Gives(NET);
    Leaves(pool.edges, gone, left);
    var _ := pool.Remove(NET, {gone});
    assert pool.feeinfo.Keys == {left} && COIN.out !in pool.edges;
    utxos := WithMempool(NET, pool, Unspents([GENESIS], false, 7), 7);
    OneCoin();
    StillReturned(utxos, pool.edges, left);
  }

  /** Both conflicting transactions are in the mempool. */
  method TwoSpenders() returns (pool: Pool)
    ensures fresh(pool) && pool.Valid(NET) && !pool.unspendables
    ensures pool.txstore.Keys == {2, 3} && pool.feeinfo.Keys == {2, 3} && OutPoint(1, 0) in pool.edges
  {
    hide Good, Logged, NoConflict, AllFound, Spender, Ids;
    pool := new Pool(false);
    SaneNet();
    var confirmed := map[OutPoint(1, 0) := FUNDING.outputs[0]];
    var _ := pool.Add(NET, [FIRST, SECOND], confirmed);
    BothFound(confirmed, pool.txstore);
    Spenders(2);
    assert pool.feeinfo.Keys == {2, 3};
  }

  lemma {:induction false} Leaves(edges: Edges, gone: Txid, left: Txid)
    requires OutPoint(1, 0) in edges && gone == edges[OutPoint(1, 0)].0 && Sound(NET, edges, {2, 3})
    requires left == if gone == 2 then 3 else 2
    ensures gone in {2, 3} && {2, 3} - {gone} == {left} && NoConflict(NET, {left})
    ensures COIN.out !in RetainEdges(edges, {gone})
  {
    hide Spender;
    Spenders(left);
  }

  lemma {:induction false} StillReturned(utxos: seq<Utxo>, edges: Edges, left: Txid)
    requires left in {2, 3} && COIN.out !in edges
    requires Lists(utxos, NET, false, Unspents([GENESIS], false, 7), edges, {left}, 7)
    ensures COIN in utxos && PoolSpends(NET, {left}, COIN.out) && !Owned(NET, false, [GENESIS], {left}, 7, COIN)
    ensures !EdgesCover(NET, false, [GENESIS], edges, {left}, 7) && NoneStale(NET, false, [GENESIS], edges, {left}, 7)
  {
    hide Unspents, Flatten;
    OneCoin();
    assert SpendsIt(NET, left, COIN.out);
    assert multiset(utxos)[COIN] == 1;
  }
}
