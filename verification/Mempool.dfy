/** The mempool index: what `add` and `remove` keep, in any interleaving of updates and single
    additions. */
module Mempool {
  import opened Chain
  import opened History
  import opened Cursor
  import opened Amounts

  /** Every transaction that exists: a txid determines its transaction. */
  type World = map<Txid, Tx>

  ghost predicate Sane(w: World) {
    forall t :: t in w ==> w[t].txid == t && |w[t].outputs| <= 0xFFFF_FFFF
  }

  /** The output that an outpoint names. */
  function OutOf(w: World, o: OutPoint): Option<TxOut> {
    if o.txid in w && o.vout < |w[o.txid].outputs| then Some(w[o.txid].outputs[o.vout]) else None
  }

  /** The entry belongs to the history of the script: it is an indexed output that pays to it, or
      an input that spends an output that did. */
  ghost predicate IsInfo(w: World, unspendables: bool, s: Script, e: Info) {
    e.txid in w &&
    match e
    case Funding(t, i, value) =>
      i < |w[t].outputs| && w[t].outputs[i].script == s && w[t].outputs[i].value == value
        && Indexed(w[t].outputs[i], unspendables)
    case Spending(t, i, prev, value) =>
      && i < |w[t].inputs| && w[t].inputs[i] == prev && HasPrevout(prev)
      && OutOf(w, prev).Some? && OutOf(w, prev).value.script == s && OutOf(w, prev).value.value == value
  }

  // ----- history lists

  type Lists = map<Script, seq<Info>>

  function At(lists: Lists, s: Script): seq<Info> {
    if s in lists then lists[s] else []
  }

  function Push(lists: Lists, s: Script, e: Info): Lists {
    lists[s := At(lists, s) + [e]]
  }

  function Count(lists: Lists, s: Script, e: Info): nat {
    multiset(At(lists, s))[e]
  }

  ghost predicate NoEmpty(lists: Lists) {
    forall s :: s in lists ==> lists[s] != []
  }

  /** Each list holds exactly the entries of the given transactions, none twice; no list is
      empty. */
  ghost predicate Exact(w: World, unspendables: bool, lists: Lists, done: set<Txid>) {
    NoEmpty(lists) && forall s, e :: Count(lists, s, e) == Expected(w, unspendables, done, s, e)
  }

  ghost function Expected(w: World, unspendables: bool, done: set<Txid>, s: Script, e: Info): nat {
    if e.txid in done && IsInfo(w, unspendables, s, e) then 1 else 0
  }

  lemma {:induction false} PushCount(lists: Lists, p: Pair, s: Script, e: Info)
    ensures Count(Push(lists, p.0, p.1), s, e) == Count(lists, s, e) + if p == (s, e) then 1 else 0
  {
  }

  type Pair = (Script, Info)

  ghost predicate Pushed(before: Lists, after: Lists, pairs: seq<Pair>) {
    forall s, e :: Count(after, s, e) == Count(before, s, e) + multiset(pairs)[(s, e)]
  }

  lemma {:induction false} PushedMore(before: Lists, after: Lists, pairs: seq<Pair>, p: Pair)
    requires Pushed(before, after, pairs)
    ensures Pushed(before, Push(after, p.0, p.1), pairs + [p])
  {
    hide Count, Push;
    forall s, e
      ensures Count(Push(after, p.0, p.1), s, e) == Count(before, s, e) + multiset(pairs + [p])[(s, e)]
    {
      PushCount(after, p, s, e);
    }
  }

  /** The lists only grow at their ends. */
  ghost predicate Longer(before: Lists, after: Lists) {
    forall s :: At(before, s) <= At(after, s)
  }

  lemma {:induction false} LongerStill(a: Lists, b: Lists, c: Lists)
    ensures Longer(a, a) && (Longer(a, b) && Longer(b, c) ==> Longer(a, c))
  {
  }

  method PushAll(lists: Lists, pairs: seq<Pair>) returns (r: Lists)
    requires NoEmpty(lists)
    ensures NoEmpty(r) && Pushed(lists, r, pairs) && Longer(lists, r)
  {
    hide Pushed;
    r := lists;
    PushedNone(lists);
    for i := 0 to |pairs|
      invariant NoEmpty(r) && Pushed(lists, r, pairs[..i]) && Longer(lists, r)
    {
      assert pairs[..i + 1] == pairs[..i] + [pairs[i]];
      PushedMore(lists, r, pairs[..i], pairs[i]);
      r := Push(r, pairs[i].0, pairs[i].1);
    }
    assert pairs[..|pairs|] == pairs;
  }

  lemma {:induction false} PushedNone(lists: Lists)
    ensures Pushed(lists, lists, [])
  {
    hide Count;
  }

  /** Keeps the entries of other transactions. */
  function Keep(es: seq<Info>, gone: set<Txid>): seq<Info> {
    if es == [] then [] else Keep(es[..|es| - 1], gone) + if es[|es| - 1].txid in gone then [] else [es[|es| - 1]]
  }

  lemma {:induction false} KeepCount(es: seq<Info>, gone: set<Txid>, e: Info)
    ensures multiset(Keep(es, gone))[e] == if e.txid in gone then 0 else multiset(es)[e]
  {
    if es != [] {
      assert es == es[..|es| - 1] + [es[|es| - 1]];
      KeepCount(es[..|es| - 1], gone, e);
    }
  }

  /** `retain`: lists that become empty are dropped. */
  function Retain(lists: Lists, gone: set<Txid>): Lists {
    map s | s in lists && Keep(lists[s], gone) != [] :: Keep(lists[s], gone)
  }

  lemma {:induction false} RetainCount(lists: Lists, gone: set<Txid>, s: Script, e: Info)
    ensures Count(Retain(lists, gone), s, e) == if e.txid in gone then 0 else Count(lists, s, e)
  {
    KeepCount(At(lists, s), gone, e);
    assert At(Retain(lists, gone), s) == Keep(At(lists, s), gone);
  }

  lemma {:induction false} RetainExact(w: World, unspendables: bool, lists: Lists, done: set<Txid>, gone: set<Txid>)
    requires Exact(w, unspendables, lists, done)
    ensures Exact(w, unspendables, Retain(lists, gone), done - gone)
  {
    hide IsInfo, Count;
    forall s, e
      ensures Count(Retain(lists, gone), s, e) == Expected(w, unspendables, done - gone, s, e)
    {
      RetainCount(lists, gone, s, e);
    }
  }

  /** Adding the entries of one more transaction. */
  lemma {:induction false} PushExact(w: World, unspendables: bool, lists: Lists, done: set<Txid>, t: Txid,
                                     pairs: seq<Pair>, r: Lists)
    requires Exact(w, unspendables, lists, done) && t !in done && NoEmpty(r) && Pushed(lists, r, pairs)
    requires forall s, e :: multiset(pairs)[(s, e)] == if e.txid == t && IsInfo(w, unspendables, s, e) then 1 else 0
    ensures Exact(w, unspendables, r, done + {t})
  {
    hide IsInfo, Count;
    forall s, e
      ensures Count(r, s, e) == Expected(w, unspendables, done + {t}, s, e)
    {
      assert Count(r, s, e) == Count(lists, s, e) + multiset(pairs)[(s, e)];
    }
  }

  // ----- the entries of one transaction

  ghost predicate IsFund(tx: Tx, unspendables: bool, n: nat, s: Script, e: Info) {
    && e.Funding? && e.txid == tx.txid && e.vout < n && e.vout < |tx.outputs|
    && tx.outputs[e.vout].script == s && tx.outputs[e.vout].value == e.value
      && Indexed(tx.outputs[e.vout], unspendables)
  }

  ghost predicate IsSpend(tx: Tx, prevouts: map<nat, TxOut>, among: set<nat>, s: Script, e: Info) {
    && e.Spending? && e.txid == tx.txid && e.vin in among && e.vin in prevouts && e.vin < |tx.inputs|
    && tx.inputs[e.vin] == e.prev && prevouts[e.vin].script == s && prevouts[e.vin].value == e.value
  }

  ghost predicate FundCounts(tx: Tx, unspendables: bool, n: nat, pairs: seq<Pair>) {
    forall s, e :: multiset(pairs)[(s, e)] == if IsFund(tx, unspendables, n, s, e) then 1 else 0
  }

  ghost predicate SpendCounts(tx: Tx, prevouts: map<nat, TxOut>, among: set<nat>, pairs: seq<Pair>) {
    forall s, e :: multiset(pairs)[(s, e)] == if IsSpend(tx, prevouts, among, s, e) then 1 else 0
  }

  method FundPairs(tx: Tx, unspendables: bool) returns (pairs: seq<Pair>)
    ensures FundCounts(tx, unspendables, |tx.outputs|, pairs)
  {
    pairs := [];
    for i := 0 to |tx.outputs|
      invariant FundCounts(tx, unspendables, i, pairs)
    {
      if Indexed(tx.outputs[i], unspendables) {
        pairs := pairs + [(tx.outputs[i].script, Funding(tx.txid, i, tx.outputs[i].value))];
      }
    }
  }

  /** The table of previous outputs is walked in any order. */
  method SpendPairs(tx: Tx, prevouts: map<nat, TxOut>) returns (pairs: seq<Pair>)
    requires forall i :: i in prevouts ==> i < |tx.inputs|
    ensures SpendCounts(tx, prevouts, prevouts.Keys, pairs)
  {
    pairs := [];
    var rest := prevouts.Keys;
    while rest != {}
      invariant rest <= prevouts.Keys && SpendCounts(tx, prevouts, prevouts.Keys - rest, pairs)
      decreases rest
    {
      var i :| i in rest;
      pairs := pairs + [(prevouts[i].script, Spending(tx.txid, i, tx.inputs[i], prevouts[i].value))];
      rest := rest - {i};
    }
    assert prevouts.Keys - rest == prevouts.Keys;
  }

  /** The looked-up outputs of a transaction's inputs. */
  ghost predicate PrevoutsOf(w: World, tx: Tx, prevouts: map<nat, TxOut>) {
    && (forall i: nat :: i in prevouts <==> i < |tx.inputs| && HasPrevout(tx.inputs[i]))
    && (forall i :: i in prevouts ==> OutOf(w, tx.inputs[i]) == Some(prevouts[i]))
  }

  lemma {:induction false} AllPairs(w: World, unspendables: bool, tx: Tx, prevouts: map<nat, TxOut>,
                                    funds: seq<Pair>, spends: seq<Pair>)
    requires tx.txid in w && w[tx.txid] == tx && PrevoutsOf(w, tx, prevouts)
    requires FundCounts(tx, unspendables, |tx.outputs|, funds) && SpendCounts(tx, prevouts, prevouts.Keys, spends)
    ensures forall s, e :: multiset(funds + spends)[(s, e)] == if e.txid == tx.txid
            && IsInfo(w, unspendables, s, e) then 1 else 0
  {
    forall s, e
      ensures multiset(funds + spends)[(s, e)] == if e.txid == tx.txid && IsInfo(w, unspendables, s, e) then 1 else 0
    {
      assert multiset(funds + spends)[(s, e)] == multiset(funds)[(s, e)] + multiset(spends)[(s, e)];
      PairIs(w, unspendables, tx, prevouts, s, e);
    }
  }

  lemma {:induction false} PairIs(w: World, unspendables: bool, tx: Tx, prevouts: map<nat, TxOut>, s: Script, e: Info)
    requires tx.txid in w && w[tx.txid] == tx && PrevoutsOf(w, tx, prevouts)
    ensures e.txid == tx.txid && IsInfo(w, unspendables, s, e)
       <==> IsFund(tx, unspendables, |tx.outputs|, s, e) || IsSpend(tx, prevouts, prevouts.Keys, s, e)
  {
  }

  // ----- fees

  function PaidOut(tx: Tx, n: nat): nat
    requires n <= |tx.outputs|
  {
    if n == 0 then 0 else PaidOut(tx, n - 1) + tx.outputs[n - 1].value
  }

  function PaidIn(w: World, tx: Tx, n: nat): nat
    requires n <= |tx.inputs|
  {
    if n == 0 then 0
    else
      var o := tx.inputs[n - 1];
      PaidIn(w, tx, n - 1) + if HasPrevout(o) && OutOf(w, o).Some? then OutOf(w, o).value.value else 0
  }

  predicate IsCoinbase(tx: Tx) {
    |tx.inputs| == 1 && !HasPrevout(tx.inputs[0])
  }

  /** The fee as a u64, which wraps around in a build without overflow checks. */
  function Fee(w: World, tx: Tx): nat {
    if IsCoinbase(tx) then 0 else (PaidIn(w, tx, |tx.inputs|) - PaidOut(tx, |tx.outputs|)) % U64
  }

  lemma {:induction false} AddWraps(a: int, b: int)
    ensures (a % U64 + b) % U64 == (a + b) % U64 && (a % U64 - b % U64) % U64 == (a - b) % U64
  {
    var q, r := a / U64, b / U64;
    assert a + b == (a % U64 + b) + q * U64;
    WrapsTo(a + b, a % U64 + b, q);
    assert a - b == (a % U64 - b % U64) + (q - r) * U64;
    WrapsTo(a - b, a % U64 - b % U64, q - r);
  }

  lemma {:induction false} WrapsTo(a: int, b: int, k: int)
    requires a == b + k * U64
    ensures a % U64 == b % U64
  {
    var q := b / U64;
    assert a == (q + k) * U64 + b % U64;
  }

  /** The values of the first outputs. */
  function OutTable(tx: Tx, n: nat): map<nat, nat>
    requires n <= |tx.outputs|
  {
    map v: nat | v < n :: tx.outputs[v].value
  }

  /** The input spends an output that exists. */
  predicate Known(w: World, o: OutPoint) {
    o != OutPoint(0, 0xFFFF_FFFF) && o.txid in w && o.vout < |w[o.txid].outputs|
  }

  /** The values of the outputs that the first inputs spend. */
  function InTable(w: World, tx: Tx, n: nat): map<nat, nat>
    requires n <= |tx.inputs|
  {
    map v: nat | v < n && Known(w, tx.inputs[v]) :: w[tx.inputs[v].txid].outputs[tx.inputs[v].vout].value
  }

  /** What the outputs pay is the sum of their values. */
  lemma {:induction false} PaidOutIs(tx: Tx, n: nat)
    requires n <= |tx.outputs|
    ensures PaidOut(tx, n) == SumOf(OutTable(tx, n))
  {
    hide SumOf;
    if n == 0 {
      NoSum<nat>();
      assert OutTable(tx, n) == map[];
    } else {
      PaidOutIs(tx, n - 1);
      SumOfAdd<nat>(OutTable(tx, n - 1), n - 1, tx.outputs[n - 1].value);
      assert OutTable(tx, n) == OutTable(tx, n - 1)[n - 1 := tx.outputs[n - 1].value];
    }
  }

  /** What the inputs are worth is the sum of the values of the outputs that they spend. */
  lemma {:induction false} PaidInIs(w: World, tx: Tx, n: nat)
    requires n <= |tx.inputs|
    ensures PaidIn(w, tx, n) == SumOf(InTable(w, tx, n))
  {
    hide SumOf, InTable;
    InTableStep(w, tx, n);
    if n == 0 {
      NoSum<nat>();
    } else {
      PaidInIs(w, tx, n - 1);
      var o := tx.inputs[n - 1];
      if Known(w, o) {
        SumOfAdd<nat>(InTable(w, tx, n - 1), n - 1, w[o.txid].outputs[o.vout].value);
      }
    }
  }

  lemma {:induction false} InTableStep(w: World, tx: Tx, n: nat)
    requires n <= |tx.inputs|
    ensures n == 0 ==> InTable(w, tx, n) == map[]
    ensures n > 0 ==>
              var o, init := tx.inputs[n - 1], InTable(w, tx, n - 1);
              && n - 1 !in init
              && InTable(w, tx, n) == if Known(w, o) then init[n - 1 := w[o.txid].outputs[o.vout].value] else init
  {
  }

  method TotalIn(ghost w: World, tx: Tx, prevouts: map<nat, TxOut>) returns (total: nat)
    requires PrevoutsOf(w, tx, prevouts)
    ensures total == PaidIn(w, tx, |tx.inputs|) % U64
  {
    total := 0;
    for i := 0 to |tx.inputs|
      invariant total == PaidIn(w, tx, i) % U64
    {
      if i in prevouts {
        AddWraps(PaidIn(w, tx, i), prevouts[i].value);
        total := (total + prevouts[i].value) % U64;
      }
    }
  }

  method TotalOut(tx: Tx) returns (total: nat)
    ensures total == PaidOut(tx, |tx.outputs|) % U64
  {
    total := 0;
    for i := 0 to |tx.outputs|
      invariant total == PaidOut(tx, i) % U64
    {
      AddWraps(PaidOut(tx, i), tx.outputs[i].value);
      total := (total + tx.outputs[i].value) % U64;
    }
  }

  /** Nothing for a coinbase, and otherwise what the inputs are worth less what the outputs pay,
      exactly when that is an amount of 64 bits. */
  ghost predicate FeeRight(w: World, tx: Tx, fee: nat) {
    var paid := SumOf(InTable(w, tx, |tx.inputs|)) - SumOf(OutTable(tx, |tx.outputs|));
    if |tx.inputs| == 1 && tx.inputs[0] == OutPoint(0, 0xFFFF_FFFF) then fee == 0
    else fee == paid <==> 0 <= paid < 0x1_0000_0000_0000_0000
  }

  lemma {:induction false} FeeIs(w: World, tx: Tx)
    ensures FeeRight(w, tx, Fee(w, tx))
  {
    hide PaidIn, PaidOut, InTable, OutTable, SumOf;
    PaidInIs(w, tx, |tx.inputs|);
    PaidOutIs(tx, |tx.outputs|);
  }

  /** `get_tx_fee`: nothing for a coinbase, and otherwise what the inputs are worth less what the
      outputs pay, exactly when that is an amount at all. */
  method FeeOf(ghost w: World, tx: Tx, prevouts: map<nat, TxOut>) returns (fee: nat)
    requires PrevoutsOf(w, tx, prevouts)
    ensures fee == Fee(w, tx) && FeeRight(w, tx, fee)
  {
    hide PaidIn, PaidOut, PrevoutsOf, FeeRight;
    FeeIs(w, tx);
    if IsCoinbase(tx) {
      return 0;
    }
    var totalIn := TotalIn(w, tx, prevouts);
    var totalOut := TotalOut(tx);
    AddWraps(PaidIn(w, tx, |tx.inputs|), PaidOut(tx, |tx.outputs|));
    fee := (totalIn - totalOut) % U64;
  }

  // ----- edges

  type Edges = map<OutPoint, (Txid, nat)>

  /** Every edge names a processed transaction and its input that spends the outpoint. */
  ghost predicate Sound(w: World, edges: Edges, done: set<Txid>) {
    forall o :: o in edges ==> Spender(w, edges[o].0, edges[o].1, o) && edges[o].0 in done
  }

  ghost predicate Spender(w: World, t: Txid, i: nat, o: OutPoint) {
    t in w && i < |w[t].inputs| && w[t].inputs[i] == o
  }

  /** Every input of a processed transaction has an edge. */
  ghost predicate Complete(w: World, edges: Edges, done: set<Txid>) {
    forall t, i, o :: t in done && Spender(w, t, i, o) ==> o in edges
  }

  method AddEdges(ghost w: World, edges: Edges, tx: Tx, ghost done: set<Txid>) returns (r: Edges)
    requires tx.txid in w && w[tx.txid] == tx && Sound(w, edges, done)
    ensures Sound(w, r, done + {tx.txid})
    ensures Complete(w, edges, done) ==> Complete(w, r, done + {tx.txid})
    ensures r.Keys == edges.Keys + Inputs(tx)
    ensures forall o :: o in r ==> if o in tx.inputs then r[o].0 == tx.txid else r[o] == edges[o]
  {
    r := edges;
    for i := 0 to |tx.inputs|
      invariant Sound(w, r, done + {tx.txid})
      invariant forall o :: o in r <==> o in edges || o in tx.inputs[..i]
      invariant forall o :: o in r ==> if o in tx.inputs[..i] then r[o].0 == tx.txid else r[o] == edges[o]
    {
      assert tx.inputs[..i + 1] == tx.inputs[..i] + [tx.inputs[i]];
      r := r[tx.inputs[i] := (tx.txid, i)];
    }
    assert tx.inputs[..|tx.inputs|] == tx.inputs;
  }

  function RetainEdges(edges: Edges, gone: set<Txid>): Edges {
    map o | o in edges && edges[o].0 !in gone :: edges[o]
  }

  /** A removed transaction holds the edge of an outpoint that one that stays spends as well. */
  ghost predicate Strands(w: World, edges: Edges, done: set<Txid>, gone: set<Txid>) {
    exists o, t, i :: o in edges && edges[o].0 in gone && t in done - gone && Spender(w, t, i, o)
  }

  /** A removal keeps the edges complete exactly when it strands no spend. */
  lemma {:induction false} RemoveComplete(w: World, edges: Edges, done: set<Txid>, gone: set<Txid>)
    requires Complete(w, edges, done)
    ensures Complete(w, RetainEdges(edges, gone), done - gone) <==> !Strands(w, edges, done, gone)
  {
    hide Spender;
    var kept := RetainEdges(edges, gone);
    if Strands(w, edges, done, gone) {
      var o, t, i :| o in edges && edges[o].0 in gone && t in done - gone && Spender(w, t, i, o);
      assert o !in kept;
    } else {
      forall t, i, o | t in done - gone && Spender(w, t, i, o)
        ensures o in kept
      {
        assert o in edges;
      }
    }
  }

  ghost predicate NoConflict(w: World, done: set<Txid>) {
    forall t, u, i, j, o :: t in done && u in done && Spender(w, t, i, o) && Spender(w, u, j, o) ==> t == u
  }

  lemma {:induction false} ConflictFreeStay(w: World, edges: Edges, done: set<Txid>, gone: set<Txid>)
    requires Sound(w, edges, done) && NoConflict(w, done)
    ensures !Strands(w, edges, done, gone)
  {
    hide Spender;
  }

  // ----- edges over a whole run

  /** What has happened to the index: a transaction was processed, or some were removed. */
  datatype Event = Processed(t: Txid) | Removed(gone: set<Txid>)

  ghost predicate SpendsIt(w: World, t: Txid, o: OutPoint) {
    t in w && o in w[t].inputs
  }

  /** The last event that processed a spender of the outpoint. */
  ghost predicate Newest(w: World, events: seq<Event>, o: OutPoint, k: nat) {
    && k < |events| && events[k].Processed? && SpendsIt(w, events[k].t, o)
    && forall j :: k < j < |events| && events[j].Processed? ==> !SpendsIt(w, events[j].t, o)
  }

  /** The event processed the transaction, which has not been removed since. */
  ghost predicate Stays(events: seq<Event>, k: nat, t: Txid) {
    && k < |events| && events[k] == Processed(t)
    && forall j :: k < j < |events| && events[j].Removed? ==> t !in events[j].gone
  }

  ghost predicate Kept(events: seq<Event>, k: nat) {
    k < |events| && events[k].Processed? && Stays(events, k, events[k].t)
  }

  /** The processed transactions and the edges are those that the events leave: an outpoint has
      an edge while the last spender that was processed stays. */
  ghost predicate Logged(w: World, events: seq<Event>, edges: Edges, done: set<Txid>) {
    && (forall t :: t in done <==> exists k: nat :: Stays(events, k, t))
    && (forall o :: o in edges ==> exists k: nat :: Newest(w, events, o, k) && Stays(events, k, edges[o].0))
    && (forall o, k: nat, t :: Newest(w, events, o, k) && Stays(events, k, t) ==> o in edges)
  }

  lemma {:induction false} AfterProcessed(w: World, events: seq<Event>, tx: Tx, o: OutPoint, k: nat, t: Txid)
    requires tx.txid in w && w[tx.txid] == tx
    ensures var next := events + [Processed(tx.txid)];
            && (Stays(next, k, t) <==> Stays(events, k, t) || (k == |events| && t == tx.txid))
            && (Newest(w, next, o, k) <==> if o in tx.inputs then k == |events| else Newest(w, events, o, k))
  {
    var next := events + [Processed(tx.txid)];
    assert next[|events|] == Processed(tx.txid) && forall j :: 0 <= j < |events| ==> next[j] == events[j];
  }

  lemma {:induction false} AfterRemoved(w: World, events: seq<Event>, gone: set<Txid>, o: OutPoint, k: nat, t: Txid)
    ensures var next := events + [Removed(gone)];
            && (Stays(next, k, t) <==> Stays(events, k, t) && t !in gone)
            && (Newest(w, next, o, k) <==> Newest(w, events, o, k))
  {
    var next := events + [Removed(gone)];
    assert next[|events|] == Removed(gone) && forall j :: 0 <= j < |events| ==> next[j] == events[j];
  }

  lemma {:induction false} LoggedProcessed(w: World, events: seq<Event>, edges: Edges, done: set<Txid>, tx: Tx,
                                           edges': Edges)
    requires Logged(w, events, edges, done) && tx.txid in w && w[tx.txid] == tx
    requires edges'.Keys == edges.Keys + Inputs(tx)
    requires forall o :: o in edges' ==> if o in tx.inputs then edges'[o].0 == tx.txid else edges'[o] == edges[o]
    ensures Logged(w, events + [Processed(tx.txid)], edges', done + {tx.txid})
  {
    hide Newest, Stays;
    var next, n := events + [Processed(tx.txid)], |events|;
    forall k: nat, t
      ensures Stays(next, k, t) <==> Stays(events, k, t) || (k == n && t == tx.txid)
    {
      AfterProcessed(w, events, tx, NULL_OUTPOINT, k, t);
    }
    forall o, k: nat
      ensures Newest(w, next, o, k) <==> if o in tx.inputs then k == n else Newest(w, events, o, k)
    {
      AfterProcessed(w, events, tx, o, k, tx.txid);
    }
    assert Stays(next, n, tx.txid);
    forall o, k: nat, t | Newest(w, next, o, k) && Stays(next, k, t)
      ensures o in edges'
    {
      if o !in tx.inputs {
        NewestWithin(w, events, o, k);
      }
    }
    forall o | o in edges'
      ensures exists k: nat :: Newest(w, next, o, k) && Stays(next, k, edges'[o].0)
    {
      if o in tx.inputs {
        assert Newest(w, next, o, n);
      } else {
        var k: nat :| Newest(w, events, o, k) && Stays(events, k, edges[o].0);
        assert Newest(w, next, o, k) && Stays(next, k, edges'[o].0);
      }
    }
  }

  lemma {:induction false} LoggedRemoved(w: World, events: seq<Event>, edges: Edges, done: set<Txid>, gone: set<Txid>)
    requires Logged(w, events, edges, done)
    ensures Logged(w, events + [Removed(gone)], RetainEdges(edges, gone), done - gone)
  {
    hide Newest, Stays;
    var next, kept := events + [Removed(gone)], RetainEdges(edges, gone);
    forall k: nat, t
      ensures Stays(next, k, t) <==> Stays(events, k, t) && t !in gone
    {
      AfterRemoved(w, events, gone, NULL_OUTPOINT, k, t);
    }
    forall o, k: nat
      ensures Newest(w, next, o, k) <==> Newest(w, events, o, k)
    {
      AfterRemoved(w, events, gone, o, k, 0);
    }
    forall o | o in kept
      ensures exists k: nat :: Newest(w, next, o, k) && Stays(next, k, kept[o].0)
    {
      var k: nat :| Newest(w, events, o, k) && Stays(events, k, edges[o].0);
      assert Newest(w, next, o, k) && Stays(next, k, kept[o].0);
    }
    forall o, k: nat, t | Newest(w, next, o, k) && Stays(next, k, t)
      ensures o in kept
    {
      assert Newest(w, events, o, k) && Stays(events, k, t);
      var j: nat :| Newest(w, events, o, j) && Stays(events, j, edges[o].0);
      OneNewest(w, events, o, j, k);
      OneAt(events, k, t, edges[o].0);
    }
  }

  lemma {:induction false} OneNewest(w: World, events: seq<Event>, o: OutPoint, j: nat, k: nat)
    requires Newest(w, events, o, j) && Newest(w, events, o, k)
    ensures j == k
  {
  }

  lemma {:induction false} NewestWithin(w: World, events: seq<Event>, o: OutPoint, k: nat)
    requires Newest(w, events, o, k)
    ensures k < |events|
  {
  }

  lemma {:induction false} OneAt(events: seq<Event>, k: nat, t: Txid, u: Txid)
    requires Stays(events, k, t) && Stays(events, k, u)
    ensures t == u
  {
  }

  lemma {:induction false} HasNewest(w: World, events: seq<Event>, o: OutPoint, m: nat) returns (k: nat)
    requires m < |events| && events[m].Processed? && SpendsIt(w, events[m].t, o)
    ensures Newest(w, events, o, k)
  {
    hide SpendsIt;
    k := m;
    for j := m + 1 to |events|
      invariant k < j && events[k].Processed? && SpendsIt(w, events[k].t, o)
      invariant forall i :: k < i < j && events[i].Processed? ==> !SpendsIt(w, events[i].t, o)
    {
      if events[j].Processed? && SpendsIt(w, events[j].t, o) {
        k := j;
      }
    }
  }

  /** The last spender that was processed has been removed, and an earlier one stays. */
  ghost predicate Deserted(w: World, events: seq<Event>, o: OutPoint) {
    && (exists k: nat :: Newest(w, events, o, k) && !Kept(events, k))
    && (exists j: nat, t :: Stays(events, j, t) && SpendsIt(w, t, o))
  }

  /** After any run, every spend has its edge if and only if no outpoint is deserted. */
  lemma {:induction false} CompleteIff(w: World, events: seq<Event>, edges: Edges, done: set<Txid>)
    requires Logged(w, events, edges, done)
    ensures Complete(w, edges, done) <==> forall o :: !Deserted(w, events, o)
  {
    hide Newest, Stays;
    if o :| Deserted(w, events, o) {
      var k: nat :| Newest(w, events, o, k) && !Kept(events, k);
      var j: nat, t :| Stays(events, j, t) && SpendsIt(w, t, o);
      assert t in done;
      NoEdge(w, events, edges, done, o, k);
      var i :| 0 <= i < |w[t].inputs| && w[t].inputs[i] == o;
      assert Spender(w, t, i, o);
    } else {
      forall t, i, o | t in done && Spender(w, t, i, o)
        ensures o in edges
      {
        assert !Deserted(w, events, o);
        KeptEdge(w, events, edges, done, t, o);
      }
    }
  }

  lemma {:induction false} NoEdge(w: World, events: seq<Event>, edges: Edges, done: set<Txid>, o: OutPoint, k: nat)
    requires Logged(w, events, edges, done) && Newest(w, events, o, k) && !Kept(events, k)
    ensures o !in edges
  {
  }

  lemma {:induction false} KeptEdge(w: World, events: seq<Event>, edges: Edges, done: set<Txid>, t: Txid, o: OutPoint)
    requires Logged(w, events, edges, done) && t in done && SpendsIt(w, t, o) && !Deserted(w, events, o)
    ensures o in edges
  {
    var m: nat :| Stays(events, m, t);
    var k := HasNewest(w, events, o, m);
    assert Kept(events, k);
  }

  // ----- the mempool

  /** Fee information exists for exactly the processed transactions, which are stored; the
      history lists hold exactly their entries, and the edges name them. */
  ghost predicate Good(w: World, unspendables: bool, txstore: map<Txid, Tx>, feeinfo: map<Txid, nat>, lists: Lists,
                       edges: Edges) {
    && Sane(w) && Stored(w, txstore) && feeinfo.Keys <= txstore.Keys
    && (forall t :: t in feeinfo ==> t in w && feeinfo[t] == Fee(w, w[t]))
    && Exact(w, unspendables, lists, feeinfo.Keys) && Sound(w, edges, feeinfo.Keys)
  }

  ghost predicate Stored(w: World, txstore: map<Txid, Tx>) {
    forall t :: t in txstore ==> t in w && w[t] == txstore[t]
  }

  lemma {:induction false} GoodGives(w: World, unspendables: bool, txstore: map<Txid, Tx>, feeinfo: map<Txid, nat>,
                                     lists: Lists, edges: Edges)
    requires Good(w, unspendables, txstore, feeinfo, lists, edges)
    ensures Sane(w) && Stored(w, txstore) && feeinfo.Keys <= txstore.Keys && NoEmpty(lists)
    ensures Exact(w, unspendables, lists, feeinfo.Keys) && Sound(w, edges, feeinfo.Keys)
  {
  }

  lemma {:induction false} StoreMore(w: World, unspendables: bool, txstore: map<Txid, Tx>, feeinfo: map<Txid, nat>,
                                     lists: Lists, edges: Edges, tx: Tx)
    requires Good(w, unspendables, txstore, feeinfo, lists, edges) && tx.txid in w && w[tx.txid] == tx
    ensures Good(w, unspendables, txstore[tx.txid := tx], feeinfo, lists, edges)
  {
    hide Exact, Sound, Fee;
  }

  lemma {:induction false} ProcessedOne(w: World, unspendables: bool, txstore: map<Txid, Tx>,
                                        feeinfo: map<Txid, nat>, lists: Lists, edges: Edges,
                                        tx: Tx, fee: nat, lists': Lists, edges': Edges)
    requires Good(w, unspendables, txstore, feeinfo, lists, edges) && tx.txid in txstore && tx.txid in w
             && fee == Fee(w, w[tx.txid])
    requires Exact(w, unspendables, lists', feeinfo.Keys + {tx.txid}) && Sound(w, edges', feeinfo.Keys + {tx.txid})
    ensures Good(w, unspendables, txstore, feeinfo[tx.txid := fee], lists', edges')
  {
    hide Exact, Sound, Fee;
    assert feeinfo[tx.txid := fee].Keys == feeinfo.Keys + {tx.txid};
  }

  lemma {:induction false} RemovedAll(w: World, unspendables: bool, txstore: map<Txid, Tx>, feeinfo: map<Txid, nat>,
                                      lists: Lists, edges: Edges, gone: set<Txid>)
    requires Good(w, unspendables, txstore, feeinfo, lists, edges)
    ensures Good(w, unspendables, txstore - gone, feeinfo - gone, Retain(lists, gone), RetainEdges(edges, gone))
  {
    hide Exact, Fee, Spender;
    RetainExact(w, unspendables, lists, feeinfo.Keys, gone);
    assert (feeinfo - gone).Keys == feeinfo.Keys - gone;
  }

  lemma {:induction false} EmptyGood(w: World, unspendables: bool)
    requires Sane(w)
    ensures Good(w, unspendables, map[], map[], map[], map[]) && Logged(w, [], map[], {})
  {
  }

  /** Of these transactions the same are processed as before. */
  ghost predicate SameDone(among: set<Txid>, before: set<Txid>, after: set<Txid>) {
    forall t :: t in among ==> (t in before <==> t in after)
  }

  /** Of these transactions those whose inputs are all found are processed. */
  ghost predicate DoneIff(w: World, among: set<Txid>, done: set<Txid>, confirmed: map<OutPoint, TxOut>,
                          txstore: map<Txid, Tx>) {
    forall t :: t in among ==> (t in done <==> AllFound(w, t, confirmed, txstore))
  }

  /** The new transactions whose inputs are all found are processed too, and no others. */
  ghost predicate Adds(w: World, before: set<Txid>, after: set<Txid>, unknown: set<Txid>,
                       confirmed: map<OutPoint, TxOut>, txstore: map<Txid, Tx>) {
    forall t :: t in after <==> t in before || (t in unknown && AllFound(w, t, confirmed, txstore))
  }

  class Pool {
    var txstore: map<Txid, Tx>
    var feeinfo: map<Txid, nat>
    var history: Lists
    var edges: Edges
    const unspendables: bool
    ghost var events: seq<Event>

    ghost predicate Valid(w: World)
      reads this
    {
      Good(w, unspendables, txstore, feeinfo, history, edges) && Logged(w, events, edges, feeinfo.Keys)
    }

    constructor (unspendables: bool)
      ensures txstore == map[] && feeinfo == map[] && history == map[] && edges == map[]
              && events == [] && this.unspendables == unspendables
      ensures forall w :: Sane(w) ==> Valid(w)
    {
      txstore, feeinfo, history, edges, events := map[], map[], map[], map[], [];
      this.unspendables := unspendables;
      new;
      forall w | Sane(w)
        ensures Valid(w)
      {
        EmptyGood(w, unspendables);
        assert feeinfo.Keys == {};
      }
    }

    /** Phase 3 of `add` for one transaction whose inputs were all found. */
    method Process(ghost w: World, tx: Tx, prevouts: map<nat, TxOut>)
      requires Valid(w) && tx.txid in txstore && tx.txid !in feeinfo && tx.txid in w && tx == w[tx.txid]
               && PrevoutsOf(w, tx, prevouts)
      modifies this`feeinfo, this`history, this`edges, this`events
      ensures Valid(w) && feeinfo.Keys == old(feeinfo.Keys) + {tx.txid} && events == old(events) + [Processed(tx.txid)]
      ensures Complete(w, old(edges), old(feeinfo.Keys)) ==> Complete(w, edges, feeinfo.Keys)
      ensures Longer(old(history), history) && old(events) <= events
    {
      hide Logged, Exact, Sound, Complete, FundCounts, SpendCounts, IsInfo, Good, Stored, Sane, NoEmpty;
      ghost var done := feeinfo.Keys;
      GoodGives(w, unspendables, txstore, feeinfo, history, edges);
      assert tx.txid !in done;
      PrevoutsWithin(w, tx, prevouts);
      var fee := FeeOf(w, tx, prevouts);
      var funds := FundPairs(tx, unspendables);
      var spends := SpendPairs(tx, prevouts);
      AllPairs(w, unspendables, tx, prevouts, funds, spends);
      var lists := PushAll(history, funds + spends);
      PushExact(w, unspendables, history, done, tx.txid, funds + spends, lists);
      var all := AddEdges(w, edges, tx, done);
      ProcessedOne(w, unspendables, txstore, feeinfo, history, edges, tx, fee, lists, all);
      LoggedProcessed(w, events, edges, done, tx, all);
      feeinfo, history, edges := feeinfo[tx.txid := fee], lists, all;
      events := events + [Processed(tx.txid)];
      assert feeinfo.Keys == done + {tx.txid};
    }

    /** Phase 1 of `add`: stores transactions and lists the new ones. */
    method StoreTxs(ghost w: World, txs: seq<Tx>) returns (txids: seq<Txid>)
      requires Valid(w) && forall tx :: tx in txs ==> tx.txid in w && w[tx.txid] == tx
      modifies this`txstore
      ensures Valid(w) && txstore.Keys == old(txstore.Keys) + Ids(txs)
      ensures forall i, j :: 0 <= i < j < |txids| ==> txids[i] != txids[j]
      ensures forall t :: t in txids <==> t in Ids(txs) && t !in old(txstore)
    {
      hide Good, Logged;
      txids := [];
      for n := 0 to |txs|
        invariant Valid(w) && txstore.Keys == old(txstore.Keys) + Ids(txs[..n])
        invariant forall i, j :: 0 <= i < j < |txids| ==> txids[i] != txids[j]
        invariant forall t :: t in txids <==> t in Ids(txs[..n]) && t !in old(txstore)
      {
        var tx := txs[n];
        assert tx in txs && Ids(txs[..n + 1]) == Ids(txs[..n]) + {tx.txid} by {
          assert txs[..n + 1] == txs[..n] + [tx];
        }
        var known := tx.txid in txstore;
        StoreMore(w, unspendables, txstore, feeinfo, history, edges, tx);
        txstore := txstore[tx.txid := tx];
        if !known {
          txids := txids + [tx.txid];
        }
      }
      assert txs[..|txs|] == txs;
    }

    /** Phase 2 of `add`: the outputs that new transactions spend, confirmed or in the mempool.
        None stands for the "missing mempool tx" panic. */
    method LookupPrevouts(ghost w: World, txids: seq<Txid>,
                          confirmed: map<OutPoint, TxOut>) returns (txos: Option<map<OutPoint, TxOut>>)
      requires Valid(w) && forall o :: o in confirmed ==> OutOf(w, o) == Some(confirmed[o])
      ensures txos.Some? <==> forall t :: t in txids ==> t in txstore
      ensures txos.Some? ==> TxosRight(w, txids, confirmed, txstore, txos.value)
    {
      hide Good, Logged, Found, OutOf;
      GoodGives(w, unspendables, txstore, feeinfo, history, edges);
      var all: map<OutPoint, TxOut> := map[];
      for n := 0 to |txids|
        invariant forall k :: 0 <= k < n ==> txids[k] in txstore
        invariant forall o :: o in all <==> Wanted(w, txids[..n], o) && Found(o, confirmed, txstore)
        invariant forall o :: o in all ==> OutOf(w, o) == Some(all[o])
      {
        assert txids[n] in txids;
        if txids[n] !in txstore {
          return None;
        }
        var more := FoundOf(w, txstore[txids[n]], confirmed);
        assert forall o :: Wanted(w, txids[..n + 1], o) <==> Wanted(w, txids[..n], o) || WantedBy(w, txids[n], o) by {
          assert txids[..n + 1] == txids[..n] + [txids[n]];
        }
        all := all + more;
      }
      assert txids[..|txids|] == txids;
      return Some(all);
    }

    method FoundOf(ghost w: World, tx: Tx, confirmed: map<OutPoint, TxOut>) returns (found: map<OutPoint, TxOut>)
      requires Valid(w) && tx.txid in w && w[tx.txid] == tx
               && forall o :: o in confirmed ==> OutOf(w, o) == Some(confirmed[o])
      ensures forall o :: o in found <==> WantedBy(w, tx.txid, o) && Found(o, confirmed, txstore)
      ensures forall o :: o in found ==> OutOf(w, o) == Some(found[o])
    {
      hide Good, Logged;
      GoodGives(w, unspendables, txstore, feeinfo, history, edges);
      found := map[];
      for i := 0 to |tx.inputs|
        invariant forall o :: o in found <==> o in tx.inputs[..i] && HasPrevout(o) && Found(o, confirmed, txstore)
        invariant forall o :: o in found ==> OutOf(w, o) == Some(found[o])
      {
        var o := tx.inputs[i];
        assert tx.inputs[..i + 1] == tx.inputs[..i] + [o];
        if HasPrevout(o) {
          if o in confirmed {
            found := found[o := confirmed[o]];
          } else if o.txid in txstore && o.vout < |txstore[o.txid].outputs| {
            found := found[o := txstore[o.txid].outputs[o.vout]];
          }
        }
      }
      assert tx.inputs[..|tx.inputs|] == tx.inputs;
    }

    /** Processes a stored transaction if all its inputs were found. */
    method TryProcess(ghost w: World, ghost txids: seq<Txid>, t: Txid, ghost confirmed: map<OutPoint, TxOut>,
                      txos: map<OutPoint, TxOut>)
      returns (processed: bool)
      requires Valid(w) && t in txstore && t !in feeinfo && t in txids
      requires TxosRight(w, txids, confirmed, txstore, txos)
      modifies this`feeinfo, this`history, this`edges, this`events
      ensures Valid(w) && (processed <==> AllFound(w, t, confirmed, txstore))
      ensures feeinfo.Keys == old(feeinfo.Keys) + if processed then {t} else {}
      ensures Complete(w, old(edges), old(feeinfo.Keys)) ==> Complete(w, edges, feeinfo.Keys)
      ensures Longer(old(history), history) && old(events) <= events
    {
      hide Good, Logged, Complete, PrevoutsOf, AllFound, Wanted, OutOf, Found;
      GoodGives(w, unspendables, txstore, feeinfo, history, edges);
      var prevouts := ExtractPrevouts(w, txstore[t], txos);
      FoundIff(w, txids, t, confirmed, txstore, txos);
      if prevouts.None? {
        return false;
      }
      Process(w, txstore[t], prevouts.value);
      return true;
    }

    /** Phase 3 of `add`. */
    method ProcessAll(ghost w: World, txids: seq<Txid>, ghost confirmed: map<OutPoint, TxOut>,
                      txos: map<OutPoint, TxOut>) returns (count: nat)
      requires Valid(w) && (forall i :: 0 <= i < |txids| ==> txids[i] in txstore && txids[i] !in feeinfo)
      requires forall i, j :: 0 <= i < j < |txids| ==> txids[i] != txids[j]
      requires TxosRight(w, txids, confirmed, txstore, txos)
      modifies this`feeinfo, this`history, this`edges, this`events
      ensures Valid(w) && feeinfo.Keys == old(feeinfo.Keys) + Processable(w, txids, |txids|, confirmed, txstore)
      ensures count == HowMany(w, txids, |txids|, confirmed, txstore)
      ensures Complete(w, old(edges), old(feeinfo.Keys)) ==> Complete(w, edges, feeinfo.Keys)
      ensures Longer(old(history), history) && old(events) <= events
    {
      hide *;
      NoneProcessable(w, txids, confirmed, txstore);
      LongerStill(history, history, history);
      count := 0;
      for n := 0 to |txids|
        invariant Valid(w) && feeinfo.Keys == old(feeinfo.Keys) + Processable(w, txids, n, confirmed, txstore)
        invariant count == HowMany(w, txids, n, confirmed, txstore)
        invariant Complete(w, old(edges), old(feeinfo.Keys)) ==> Complete(w, edges, feeinfo.Keys)
        invariant Longer(old(history), history) && old(events) <= events
      {
        OneMore(w, txids, n, confirmed, txstore);
        HowManyNext(w, txids, n, confirmed, txstore);
        ghost var got, lists := Processable(w, txids, n, confirmed, txstore), history;
        var processed := TryProcess(w, txids, txids[n], confirmed, txos);
        LongerStill(old(history), lists, history);
        if processed {
          count := count + 1;
          assert old(feeinfo.Keys) + got + {txids[n]} == old(feeinfo.Keys) + (got + {txids[n]});
        }
      }
    }

    /** Adds transactions; returns how many were processed. Those with an input that is neither
        confirmed nor stored stay stored but unprocessed. */
    method Add(ghost w: World, txs: seq<Tx>, confirmed: map<OutPoint, TxOut>) returns (count: nat)
      requires Valid(w) && (forall tx :: tx in txs ==> tx.txid in w && w[tx.txid] == tx)
      requires forall o :: o in confirmed ==> OutOf(w, o) == Some(confirmed[o])
      modifies this
      ensures Valid(w) && txstore.Keys == old(txstore.Keys) + Ids(txs)
      ensures Adds(w, old(feeinfo.Keys), feeinfo.Keys, Ids(txs) - old(txstore.Keys), confirmed, txstore)
      ensures count == |feeinfo.Keys - old(feeinfo.Keys)|
      ensures Complete(w, old(edges), old(feeinfo.Keys)) ==> Complete(w, edges, feeinfo.Keys)
      ensures Longer(old(history), history) && old(events) <= events
    {
      hide Good, Logged, Complete, AllFound, TxosRight, OutOf, Ids, Processable, Adds, Longer;
      GoodGives(w, unspendables, txstore, feeinfo, history, edges);
      var txids := StoreTxs(w, txs);
      assert forall i :: 0 <= i < |txids| ==> txids[i] in txids;
      var txos := LookupPrevouts(w, txids, confirmed);
      count := ProcessAll(w, txids, confirmed, txos.value);
      AddsIs(w, old(feeinfo.Keys), feeinfo.Keys, Ids(txs) - old(txstore.Keys), txids, confirmed, txstore);
      HowManyIs(w, txids, |txids|, confirmed, txstore);
    }

    /** Removes transactions. False stands for the "missing mempool tx" panic, which happens
        exactly when one of them is not stored. */
    method Remove(ghost w: World, gone: set<Txid>) returns (ok: bool)
      requires Valid(w)
      modifies this
      ensures ok <==> gone <= old(txstore.Keys)
      ensures ok ==> Valid(w) && txstore.Keys == old(txstore.Keys) - gone && feeinfo.Keys == old(feeinfo.Keys) - gone
      ensures ok ==> history == Retain(old(history), gone) && edges == RetainEdges(old(edges), gone)
      ensures ok ==> events == old(events) + [Removed(gone)]
      ensures ok && Complete(w, old(edges), old(feeinfo.Keys)) ==>
                (Complete(w, edges, feeinfo.Keys) <==> !Strands(w, old(edges), old(feeinfo.Keys), gone))
    {
      hide Good, Logged, Complete, Strands;
      if !(gone <= txstore.Keys) {
        return false;
      }
      RemovedAll(w, unspendables, txstore, feeinfo, history, edges, gone);
      if Complete(w, edges, feeinfo.Keys) {
        RemoveComplete(w, edges, feeinfo.Keys, gone);
      }
      LoggedRemoved(w, events, edges, feeinfo.Keys, gone);
      assert (feeinfo - gone).Keys == feeinfo.Keys - gone;
      txstore, feeinfo := txstore - gone, feeinfo - gone;
      history, edges := Retain(history, gone), RetainEdges(edges, gone);
      events := events + [Removed(gone)];
      return true;
    }

    /** Fetches one transaction and adds it unless it is stored already; false is the "missing
        parents" error. */
    method AddByTxid(net: World, t: Txid, fetched: Option<Tx>, confirmed: map<OutPoint, TxOut>) returns (ok: bool)
      requires Valid(net) && Arrives(net, t, fetched, confirmed)
      modifies this
      ensures Valid(net)
      ensures txstore.Keys == old(txstore.Keys) + if fetched.Some? then {t} else {}
      ensures ok <==> old(t in txstore) || fetched.None? || t in feeinfo
      ensures SameDone(old(txstore.Keys), old(feeinfo.Keys), feeinfo.Keys)
      ensures Complete(net, old(edges), old(feeinfo.Keys)) ==> Complete(net, edges, feeinfo.Keys)
      ensures Longer(old(history), history) && old(events) <= events
    {
      hide Good, Logged, Complete, OutOf, AllFound, Adds, SameDone, Longer, Ids;
      GoodGives(net, unspendables, txstore, feeinfo, history, edges);
      LongerStill(history, history, history);
      SameAsBefore(txstore.Keys, feeinfo.Keys);
      ok := true;
      if t !in txstore && fetched.Some? {
        ghost var stored, done := txstore.Keys, feeinfo.Keys;
        OneId(fetched.value);
        var count := Add(net, [fetched.value], confirmed);
        AddsOne(net, stored, done, feeinfo.Keys, t, confirmed, txstore);
        NewKeys(done, feeinfo.Keys, t);
        ok := count != 0;
      }
    }

    /** Any number of single additions by other threads, while no lock is held. */
    method Others(net: World) returns (ghost more: set<Txid>)
      requires Valid(net)
      modifies this
      ensures Valid(net) && txstore.Keys == old(txstore.Keys) + more && more <= net.Keys
      ensures SameDone(old(txstore.Keys), old(feeinfo.Keys), feeinfo.Keys)
      ensures Complete(net, old(edges), old(feeinfo.Keys)) ==> Complete(net, edges, feeinfo.Keys)
      ensures Longer(old(history), history) && old(events) <= events
    {
      hide Good, Logged, Complete;
      more := {};
      var calls: nat :| true;
      for i := 0 to calls
        invariant Valid(net) && txstore.Keys == old(txstore.Keys) + more && more <= net.Keys
        invariant SameDone(old(txstore.Keys), old(feeinfo.Keys), feeinfo.Keys)
        invariant Complete(net, old(edges), old(feeinfo.Keys)) ==> Complete(net, edges, feeinfo.Keys)
        invariant Longer(old(history), history) && old(events) <= events
      {
        assert Arrives(net, 0, None, map[]);
        var t: Txid, fetched: Option<Tx>, confirmed: map<OutPoint, TxOut> :| Arrives(net, t, fetched, confirmed);
        var _ := AddByTxid(net, t, fetched, confirmed);
        more := more + if fetched.Some? then {t} else {};
      }
    }

    /** One update, with single additions between its phases. It cannot panic. It fails, having
        done nothing, when the node does not list its transactions, and having only removed some
        when the node does not give the new ones, or too many of them are gone meanwhile.
        Afterwards exactly these are stored: those that stayed, the new ones that the node still
        had, and those added meanwhile. Of those that stayed the same are processed as before, and
        of the new ones those whose inputs are all found. */
    method Update(net: World, listed: Option<set<Txid>>, missing: set<Txid>, reachable: bool,
                  confirmed: map<OutPoint, TxOut>) returns (ok: bool, ghost more: set<Txid>)
      requires Valid(net) && (listed.Some? ==> listed.value <= net.Keys)
      requires forall o :: o in confirmed ==> OutOf(net, o) == Some(confirmed[o])
      modifies this
      ensures Valid(net) && more <= net.Keys
      ensures ok <==> listed.Some? && reachable && FewMissing(listed.value - old(txstore.Keys), missing)
      ensures listed.None? ==> txstore.Keys == old(txstore.Keys) + more
      ensures listed.Some? ==>
                var got := if ok then listed.value - old(txstore.Keys) - missing else {};
                && txstore.Keys == old(txstore.Keys) * listed.value + got + more
                && SameDone(old(txstore.Keys) * listed.value, old(feeinfo.Keys), feeinfo.Keys)
                && DoneIff(net, got - more, feeinfo.Keys, confirmed, txstore)
      ensures old(events) <= events && (Complete(net, edges, feeinfo.Keys) <==> forall o :: !Deserted(net, events, o))
      ensures Complete(net, old(edges), old(feeinfo.Keys)) && NoConflict(net, old(txstore.Keys) + txstore.Keys) ==>
                Complete(net, edges, feeinfo.Keys)
    {
      hide *;
      var before := txstore.Keys;
      ghost var first := Others(net);
      if listed.None? {
        NoneDeserted(net);
        return false, first;
      }
      Gives(net);
      ghost var edgesThen, doneThen, gone := edges, feeinfo.Keys, before - listed.value;
      ghost var doneFirst := old(feeinfo.Keys);
      var removed := Remove(net, before - listed.value);
      if !removed {
        return false, {}; // a transaction to remove is not stored
      }
      ghost var second := Others(net);
      Gives(net);
      more := (first - gone) + second;
      ghost var storedLast, doneLast := txstore.Keys, feeinfo.Keys;
      var txs := GetTransactions(net, listed.value - before, missing, reachable);
      if txs.Some? {
        var _ := Add(net, txs.value, confirmed);
      }
      ok := txs.Some?;
      Balance(before, first, second, listed.value, missing);
      StayedDone(before, first, second, listed.value, doneFirst, doneThen, doneLast);
      DoneNone(net, more, feeinfo.Keys, confirmed, txstore);
      if ok {
        NewDone(net, before, first, second, listed.value, missing, doneLast, feeinfo.Keys, confirmed, txstore);
        SameStill(before * listed.value, doneFirst, doneLast, feeinfo.Keys);
      }
      KeptComplete(net, edgesThen, doneThen, gone, old(txstore.Keys) + txstore.Keys);
      NoneDeserted(net);
    }

    /** In every state of the index, every spend has its edge if and only if no outpoint is
        deserted. */
    lemma NoneDeserted(w: World)
      requires Valid(w)
      ensures Complete(w, edges, feeinfo.Keys) <==> forall o :: !Deserted(w, events, o)
    {
      hide *;
      Gives(w);
      CompleteIff(w, events, edges, feeinfo.Keys);
    }

    /** Every entry belongs to a stored transaction. */
    lemma EntryStored(w: World, s: Script, e: Info)
      requires Valid(w) && e in At(history, s)
      ensures e.txid in feeinfo && e.txid in txstore && IsInfo(w, unspendables, s, e)
    {
      hide IsInfo;
      assert Count(history, s, e) == Expected(w, unspendables, feeinfo.Keys, s, e);
    }

    /** The stored fee of a processed transaction. */
    lemma StoredFee(w: World, t: Txid)
      requires Valid(w) && t in feeinfo
      ensures t in w && FeeRight(w, w[t], feeinfo[t])
    {
      hide Exact, Sound, Stored, Logged, FeeRight, Fee, Sane;
      FeeIs(w, w[t]);
    }

    /** The funding entries of a script: the outputs of processed transactions that pay to it and
        are spendable, or unspendable ones are indexed too; each once. */
    lemma FundingEntries(w: World, s: Script, t: Txid, v: nat, value: nat)
      requires Valid(w)
      ensures multiset(At(history, s))[Funding(t, v, value)] <= 1
      ensures Funding(t, v, value) in At(history, s) <==>
                && t in feeinfo && t in w && v < |w[t].outputs| && w[t].outputs[v].script == s
                && w[t].outputs[v].value == value && (w[t].outputs[v].spendable || unspendables)
    {
      var e := Funding(t, v, value);
      assert Count(history, s, e) == Expected(w, unspendables, feeinfo.Keys, s, e);
      assert e in At(history, s) <==> e in multiset(At(history, s));
    }

    /** The spending entries of a script: the inputs of processed transactions that spend an output
        which pays to it; each once. */
    lemma SpendingEntries(w: World, s: Script, t: Txid, v: nat, prev: OutPoint, value: nat)
      requires Valid(w)
      ensures multiset(At(history, s))[Spending(t, v, prev, value)] <= 1
      ensures Spending(t, v, prev, value) in At(history, s) <==>
                && t in feeinfo && t in w && v < |w[t].inputs| && w[t].inputs[v] == prev && Known(w, prev)
                && w[prev.txid].outputs[prev.vout].script == s && w[prev.txid].outputs[prev.vout].value == value
    {
      var e := Spending(t, v, prev, value);
      assert Count(history, s, e) == Expected(w, unspendables, feeinfo.Keys, s, e);
      assert e in At(history, s) <==> e in multiset(At(history, s));
    }

    /** The script's transactions after the cursor. None stands for the "missing mempool tx"
        panic, which cannot happen. */
    method History(ghost w: World, s: Script, last: Option<Txid>, limit: nat) returns (r: Option<seq<Tx>>)
      requires Valid(w)
      ensures r.Some? && |r.value| == |Take(After(Unique(TxidsOf(At(history, s))), last), limit)|
      ensures forall i :: 0 <= i < |r.value| ==>
                r.value[i].txid == Take(After(Unique(TxidsOf(At(history, s))), last), limit)[i]
    {
      hide Good, Logged, Unique, After, Take, TxidsOf;
      var txids := Take(After(Unique(TxidsOf(At(history, s))), last), limit);
      forall t | t in txids
        ensures t in txstore && txstore[t].txid == t
      {
        OnPage(At(history, s), last, limit, t);
        var e :| e in At(history, s) && e.txid == t;
        EntryStored(w, s, e);
        GoodGives(w, unspendables, txstore, feeinfo, history, edges);
      }
      var txs: seq<Tx> := [];
      for i := 0 to |txids|
        invariant |txs| == i && forall k :: 0 <= k < i ==> txs[k].txid == txids[k]
      {
        assert txids[i] in txids;
        if txids[i] !in txstore {
          return None;
        }
        txs := txs + [txstore[txids[i]]];
      }
      return Some(txs);
    }

    lemma Gives(w: World)
      requires Valid(w)
      ensures Sane(w) && feeinfo.Keys <= txstore.Keys && Sound(w, edges, feeinfo.Keys)
      ensures Logged(w, events, edges, feeinfo.Keys)
    {
    }
  }

  function TxidsOf(es: seq<Info>): seq<Txid> {
    seq(|es|, i requires 0 <= i < |es| => es[i].txid)
  }

  lemma {:induction false} OnPage(es: seq<Info>, last: Option<Txid>, limit: nat, t: Txid)
    requires t in Take(After(Unique(TxidsOf(es)), last), limit)
    ensures exists e :: e in es && e.txid == t
  {
    hide Unique, After;
    var us := Unique(TxidsOf(es));
    var k := AfterIsTail(us, last);
    assert t in us;
    var i :| 0 <= i < |es| && TxidsOf(es)[i] == t;
    assert es[i] in es;
  }

  lemma {:induction false} Balance(before: set<Txid>, first: set<Txid>, second: set<Txid>, listed: set<Txid>,
                                   missing: set<Txid>)
    ensures var gone, more := before - listed, (first - (before - listed)) + second;
            var got, kept := listed - before - missing, (before + first) - gone + second;
            && kept == before * listed + more && kept == before * listed + {} + more
            && kept + got == before * listed + got + more
            && before + first <= before + kept && before + first <= before + (kept + got)
  {
  }

  /** Single additions before and after a removal leave what stayed as it was. */
  lemma {:induction false} StayedDone(before: set<Txid>, first: set<Txid>, second: set<Txid>, listed: set<Txid>,
                                      done: set<Txid>, doneThen: set<Txid>, doneLast: set<Txid>)
    requires SameDone(before, done, doneThen)
    requires SameDone((before + first) - (before - listed), doneThen - (before - listed), doneLast)
    ensures SameDone(before * listed, done, doneLast)
  {
  }

  /** Of what was fetched and not added meanwhile, those with all inputs found are processed. */
  lemma {:induction false} NewDone(w: World, before: set<Txid>, first: set<Txid>, second: set<Txid>, listed: set<Txid>,
                                   missing: set<Txid>, doneLast: set<Txid>, done: set<Txid>,
                                   confirmed: map<OutPoint, TxOut>, txstore: map<Txid, Tx>)
    requires var stored, got := (before + first) - (before - listed) + second, listed - before - missing;
             doneLast <= stored && Adds(w, doneLast, done, got - stored, confirmed, txstore)
    ensures SameDone(before * listed, doneLast, done)
    ensures var got, more := listed - before - missing, (first - (before - listed)) + second;
            DoneIff(w, got - more, done, confirmed, txstore)
  {
    hide AllFound;
  }

  lemma {:induction false} DoneNone(w: World, more: set<Txid>, done: set<Txid>, confirmed: map<OutPoint, TxOut>,
                                    txstore: map<Txid, Tx>)
    ensures DoneIff(w, {} - more, done, confirmed, txstore)
  {
  }

  lemma {:induction false} SameStill(among: set<Txid>, a: set<Txid>, b: set<Txid>, c: set<Txid>)
    requires SameDone(among, a, b) && SameDone(among, b, c)
    ensures SameDone(among, a, c)
  {
  }

  /** At most a quarter of the requested transactions, rounded to the nearest, half up, are gone. */
  ghost predicate FewMissing(txids: set<Txid>, missing: set<Txid>) {
    4 * |txids * missing| <= |txids| + 2
  }

  /** How many of the requests of a batch may fail: a quarter of them, rounded to the nearest. */
  function Tolerated(requests: nat): nat {
    (requests + 2) / 4
  }

  /** `gettransactions`: some of the txids may have left the node since it listed them. They are
      skipped, unless there are more of them than tolerated. None stands for that error, and for
      a node that does not answer. */
  method GetTransactions(net: World, txids: set<Txid>, missing: set<Txid>, reachable: bool)
    returns (r: Option<seq<Tx>>)
    requires txids <= net.Keys && Sane(net)
    ensures r.Some? <==> reachable && FewMissing(txids, missing)
    ensures r.Some? ==> Ids(r.value) == txids - missing
    ensures r.Some? ==> forall tx :: tx in r.value ==> tx.txid in net && net[tx.txid] == tx
  {
    hide Ids, Asked;
    if !reachable {
      return None;
    }
    var txs: seq<Tx>, rest, failed := [], txids, 0;
    Unasked(net, txids, missing);
    while rest != {}
      invariant rest <= txids && Asked(net, txids - rest, missing, txs, failed) && failed <= Tolerated(|txids|)
      decreases rest
    {
      var t :| t in rest; // the order does not matter
      AskedMore(net, txids, rest, missing, txs, failed, t);
      rest := rest - {t};
      if t in missing {
        failed := failed + 1;
        if failed > Tolerated(|txids|) {
          return None;
        }
      } else {
        txs := txs + [net[t]];
      }
    }
    AskedAll(net, txids, missing, txs, failed);
    return Some(txs);
  }

  /** What the replies to some requests have given. */
  ghost predicate Asked(net: World, asked: set<Txid>, missing: set<Txid>, txs: seq<Tx>, failed: nat) {
    && failed == |asked * missing| && Ids(txs) == asked - missing
    && forall tx :: tx in txs ==> tx.txid in net && net[tx.txid] == tx
  }

  lemma {:induction false} Unasked(net: World, txids: set<Txid>, missing: set<Txid>)
    ensures Asked(net, txids - txids, missing, [], 0)
  {
    assert (txids - txids) * missing == {};
  }

  lemma {:induction false} AskedMore(net: World, txids: set<Txid>, rest: set<Txid>, missing: set<Txid>,
                                     txs: seq<Tx>, failed: nat, t: Txid)
    requires Asked(net, txids - rest, missing, txs, failed)
    requires t in rest && rest <= txids && t in net && net[t].txid == t
    ensures if t in missing then Asked(net, txids - (rest - {t}), missing, txs, failed + 1)
            else Asked(net, txids - (rest - {t}), missing, txs + [net[t]], failed)
    ensures t in missing ==> failed < |txids * missing|
  {
    hide Ids;
    var asked := txids - rest;
    assert txids - (rest - {t}) == asked + {t};
    if t in missing {
      OneFails(txids, asked, missing, t);
    } else {
      OneComes(asked, missing, t);
      IdsMore(txs, net[t]);
    }
  }

  lemma {:induction false} OneFails(txids: set<Txid>, asked: set<Txid>, missing: set<Txid>, t: Txid)
    requires asked <= txids && t in txids && t !in asked && t in missing
    ensures |(asked + {t}) * missing| == |asked * missing| + 1 && asked + {t} - missing == asked - missing
    ensures |asked * missing| < |txids * missing|
  {
    assert (asked + {t}) * missing == asked * missing + {t};
    Smaller((asked + {t}) * missing, txids * missing);
  }

  lemma {:induction false} OneComes(asked: set<Txid>, missing: set<Txid>, t: Txid)
    requires t !in missing
    ensures (asked + {t}) * missing == asked * missing && asked + {t} - missing == asked - missing + {t}
  {
  }

  lemma {:induction false} AskedAll(net: World, txids: set<Txid>, missing: set<Txid>, txs: seq<Tx>, failed: nat)
    requires Asked(net, txids - {}, missing, txs, failed)
    ensures failed == |txids * missing| && Ids(txs) == txids - missing
    ensures forall tx :: tx in txs ==> tx.txid in net && net[tx.txid] == tx
  {
    assert txids - {} == txids;
  }

  lemma {:induction false} Smaller(a: set<Txid>, b: set<Txid>)
    requires a <= b
    ensures |a| <= |b|
  {
    assert b == a + (b - a);
    assert |b| == |a| + |b - a|;
  }

  lemma {:induction false} IdsMore(txs: seq<Tx>, tx: Tx)
    ensures Ids(txs + [tx]) == Ids(txs) + {tx.txid}
  {
    assert forall x :: x in txs + [tx] <==> x in txs || x == tx;
  }

  lemma {:induction false} OneId(tx: Tx)
    ensures Ids([tx]) == {tx.txid}
  {
    assert forall x :: x in [tx] <==> x == tx;
  }

  lemma {:induction false} AddsOne(w: World, stored: set<Txid>, before: set<Txid>, after: set<Txid>, t: Txid,
                                   confirmed: map<OutPoint, TxOut>, txstore: map<Txid, Tx>)
    requires before <= stored && t !in stored && Adds(w, before, after, {t} - stored, confirmed, txstore)
    ensures SameDone(stored, before, after) && before <= after <= before + {t}
  {
    hide AllFound;
  }

  lemma {:induction false} SameAsBefore(among: set<Txid>, done: set<Txid>)
    ensures SameDone(among, done, done)
  {
  }

  lemma {:induction false} NewKeys(before: set<Txid>, after: set<Txid>, t: Txid)
    requires t !in before && before <= after <= before + {t}
    ensures |after - before| != 0 <==> t in after
  {
    if t in after {
      assert t in after - before;
    } else {
      assert after - before == {};
    }
  }

  /** What a single addition may get from the node and find in the chain. */
  predicate Arrives(net: World, t: Txid, fetched: Option<Tx>, confirmed: map<OutPoint, TxOut>) {
    && (fetched.Some? ==> t in net && net[t] == fetched.value)
    && forall o :: o in confirmed ==> OutOf(net, o) == Some(confirmed[o])
  }

  /** Among transactions that do not conflict, removing some strands no spend. */
  lemma {:induction false} KeptComplete(w: World, edges: Edges, done: set<Txid>, gone: set<Txid>, all: set<Txid>)
    requires Sound(w, edges, done)
    ensures NoConflict(w, all) && done <= all ==> !Strands(w, edges, done, gone)
  {
    hide Spender, Strands;
    if NoConflict(w, all) && done <= all {
      ConflictFreeStay(w, edges, done, gone);
    }
  }

  function Ids(txs: seq<Tx>): set<Txid> {
    set tx | tx in txs :: tx.txid
  }

  ghost predicate WantedBy(w: World, t: Txid, o: OutPoint) {
    t in w && o in w[t].inputs && HasPrevout(o)
  }

  ghost predicate Wanted(w: World, txids: seq<Txid>, o: OutPoint) {
    exists t :: t in txids && WantedBy(w, t, o)
  }

  predicate Found(o: OutPoint, confirmed: map<OutPoint, TxOut>, txstore: map<Txid, Tx>) {
    o in confirmed || (o.txid in txstore && o.vout < |txstore[o.txid].outputs|)
  }

  /** Exactly the wanted outputs that can be found, as they are. */
  ghost predicate TxosRight(w: World, txids: seq<Txid>, confirmed: map<OutPoint, TxOut>, txstore: map<Txid, Tx>,
                            txos: map<OutPoint, TxOut>) {
    && (forall o :: o in txos <==> Wanted(w, txids, o) && Found(o, confirmed, txstore))
    && (forall o :: o in txos ==> OutOf(w, o) == Some(txos[o]))
  }

  ghost predicate AllFound(w: World, t: Txid, confirmed: map<OutPoint, TxOut>, txstore: map<Txid, Tx>) {
    forall o :: WantedBy(w, t, o) ==> Found(o, confirmed, txstore)
  }

  /** Those of the first `n` transactions whose inputs are all found. */
  ghost function Processable(w: World, txids: seq<Txid>, n: nat, confirmed: map<OutPoint, TxOut>,
                             txstore: map<Txid, Tx>): set<Txid>
    requires n <= |txids|
  {
    set k | 0 <= k < n && AllFound(w, txids[k], confirmed, txstore) :: txids[k]
  }

  lemma {:induction false} NoneProcessable(w: World, txids: seq<Txid>, confirmed: map<OutPoint, TxOut>,
                                        txstore: map<Txid, Tx>)
    ensures Processable(w, txids, 0, confirmed, txstore) == {} && HowMany(w, txids, 0, confirmed, txstore) == 0
  {
  }

  ghost function HowMany(w: World, txids: seq<Txid>, n: nat, confirmed: map<OutPoint, TxOut>,
                         txstore: map<Txid, Tx>): nat
    requires n <= |txids|
  {
    if n == 0 then 0
    else HowMany(w, txids, n - 1, confirmed, txstore) + if AllFound(w, txids[n - 1], confirmed, txstore) then 1 else 0
  }

  lemma {:induction false} HowManyNext(w: World, txids: seq<Txid>, n: nat, confirmed: map<OutPoint, TxOut>,
                                       txstore: map<Txid, Tx>)
    requires n < |txids|
    ensures HowMany(w, txids, n + 1, confirmed, txstore)
         == HowMany(w, txids, n, confirmed, txstore) + if AllFound(w, txids[n], confirmed, txstore) then 1 else 0
  {
    hide AllFound;
  }

  lemma {:induction false} HowManyIs(w: World, txids: seq<Txid>, n: nat, confirmed: map<OutPoint, TxOut>,
                                     txstore: map<Txid, Tx>)
    requires n <= |txids| && forall i, j :: 0 <= i < j < |txids| ==> txids[i] != txids[j]
    ensures HowMany(w, txids, n, confirmed, txstore) == |Processable(w, txids, n, confirmed, txstore)|
  {
    hide AllFound, Processable;
    if n == 0 {
      NoneProcessable(w, txids, confirmed, txstore);
    } else {
      HowManyIs(w, txids, n - 1, confirmed, txstore);
      OneMore(w, txids, n - 1, confirmed, txstore);
    }
  }

  lemma {:induction false} OneMore(w: World, txids: seq<Txid>, n: nat, confirmed: map<OutPoint, TxOut>,
                                   txstore: map<Txid, Tx>)
    requires n < |txids| && forall i, j :: 0 <= i < j < |txids| ==> txids[i] != txids[j]
    ensures txids[n] !in Processable(w, txids, n, confirmed, txstore)
    ensures var more := if AllFound(w, txids[n], confirmed, txstore) then {txids[n]} else {};
            Processable(w, txids, n + 1, confirmed, txstore) == Processable(w, txids, n, confirmed, txstore) + more
  {
    hide AllFound;
  }

  lemma {:induction false} AllProcessable(w: World, txids: seq<Txid>, confirmed: map<OutPoint, TxOut>,
                                        txstore: map<Txid, Tx>)
    ensures forall t :: t in Processable(w, txids, |txids|, confirmed, txstore) <==>
                          t in txids && AllFound(w, t, confirmed, txstore)
  {
    hide AllFound;
  }

  lemma {:induction false} AddsIs(w: World, before: set<Txid>, after: set<Txid>, unknown: set<Txid>, txids: seq<Txid>,
                                  confirmed: map<OutPoint, TxOut>, txstore: map<Txid, Tx>)
    requires after == before + Processable(w, txids, |txids|, confirmed, txstore)
    requires (forall t :: t in txids <==> t in unknown) && before !! unknown
    ensures Adds(w, before, after, unknown, confirmed, txstore)
    ensures after - before == Processable(w, txids, |txids|, confirmed, txstore)
  {
    hide AllFound, Processable;
    AllProcessable(w, txids, confirmed, txstore);
  }

  /** None when an input's output is missing. */
  method ExtractPrevouts(ghost w: World, tx: Tx, txos: map<OutPoint, TxOut>) returns (r: Option<map<nat, TxOut>>)
    requires forall o :: o in txos ==> OutOf(w, o) == Some(txos[o])
    ensures r.Some? <==> forall o :: o in tx.inputs && HasPrevout(o) ==> o in txos
    ensures r.Some? ==> PrevoutsOf(w, tx, r.value)
  {
    var all: map<nat, TxOut> := map[];
    for i := 0 to |tx.inputs|
      invariant forall k :: 0 <= k < i && HasPrevout(tx.inputs[k]) ==> tx.inputs[k] in txos
      invariant forall k: nat :: k in all <==> k < i && HasPrevout(tx.inputs[k])
      invariant forall k :: k in all ==> OutOf(w, tx.inputs[k]) == Some(all[k])
    {
      if HasPrevout(tx.inputs[i]) {
        if tx.inputs[i] !in txos {
          return None;
        }
        all := all[i := txos[tx.inputs[i]]];
      }
    }
    return Some(all);
  }

  lemma {:induction false} FoundIff(w: World, txids: seq<Txid>, t: Txid, confirmed: map<OutPoint, TxOut>,
                                    txstore: map<Txid, Tx>, txos: map<OutPoint, TxOut>)
    requires t in txids && t in w && TxosRight(w, txids, confirmed, txstore, txos)
    ensures (forall o :: o in w[t].inputs && HasPrevout(o) ==> o in txos) <==> AllFound(w, t, confirmed, txstore)
  {
    hide Found;
    forall o
      ensures o in w[t].inputs && HasPrevout(o) <==> WantedBy(w, t, o)
      ensures WantedBy(w, t, o) ==> Wanted(w, txids, o)
    {
    }
  }

  lemma {:induction false} PrevoutsWithin(w: World, tx: Tx, prevouts: map<nat, TxOut>)
    requires PrevoutsOf(w, tx, prevouts)
    ensures forall i :: i in prevouts ==> i < |tx.inputs|
  {
  }
}
