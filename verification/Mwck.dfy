/** The websocket hub: which blocks it announces as confirmed and as removed when the tip
    moves, and what it remembers of them. */
module Mwck {

  type Tx = nat
  datatype TipBlock = TipBlock(hash: nat, txs: seq<Tx>)

  /** A block at its height. */
  type Placed = (nat, TipBlock)

  datatype Notice = Confirmed(b: Placed) | Removed(b: Placed)

  const KEEP := 16

  // ----- what the clients hold

  /** Confirmations that have not been taken back. */
  ghost function Live(log: seq<Notice>): multiset<Placed> {
    if log == [] then multiset{}
    else
      var was, last := Live(log[..|log| - 1]), log[|log| - 1];
      if last.Confirmed? then was + multiset{last.b} else was - multiset{last.b}
  }

  /** A block is announced as removed only after it was confirmed, once per confirmation. */
  ghost predicate Orderly(log: seq<Notice>) {
    forall i :: 0 <= i < |log| && log[i].Removed? ==> log[i].b in Live(log[..i])
  }

  lemma {:induction false} LivePush(log: seq<Notice>, n: Notice)
    ensures Live(log + [n]) == if n.Confirmed? then Live(log) + multiset{n.b} else Live(log) - multiset{n.b}
    ensures Orderly(log) && (n.Removed? ==> n.b in Live(log)) ==> Orderly(log + [n])
  {
    assert (log + [n])[..|log|] == log;
    forall i | 0 <= i < |log|
      ensures (log + [n])[..i] == log[..i]
    {
    }
  }

  /** Announcing several blocks. */
  function Notices(confirmed: bool, bs: seq<Placed>): seq<Notice> {
    seq(|bs|, i requires 0 <= i < |bs| => if confirmed then Confirmed(bs[i]) else Removed(bs[i]))
  }

  lemma {:induction false} LiveAfter(log: seq<Notice>, confirmed: bool, bs: seq<Placed>)
    requires Orderly(log) && (!confirmed ==> multiset(bs) <= Live(log))
    ensures Orderly(log + Notices(confirmed, bs))
    ensures var now := Live(log + Notices(confirmed, bs));
            now == if confirmed then Live(log) + multiset(bs) else Live(log) - multiset(bs)
    decreases |bs|
  {
    hide Live, Orderly;
    if bs == [] {
      assert log + Notices(confirmed, bs) == log;
    } else {
      var n := |bs| - 1;
      var init, last := bs[..n], bs[n];
      Split(bs);
      LiveAfter(log, confirmed, init);
      var notice := if confirmed then Confirmed(last) else Removed(last);
      assert log + Notices(confirmed, bs) == log + Notices(confirmed, init) + [notice];
      LivePush(log + Notices(confirmed, init), notice);
    }
  }

  lemma {:induction false} Split(bs: seq<Placed>)
    requires bs != []
    ensures multiset(bs) == multiset(bs[..|bs| - 1]) + multiset{bs[|bs| - 1]}
  {
    assert bs == bs[..|bs| - 1] + [bs[|bs| - 1]];
  }

  predicate Ascending(bs: seq<Placed>) {
    forall i, j :: 0 <= i < j < |bs| ==> bs[i].0 < bs[j].0
  }

  /** No block twice. */
  predicate Distinct(bs: seq<Placed>) {
    forall i, j :: 0 <= i < j < |bs| ==> bs[i] != bs[j]
  }

  lemma {:induction false} Ordered(bs: seq<Placed>)
    requires Ascending(bs)
    ensures Distinct(bs)
  {
  }

  lemma {:induction false} CountDistinct(bs: seq<Placed>, b: Placed)
    requires Distinct(bs)
    ensures multiset(bs)[b] == if b in bs then 1 else 0
    decreases |bs|
  {
    if bs != [] {
      var n := |bs| - 1;
      assert bs == bs[..n] + [bs[n]];
      CountDistinct(bs[..n], b);
    }
  }

  lemma {:induction false} DistinctWithin(bs: seq<Placed>, m: multiset<Placed>)
    requires Distinct(bs) && forall b :: b in bs ==> b in m
    ensures multiset(bs) <= m
  {
    forall b
      ensures multiset(bs)[b] <= m[b]
    {
      CountDistinct(bs, b);
    }
  }

  // ----- the hub

  /** The chain still has this block at this height. */
  predicate Current(chain: seq<TipBlock>, h: nat, b: TipBlock) {
    h < |chain| && chain[h].hash == b.hash
  }

  method Top(table: map<nat, TipBlock>) returns (n: nat)
    ensures forall h :: h in table ==> h < n
  {
    n := 0;
    var rest := table.Keys;
    while rest != {}
      invariant rest <= table.Keys && forall h :: h in table ==> h in rest || h < n
      decreases rest
    {
      var h :| h in rest;
      rest := rest - {h};
      n := if h < n then n else h + 1;
    }
  }

  /** Takes the remembered blocks that are no longer on the chain out of the table, lowest first,
      and looks up what stands there now. */
  method Retract(recent: map<nat, TipBlock>, chain: seq<TipBlock>)
    returns (kept: map<nat, TipBlock>, orphaned: seq<Placed>, replacements: map<nat, TipBlock>)
    ensures forall h :: h in kept <==> h in recent && Current(chain, h, recent[h])
    ensures forall h :: h in kept ==> kept[h] == recent[h]
    ensures forall b :: b in orphaned <==> b.0 in recent && recent[b.0] == b.1 && !Current(chain, b.0, b.1)
    ensures Ascending(orphaned)
    ensures forall h :: h in replacements <==> h in recent && h < |chain| && !Current(chain, h, recent[h])
    ensures forall h :: h in replacements ==> replacements[h] == chain[h]
  {
    var top := Top(recent);
    kept, orphaned, replacements := recent, [], map[];
    for h := 0 to top
      invariant forall g :: g in kept <==> g in recent && (g < h ==> Current(chain, g, recent[g]))
      invariant forall g :: g in kept ==> kept[g] == recent[g]
      invariant forall b :: b in orphaned <==>
                              b.0 < h && b.0 in recent && recent[b.0] == b.1 && !Current(chain, b.0, b.1)
      invariant Ascending(orphaned)
      invariant forall g :: g in replacements <==> g < h && g in recent && g < |chain| && !Current(chain, g, recent[g])
      invariant forall g :: g in replacements ==> replacements[g] == chain[g]
    {
      if h in recent && !Current(chain, h, recent[h]) {
        kept := kept - {h};
        orphaned := orphaned + [(h, recent[h])];
        if h < |chain| {
          replacements := replacements[h := chain[h]];
        }
      }
    }
  }

  /** The blocks to confirm, lowest first: those that replace removed ones, then the new heights. */
  method Advance(chain: seq<TipBlock>, prevHeight: nat, kept: map<nat, TipBlock>, replacements: map<nat, TipBlock>)
    returns (confirmed: seq<Placed>)
    requires forall h :: h in replacements ==> h < |chain| && replacements[h] == chain[h]
    ensures forall b :: b in confirmed <==> b.0 < |chain| && chain[b.0] == b.1
                                            && (b.0 in replacements || (b.0 > prevHeight && b.0 !in kept))
    ensures Distinct(confirmed)
    ensures (forall h :: h in replacements ==> h <= prevHeight) ==> Ascending(confirmed)
  {
    var top := Top(replacements);
    confirmed := [];
    for h := 0 to top
      invariant forall b :: b in confirmed <==> b.0 < h && b.0 in replacements && replacements[b.0] == b.1
      invariant Ascending(confirmed)
    {
      if h in replacements {
        confirmed := confirmed + [(h, replacements[h])];
      }
    }
    var h := prevHeight + 1;
    while h < |chain|
      invariant h > prevHeight
      invariant forall b :: b in confirmed <==> b.0 < |chain| && chain[b.0] == b.1
                                                && (b.0 in replacements || (prevHeight < b.0 < h && b.0 !in kept))
      invariant Distinct(confirmed) && ((forall g :: g in replacements ==> g <= prevHeight) ==> Ascending(confirmed))
    {
      if h !in kept && h !in replacements {
        confirmed := confirmed + [(h, chain[h])];
      }
      h := h + 1;
    }
  }

  predicate NewAt(chain: seq<TipBlock>, confirmed: seq<Placed>, h: nat) {
    h < |chain| && (h, chain[h]) in confirmed
  }

  /** Stores what was confirmed and forgets all but the last 17 heights. */
  method Remember(chain: seq<TipBlock>, kept: map<nat, TipBlock>, confirmed: seq<Placed>)
    returns (recent: map<nat, TipBlock>)
    requires forall b :: b in confirmed ==> b.0 < |chain| && b.1 == chain[b.0]
    ensures forall h: nat :: h in recent <==> |chain| - 17 <= h && (h in kept || NewAt(chain, confirmed, h))
    ensures forall h :: h in recent ==> recent[h] == if NewAt(chain, confirmed, h) then chain[h] else kept[h]
  {
    recent := kept;
    for i := 0 to |confirmed|
      invariant forall h: nat :: h in recent <==> h in kept || NewAt(chain, confirmed[..i], h)
      invariant forall h :: h in recent ==> recent[h] == if NewAt(chain, confirmed[..i], h) then chain[h] else kept[h]
    {
      assert confirmed[i] in confirmed && confirmed[..i + 1] == confirmed[..i] + [confirmed[i]];
      recent := recent[confirmed[i].0 := confirmed[i].1];
    }
    assert confirmed[..|confirmed|] == confirmed;
    recent := map h | h in recent && |chain| - 1 - KEEP <= h :: recent[h];
  }

  /** The remembered block is still on the chain. */
  predicate Kept(recent: map<nat, TipBlock>, chain: seq<TipBlock>, h: nat) {
    h in recent && Current(chain, h, recent[h])
  }

  /** The block at the height replaces a removed one, or is new. */
  predicate Due(recent: map<nat, TipBlock>, chain: seq<TipBlock>, prevHeight: nat, h: nat) {
    if h in recent then !Current(chain, h, recent[h]) else h > prevHeight
  }

  /** What a move of the tip does to the table, and what it announces. */
  ghost predicate Moves(recent: map<nat, TipBlock>, chain: seq<TipBlock>, prevHeight: nat,
                        orphaned: seq<Placed>, confirmed: seq<Placed>, next: map<nat, TipBlock>) {
    && (forall b :: b in orphaned <==> b.0 in recent && recent[b.0] == b.1 && !Current(chain, b.0, b.1))
    && (forall b :: b in confirmed <==> b.0 < |chain| && chain[b.0] == b.1 && Due(recent, chain, prevHeight, b.0))
    && (forall h: nat :: h in next <==> |chain| - 17 <= h < |chain| && (h in recent || h > prevHeight))
    && (forall h :: h in next ==> Current(chain, h, next[h]))
    && (forall h :: h in next ==> next[h] == if Kept(recent, chain, h) then recent[h] else chain[h])
  }

  method MoveTip(recent: map<nat, TipBlock>, chain: seq<TipBlock>, prevHeight: nat)
    returns (orphaned: seq<Placed>, confirmed: seq<Placed>, next: map<nat, TipBlock>)
    ensures Moves(recent, chain, prevHeight, orphaned, confirmed, next)
    ensures Ascending(orphaned) && Distinct(confirmed)
    ensures (forall h :: h in recent ==> h <= prevHeight) ==> Ascending(confirmed)
  {
    hide Ascending, Distinct;
    var kept, replacements;
    kept, orphaned, replacements := Retract(recent, chain);
    confirmed := Advance(chain, prevHeight, kept, replacements);
    next := Remember(chain, kept, confirmed);
  }

  // ----- messages

  /** What the clients are sent: the transactions of all removed blocks in one message, and then
      those of all confirmed ones in another. Nothing is sent when there are none. */
  datatype Message = RemovedTxs(txs: seq<Tx>) | ConfirmedTxs(txs: seq<Tx>)

  /** The transactions that the messages leave a client with. */
  ghost function HeldTxs(sent: seq<Message>): multiset<Tx> {
    if sent == [] then multiset{}
    else
      var was, last := HeldTxs(sent[..|sent| - 1]), sent[|sent| - 1];
      if last.ConfirmedTxs? then was + multiset(last.txs) else was - multiset(last.txs)
  }

  /** The transactions of some blocks, one block after the other. */
  function Joined(bs: seq<Placed>): seq<Tx> {
    if bs == [] then [] else Joined(bs[..|bs| - 1]) + bs[|bs| - 1].1.txs
  }

  method JoinTxs(bs: seq<Placed>) returns (txs: seq<Tx>)
    ensures txs == Joined(bs)
  {
    txs := [];
    for i := 0 to |bs|
      invariant txs == Joined(bs[..i])
    {
      assert bs[..i + 1][..i] == bs[..i];
      txs := txs + bs[i].1.txs;
    }
    assert bs[..|bs|] == bs;
  }

  function Wrapped(removed: seq<Tx>, confirmed: seq<Tx>): seq<Message> {
    (if removed == [] then [] else [RemovedTxs(removed)]) + if confirmed == [] then [] else [ConfirmedTxs(confirmed)]
  }

  lemma {:induction false} HeldAfter(sent: seq<Message>, removed: seq<Tx>, confirmed: seq<Tx>)
    ensures HeldTxs(sent + Wrapped(removed, confirmed)) == HeldTxs(sent) - multiset(removed) + multiset(confirmed)
  {
    var mid := sent + if removed == [] then [] else [RemovedTxs(removed)];
    var end := mid + if confirmed == [] then [] else [ConfirmedTxs(confirmed)];
    assert sent + Wrapped(removed, confirmed) == end;
    if removed != [] {
      assert mid[..|sent|] == sent;
    } else {
      assert mid == sent;
    }
    if confirmed != [] {
      assert end[..|mid|] == mid;
    } else {
      assert end == mid;
    }
  }

  /** The transactions of the blocks of a bag. */
  ghost function TxsIn(m: multiset<Placed>): multiset<Tx> {
    if m == multiset{} then multiset{}
    else
      var b :| b in m;
      multiset(b.1.txs) + TxsIn(m - multiset{b})
  }

  lemma {:induction false} TakeOut(m: multiset<Placed>, b: Placed)
    requires b in m
    ensures TxsIn(m) == multiset(b.1.txs) + TxsIn(m - multiset{b})
    decreases |m|
  {
    var a :| a in m && TxsIn(m) == multiset(a.1.txs) + TxsIn(m - multiset{a});
    if a != b {
      hide TxsIn;
      InOther(m, a, b);
      TakeOut(m - multiset{a}, b);
      TakeOut(m - multiset{b}, a);
      Swapped(multiset(a.1.txs), multiset(b.1.txs), TxsIn(m - multiset{a} - multiset{b}));
    }
  }

  lemma {:induction false} InOther(m: multiset<Placed>, a: Placed, b: Placed)
    requires a in m && b in m && a != b
    ensures b in m - multiset{a} && a in m - multiset{b} && |m - multiset{a}| < |m| && |m - multiset{b}| < |m|
    ensures m - multiset{a} - multiset{b} == m - multiset{b} - multiset{a}
  {
  }

  lemma {:induction false} Swapped(x: multiset<Tx>, y: multiset<Tx>, z: multiset<Tx>)
    ensures x + (y + z) == y + (x + z)
  {
  }

  lemma {:induction false} TxsMore(m: multiset<Placed>, bs: seq<Placed>)
    ensures TxsIn(m + multiset(bs)) == TxsIn(m) + multiset(Joined(bs))
    decreases |bs|
  {
    if bs == [] {
      assert m + multiset(bs) == m;
    } else {
      var n := |bs| - 1;
      hide TxsIn, Joined;
      Split(bs);
      TxsMore(m, bs[..n]);
      PutIn(m + multiset(bs[..n]), bs[n]);
      assert m + multiset(bs) == m + multiset(bs[..n]) + multiset{bs[n]};
      JoinedSplit(bs);
    }
  }

  lemma {:induction false} PutIn(m: multiset<Placed>, b: Placed)
    ensures TxsIn(m + multiset{b}) == TxsIn(m) + multiset(b.1.txs)
  {
    hide TxsIn;
    TakeOut(m + multiset{b}, b);
    assert m + multiset{b} - multiset{b} == m;
  }

  lemma {:induction false} JoinedSplit(bs: seq<Placed>)
    requires bs != []
    ensures multiset(Joined(bs)) == multiset(Joined(bs[..|bs| - 1])) + multiset(bs[|bs| - 1].1.txs)
  {
  }

  /** Taking the blocks' transactions back and handing out others keeps pace with the blocks. */
  lemma {:induction false} TxsKeepPace(live: multiset<Placed>, orphaned: seq<Placed>, confirmed: seq<Placed>)
    requires multiset(orphaned) <= live
    ensures TxsIn(live) - multiset(Joined(orphaned)) + multiset(Joined(confirmed))
         == TxsIn(live - multiset(orphaned) + multiset(confirmed))
    ensures multiset(Joined(orphaned)) <= TxsIn(live)
  {
    hide TxsIn, Joined;
    var rest := live - multiset(orphaned);
    assert rest + multiset(orphaned) == live;
    TxsMore(rest, orphaned);
    TxsMore(rest, confirmed);
  }

  /** The transactions of the blocks of a chain from height `a` up to below `b`. */
  ghost function ChainTxs(c: seq<TipBlock>, a: nat, b: nat): multiset<Tx>
    requires b <= |c|
  {
    if b <= a then multiset{} else ChainTxs(c, a, b - 1) + multiset(c[b - 1].txs)
  }

  lemma {:induction false} BlockTxs(c: seq<TipBlock>, a: nat, b: nat)
    requires b <= |c|
    ensures TxsIn(Blocks(c, a, b)) == ChainTxs(c, a, b)
  {
    hide TxsIn, Blocks, ChainTxs;
    NextTxs(c, a, b);
    if a < b {
      BlockTxs(c, a, b - 1);
      PutIn(Blocks(c, a, b - 1), (b - 1, c[b - 1]));
    }
  }

  lemma {:induction false} NextTxs(c: seq<TipBlock>, a: nat, b: nat)
    requires b <= |c|
    ensures a >= b ==> TxsIn(Blocks(c, a, b)) == ChainTxs(c, a, b) == multiset{}
    ensures a < b ==> Blocks(c, a, b) == Blocks(c, a, b - 1) + multiset{(b - 1, c[b - 1])}
    ensures a < b ==> ChainTxs(c, a, b) == ChainTxs(c, a, b - 1) + multiset(c[b - 1].txs)
  {
  }

  class Hub {
    var recent: map<nat, TipBlock>
    ghost var log: seq<Notice>
    ghost var sent: seq<Message>

    /** Everything remembered has been confirmed and not taken back, and the clients hold the
        transactions of what has been confirmed and not taken back. */
    ghost predicate Valid()
      reads this
    {
      Orderly(log) && Held(recent, Live(log)) && HeldTxs(sent) == TxsIn(Live(log))
    }

    constructor ()
      ensures Valid() && recent == map[] && log == [] && sent == []
    {
      recent, log, sent := map[], [], [];
    }

    /** The tip moved: remembered blocks that are no longer on the chain are removed, and their
        successors and the new heights confirmed. Whatever happened before, the hub then agrees
        with the chain on every height it holds and holds only the last 17. */
    method NotifyNewTip(chain: seq<TipBlock>, prevHeight: nat)
      returns (ghost orphaned: seq<Placed>, ghost confirmed: seq<Placed>, messages: seq<Message>)
      requires Valid() && chain != []
      modifies this
      ensures Valid() && Moves(old(recent), chain, prevHeight, orphaned, confirmed, recent)
      ensures forall h :: h in recent ==> |chain| - 17 <= h && Current(chain, h, recent[h])
      ensures Ascending(orphaned) && Distinct(confirmed)
      ensures (forall h :: h in old(recent) ==> h <= prevHeight) ==> Ascending(confirmed)
      ensures log == old(log) + Notices(false, orphaned) + Notices(true, confirmed)
      ensures messages == Wrapped(Joined(orphaned), Joined(confirmed)) && sent == old(sent) + messages
      ensures multiset(orphaned) <= Live(old(log))
              && Live(log) == Live(old(log)) - multiset(orphaned) + multiset(confirmed)
    {
      hide Live, Notices, Orderly, Ascending, Distinct, Held, TxsIn, HeldTxs, Joined, Wrapped, Moves;
      var stale, added, next := MoveTip(recent, chain, prevHeight);
      orphaned, confirmed := stale, added;
      var removedTxs := JoinTxs(stale);
      var confirmedTxs := JoinTxs(added);
      messages := Wrapped(removedTxs, confirmedTxs);
      HeldAfter(sent, removedTxs, confirmedTxs);
      Ordered(orphaned);
      HeldIn(recent, Live(log), chain, prevHeight, orphaned, confirmed, next);
      LiveAfter(log, false, orphaned);
      LiveAfter(log + Notices(false, orphaned), true, confirmed);
      TxsKeepPace(Live(log), orphaned, confirmed);
      MovedWithin(recent, chain, prevHeight, orphaned, confirmed, next);
      log := log + Notices(false, orphaned) + Notices(true, confirmed);
      sent := sent + messages;
      recent := next;
    }
  }

  ghost predicate Held(recent: map<nat, TipBlock>, live: multiset<Placed>) {
    forall h :: h in recent ==> (h, recent[h]) in live
  }

  lemma {:induction false} MovedWithin(recent: map<nat, TipBlock>, chain: seq<TipBlock>, prevHeight: nat,
                                       orphaned: seq<Placed>, confirmed: seq<Placed>, next: map<nat, TipBlock>)
    requires Moves(recent, chain, prevHeight, orphaned, confirmed, next)
    ensures forall h :: h in next ==> |chain| - 17 <= h && Current(chain, h, next[h])
  {
  }

  lemma {:induction false} HeldIn(recent: map<nat, TipBlock>, live: multiset<Placed>, chain: seq<TipBlock>,
                                  prevHeight: nat,
                                  orphaned: seq<Placed>, confirmed: seq<Placed>, next: map<nat, TipBlock>)
    requires Held(recent, live) && Moves(recent, chain, prevHeight, orphaned, confirmed, next)
    requires Distinct(orphaned)
    ensures multiset(orphaned) <= live
    ensures Held(next, live - multiset(orphaned) + multiset(confirmed))
  {
    hide Distinct;
    DistinctWithin(orphaned, live);
    forall h | h in next
      ensures (h, next[h]) in live - multiset(orphaned) + multiset(confirmed)
    {
      CountDistinct(orphaned, (h, next[h]));
      if h in recent && Current(chain, h, recent[h]) {
        assert (h, next[h]) !in orphaned;
        assert live[(h, recent[h])] > 0;
      } else {
        assert (h, next[h]) in confirmed;
      }
    }
  }

  // ----- what the clients hold is the chain

  /** Two hash-linked chains share their first `f` blocks and none above. */
  ghost predicate Parts(c: seq<TipBlock>, n: seq<TipBlock>, f: nat) {
    && f <= |c| && f <= |n| && (forall h :: 0 <= h < f ==> c[h] == n[h])
    && (forall h :: f <= h < |c| && h < |n| ==> c[h].hash != n[h].hash)
  }

  /** The blocks of a chain from height `a` up to below `b`. */
  ghost function Blocks(c: seq<TipBlock>, a: nat, b: nat): multiset<Placed>
    requires b <= |c|
  {
    if b <= a then multiset{} else Blocks(c, a, b - 1) + multiset{(b - 1, c[b - 1])}
  }

  lemma {:induction false} BlocksCount(c: seq<TipBlock>, a: nat, b: nat, x: Placed)
    requires b <= |c|
    ensures Blocks(c, a, b)[x] == if a <= x.0 < b && c[x.0] == x.1 then 1 else 0
  {
    if a < b {
      BlocksCount(c, a, b - 1, x);
    }
  }

  /** The clients hold exactly the chain from height `lo` on, and the hub remembers it from
      height `w` on. */
  ghost predicate Synced(recent: map<nat, TipBlock>, live: multiset<Placed>, c: seq<TipBlock>, lo: nat, w: nat) {
    && lo <= w <= |c| && live == Blocks(c, lo, |c|)
    && (forall h: nat :: h in recent <==> w <= h < |c|)
    && (forall h :: h in recent ==> recent[h] == c[h])
  }

  function Min(a: nat, b: nat): nat {
    if a < b then a else b
  }

  function Max(a: nat, b: nat): nat {
    if a < b then b else a
  }

  /** From where on the hub remembers, after the tip moved to a chain of this length. */
  function NextWindow(w: nat, length: nat): nat {
    if length <= 17 then Min(w, length) else Max(Min(w, length), length - 17)
  }

  lemma {:induction false} Announced(recent: map<nat, TipBlock>, live: multiset<Placed>, c: seq<TipBlock>, lo: nat,
                                     w: nat, n: seq<TipBlock>, f: nat, orphaned: seq<Placed>,
                                     confirmed: seq<Placed>, next: map<nat, TipBlock>)
    requires Synced(recent, live, c, lo, w) && c != [] && Parts(c, n, f)
    requires Moves(recent, n, |c| - 1, orphaned, confirmed, next)
    ensures forall b :: b in orphaned <==> Max(w, f) <= b.0 < |c| && c[b.0] == b.1
    ensures forall b :: b in confirmed <==> Max(w, f) <= b.0 < |n| && n[b.0] == b.1
    ensures forall h: nat :: h in next <==> NextWindow(w, |n|) <= h < |n|
    ensures forall h :: h in next ==> next[h] == n[h]
  {
    hide Blocks;
    assert forall h :: h in recent ==> (Current(n, h, recent[h]) <==> h < f);
  }

  lemma {:induction false} LiveCount(live: multiset<Placed>, c: seq<TipBlock>, lo: nat, n: seq<TipBlock>, m: nat,
                                     orphaned: seq<Placed>, confirmed: seq<Placed>, x: Placed)
    requires live == Blocks(c, lo, |c|) && Distinct(orphaned) && Distinct(confirmed) && lo <= m <= |c|
    requires forall b :: b in orphaned <==> m <= b.0 < |c| && c[b.0] == b.1
    requires forall b :: b in confirmed <==> m <= b.0 < |n| && n[b.0] == b.1
    ensures (live - multiset(orphaned) + multiset(confirmed))[x]
         == if lo <= x.0 < m && c[x.0] == x.1 then 1 else if m <= x.0 < |n| && n[x.0] == x.1 then 1 else 0
  {
    hide Distinct, Blocks;
    BlocksCount(c, lo, |c|, x);
    CountDistinct(orphaned, x);
    CountDistinct(confirmed, x);
  }

  /** The clients still hold exactly the chain after the tip moved, if and only if every
      abandoned block they held was remembered. */
  lemma {:induction false} SyncedStep(recent: map<nat, TipBlock>, live: multiset<Placed>, c: seq<TipBlock>, lo: nat,
                                      w: nat, n: seq<TipBlock>, f: nat, orphaned: seq<Placed>,
                                      confirmed: seq<Placed>, next: map<nat, TipBlock>)
    requires Synced(recent, live, c, lo, w) && c != [] && Parts(c, n, f)
    requires Moves(recent, n, |c| - 1, orphaned, confirmed, next) && Distinct(orphaned) && Distinct(confirmed)
    ensures var now := live - multiset(orphaned) + multiset(confirmed);
            if f >= w || w == lo then Synced(next, now, n, Min(lo, |n|), NextWindow(w, |n|))
            else now != Blocks(n, Min(lo, |n|), |n|)
  {
    hide Blocks, Distinct, Moves;
    Announced(recent, live, c, lo, w, n, f, orphaned, confirmed, next);
    var now := live - multiset(orphaned) + multiset(confirmed);
    if f >= w || w == lo {
      forall x
        ensures now[x] == Blocks(n, Min(lo, |n|), |n|)[x]
      {
        LiveCount(live, c, lo, n, Max(w, f), orphaned, confirmed, x);
        BlocksCount(n, Min(lo, |n|), |n|, x);
      }
      assert now == Blocks(n, Min(lo, |n|), |n|);
    } else {
      var h := Max(lo, f);
      LiveCount(live, c, lo, n, w, orphaned, confirmed, (h, c[h]));
      BlocksCount(n, Min(lo, |n|), |n|, (h, c[h]));
    }
  }

  /** One move of the tip, from a chain that the clients may hold. */
  method Step(hub: Hub, ghost c: seq<TipBlock>, n: seq<TipBlock>, prevHeight: nat, ghost f: nat, ghost lo: nat,
              ghost w: nat)
    requires hub.Valid() && c != [] && n != [] && prevHeight == |c| - 1 && Parts(c, n, f)
    modifies hub
    ensures hub.Valid()
    ensures Synced(old(hub.recent), Live(old(hub.log)), c, lo, w) ==>
              if f >= w || w == lo then Synced(hub.recent, Live(hub.log), n, Min(lo, |n|), NextWindow(w, |n|))
              else Live(hub.log) != Blocks(n, Min(lo, |n|), |n|)
  {
    hide *;
    ghost var recent, live := hub.recent, Live(hub.log);
    var orphaned, confirmed, _ := hub.NotifyNewTip(n, prevHeight);
    Ordered(orphaned);
    if Synced(recent, live, c, lo, w) {
      SyncedStep(recent, live, c, lo, w, n, f, orphaned, confirmed, hub.recent);
    }
  }

  // ----- whole runs

  /** From where on the clients hold the chain, and from where on the hub remembers it. */
  datatype Span = Span(held: nat, known: nat)

  /** These heights after the moves to the first chains, as long as no block was lost. */
  function SpanAt(chains: seq<seq<TipBlock>>, i: nat): (m: Span)
    requires i < |chains|
    ensures m.held <= m.known <= |chains[i]|
  {
    if i == 0 then Span(|chains[0]|, |chains[0]|)
    else
      var m := SpanAt(chains, i - 1);
      Span(Min(m.held, |chains[i]|), NextWindow(m.known, |chains[i]|))
  }

  /** The move abandons no block that the clients hold and the hub has forgotten. */
  predicate Safe(chains: seq<seq<TipBlock>>, forks: seq<nat>, i: nat)
    requires 0 < i < |chains| == |forks|
  {
    var m := SpanAt(chains, i - 1);
    forks[i] >= m.known || m.known == m.held
  }

  /** Each chain parts from the one before where the forks say. */
  ghost predicate Leads(chains: seq<seq<TipBlock>>, forks: seq<nat>) {
    && chains != [] && |forks| == |chains| && (forall i :: 0 <= i < |chains| ==> chains[i] != [])
    && forall i :: 0 < i < |chains| ==> Parts(chains[i - 1], chains[i], forks[i])
  }

  lemma {:induction false} LeadsAt(chains: seq<seq<TipBlock>>, forks: seq<nat>, i: nat)
    requires Leads(chains, forks) && 0 < i < |chains|
    ensures chains[i - 1] != [] && chains[i] != [] && Parts(chains[i - 1], chains[i], forks[i])
  {
  }

  lemma {:induction false} SpanNext(chains: seq<seq<TipBlock>>, i: nat)
    requires 0 < i < |chains|
    ensures var m := SpanAt(chains, i - 1);
            SpanAt(chains, i) == Span(Min(m.held, |chains[i]|), NextWindow(m.known, |chains[i]|))
  {
  }

  ghost predicate AllSafe(chains: seq<seq<TipBlock>>, forks: seq<nat>, n: nat)
    requires n <= |chains| == |forks|
  {
    forall i :: 0 < i < n ==> Safe(chains, forks, i)
  }

  /** The clients hold exactly the chain, from where they started or the tip has dropped to
      since. */
  ghost predicate InSync(live: multiset<Placed>, chains: seq<seq<TipBlock>>, i: nat)
    requires i < |chains|
  {
    live == Blocks(chains[i], SpanAt(chains, i).held, |chains[i]|)
  }

  ghost predicate Remembers(recent: map<nat, TipBlock>, live: multiset<Placed>, chains: seq<seq<TipBlock>>, i: nat)
    requires i < |chains|
  {
    Synced(recent, live, chains[i], SpanAt(chains, i).held, SpanAt(chains, i).known)
  }

  lemma {:induction false} RememberingIsSync(recent: map<nat, TipBlock>, live: multiset<Placed>,
                                             chains: seq<seq<TipBlock>>, i: nat)
    requires i < |chains| && Remembers(recent, live, chains, i)
    ensures InSync(live, chains, i)
  {
  }

  lemma {:induction false} SafeMore(chains: seq<seq<TipBlock>>, forks: seq<nat>, n: nat)
    requires n < |chains| == |forks|
    ensures AllSafe(chains, forks, n + 1) <==> AllSafe(chains, forks, n) && (n == 0 || Safe(chains, forks, n))
  {
    hide Safe;
  }

  /** One move of a run. */
  method RunStep(hub: Hub, chains: seq<seq<TipBlock>>, ghost forks: seq<nat>, i: nat)
    requires hub.Valid() && Leads(chains, forks) && 0 < i < |chains|
    modifies hub
    ensures hub.Valid()
    ensures Remembers(old(hub.recent), Live(old(hub.log)), chains, i - 1) ==>
              if Safe(chains, forks, i) then Remembers(hub.recent, Live(hub.log), chains, i)
              else !InSync(Live(hub.log), chains, i)
  {
    hide Live, Blocks, Parts, Synced, Min, NextWindow, SpanAt, Hub.Valid;
    LeadsAt(chains, forks, i);
    SpanNext(chains, i);
    ghost var m := SpanAt(chains, i - 1);
    Step(hub, chains[i - 1], chains[i], |chains[i - 1]| - 1, forks[i], m.held, m.known);
  }

  /** Any run of tip moves, each given by the chain it leads to. While all moves before the last
      were safe, the clients hold exactly the chain afterwards if and only if the last was safe
      too; and then the messages have left them with exactly its transactions. */
  method Follow(hub: Hub, chains: seq<seq<TipBlock>>, ghost forks: seq<nat>)
    requires hub.Valid() && hub.recent == map[] && hub.log == [] && Leads(chains, forks)
    modifies hub
    ensures hub.Valid() && Orderly(hub.log)
    ensures var last := |chains| - 1;
            AllSafe(chains, forks, last) ==>
              && (InSync(Live(hub.log), chains, last) <==> last == 0 || Safe(chains, forks, last))
              && (AllSafe(chains, forks, |chains|) ==>
                    HeldTxs(hub.sent) == ChainTxs(chains[last], SpanAt(chains, last).held, |chains[last]|))
  {
    hide *;
    RunStart(chains, forks);
    for i := 1 to |chains|
      invariant hub.Valid()
      invariant AllSafe(chains, forks, i) ==> Remembers(hub.recent, Live(hub.log), chains, i - 1)
      invariant i > 1 && AllSafe(chains, forks, i - 1) && !Safe(chains, forks, i - 1) ==>
                  !InSync(Live(hub.log), chains, i - 1)
    {
      SafeMore(chains, forks, i);
      RunStep(hub, chains, forks, i);
    }
    var last := |chains| - 1;
    SafeMore(chains, forks, last);
    HubHolds(hub);
    if AllSafe(chains, forks, |chains|) {
      RememberingIsSync(hub.recent, Live(hub.log), chains, last);
      SyncedTxs(hub.sent, Live(hub.log), chains, last);
    }
  }

  lemma {:induction false} HubHolds(hub: Hub)
    requires hub.Valid()
    ensures Orderly(hub.log) && HeldTxs(hub.sent) == TxsIn(Live(hub.log))
  {
  }

  lemma {:induction false} SyncedTxs(sent: seq<Message>, live: multiset<Placed>, chains: seq<seq<TipBlock>>, i: nat)
    requires i < |chains| && InSync(live, chains, i) && HeldTxs(sent) == TxsIn(live)
    ensures HeldTxs(sent) == ChainTxs(chains[i], SpanAt(chains, i).held, |chains[i]|)
  {
    hide TxsIn, ChainTxs, HeldTxs, SpanAt, Blocks;
    BlockTxs(chains[i], SpanAt(chains, i).held, |chains[i]|);
  }

  lemma {:induction false} RunStart(chains: seq<seq<TipBlock>>, forks: seq<nat>)
    requires Leads(chains, forks)
    ensures chains != [] && |forks| == |chains| && Remembers(map[], Live([]), chains, 0) && AllSafe(chains, forks, 1)
  {
  }

  /** While the tip never drops, every reorganisation of up to 17 blocks is safe. */
  lemma {:induction false} SteadyIsSafe(chains: seq<seq<TipBlock>>, forks: seq<nat>, n: nat)
    requires 0 < n <= |chains| == |forks|
    requires forall i :: 0 < i < n ==> |chains[i - 1]| <= |chains[i]| && forks[i] + 17 >= |chains[i - 1]|
    ensures AllSafe(chains, forks, n)
    ensures var m := SpanAt(chains, n - 1);
            m.held == |chains[0]| && (m.known == m.held || m.known + 17 <= |chains[n - 1]|)
  {
    if n > 1 {
      SteadyIsSafe(chains, forks, n - 1);
      SafeMore(chains, forks, n - 1);
      GrowsFrom(chains, n - 1);
      SpanNext(chains, n - 1);
    }
  }

  lemma {:induction false} GrowsFrom(chains: seq<seq<TipBlock>>, n: nat)
    requires n < |chains| && forall i :: 0 < i <= n ==> |chains[i - 1]| <= |chains[i]|
    ensures |chains[0]| <= |chains[n]|
  {
    if n > 0 {
      GrowsFrom(chains, n - 1);
    }
  }

  // ----- a dropped tip

  /** A chain whose blocks from height `own` on are of its own branch. */
  function Branch(length: nat, own: nat, salt: nat): (c: seq<TipBlock>)
    ensures |c| == length
  {
    seq(length, (h: nat) => TipBlock(if h < own then h else 1000 * salt + h, [h]))
  }

  /** The tip moves from length 1 to 40, drops to a branch of length 30 that shares 29 blocks, and
      moves on to a branch of length 31 that shares 20 of them: a reorganisation of 10 blocks. */
  const DROPPING: seq<seq<TipBlock>> :=
    [Branch(1, 1, 1), Branch(40, 40, 1), Branch(30, 29, 2), Branch(31, 20, 3)]
  const FORKS: seq<nat> := [0, 1, 29, 20]

  lemma {:induction false} DroppingLeads()
    ensures Leads(DROPPING, FORKS)
  {
    assert Parts(Branch(1, 1, 1), Branch(40, 40, 1), 1);
    assert Parts(Branch(40, 40, 1), Branch(30, 29, 2), 29);
    assert Parts(Branch(30, 29, 2), Branch(31, 20, 3), 20);
  }

  lemma {:induction false} DroppingSpans()
    ensures AllSafe(DROPPING, FORKS, 3) && !Safe(DROPPING, FORKS, 3) && SpanAt(DROPPING, 3).held == 1
  {
    SpanNext(DROPPING, 1);
    SpanNext(DROPPING, 2);
    SpanNext(DROPPING, 3);
    assert SpanAt(DROPPING, 0) == Span(1, 1);
  }

  /** After the drop the hub remembers only heights 23 to 29: the reorganisation abandons blocks
      that the clients hold and the hub has forgotten. No move leads to an ancestor of the tip. */
  method DroppedTip() returns (hub: Hub)
    ensures Leads(DROPPING, FORKS) && AllSafe(DROPPING, FORKS, 3)
    ensures forall i :: 0 < i < |DROPPING| ==> FORKS[i] < |DROPPING[i]|
    ensures hub.Valid() && Live(hub.log) != Blocks(Branch(31, 20, 3), 1, 31)
  {
    hide Live, Blocks, Parts, Leads, SpanAt, Hub.Valid;
    hub := new Hub();
    DroppingLeads();
    DroppingSpans();
    Follow(hub, DROPPING, FORKS);
  }
}
