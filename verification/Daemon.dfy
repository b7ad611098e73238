/** The node as a tree of blocks, and how the header list follows its best chain. */
module Daemon {
  import opened Chain
  import opened Headers

  /** Every block the node knows, with the heights it reports. RPC calls read this tree. */
  datatype Node = Node(blocks: map<BlockHash, Block>, heights: map<BlockHash, nat>) {

    predicate Rooted() {
      heights.Keys == blocks.Keys && forall h {:trigger RootedAt(h)} :: h in blocks ==> RootedAt(h)
    }

    predicate RootedAt(h: BlockHash)
      requires heights.Keys == blocks.Keys && h in blocks
    {
      var prev := blocks[h].header.prev;
      && h != NULL_HASH && blocks[h].header.hash == h
      && if prev == NULL_HASH then heights[h] == 0 else prev in blocks && heights[h] == heights[prev] + 1
    }

    predicate Knows(h: BlockHash) {
      h == NULL_HASH || h in blocks
    }

    /** The chain that ends in a block. A hash determines its whole chain. */
    function ChainTo(h: BlockHash): (c: seq<Block>)
      requires Rooted() && Knows(h)
      ensures |c| == if h == NULL_HASH then 0 else heights[h] + 1
      ensures h != NULL_HASH ==> c[|c| - 1] == blocks[h]
      decreases if h == NULL_HASH then 0 else heights[h] + 1
    {
      if h == NULL_HASH then []
      else
        assert RootedAt(h);
        ChainTo(blocks[h].header.prev) + [blocks[h]]
    }

    /** Consensus holds on every branch. */
    ghost predicate Valid() {
      Rooted() && forall h {:trigger ValidAt(h)} :: h in blocks ==> ValidAt(h)
    }

    ghost predicate ValidAt(h: BlockHash)
      requires Rooted() && h in blocks
    {
      ValidChain(ChainTo(h))
    }
  }

  lemma {:induction false} TipValid(d: Node, h: BlockHash)
    requires d.Valid() && d.Knows(h)
    ensures ValidChain(d.ChainTo(h))
  {
    if h != NULL_HASH {
      assert d.ValidAt(h);
    }
  }

  function BlockHeaders(c: seq<Block>): seq<Header> {
    seq(|c|, i requires 0 <= i < |c| => c[i].header)
  }

  function EntriesOf(c: seq<Block>): seq<HeaderEntry> {
    seq(|c|, i requires 0 <= i < |c| => HeaderEntry(i, c[i].header))
  }

  ghost predicate Contains(c: seq<Block>, h: BlockHash) {
    exists i :: 0 <= i < |c| && c[i].header.hash == h
  }

  /** Where two chains part: the length of their longest common prefix. */
  function Fork(a: seq<Block>, b: seq<Block>): (n: nat)
    ensures n <= |a| && n <= |b| && a[..n] == b[..n]
    ensures n < |a| && n < |b| ==> a[n] != b[n]
  {
    if a == [] || b == [] || a[0] != b[0] then 0
    else
      var n := 1 + Fork(a[1..], b[1..]);
      assert a[..n] == [a[0]] + a[1..][..n - 1] && b[..n] == [b[0]] + b[1..][..n - 1];
      n
  }

  lemma {:induction false} ChainToPrefix(d: Node, h: BlockHash, i: nat)
    requires d.Rooted() && d.Knows(h) && i < |d.ChainTo(h)|
    ensures var b := d.ChainTo(h)[i];
            && b.header.hash in d.blocks && d.blocks[b.header.hash] == b && d.heights[b.header.hash] == i
            && d.ChainTo(b.header.hash) == d.ChainTo(h)[..i + 1]
    decreases |d.ChainTo(h)|
  {
    assert d.RootedAt(h);
    var c, prev := d.ChainTo(h), d.blocks[h].header.prev;
    if i < |c| - 1 {
      ChainToPrefix(d, prev, i);
      assert c[..i + 1] == d.ChainTo(prev)[..i + 1];
    } else {
      assert c[..i + 1] == c;
    }
  }

  lemma {:induction false} ChainToLinked(d: Node, h: BlockHash)
    requires d.Rooted() && d.Knows(h)
    ensures Chained(BlockHeaders(d.ChainTo(h))) && Coherent(BlockHeaders(d.ChainTo(h)))
    ensures Distinct(BlockHeaders(d.ChainTo(h))) && TipOf(BlockHeaders(d.ChainTo(h))) == h
  {
    var c := d.ChainTo(h);
    var hs := BlockHeaders(c);
    if h != NULL_HASH {
      assert d.RootedAt(h);
    }
    forall i | 0 <= i < |hs|
      ensures hs[i].hash != NULL_HASH && hs[i].prev == TipOf(hs[..i])
    {
      ChainToPrefix(d, h, i);
      assert d.RootedAt(hs[i].hash);
      if i > 0 {
        ChainToPrefix(d, h, i - 1);
        var prev := d.blocks[hs[i].hash].header.prev;
        assert prev != NULL_HASH && d.RootedAt(prev);
        assert d.ChainTo(hs[i].hash) == d.ChainTo(prev) + [c[i]];
        assert c[i - 1] == d.ChainTo(hs[i].hash)[i - 1] == d.ChainTo(prev)[i - 1];
      }
    }
    forall i, j | 0 <= i < |hs| && 0 <= j < |hs| && hs[i].hash == hs[j].hash
      ensures hs[i] == hs[j]
    {
      ChainToPrefix(d, h, i);
      ChainToPrefix(d, h, j);
    }
    ChainedDistinct(hs);
  }

  lemma {:induction false} PrefixBelowFork(a: seq<Block>, b: seq<Block>, n: nat)
    requires n <= |a| && n <= |b| && a[..n] == b[..n]
    ensures n <= Fork(a, b)
  {
    forall i | 0 <= i < n
      ensures a[i] == b[i]
    {
      assert a[..n][i] == b[..n][i];
    }
  }

  /** Below the fork the chains share their blocks; above it they share none. */
  lemma {:induction false} ForkShares(d: Node, x: BlockHash, y: BlockHash, i: nat)
    requires d.Rooted() && d.Knows(x) && d.Knows(y) && i < |d.ChainTo(x)|
    ensures Contains(d.ChainTo(y), d.ChainTo(x)[i].header.hash) <==> i < Fork(d.ChainTo(x), d.ChainTo(y))
  {
    hide Fork, Node.ChainTo, Node.Rooted;
    var a, b := d.ChainTo(x), d.ChainTo(y);
    var f := Fork(a, b);
    if i < f {
      assert a[i] == a[..f][i] == b[..f][i] == b[i];
    }
    if Contains(b, a[i].header.hash) {
      var j :| 0 <= j < |b| && b[j].header.hash == a[i].header.hash;
      ChainToPrefix(d, x, i);
      ChainToPrefix(d, y, j);
      PrefixBelowFork(a, b, i + 1);
    }
  }

  /** The fork is where the walk back first meets a shared block. */
  lemma {:induction false} ForkIs(d: Node, x: BlockHash, y: BlockHash, n: nat)
    requires d.Rooted() && d.Knows(x) && d.Knows(y) && n <= |d.ChainTo(x)|
    requires n > 0 ==> Contains(d.ChainTo(y), d.ChainTo(x)[n - 1].header.hash)
    requires n < |d.ChainTo(x)| ==> !Contains(d.ChainTo(y), d.ChainTo(x)[n].header.hash)
    ensures Fork(d.ChainTo(x), d.ChainTo(y)) == n
  {
    if n > 0 {
      ForkShares(d, x, y, n - 1);
    }
    if n < |d.ChainTo(x)| {
      ForkShares(d, x, y, n);
    }
  }

  /** All headers up to the height of the tip, which the node serves from the chain to `now`, its
      best block at that time. None stands for a height beyond that chain, and for the asserts
      that the headers are linked and end in the tip. It succeeds exactly while the tip is still
      on the node's best chain, and then returns the headers of the tip's own chain. */
  method GetAllHeaders(d: Node, now: BlockHash, tip: BlockHash) returns (r: Option<seq<Header>>)
    requires d.Rooted() && now in d.blocks && tip in d.blocks
    ensures r.Some? <==> Contains(d.ChainTo(now), tip)
    ensures r.Some? ==> r.value == BlockHeaders(d.ChainTo(tip))
  {
    hide Node.RootedAt, Node.ChainTo, Contains, Chained;
    TipWithin(d, now, tip);
    var tipHeight := d.heights[tip];
    var best := BlockHeaders(d.ChainTo(now));
    if |best| <= tipHeight {
      return None;
    }
    var result := best[..tipHeight + 1];
    LinkedHeaders(d, now, tipHeight);
    var blockhash := NULL_HASH;
    for i := 0 to |result|
      invariant blockhash == TipOf(result[..i])
    {
      if result[i].prev != blockhash {
        return None;
      }
      blockhash := result[i].hash;
    }
    assert result[..|result|] == result;
    return if blockhash == tip then Some(result) else None;
  }

  lemma {:induction false} LinkedHeaders(d: Node, now: BlockHash, height: nat)
    requires d.Rooted() && now in d.blocks && height < |d.ChainTo(now)|
    ensures var hs := BlockHeaders(d.ChainTo(now))[..height + 1];
            forall i :: 0 <= i < |hs| ==> hs[i].prev == TipOf(hs[..i])
  {
    hide Node.Rooted, Node.ChainTo;
    ChainToLinked(d, now);
    var all := BlockHeaders(d.ChainTo(now));
    var hs := all[..height + 1];
    forall i | 0 <= i < |hs|
      ensures hs[i].prev == TipOf(hs[..i])
    {
      assert hs[..i] == all[..i];
    }
  }

  /** A block is on a chain exactly when it stands there at its own height. */
  lemma {:induction false} TipWithin(d: Node, now: BlockHash, tip: BlockHash)
    requires d.Rooted() && now in d.blocks && tip in d.blocks
    ensures var c, h := d.ChainTo(now), d.heights[tip];
            && (Contains(c, tip) <==> h < |c| && c[h].header.hash == tip)
            && (Contains(c, tip) ==> BlockHeaders(d.ChainTo(tip)) == BlockHeaders(c)[..h + 1])
  {
    hide Node.RootedAt, Node.ChainTo;
    var c := d.ChainTo(now);
    if Contains(c, tip) {
      var i :| 0 <= i < |c| && c[i].header.hash == tip;
      ChainToPrefix(d, now, i);
      assert BlockHeaders(c[..i + 1]) == BlockHeaders(c)[..i + 1];
    }
  }

  /** The list follows a chain of the tree. */
  ghost predicate Follows(indexed: HeaderList, d: Node)
    reads indexed
  {
    && d.Rooted() && d.Knows(indexed.tip)
    && indexed.Valid() && indexed.headers == EntriesOf(d.ChainTo(indexed.tip))
  }

  lemma {:induction false} FoundOnChain(indexed: HeaderList, d: Node, h: BlockHash)
    requires Follows(indexed, d)
    ensures indexed.HeaderByBlockhash(h).Some? <==> Contains(d.ChainTo(indexed.tip), h)
  {
    var c := d.ChainTo(indexed.tip);
    assert forall i :: 0 <= i < |c| ==> indexed.headers[i].Hash() == c[i].header.hash;
  }

  /** The headers from the fork to the best block. */
  method GetNewHeaders(d: Node, indexed: HeaderList, best: BlockHash) returns (newHeaders: seq<Header>)
    requires Follows(indexed, d) && best in d.blocks
    ensures newHeaders == BlockHeaders(d.ChainTo(best))[Fork(d.ChainTo(best), d.ChainTo(indexed.tip))..]
  {
    if indexed.headers == [] {
      BestIsLast(d, best);
      var all := GetAllHeaders(d, best, best);
      newHeaders := all.value;
    } else {
      newHeaders := WalkBack(d, indexed, best);
    }
  }

  lemma {:induction false} BestIsLast(d: Node, best: BlockHash)
    requires d.Rooted() && best in d.blocks
    ensures Contains(d.ChainTo(best), best)
  {
    var c := d.ChainTo(best);
    assert d.RootedAt(best);
    assert c[|c| - 1].header.hash == best;
  }

  /** Walks back from the best block to the first one that is already in the list. */
  method WalkBack(d: Node, indexed: HeaderList, best: BlockHash) returns (newHeaders: seq<Header>)
    requires Follows(indexed, d) && best in d.blocks
    ensures newHeaders == BlockHeaders(d.ChainTo(best))[Fork(d.ChainTo(best), d.ChainTo(indexed.tip))..]
  {
    hide Contains, Node.ChainTo, Node.Rooted, Fork;
    ghost var c := d.ChainTo(best);
    ghost var n := |c|;
    var blockhash := best;
    newHeaders := [];
    while blockhash != NULL_HASH && indexed.HeaderByBlockhash(blockhash).None?
      invariant 0 <= n <= |c| && d.Knows(blockhash) && d.ChainTo(blockhash) == c[..n]
      invariant Reversed(newHeaders) == BlockHeaders(c)[n..]
      invariant n < |c| ==> !Contains(d.ChainTo(indexed.tip), c[n].header.hash)
      decreases n
    {
      FoundOnChain(indexed, d, blockhash);
      var header := d.blocks[blockhash].header;
      StepBack(d, blockhash, c, n);
      assert d.Knows(header.prev) && d.ChainTo(header.prev) == c[..n - 1];
      ReversedPush(newHeaders, header);
      newHeaders := newHeaders + [header];
      blockhash := header.prev;
      n := n - 1;
      assert BlockHeaders(c)[n..] == [BlockHeaders(c)[n]] + BlockHeaders(c)[n + 1..];
    }
    StoppedAtFork(d, indexed, best, blockhash, n);
    newHeaders := Reversed(newHeaders);
  }

  lemma {:induction false} ReversedPush(s: seq<Header>, x: Header)
    ensures Reversed(s + [x]) == [x] + Reversed(s)
  {
  }

  lemma {:induction false} StoppedAtFork(d: Node, indexed: HeaderList, best: BlockHash, blockhash: BlockHash, n: nat)
    requires Follows(indexed, d) && best in d.blocks && d.Knows(blockhash)
    requires n <= |d.ChainTo(best)| && d.ChainTo(blockhash) == d.ChainTo(best)[..n]
    requires blockhash == NULL_HASH || indexed.HeaderByBlockhash(blockhash).Some?
    requires n < |d.ChainTo(best)| ==> !Contains(d.ChainTo(indexed.tip), d.ChainTo(best)[n].header.hash)
    ensures Fork(d.ChainTo(best), d.ChainTo(indexed.tip)) == n
  {
    FoundOnChain(indexed, d, blockhash);
    if blockhash != NULL_HASH {
      StepBack(d, blockhash, d.ChainTo(best), n);
      assert d.RootedAt(blockhash);
    }
    ForkIs(d, best, indexed.tip, n);
  }

  lemma {:induction false} StepBack(d: Node, h: BlockHash, c: seq<Block>, n: nat)
    requires d.Rooted() && h in d.blocks && n <= |c| && d.ChainTo(h) == c[..n]
    ensures n > 0 && c[n - 1] == d.blocks[h] && c[n - 1].header.hash == h && d.Knows(d.blocks[h].header.prev)
    ensures d.ChainTo(d.blocks[h].header.prev) == c[..n - 1]
  {
    assert d.RootedAt(h);
    var prev := d.blocks[h].header.prev;
    assert d.ChainTo(h) == d.ChainTo(prev) + [d.blocks[h]];
    assert c[n - 1] == c[..n][n - 1];
    assert c[..n - 1] == c[..n][..n - 1];
  }

  // ----- following the best chain

  ghost predicate StrictAncestor(d: Node, h: BlockHash, tip: BlockHash)
    requires d.Rooted() && d.Knows(tip)
  {
    h != tip && Contains(d.ChainTo(tip), h)
  }

  /** Fetching, ordering and applying the new headers leaves exactly the node's best chain,
      unless the best block is a strict ancestor of our tip: then there is nothing to apply
      and the old chain stays. The removed blocks are those above the fork, old tip first. */
  method SyncHeaders(d: Node, indexed: HeaderList, best: BlockHash)
    returns (newHeaders: seq<HeaderEntry>, removed: seq<HeaderEntry>, rollbackTip: Option<BlockHash>)
    requires Follows(indexed, d) && best in d.blocks
    modifies indexed
    ensures Follows(indexed, d)
    ensures indexed.tip == best <==> !StrictAncestor(d, best, old(indexed.tip))
    ensures indexed.tip != best ==> unchanged(indexed) && newHeaders == [] && removed == []
    ensures var c0, c1 := d.ChainTo(old(indexed.tip)), d.ChainTo(best);
            var f := Fork(c1, c0);
            indexed.tip == best ==>
              && newHeaders == EntriesOf(c1)[f..]
              && removed == Reversed(EntriesOf(c0)[f..])
              && rollbackTip == if 0 < f < |c0| then Some(c0[f - 1].header.hash) else None
  {
    ghost var tip := indexed.tip;
    ghost var c0, c1 := d.ChainTo(tip), d.ChainTo(best);
    ghost var f := Fork(c1, c0);
    var hs := GetNewHeaders(d, indexed, best);
    AncestorIffNothingNew(d, best, tip);
    if hs == [] {
      ChainToLinked(d, tip);
      return [], [], None;
    }
    newHeaders, removed, rollbackTip := Reattach(d, indexed, best, hs);
  }

  /** Orders and applies headers that are not all known yet. */
  method Reattach(ghost d: Node, indexed: HeaderList, best: BlockHash, hs: seq<Header>)
    returns (newHeaders: seq<HeaderEntry>, removed: seq<HeaderEntry>, rollbackTip: Option<BlockHash>)
    requires Follows(indexed, d) && best in d.blocks
    requires hs != [] && hs == BlockHeaders(d.ChainTo(best))[Fork(d.ChainTo(best), d.ChainTo(indexed.tip))..]
    modifies indexed
    ensures Follows(indexed, d) && indexed.tip == best
    ensures var c0, c1 := d.ChainTo(old(indexed.tip)), d.ChainTo(best);
            var f := Fork(c1, c0);
            && newHeaders == EntriesOf(c1)[f..]
            && removed == Reversed(EntriesOf(c0)[f..])
            && rollbackTip == if 0 < f < |c0| then Some(c0[f - 1].header.hash) else None
  {
    hide Chained, Coherent, Distinct, HeadersOf, BlockHeaders, Fork, Node.ChainTo, Node.Rooted, HeaderList.Valid, TipOf;
    ghost var tip := indexed.tip;
    OrderReady(d, indexed, best);
    var ordered := indexed.Order(hs);
    newHeaders := ordered.value;
    ApplyReady(d, best, tip);
    removed, rollbackTip := indexed.Apply(newHeaders);
    TipIs(d, indexed, best);
  }

  lemma {:induction false} TipIs(d: Node, indexed: HeaderList, best: BlockHash)
    requires d.Rooted() && best in d.blocks && indexed.Valid() && indexed.headers == EntriesOf(d.ChainTo(best))
    ensures indexed.tip == best
  {
    ChainToLinked(d, best);
    assert HeadersOf(indexed.headers) == BlockHeaders(d.ChainTo(best));
  }

  /** The fetched headers pass the checks of `Order`, which numbers them from the fork. */
  lemma {:induction false} OrderReady(d: Node, indexed: HeaderList, best: BlockHash)
    requires Follows(indexed, d) && best in d.blocks
    ensures var f := Fork(d.ChainTo(best), d.ChainTo(indexed.tip));
            var hs := BlockHeaders(d.ChainTo(best))[f..];
            && (forall i :: 1 <= i < |hs| ==> hs[i].prev == hs[i - 1].hash)
            && (hs != [] ==>
                  var found := indexed.HeaderByBlockhash(hs[0].prev);
                  if f == 0 then hs[0].prev == NULL_HASH
                  else hs[0].prev != NULL_HASH && found.Some? && found.value.height == f - 1)
  {
    hide Node.ChainTo, Node.Rooted, Fork;
    var c0 := d.ChainTo(indexed.tip);
    var f := Fork(d.ChainTo(best), c0);
    AttachPoint(d, best, indexed.tip);
    if f > 0 {
      indexed.Found(f - 1);
      ChainToLinked(d, indexed.tip);
      assert BlockHeaders(c0)[f - 1].hash != NULL_HASH;
    }
  }

  /** The numbered headers pass the checks of `Apply` and complete the best chain. */
  lemma {:induction false} ApplyReady(d: Node, best: BlockHash, tip: BlockHash)
    requires d.Rooted() && d.Knows(tip) && best in d.blocks
    ensures var c0, c1 := d.ChainTo(tip), d.ChainTo(best);
            var f := Fork(c1, c0);
            var es := Numbered(BlockHeaders(c1)[f..], f);
            && es == EntriesOf(c1)[f..] && es == Numbered(HeadersOf(es), f)
            && EntriesOf(c0)[..f] + es == EntriesOf(c1) && HeadersOf(EntriesOf(c1)) == BlockHeaders(c1)
            && Chained(HeadersOf(EntriesOf(c0)[..f] + es)) && Coherent(HeadersOf(EntriesOf(c0)[..f] + es))
  {
    Stitch(d.ChainTo(tip), d.ChainTo(best), Fork(d.ChainTo(best), d.ChainTo(tip)));
    ChainToLinked(d, best);
  }

  lemma {:induction false} Stitch(c0: seq<Block>, c1: seq<Block>, f: nat)
    requires f <= |c0| && f <= |c1| && c0[..f] == c1[..f]
    ensures Numbered(BlockHeaders(c1)[f..], f) == EntriesOf(c1)[f..]
    ensures EntriesOf(c0)[..f] + EntriesOf(c1)[f..] == EntriesOf(c1)
    ensures HeadersOf(EntriesOf(c1)) == BlockHeaders(c1)
    ensures HeadersOf(EntriesOf(c1)[f..]) == BlockHeaders(c1)[f..]
    ensures f > 0 ==> EntriesOf(c0)[f - 1] == HeaderEntry(f - 1, c0[f - 1].header)
                      && TipOf(BlockHeaders(c0[..f])) == c0[f - 1].header.hash
  {
    forall i | 0 <= i < f
      ensures EntriesOf(c0)[i] == EntriesOf(c1)[i]
    {
      assert c0[..f][i] == c1[..f][i];
    }
  }

  lemma {:induction false} AncestorIffNothingNew(d: Node, best: BlockHash, tip: BlockHash)
    requires d.Rooted() && d.Knows(tip) && best in d.blocks
    ensures Fork(d.ChainTo(best), d.ChainTo(tip)) == |d.ChainTo(best)| <==> Contains(d.ChainTo(tip), best)
  {
    assert d.RootedAt(best);
    ForkShares(d, best, tip, |d.ChainTo(best)| - 1);
  }

  /** The new headers attach to the last shared block. */
  lemma {:induction false} AttachPoint(d: Node, best: BlockHash, tip: BlockHash)
    requires d.Rooted() && d.Knows(tip) && best in d.blocks
    ensures var c0, c1 := d.ChainTo(tip), d.ChainTo(best);
            var f := Fork(c1, c0);
            var hs := BlockHeaders(c1)[f..];
            && (forall i :: 1 <= i < |hs| ==> hs[i].prev == hs[i - 1].hash)
            && (hs != [] ==> hs[0].prev == TipOf(BlockHeaders(c0[..f])))
  {
    ChainToLinked(d, best);
    var c0, c1 := d.ChainTo(tip), d.ChainTo(best);
    hide Node.ChainTo, Fork, Coherent, Distinct;
    ChainedTail(BlockHeaders(c1), Fork(c1, c0));
    assert BlockHeaders(c1)[..Fork(c1, c0)] == BlockHeaders(c1[..Fork(c1, c0)]);
  }

  lemma {:induction false} ChainedTail(all: seq<Header>, f: nat)
    requires Chained(all) && f <= |all|
    ensures forall i :: 1 <= i < |all[f..]| ==> all[f..][i].prev == all[f..][i - 1].hash
    ensures f < |all| ==> all[f].prev == TipOf(all[..f])
  {
    forall i | 1 <= i < |all[f..]|
      ensures all[f..][i].prev == all[f..][i - 1].hash
    {
      assert all[f + i].prev == TipOf(all[..f + i]);
    }
  }
}
