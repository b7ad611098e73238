/** Batches of fetched blocks, and the rows they contribute to the databases. */
module Batches {
  import opened Chain
  import opened Headers
  import opened Daemon
  import opened History
  import opened TxStore
  import opened HistStore
  import opened Rollover

  datatype FetchFrom = Bitcoind | BlkFiles

  datatype BlockEntry = BlockEntry(block: Block, height: nat)

  // ----- rows of a batch

  /** The history rows of one transaction; None is the "missing previous txo" panic. */
  method IndexTransaction(p: Placed, prevs: map<OutPoint, TxOut>,
                          unspendables: bool) returns (rows: Option<set<HistKey>>)
    ensures rows.Some? <==> Covers(prevs, p.tx)
    ensures rows.Some? ==> rows.value == TxHist(p, prevs, unspendables)
  {
    var funding: set<HistKey>, spending: set<HistKey>, edges: set<HistKey> := {}, {}, {};
    for i := 0 to |p.tx.outputs|
      invariant funding == set k | 0 <= k < i && Indexed(p.tx.outputs[k], unspendables) :: H(FundRow(p, k))
    {
      if Indexed(p.tx.outputs[i], unspendables) {
        funding := funding + {H(FundRow(p, i))};
      }
    }
    for i := 0 to |p.tx.inputs|
      invariant forall k :: 0 <= k < i && HasPrevout(p.tx.inputs[k]) ==> p.tx.inputs[k] in prevs
      invariant spending == set k | 0 <= k < i && HasPrevout(p.tx.inputs[k]) && p.tx.inputs[k] in prevs ::
                              H(SpendRow(p, k, prevs[p.tx.inputs[k]]))
      invariant edges == set k | 0 <= k < i && HasPrevout(p.tx.inputs[k]) :: S(p.tx.inputs[k], p.tx.txid, k)
    {
      if HasPrevout(p.tx.inputs[i]) {
        if p.tx.inputs[i] !in prevs {
          return None;
        }
        spending := spending + {H(SpendRow(p, i, prevs[p.tx.inputs[i]]))};
        edges := edges + {S(p.tx.inputs[i], p.tx.txid, i)};
      }
    }
    return Some(funding + spending + edges);
  }

  /** The history rows of one block. */
  method IndexBlock(b: Block, height: nat, prevs: map<OutPoint, TxOut>,
                    unspendables: bool) returns (rows: Option<set<HistKey>>)
    ensures rows.Some? <==> forall i :: 0 <= i < |b.txs| ==> Covers(prevs, b.txs[i])
    ensures rows.Some? ==> rows.value == BlockHist(b, height, prevs, unspendables)
  {
    hide TxHist, Covers;
    var all: set<HistKey> := {};
    for i := 0 to |b.txs|
      invariant forall k :: 0 <= k < i ==> Covers(prevs, b.txs[k])
      invariant all == set k, key | 0 <= k < i
                && key in TxHist(Placed(IdOf(b, height), k, b.txs[k]), prevs, unspendables) :: key
    {
      var some := IndexTransaction(Placed(IdOf(b, height), i, b.txs[i]), prevs, unspendables);
      if some.None? {
        return None;
      }
      all := all + some.value;
    }
    return Some(all + {D(b.header.hash)});
  }

  /** The outputs spent by a batch. */
  function PreviousTxos(batch: seq<BlockEntry>): set<OutPoint> {
    set i, j, k | 0 <= i < |batch| && 0 <= j < |batch[i].block.txs| && 0 <= k < |batch[i].block.txs[j].inputs|
                  && HasPrevout(batch[i].block.txs[j].inputs[k]) :: batch[i].block.txs[j].inputs[k]
  }

  /** Looks up outputs in the txstore; None is the "missing txo" panic. */
  method LookupTxos(txstore: set<TxRow>, outpoints: set<OutPoint>) returns (r: Option<map<OutPoint, TxOut>>)
    ensures r.Some? <==> forall o :: o in outpoints ==> exists out :: O(o, out) in txstore
    ensures r.Some? ==> r.value.Keys == outpoints && forall o :: o in outpoints ==> O(o, r.value[o]) in txstore
  {
    var found: map<OutPoint, TxOut> := map[];
    var rest := outpoints;
    while rest != {}
      invariant rest <= outpoints && found.Keys == outpoints - rest
      invariant forall o :: o in found ==> O(o, found[o]) in txstore
      decreases rest
    {
      var o :| o in rest;
      var rows := set row | row in txstore && row.O? && row.out == o;
      if rows == {} {
        assert forall out :: O(o, out) in txstore ==> O(o, out) in rows;
        return None;
      }
      var row :| row in rows;
      assert row == O(o, row.txout);
      found, rest := found[o := row.txout], rest - {o};
    }
    assert forall o :: o in outpoints ==> O(o, found[o]) in txstore;
    return Some(found);
  }

  /** The batch consists of blocks of a chain, at their heights. */
  ghost predicate InChain(batch: seq<BlockEntry>, c: seq<Block>) {
    forall i :: 0 <= i < |batch| ==> batch[i].height < |c| && c[batch[i].height] == batch[i].block
  }

  /** When the txstore holds the chain, a batch of its blocks misses no output, and gets the
      rows it has in the database built from scratch. */
  method IndexRows(txstore: set<TxRow>, batch: seq<BlockEntry>, unspendables: bool, ghost c: seq<Block>)
    returns (rows: Option<seq<set<HistKey>>>)
    requires ValidChain(c) && txstore == TxDb(c) && InChain(batch, c)
    ensures rows.Some? && |rows.value| == |batch|
    ensures forall i :: 0 <= i < |batch| ==> rows.value[i] == HistAt(c, batch[i].height, unspendables)
  {
    hide ValidChain, TxDb, HistAt, BlockHist;
    var prevs := LookupTxos(txstore, PreviousTxos(batch));
    if prevs.None? {
      BatchFound(batch, c);
      return None;
    }
    var all: seq<set<HistKey>> := [];
    for i := 0 to |batch|
      invariant |all| == i && forall k :: 0 <= k < i ==> all[k] == HistAt(c, batch[k].height, unspendables)
    {
      var some := IndexBlock(batch[i].block, batch[i].height, prevs.value, unspendables);
      BatchCovered(batch, i, prevs.value);
      if some.None? {
        return None;
      }
      LookedUp(c, batch[i].height, prevs.value, unspendables);
      all := all + [some.value];
    }
    return Some(all);
  }

  lemma {:induction false} BatchFound(batch: seq<BlockEntry>, c: seq<Block>)
    requires ValidChain(c) && InChain(batch, c)
    ensures forall o :: o in PreviousTxos(batch) ==> exists out :: O(o, out) in TxDb(c)
  {
    hide ValidChain, TxDb;
    forall o | o in PreviousTxos(batch)
      ensures exists out :: O(o, out) in TxDb(c)
    {
      var i, j, k :| 0 <= i < |batch| && 0 <= j < |batch[i].block.txs| && 0 <= k < |batch[i].block.txs[j].inputs|
                     && HasPrevout(batch[i].block.txs[j].inputs[k]) && batch[i].block.txs[j].inputs[k] == o;
      PrevoutFound(c, batch[i].height, j, k);
    }
  }

  lemma {:induction false} BatchCovered(batch: seq<BlockEntry>, i: nat, prevs: map<OutPoint, TxOut>)
    requires i < |batch| && prevs.Keys == PreviousTxos(batch)
    ensures forall j :: 0 <= j < |batch[i].block.txs| ==> Covers(prevs, batch[i].block.txs[j])
  {
    forall j, k | 0 <= j < |batch[i].block.txs| && 0 <= k < |batch[i].block.txs[j].inputs|
      && HasPrevout(batch[i].block.txs[j].inputs[k])
      ensures batch[i].block.txs[j].inputs[k] in prevs
    {
      assert batch[i].block.txs[j].inputs[k] in PreviousTxos(batch);
    }
  }

  // ----- fetching

  const BATCH_SIZE := 100

  /** The end of the chunk that starts at `i`. */
  function ChunkEnd(i: nat, n: nat): (j: nat)
    requires i < n
    ensures i < j <= n && j - i <= 100 && (j < n ==> j - i == 100)
  {
    if i + BATCH_SIZE < n then i + BATCH_SIZE else n
  }

  ghost predicate OnChain(entries: seq<HeaderEntry>, c: seq<Block>) {
    forall e :: e in entries ==> e.height < |c| && e == HeaderEntry(e.height, c[e.height].header)
  }

  predicate Fetchable(d: Node, entries: seq<HeaderEntry>) {
    forall i :: 0 <= i < |entries| ==> entries[i].Hash() in d.blocks
  }

  function GetBlocks(d: Node, entries: seq<HeaderEntry>): seq<BlockEntry>
    requires Fetchable(d, entries)
  {
    seq(|entries|, i requires 0 <= i < |entries| => BlockEntry(d.blocks[entries[i].Hash()], entries[i].height))
  }

  function Heights(entries: seq<HeaderEntry>): set<nat> {
    set e | e in entries :: e.height
  }

  function BatchHeights(batch: seq<BlockEntry>): set<nat> {
    set b | b in batch :: b.height
  }

  function BatchHashes(batch: seq<BlockEntry>): set<BlockHash> {
    set b | b in batch :: b.block.header.hash
  }

  /** The rows of `add_blocks` for a batch. */
  function AddRows(batch: seq<BlockEntry>): set<TxRow> {
    set b, r | b in batch && r in BlockRows(b.block, b.height) :: r
  }

  /** The node has the blocks of its chains. */
  lemma {:induction false} Fetched(d: Node, tip: BlockHash, entries: seq<HeaderEntry>)
    requires d.Rooted() && d.Knows(tip) && OnChain(entries, d.ChainTo(tip))
    ensures Fetchable(d, entries) && InChain(GetBlocks(d, entries), d.ChainTo(tip))
    ensures BatchHeights(GetBlocks(d, entries)) == Heights(entries)
  {
    hide Node.ChainTo, Node.Rooted;
    forall i | 0 <= i < |entries|
      ensures entries[i].Hash() in d.blocks && d.blocks[entries[i].Hash()] == d.ChainTo(tip)[entries[i].height]
      ensures entries[i].height < |d.ChainTo(tip)|
    {
      assert entries[i] in entries;
      ChainToPrefix(d, tip, entries[i].height);
    }
    var batch := GetBlocks(d, entries);
    forall h
      ensures h in BatchHeights(batch) <==> h in Heights(entries)
    {
      if h in BatchHeights(batch) {
        var i :| 0 <= i < |batch| && batch[i].height == h;
        assert entries[i] in entries;
      }
      if h in Heights(entries) {
        var i :| 0 <= i < |entries| && entries[i].height == h;
        assert batch[i] in batch;
      }
    }
  }

  /** The next batch of blocks: the node returns them in order, 100 at a time; the blk files
      hold them in any order. */
  method NextBatch(d: Node, from: FetchFrom, left: seq<HeaderEntry>)
    returns (chosen: seq<HeaderEntry>, batch: seq<BlockEntry>, rest: seq<HeaderEntry>)
    requires left != [] && Fetchable(d, left)
    ensures |rest| < |left| && multiset(left) == multiset(chosen) + multiset(rest)
    ensures Fetchable(d, chosen) && batch == GetBlocks(d, chosen)
    ensures from.Bitcoind? ==> 0 < |chosen| <= |left| && chosen == left[..|chosen|] && rest == left[|chosen|..]
    ensures from.Bitcoind? ==> |chosen| <= 100 && (rest != [] ==> |chosen| == 100)
  {
    assert left == left[..1] + left[1..];
    if from.Bitcoind? {
      var k := ChunkEnd(0, |left|);
      chosen, rest := left[..k], left[k..];
      assert left == chosen + rest;
    } else {
      assert left[..1] != [] && multiset(left) == multiset(left[..1]) + multiset(left[1..]);
      chosen, rest :| chosen != [] && multiset(left) == multiset(chosen) + multiset(rest);
    }
    assert |left| == |chosen| + |rest| by {
      assert |left| == |multiset(left)|;
      assert multiset(chosen + rest) == multiset(left);
      assert |multiset(chosen + rest)| == |chosen + rest|;
    }
    forall i | 0 <= i < |chosen|
      ensures chosen[i].Hash() in d.blocks
    {
      assert chosen[i] in multiset(chosen);
      assert chosen[i] in multiset(left);
    }
    batch := GetBlocks(d, chosen);
  }

  lemma {:induction false} Divided(left: seq<HeaderEntry>, chosen: seq<HeaderEntry>, rest: seq<HeaderEntry>,
                                   c: seq<Block>)
    requires OnChain(left, c) && multiset(left) == multiset(chosen) + multiset(rest)
    ensures OnChain(chosen, c) && OnChain(rest, c)
    ensures Heights(left) == Heights(chosen) + Heights(rest)
  {
    forall e
      ensures e in left <==> e in chosen || e in rest
    {
      assert e in left <==> e in multiset(left);
      assert e in chosen <==> e in multiset(chosen);
      assert e in rest <==> e in multiset(rest);
    }
  }

  lemma {:induction false} AddRowsAre(batch: seq<BlockEntry>, c: seq<Block>)
    requires InChain(batch, c)
    ensures AddRows(batch) == TxOf(c, BatchHeights(batch))
  {
    hide BlockRows;
    forall r
      ensures r in AddRows(batch) <==> r in TxOf(c, BatchHeights(batch))
    {
      if r in AddRows(batch) {
        var b :| b in batch && r in BlockRows(b.block, b.height);
        assert b.height in BatchHeights(batch);
      }
      if r in TxOf(c, BatchHeights(batch)) {
        var h :| h in BatchHeights(batch) && h < |c| && r in BlockRows(c[h], h);
        var b :| b in batch && b.height == h;
        assert b.block == c[h];
      }
    }
  }

  function AllKeys(rows: seq<set<HistKey>>): set<HistKey> {
    set i, k | 0 <= i < |rows| && k in rows[i] :: k
  }

  lemma {:induction false} IndexRowsAre(batch: seq<BlockEntry>, c: seq<Block>, rows: seq<set<HistKey>>,
                                        unspendables: bool)
    requires InChain(batch, c) && |rows| == |batch|
    requires forall i :: 0 <= i < |batch| ==> rows[i] == HistAt(c, batch[i].height, unspendables)
    ensures AllKeys(rows) == HistOf(c, BatchHeights(batch), unspendables)
  {
    hide HistAt;
    forall k
      ensures k in AllKeys(rows) <==> k in HistOf(c, BatchHeights(batch), unspendables)
    {
      if k in AllKeys(rows) {
        var i :| 0 <= i < |rows| && k in rows[i];
        assert batch[i].height in BatchHeights(batch);
      }
      if k in HistOf(c, BatchHeights(batch), unspendables) {
        var h :| h in BatchHeights(batch) && h < |c| && k in HistAt(c, h, unspendables);
        var i :| 0 <= i < |batch| && batch[i].height == h;
        assert k in rows[i];
      }
    }
  }

  /** A batch of the blocks below height `m`, highest first. */
  ghost predicate Downward(batch: seq<BlockEntry>, c: seq<Block>, m: nat) {
    |batch| <= m <= |c| && forall i :: 0 <= i < |batch| ==> batch[i] == BlockEntry(c[m - 1 - i], m - 1 - i)
  }

  lemma {:induction false} RemovedBatch(d: Node, tip: BlockHash, f: nat, i: nat, j: nat)
    requires d.Rooted() && d.Knows(tip) && f <= |d.ChainTo(tip)| && i <= j <= |d.ChainTo(tip)| - f
    ensures var c := d.ChainTo(tip);
            var removed := Reversed(EntriesOf(c)[f..]);
            && |removed| == |c| - f && Fetchable(d, removed[i..j])
            && |GetBlocks(d, removed[i..j])| == j - i && Downward(GetBlocks(d, removed[i..j]), c, |c| - i)
  {
    hide Node.ChainTo, Node.Rooted;
    var c := d.ChainTo(tip);
    var chunk := Reversed(EntriesOf(c)[f..])[i..j];
    forall k | 0 <= k < |chunk|
      ensures chunk[k].Hash() in d.blocks && d.blocks[chunk[k].Hash()] == c[|c| - 1 - i - k]
              && chunk[k].height == |c| - 1 - i - k
    {
      assert chunk[k] == EntriesOf(c)[f..][|c| - f - 1 - (i + k)] == EntriesOf(c)[|c| - 1 - i - k];
      ChainToPrefix(d, tip, |c| - 1 - i - k);
    }
  }

  lemma {:induction false} DownInChain(batch: seq<BlockEntry>, c: seq<Block>, m: nat)
    requires Downward(batch, c, m)
    ensures InChain(batch, c)
  {
  }

  lemma {:induction false} DownAt(batch: seq<BlockEntry>, c: seq<Block>, m: nat, i: nat)
    requires Downward(batch, c, m) && i < |batch|
    ensures |batch| <= m <= |c| && batch[i] == BlockEntry(c[m - 1 - i], m - 1 - i)
  {
  }

  lemma {:induction false} HashesBack(batch: seq<BlockEntry>, c: seq<Block>, m: nat)
    requires ValidChain(c) && Downward(batch, c, m)
    ensures Hashes(c[..m]) - BatchHashes(batch) == Hashes(c[..m - |batch|])
  {
    hide ValidChain;
    var k := m - |batch|;
    forall h | k <= h < m
      ensures c[h].header.hash in BatchHashes(batch)
    {
      assert batch[m - 1 - h] in batch;
    }
    forall x
      ensures x in Hashes(c[..m]) <==> exists h :: 0 <= h < m && c[h].header.hash == x
      ensures x in Hashes(c[..k]) <==> exists h :: 0 <= h < k && c[h].header.hash == x
      ensures x in BatchHashes(batch) <==> exists h :: k <= h < m && c[h].header.hash == x
    {
      assert forall h :: 0 <= h < m ==> c[..m][h] == c[h];
      assert forall h :: 0 <= h < k ==> c[..k][h] == c[h];
    }
    DistinctHashes(c);
  }

  lemma {:induction false} DistinctHashes(c: seq<Block>)
    requires ValidChain(c)
    ensures forall g, h :: 0 <= g < |c| && 0 <= h < |c| && c[g].header.hash == c[h].header.hash ==> g == h
  {
  }

  lemma {:induction false} HashesMore(batch: seq<BlockEntry>, c: seq<Block>, hs: set<nat>)
    requires InChain(batch, c)
    ensures HashesAt(c, hs) + BatchHashes(batch) == HashesAt(c, hs + BatchHeights(batch))
  {
    forall x
      ensures x in BatchHashes(batch) <==> x in HashesAt(c, BatchHeights(batch))
    {
      if x in BatchHashes(batch) {
        var b :| b in batch && b.block.header.hash == x;
        assert b.height in BatchHeights(batch);
      }
      if x in HashesAt(c, BatchHeights(batch)) {
        var h :| h in BatchHeights(batch) && h < |c| && c[h].header.hash == x;
        var b :| b in batch && b.height == h;
        assert b.block == c[h];
      }
    }
  }

  /** The entries whose hash is not among the known ones, in order. */
  function FilterOut(entries: seq<HeaderEntry>, known: set<BlockHash>): (r: seq<HeaderEntry>)
    ensures forall e :: e in r <==> e in entries && e.Hash() !in known
    ensures (forall e :: e in entries ==> e.Hash() !in known) ==> r == entries
  {
    if entries == [] then []
    else if entries[0].Hash() in known then FilterOut(entries[1..], known)
    else [entries[0]] + FilterOut(entries[1..], known)
  }

  /** The new headers of a chain that goes on after its first `f` blocks. */
  lemma {:induction false} NewEntries(c: seq<Block>, f: nat)
    requires f <= |c|
    ensures OnChain(EntriesOf(c)[f..], c) && Heights(EntriesOf(c)[f..]) == Range(|c|) - Range(f)
    ensures forall e :: e in EntriesOf(c)[f..] ==> f <= e.height < |c| && e.Hash() == c[e.height].header.hash
  {
    var es := EntriesOf(c)[f..];
    forall e | e in es
      ensures f <= e.height < |c| && e == HeaderEntry(e.height, c[e.height].header)
    {
      var i :| 0 <= i < |es| && es[i] == e;
      assert es[i] == EntriesOf(c)[f + i];
    }
    forall h | h in Range(|c|) - Range(f)
      ensures h in Heights(es)
    {
      assert es[h - f] == EntriesOf(c)[h] && es[h - f] in es;
    }
  }

  /** The next batch in order covers the next heights. */
  lemma {:induction false} NextHeights(c: seq<Block>, p: nat, k: nat)
    requires p + k <= |c|
    ensures Heights(EntriesOf(c)[p..][..k]) == Range(p + k) - Range(p)
    ensures EntriesOf(c)[p..][k..] == EntriesOf(c)[p + k..]
  {
    var es := EntriesOf(c)[p..][..k];
    forall h
      ensures h in Heights(es) <==> h in Range(p + k) - Range(p)
    {
      if h in Heights(es) {
        var i :| 0 <= i < |es| && es[i].height == h;
        assert es[i] == EntriesOf(c)[p + i];
      }
      if h in Range(p + k) - Range(p) {
        assert es[h - p] == EntriesOf(c)[h] && es[h - p] in es;
      }
    }
  }

  lemma {:induction false} HashesCover(batch: seq<BlockEntry>, c: seq<Block>)
    requires InChain(batch, c)
    ensures BatchHashes(batch) <= HashesAt(c, Range(|c|))
  {
    forall b | b in batch
      ensures b.block.header.hash in HashesAt(c, Range(|c|))
    {
      assert b.height in Range(|c|);
    }
  }

  lemma {:induction false} EntriesSize(c: seq<Block>)
    ensures |EntriesOf(c)| == |c|
  {
  }

  lemma {:induction false} RangeMore(p: nat, q: nat)
    requires p <= q
    ensures Range(p) + (Range(q) - Range(p)) == Range(q)
  {
  }

  lemma {:induction false} NoHeights()
    ensures Heights([]) == {}
  {
  }
}
