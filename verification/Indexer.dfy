/** The indexer: one `update` moves the three databases from the chain they describe to the
    node's best chain, while queries may run between any two database steps. */
module Indexer {
  import opened Chain
  import opened Headers
  import opened Daemon
  import opened History
  import opened TxStore
  import opened HistStore
  import opened Visibility
  import opened Store
  import opened ChainQuery
  import opened Rollover
  import opened Batches

  // ----- database steps

  /** What is on disk, and which header list queries use, after a database step. */
  datatype Snapshot = Snapshot(txstore: set<TxRow>, tip: Option<BlockHash>, history: set<HistKey>,
      headersTip: BlockHash)

  /** After a crash at this point the store opens again; a query at this point sees exactly the
      blocks of some prefix of the header list. */
  ghost predicate SnapshotOk(d: Node, unspendables: bool, queriesOn: bool, s: Snapshot)
    requires d.Rooted()
  {
    && d.Knows(s.headersTip)
    && Recoverable(d, s.txstore, s.tip)
    && (queriesOn ==> exists p :: Shows(s.txstore, s.history, d.ChainTo(s.headersTip), p, unspendables))
  }

  /** One database step: a row deleted, a batch written, or only the tip row or a cache row
      changed. */
  ghost predicate OneStep(a: Snapshot, b: Snapshot) {
    && a.headersTip == b.headersTip
    && ( || (b.txstore == a.txstore && b.history == a.history)
         || (b.tip == a.tip && b.history == a.history
           && (a.txstore <= b.txstore || exists row :: b.txstore == a.txstore - {row}))
         || (b.tip == a.tip && b.txstore == a.txstore
           && (a.history <= b.history || exists key :: b.history == a.history - {key})))
  }

  /** Nothing happened to the databases between two recorded steps. */
  ghost predicate Linked(steps: seq<Snapshot>) {
    forall i :: 0 < i < |steps| ==> OneStep(steps[i - 1], steps[i])
  }

  /** Every recorded step left the store openable and, with queries on, showing a prefix of the
      header list; and no step is missing. */
  ghost predicate StepsFine(d: Node, unspendables: bool, queriesOn: bool, origin: Snapshot, steps: seq<Snapshot>)
    requires d.Rooted()
  {
    (steps != [] ==> steps[0] == origin) && Linked(steps)
      && forall s :: s in steps ==> SnapshotOk(d, unspendables, queriesOn, s)
  }

  lemma {:induction false} LinkedPush(steps: seq<Snapshot>, now: Snapshot)
    requires Linked(steps) && (steps == [] || OneStep(steps[|steps| - 1], now))
    ensures Linked(steps + [now])
  {
    hide OneStep;
  }

  lemma {:induction false} StepKinds(a: Snapshot)
    ensures forall tip :: OneStep(a, a.(tip := tip))
    ensures forall row :: OneStep(a, a.(txstore := a.txstore - {row}))
    ensures forall key :: OneStep(a, a.(history := a.history - {key}))
    ensures forall rows :: OneStep(a, a.(txstore := a.txstore + rows))
    ensures forall keys :: OneStep(a, a.(history := a.history + keys))
  {
  }

  /** Some rows of the abandoned blocks may be gone; nothing else changed. */
  ghost predicate Shrinking(g: Move, unspendables: bool, txdb: set<TxRow>, hist: set<HistKey>, tip: Option<BlockHash>) {
    && g.f <= |g.c0|
    && TxDb(g.c0[..g.f]) <= txdb <= TxDb(g.c0)
    && HistDb(g.c0[..g.f], unspendables) <= hist <= HistDb(g.c0, unspendables)
    && (tip == TipRow(g.c0[..g.f]) || (tip == TipRow(g.c0) && txdb == TxDb(g.c0)))
  }

  lemma {:induction false} NothingGone(g: Move, unspendables: bool)
    requires g.f <= |g.c0|
    ensures Shrinking(g, unspendables, TxDb(g.c0), HistDb(g.c0, unspendables), TipRow(g.c0))
  {
    hide TxDb, HistDb, TxOf, TipRow, HistAt;
    PrefixRows(g.c0, g.f, unspendables);
    AllRows(g.c0, unspendables);
    FewerRows(g.c0, Range(g.f), Range(|g.c0|));
  }

  lemma {:induction false} DropKey(g: Move, unspendables: bool, txdb: set<TxRow>, hist: set<HistKey>,
                                   tip: Option<BlockHash>, key: HistKey)
    requires Shrinking(g, unspendables, txdb, hist, tip) && key !in HistDb(g.c0[..g.f], unspendables)
    ensures Shrinking(g, unspendables, txdb, hist - {key}, tip)
  {
    hide TxDb, HistDb;
  }

  lemma {:induction false} DropRow(g: Move, unspendables: bool, txdb: set<TxRow>, hist: set<HistKey>,
                                   tip: Option<BlockHash>, row: TxRow)
    requires Shrinking(g, unspendables, txdb, hist, tip) && ValidChain(g.c0)
    requires row in TxDb(g.c0) && row !in TxDb(g.c0[..g.f]) && tip == TipRow(g.c0[..g.f])
    ensures Delete(txdb, row) == txdb - {row}
    ensures Shrinking(g, unspendables, Delete(txdb, row), hist, tip)
  {
    hide TxDb, HistDb, ValidChain, Delete;
    DeleteIsMinus(g.c0, txdb, row);
  }

  /** The rows of the blocks at the heights `added` have been added, those at `done` indexed. */
  ghost predicate Growing(g: Move, unspendables: bool, txdb: set<TxRow>, hist: set<HistKey>, tip: Option<BlockHash>,
                          added: set<nat>, done: set<nat>, p: nat, queriesOn: bool) {
    && g.f <= p <= |g.n| && Range(g.f) <= added <= Range(|g.n|)
    && txdb == TxOf(g.n, added) && hist == HistOf(g.n, done, unspendables)
    && (queriesOn ==> done == Range(p) && done <= added)
    && (tip == TipRow(g.n[..g.f]) || (tip == TipRow(g.n) && added == Range(|g.n|)))
  }

  /** A growing database shows the blocks indexed so far and can be opened again. */
  lemma {:induction false} GrowingMeans(g: Move, unspendables: bool, txdb: set<TxRow>, hist: set<HistKey>,
                                        tip: Option<BlockHash>,
                                        added: set<nat>, done: set<nat>, p: nat, queriesOn: bool)
    requires g.Ok() && g.d.Rooted() && Growing(g, unspendables, txdb, hist, tip, added, done, p, queriesOn)
    ensures Recoverable(g.d, txdb, tip)
    ensures queriesOn ==> Shows(txdb, hist, g.n, p, unspendables)
  {
    hide CachesRight, TxOf, HistOf, TxDb, HistDb, Node.Valid, Node.Rooted, Node.ChainTo, Contains, PartAt,
      ValidChain, Shows, Recoverable, TipRow, Range;
    MoveFacts(g);
    var n := g.n;
    FewerRows(n, Range(g.f), added);
    FewerRows(n, added, Range(|n|));
    PrefixTx(n, g.f);
    AllRows(n, unspendables);
    TipRecoverable(g.d, g.best, g.f, txdb);
    if tip == TipRow(n) && added == Range(|n|) {
      assert n[..|n|] == n;
      TipRecoverable(g.d, g.best, |n|, txdb);
    }
    if queriesOn {
      PrefixRows(n, p, unspendables);
      FewerRows(n, Range(p), added);
      ForwardShows(n, p, txdb, unspendables);
    }
  }

  lemma {:induction false} AddGrows(g: Move, unspendables: bool, txdb: set<TxRow>, hist: set<HistKey>,
                                    tip: Option<BlockHash>,
                                    added: set<nat>, done: set<nat>, p: nat, queriesOn: bool, batch: seq<BlockEntry>)
    requires Growing(g, unspendables, txdb, hist, tip, added, done, p, queriesOn)
    requires ValidChain(g.n) && InChain(batch, g.n)
    ensures var all, heights := Put(txdb, AddRows(batch)), added + BatchHeights(batch);
            Growing(g, unspendables, all, hist, tip, heights, done, p, queriesOn)
    ensures Put(txdb, AddRows(batch)) == txdb + AddRows(batch)
  {
    hide TxOf, HistOf, TxDb, HistDb, ValidChain, Put, AddRows, TipRow, Range;
    var hs := BatchHeights(batch);
    assert forall h :: h in hs ==> h in Range(|g.n|);
    AddRowsAre(batch, g.n);
    AllRows(g.n, unspendables);
    FewerRows(g.n, added, Range(|g.n|));
    FewerRows(g.n, hs, Range(|g.n|));
    PutIsUnion(g.n, txdb, AddRows(batch));
    MoreRows(g.n, added, hs, unspendables);
    assert tip == TipRow(g.n) && added == Range(|g.n|) ==> added + hs == added;
  }

  lemma {:induction false} IndexGrows(g: Move, unspendables: bool, txdb: set<TxRow>, hist: set<HistKey>,
                                      tip: Option<BlockHash>, done: set<nat>, p: nat, queriesOn: bool,
                                      batch: seq<BlockEntry>, rows: seq<set<HistKey>>, p': nat)
    requires Growing(g, unspendables, txdb, hist, tip, Range(|g.n|), done, p, queriesOn)
    requires InChain(batch, g.n) && |rows| == |batch|
    requires forall i :: 0 <= i < |batch| ==> rows[i] == HistAt(g.n, batch[i].height, unspendables)
    requires p <= p' <= |g.n| && (queriesOn ==> done + BatchHeights(batch) == Range(p'))
    ensures var keys, heights := hist + AllKeys(rows), done + BatchHeights(batch);
            Growing(g, unspendables, txdb, keys, tip, Range(|g.n|), heights, p', queriesOn)
  {
    hide TxOf, HistOf, TxDb, HistDb, HistAt, AllKeys, TipRow, Range, BatchHeights;
    IndexRowsAre(batch, g.n, rows, unspendables);
    MoreRows(g.n, done, BatchHeights(batch), unspendables);
  }

  lemma {:induction false} AllAdded(g: Move, unspendables: bool, txdb: set<TxRow>, hist: set<HistKey>,
                                    tip: Option<BlockHash>,
                                    done: set<nat>, p: nat, queriesOn: bool)
    requires Growing(g, unspendables, txdb, hist, tip, Range(|g.n|), done, p, queriesOn)
    ensures txdb == TxDb(g.n)
  {
    hide TxOf, HistOf, TxDb, HistDb, TipRow, Range;
    AllRows(g.n, unspendables);
  }

  lemma {:induction false} CachesStay(d: Node, unspendables: bool, u: map<Script, UtxoCacheRow>,
                                      t: map<Script, StatsCacheRow>, n: seq<Block>, p: nat, p': nat)
    requires d.Rooted() && p <= p' <= |n| && CachesRight(d, unspendables, u, t, n[..p])
    ensures CachesRight(d, unspendables, u, t, n[..p'])
  {
    hide UtxoRight, StatsRight;
    forall h | Contains(n[..p], h)
      ensures Contains(n[..p'], h)
    {
      var i :| 0 <= i < p && n[..p][i].header.hash == h;
      assert n[..p'][i].header.hash == h;
    }
  }

  /** The scripts that some history rows name. */
  function ScriptsOf(keys: set<HistKey>): set<Script> {
    set k | k in keys && k.H? :: k.row.script
  }

  lemma {:induction false} MoreScripts(all: set<HistKey>, left: set<HistKey>, keys: set<HistKey>)
    requires keys <= left <= all
    ensures ScriptsOf(all - left) + ScriptsOf(keys) == ScriptsOf(all - (left - keys))
  {
    assert all - (left - keys) == (all - left) + keys;
  }

  lemma {:induction false} NoScripts(all: set<HistKey>)
    ensures ScriptsOf(all - all) == {}
  {
  }

  // ----- cache rows of abandoned blocks

  /** Every cache row is stamped with a kept block or waits to be dropped. */
  ghost predicate UtxosDue(u: map<Script, UtxoCacheRow>, kept: seq<Block>, due: set<Script>) {
    forall s :: s in u ==> Contains(kept, u[s].stamp) || s in due
  }

  ghost predicate StatsDue(t: map<Script, StatsCacheRow>, kept: seq<Block>, due: set<Script>) {
    forall s :: s in t ==> Contains(kept, t[s].stamp) || s in due
  }

  /** The scripts named by the deleted rows include all those whose cache rows must go. */
  lemma {:induction false} AllDue(g: Move, unspendables: bool, u: map<Script, UtxoCacheRow>,
                                  t: map<Script, StatsCacheRow>)
    requires g.Ok() && g.d.Rooted() && CachesRight(g.d, unspendables, u, t, g.c0) && g.f <= |g.c0|
    ensures var due := ScriptsOf(HistDb(g.c0, unspendables) - HistDb(g.c0[..g.f], unspendables));
            UtxosDue(u, g.c0[..g.f], due) && StatsDue(t, g.c0[..g.f], due)
  {
    hide HistDb, ScriptsOf, Touches;
    var due := ScriptsOf(HistDb(g.c0, unspendables) - HistDb(g.c0[..g.f], unspendables));
    forall s | s in u
      ensures Contains(g.c0[..g.f], u[s].stamp) || s in due
    {
      StampDue(g, unspendables, s, u[s].stamp);
    }
    forall s | s in t
      ensures Contains(g.c0[..g.f], t[s].stamp) || s in due
    {
      StampDue(g, unspendables, s, t[s].stamp);
    }
  }

  lemma {:induction false} StampDue(g: Move, unspendables: bool, s: Script, stamp: BlockHash)
    requires g.Ok() && g.d.Rooted() && g.f <= |g.c0| && stamp in g.d.blocks
    requires Contains(g.c0, stamp) && Touches(g.d.ChainTo(stamp), unspendables, s)
    ensures Contains(g.c0[..g.f], stamp)
            || s in ScriptsOf(HistDb(g.c0, unspendables) - HistDb(g.c0[..g.f], unspendables))
  {
    hide HistDb, Flatten, Entries, ValidChain, Node.Rooted, Node.ChainTo, Node.Valid;
    MoveFacts(g);
    var h :| 0 <= h < |g.c0| && g.c0[h].header.hash == stamp;
    ChainToPrefix(g.d, g.tip, h);
    if h < g.f {
      assert g.c0[..g.f][h].header.hash == stamp;
    } else {
      var e :| e in ChainEntries(g.c0[..h + 1], unspendables, s) && e.row.height == h;
      LateEntry(g.c0, g.f, h, unspendables, s, e);
      assert H(e.row) in HistDb(g.c0, unspendables) - HistDb(g.c0[..g.f], unspendables);
    }
  }

  lemma {:induction false} LateEntry(c: seq<Block>, f: nat, h: nat, unspendables: bool, s: Script, e: Entry)
    requires ValidChain(c) && f <= h < |c| && e in ChainEntries(c[..h + 1], unspendables, s) && e.row.height == h
    ensures H(e.row) in HistDb(c, unspendables) && H(e.row) !in HistDb(c[..f], unspendables) && e.row.script == s
  {
    hide HistAt, Flatten, Entries, ValidChain;
    ValidChainPrefix(c, h + 1);
    ValidChainPrefix(c, f);
    var p := EntryFacts(c[..h + 1], unspendables, s, e);
    EntryHasRow(c[..h + 1], unspendables, e.row, e.at);
    HistStep(c, h, unspendables);
    if H(e.row) in HistDb(c[..f], unspendables) {
      RowHasEntry(c[..f], unspendables, e.row);
    }
  }

  lemma {:induction false} DueGrew(u: map<Script, UtxoCacheRow>, u': map<Script, UtxoCacheRow>,
                                   t: map<Script, StatsCacheRow>, t': map<Script, StatsCacheRow>,
                                   kept: seq<Block>, uDue: set<Script>, tDue: set<Script>)
    requires UtxosGrew(u, u', kept) && StatsGrew(t, t', kept) && UtxosDue(u, kept, uDue) && StatsDue(t, kept, tDue)
    ensures UtxosDue(u', kept, uDue) && StatsDue(t', kept, tDue)
  {
    hide Contains;
  }

  lemma {:induction false} NoneDue(d: Node, unspendables: bool, u: map<Script, UtxoCacheRow>,
                                   t: map<Script, StatsCacheRow>, c: seq<Block>, kept: seq<Block>)
    requires d.Rooted() && CachesRight(d, unspendables, u, t, c) && UtxosDue(u, kept, {}) && StatsDue(t, kept, {})
    ensures CachesRight(d, unspendables, u, t, kept)
  {
    hide Contains, UtxoRight, StatsRight;
  }

  /** Dropping rows keeps the others right. */
  lemma {:induction false} StatDropped(d: Node, unspendables: bool, u: map<Script, UtxoCacheRow>,
                                       t: map<Script, StatsCacheRow>, c: seq<Block>, s: Script,
                                       kept: seq<Block>, due: set<Script>)
    requires d.Rooted() && CachesRight(d, unspendables, u, t, c) && StatsDue(t, kept, due)
    ensures CachesRight(d, unspendables, u, t - {s}, c) && StatsDue(t - {s}, kept, due - {s})
  {
    hide Contains, UtxoRight, StatsRight;
  }

  lemma {:induction false} UtxoDropped(d: Node, unspendables: bool, u: map<Script, UtxoCacheRow>,
                                       t: map<Script, StatsCacheRow>, c: seq<Block>, s: Script,
                                       kept: seq<Block>, due: set<Script>)
    requires d.Rooted() && CachesRight(d, unspendables, u, t, c) && UtxosDue(u, kept, due)
    ensures CachesRight(d, unspendables, u - {s}, t, c) && UtxosDue(u - {s}, kept, due - {s})
  {
    hide Contains, UtxoRight, StatsRight;
  }

  // ----- whole updates

  /** The databases, the sets of hashes and the caches all describe the chain of the header
      list, exactly as if they had been built from scratch. */
  ghost predicate Consistent(store: Store, d: Node)
    reads store, store.headers
  {
    && d.Valid() && Follows(store.headers, d)
    && Describes(store, d.ChainTo(store.headers.tip))
    && CachesRight(d, store.unspendables, store.utxoCache, store.statsCache, d.ChainTo(store.headers.tip))
  }

  ghost predicate Describes(store: Store, c: seq<Block>)
    reads store
  {
    && store.txstore == TxDb(c) && store.history == HistDb(c, store.unspendables)
    && store.tip == TipRow(c) && store.added == Hashes(c)
  }

  lemma {:induction false} DescribesGives(store: Store, c: seq<Block>)
    requires Describes(store, c)
    ensures store.txstore == TxDb(c) && store.history == HistDb(c, store.unspendables)
    ensures store.tip == TipRow(c) && store.added == Hashes(c)
  {
  }

  lemma {:induction false} DescribesHolds(store: Store, c: seq<Block>)
    requires store.txstore == TxDb(c) && store.history == HistDb(c, store.unspendables)
    requires store.tip == TipRow(c) && store.added == Hashes(c)
    ensures Describes(store, c)
  {
  }

  lemma {:induction false} TipRowIs(c: seq<Block>, f: nat)
    requires f < |c|
    ensures TipRow(c[..f]) == if 0 < f then Some(c[f - 1].header.hash) else None
  {
  }

  lemma {:induction false} TipMoved(g: Move, unspendables: bool, txdb: set<TxRow>, hist: set<HistKey>,
                                    tip: Option<BlockHash>)
    requires Shrinking(g, unspendables, txdb, hist, tip)
    ensures g.f <= |g.c0| && Shrinking(g, unspendables, txdb, hist, TipRow(g.c0[..g.f]))
  {
    hide TxDb, HistDb, TipRow;
  }

  lemma {:induction false} TipAdvanced(g: Move, unspendables: bool, txdb: set<TxRow>, hist: set<HistKey>,
                                       tip: Option<BlockHash>,
                                       done: set<nat>, p: nat, queriesOn: bool)
    requires Growing(g, unspendables, txdb, hist, tip, Range(|g.n|), done, p, queriesOn)
    ensures Growing(g, unspendables, txdb, hist, TipRow(g.n), Range(|g.n|), done, p, queriesOn)
  {
    hide TxOf, HistOf, TipRow, Range;
  }

  lemma {:induction false} BestTip(g: Move)
    requires g.Ok() && g.best in g.d.blocks
    ensures TipRow(g.n) == Some(g.best)
  {
    hide Node.Rooted, Node.ChainTo;
    assert g.d.Rooted();
    NotNull(g.d, g.best);
    ChainToLinked(g.d, g.best);
  }

  lemma {:induction false} NotNull(d: Node, h: BlockHash)
    requires d.Rooted() && h in d.blocks
    ensures h != NULL_HASH
  {
    assert d.RootedAt(h);
  }

  lemma {:induction false} Ends(g: Move, unspendables: bool, txdb: set<TxRow>, hist: set<HistKey>,
                                tip: Option<BlockHash>,
                                done: set<nat>, p: nat, queriesOn: bool)
    requires Growing(g, unspendables, txdb, hist, tip, Range(|g.n|), done, p, queriesOn)
    ensures p <= |g.n| && txdb == TxDb(g.n) && hist == HistOf(g.n, done, unspendables)
  {
    hide TxOf, HistOf, TxDb, HistDb, TipRow, Range;
    AllAdded(g, unspendables, txdb, hist, tip, done, p, queriesOn);
  }

  lemma {:induction false} NewIsNew(n: seq<Block>, f: nat)
    requires ValidChain(n) && f <= |n|
    ensures NoneKnown(n, f, HashesAt(n, Range(f)))
  {
    DistinctHashes(n);
  }

  lemma {:induction false} RemovedSize(c: seq<Block>, f: nat)
    requires f <= |c|
    ensures |Reversed(EntriesOf(c)[f..])| == |c| - f
  {
  }

  /** The heights that an update indexes, or that are indexed already: all but those of new
      blocks in the set loaded when the store was opened. */
  function Covered(n: seq<Block>, f: nat, known: set<BlockHash>): (hs: set<nat>)
    ensures forall h: nat :: h in hs <==> h < |n| && (h < f || n[h].header.hash !in known)
  {
    set h | h in Range(|n|) && (h < f || n[h].header.hash !in known)
  }

  ghost predicate NoneKnown(n: seq<Block>, f: nat, known: set<BlockHash>) {
    forall h :: f <= h < |n| ==> n[h].header.hash !in known
  }

  lemma {:induction false} ConsistentGives(store: Store, d: Node)
    requires Consistent(store, d)
    ensures d.Valid() && d.Rooted() && Follows(store.headers, d) && d.Knows(store.headers.tip)
    ensures Describes(store, d.ChainTo(store.headers.tip))
    ensures CachesRight(d, store.unspendables, store.utxoCache, store.statsCache, d.ChainTo(store.headers.tip))
  {
  }

  lemma {:induction false} KnowsBlock(d: Node, h: BlockHash)
    requires h in d.blocks
    ensures d.Knows(h)
  {
  }

  lemma {:induction false} ConsistentHolds(store: Store, d: Node)
    requires d.Valid() && d.Rooted() && Follows(store.headers, d) && d.Knows(store.headers.tip)
    requires Describes(store, d.ChainTo(store.headers.tip))
    requires CachesRight(d, store.unspendables, store.utxoCache, store.statsCache, d.ChainTo(store.headers.tip))
    ensures Consistent(store, d)
  {
  }

  lemma {:induction false} MoveIsOk(g: Move)
    requires g.d.Valid() && g.d.Knows(g.tip) && g.best in g.d.blocks
    requires g.c0 == g.d.ChainTo(g.tip) && g.n == g.d.ChainTo(g.best) && g.f == Fork(g.n, g.c0)
    ensures g.Ok() && g.d.Knows(g.best) && g.f <= |g.c0| && g.f <= |g.n|
  {
  }

  lemma {:induction false} ConsistentIff(store: Store, g: Move)
    requires g.Ok() && Follows(store.headers, g.d) && store.headers.tip == g.best && g.d.Rooted()
    requires CachesRight(g.d, store.unspendables, store.utxoCache, store.statsCache, g.n)
    requires store.txstore == TxDb(g.n) && store.tip == TipRow(g.n) && store.added == Hashes(g.n)
    requires store.history == HistOf(g.n, Covered(g.n, g.f, store.indexed), store.unspendables)
    ensures Consistent(store, g.d) <==> NoneKnown(g.n, g.f, store.indexed)
  {
    hide CachesRight, TxDb, HistDb, HistOf, Covered, NoneKnown, Hashes, TipRow, Node.Rooted, Node.ChainTo;
    MoveFacts(g);
    CompleteIff(g.n, g.f, store.indexed, store.unspendables);
  }

  /** The history is complete exactly when no new block was already in the loaded set. */
  lemma {:induction false} CompleteIff(n: seq<Block>, f: nat, known: set<BlockHash>, unspendables: bool)
    requires ValidChain(n) && f <= |n|
    ensures HistOf(n, Covered(n, f, known), unspendables) == HistDb(n, unspendables) <==> NoneKnown(n, f, known)
  {
    hide HistAt, HistDb, ValidChain;
    AllRows(n, unspendables);
    if NoneKnown(n, f, known) {
      assert Covered(n, f, known) == Range(|n|);
    } else {
      var h :| f <= h < |n| && n[h].header.hash in known;
      var k := DoneRow(n, h, unspendables);
      assert h in Range(|n|) && k in HistOf(n, Range(|n|), unspendables);
      assert h !in Covered(n, f, known);
      assert k !in HistOf(n, Covered(n, f, known), unspendables);
    }
  }

  lemma {:induction false} DoneRow(n: seq<Block>, h: nat, unspendables: bool) returns (k: HistKey)
    requires ValidChain(n) && h < |n|
    ensures k in HistAt(n, h, unspendables)
    ensures forall g :: 0 <= g < |n| && k in HistAt(n, g, unspendables) ==> g == h
  {
    hide Outs, Flatten, ValidChain;
    k := D(n[h].header.hash);
    forall g | 0 <= g < |n| && k in HistAt(n, g, unspendables)
      ensures g == h
    {
      BlockHistIn(n[g], g, Outs(Flatten(n[..g + 1])), unspendables, k);
      OneBlock(n, k, g, h);
    }
  }

  lemma {:induction false} CoveredIs(n: seq<Block>, f: nat, known: set<BlockHash>)
    requires f <= |n|
    ensures Range(f) + Heights(FilterOut(EntriesOf(n)[f..], known)) == Covered(n, f, known)
    ensures OnChain(FilterOut(EntriesOf(n)[f..], known), n)
    ensures NoneKnown(n, f, known) ==> FilterOut(EntriesOf(n)[f..], known) == EntriesOf(n)[f..]
  {
    hide EntriesOf, FilterOut;
    EntriesSize(n);
    NewEntries(n, f);
    var es := EntriesOf(n)[f..];
    var kept := FilterOut(es, known);
    forall h: nat
      ensures h in Range(f) + Heights(kept) <==> h in Covered(n, f, known)
    {
      if f <= h < |n| && n[h].header.hash !in known {
        assert h in Heights(es);
        var e :| e in es && e.height == h;
        assert e in kept;
      }
      if h in Heights(kept) {
        var e :| e in kept && e.height == h;
        assert e in es;
      }
    }
  }

  class Indexer {
    const store: Store
    var from: FetchFrom
    ghost var origin: Snapshot     // where the update starts
    ghost var steps: seq<Snapshot>

    constructor (store: Store, from: FetchFrom)
      ensures this.store == store && this.from == from && steps == []
    {
      this.store, this.from, steps := store, from, [];
      origin := Snapshot({}, None, {}, NULL_HASH);
    }

    ghost predicate StepsOk(d: Node, queriesOn: bool)
      requires d.Rooted()
      reads this`steps, this`origin
    {
      StepsFine(d, store.unspendables, queriesOn, origin, steps)
    }

    ghost function Now(): Snapshot
      reads store`txstore, store`tip, store`history, store.headers`tip
    {
      Snapshot(store.txstore, store.tip, store.history, store.headers.tip)
    }

    /** The databases are as the last recorded step left them. */
    ghost predicate Recorded()
      reads this`steps, store`txstore, store`tip, store`history, store.headers`tip
    {
      steps != [] && steps[|steps| - 1] == Now()
    }

    /** At most one database step has happened since the last recorded one. */
    ghost predicate Linkable()
      reads this`steps, this`origin, store`txstore, store`tip, store`history, store.headers`tip
    {
      if steps == [] then Now() == origin else OneStep(steps[|steps| - 1], Now())
    }

    lemma Was()
      requires Recorded()
      ensures steps != [] && steps[|steps| - 1] == Snapshot(store.txstore, store.tip, store.history, store.headers.tip)
      ensures Linkable()
    {
      StepKinds(Now());
      assert Now().(tip := store.tip) == Now();
    }

    lemma Links()
      requires var now := Snapshot(store.txstore, store.tip, store.history, store.headers.tip);
               if steps == [] then now == origin else OneStep(steps[|steps| - 1], now)
      ensures Linkable()
    {
      hide OneStep;
    }

    /** The state between two database steps. */
    ghost predicate Between(g: Move, p: nat, c: seq<Block>, queriesOn: bool)
      reads this, store, store.headers
    {
      && g.Ok() && Follows(store.headers, g.d) && store.headers.tip == g.best && p <= |g.n|
      && Recoverable(g.d, store.txstore, store.tip)
      && CachesRight(g.d, store.unspendables, store.utxoCache, store.statsCache, c)
      && (queriesOn ==> Ready(store, g.d, p) && CachesReady(store, g.d, p, c))
      && StepsOk(g.d, queriesOn)
    }

    /** Records a database step and lets queries run before the next one. */
    method StepDone(ghost g: Move, ghost p: nat, ghost c: seq<Block>, queriesOn: bool)
      requires Between(g, p, c, queriesOn) && Linkable()
      modifies this`steps, store`utxoCache, store`statsCache
      ensures Between(g, p, c, queriesOn) && Recorded()
      ensures steps == old(steps) + [Snapshot(store.txstore, store.tip, store.history, store.headers.tip)]
      ensures UtxosGrew(old(store.utxoCache), store.utxoCache, g.n[..p])
      ensures StatsGrew(old(store.statsCache), store.statsCache, g.n[..p])
    {
      hide *;
      BetweenGives(g, p, c, queriesOn);
      ghost var now := Snapshot(store.txstore, store.tip, store.history, store.headers.tip);
      StepIsOk(g, p, c, queriesOn, now);
      steps := steps + [now];
      GrewNot(store.utxoCache, store.statsCache, g.n[..p]);
      if queriesOn {
        RunQueries(store, g.d, p, c);
      }
      FineIsOk(g.d, queriesOn);
      BetweenHolds(g, p, c, queriesOn);
    }

    lemma FineIsOk(d: Node, queriesOn: bool)
      requires d.Rooted() && StepsFine(d, store.unspendables, queriesOn, origin, steps)
      ensures StepsOk(d, queriesOn)
    {
    }

    lemma BetweenGives(g: Move, p: nat, c: seq<Block>, queriesOn: bool)
      requires Between(g, p, c, queriesOn)
      ensures g.Ok() && g.d.Rooted() && Follows(store.headers, g.d) && store.headers.tip == g.best && p <= |g.n|
      ensures g.d.Knows(store.headers.tip) && g.n == g.d.ChainTo(store.headers.tip)
      ensures Recoverable(g.d, store.txstore, store.tip)
      ensures CachesRight(g.d, store.unspendables, store.utxoCache, store.statsCache, c)
      ensures queriesOn ==> Ready(store, g.d, p) && CachesReady(store, g.d, p, c)
    {
      hide Recoverable, CachesRight, Ready, CachesReady, StepsOk;
    }

    lemma BetweenHolds(g: Move, p: nat, c: seq<Block>, queriesOn: bool)
      requires g.Ok() && g.d.Rooted() && Follows(store.headers, g.d) && store.headers.tip == g.best && p <= |g.n|
      requires Recoverable(g.d, store.txstore, store.tip) && StepsOk(g.d, queriesOn)
      requires queriesOn ==> Ready(store, g.d, p) && CachesReady(store, g.d, p, c)
      requires !queriesOn ==> CachesRight(g.d, store.unspendables, store.utxoCache, store.statsCache, c)
      requires steps != [] && steps[|steps| - 1] == Snapshot(store.txstore, store.tip, store.history, store.headers.tip)
      ensures Between(g, p, c, queriesOn) && Recorded()
    {
      hide Recoverable, CachesRight, Ready, StepsOk, Follows, Move.Ok;
    }

    lemma StepIsOk(g: Move, p: nat, c: seq<Block>, queriesOn: bool, now: Snapshot)
      requires Between(g, p, c, queriesOn) && Linkable()
      requires now == Snapshot(store.txstore, store.tip, store.history, store.headers.tip)
      ensures g.d.Rooted() && StepsFine(g.d, store.unspendables, queriesOn, origin, steps + [now])
    {
      hide Recoverable, CachesRight, Shows, Follows, CachesReady, OneStep, Linked;
      LinkedPush(steps, now);
    }

    // ----- rolling back

    ghost predicate Rolling(g: Move, queriesOn: bool)
      reads this, store, store.headers
    {
      Between(g, g.f, g.c0, queriesOn) && Shrinking(g, store.unspendables, store.txstore, store.history, store.tip)
    }

    lemma RollingHolds(g: Move, queriesOn: bool)
      requires g.Ok() && Follows(store.headers, g.d) && store.headers.tip == g.best
      requires Shrinking(g, store.unspendables, store.txstore, store.history, store.tip) && StepsOk(g.d, queriesOn)
      requires CachesRight(g.d, store.unspendables, store.utxoCache, store.statsCache, g.c0)
      ensures Rolling(g, queriesOn)
    {
      hide CachesRight, TxDb, HistDb, Node.Valid, Node.Rooted, Node.ChainTo, Contains, PartAt, ValidChain, Shows,
        Recoverable, TipRow;
      MoveFacts(g);
      RollbackShows(g.c0, g.n, g.f, store.txstore, store.history, store.unspendables);
      TipRecoverable(g.d, g.tip, g.f, store.txstore);
      if store.tip == TipRow(g.c0) && store.txstore == TxDb(g.c0) {
        assert g.c0[..|g.c0|] == g.c0;
        TipRecoverable(g.d, g.tip, |g.c0|, store.txstore);
      }
    }

    lemma RollingGives(g: Move, queriesOn: bool)
      requires Rolling(g, queriesOn)
      ensures g.Ok() && Follows(store.headers, g.d) && store.headers.tip == g.best
      ensures Shrinking(g, store.unspendables, store.txstore, store.history, store.tip) && StepsOk(g.d, queriesOn)
      ensures CachesRight(g.d, store.unspendables, store.utxoCache, store.statsCache, g.c0)
      ensures g.d.Rooted() && g.d.Knows(g.tip) && g.c0 == g.d.ChainTo(g.tip) && g.d.Knows(g.best)
              && g.n == g.d.ChainTo(g.best)
      ensures ValidChain(g.c0) && ValidChain(g.n) && g.f <= |g.c0| && g.f <= |g.n| && g.c0[..g.f] == g.n[..g.f]
    {
      hide CachesRight, Shrinking, Ready, CachesReady;
      MoveFacts(g);
    }

    method RollingStepDone(ghost g: Move, queriesOn: bool)
      requires Rolling(g, queriesOn) && Linkable()
      modifies this`steps, store`utxoCache, store`statsCache
      ensures Rolling(g, queriesOn) && Recorded()
      ensures |steps| > |old(steps)| && steps[..|old(steps)|] == old(steps)
      ensures UtxosGrew(old(store.utxoCache), store.utxoCache, g.n[..g.f])
      ensures StatsGrew(old(store.statsCache), store.statsCache, g.n[..g.f])
    {
      hide Between, Shrinking, Linkable, Recorded;
      StepDone(g, g.f, g.c0, queriesOn);
    }

    /** Deletes history rows of abandoned blocks, one at a time. */
    method DeleteHistory(ghost g: Move, keys: set<HistKey>, queriesOn: bool)
      requires Rolling(g, queriesOn) && Recorded() && g.f <= |g.c0|
      requires keys !! HistDb(g.c0[..g.f], store.unspendables)
      modifies this`steps, store`history, store`utxoCache, store`statsCache
      ensures Rolling(g, queriesOn) && Recorded()
      ensures store.history == old(store.history) - keys
    {
      hide *;
      var rest := keys;
      while rest != {}
        invariant rest <= keys && Rolling(g, queriesOn) && Recorded()
        invariant store.history == old(store.history) - (keys - rest)
        decreases rest
      {
        var key :| key in rest;
        RollingGives(g, queriesOn);
        DropKey(g, store.unspendables, store.txstore, store.history, store.tip, key);
        Was();
        StepKinds(steps[|steps| - 1]);
        store.history := store.history - {key};
        Links();
        rest := rest - {key};
        RollingHolds(g, queriesOn);
        RollingStepDone(g, queriesOn);
      }
    }

    /** Deletes txstore rows of abandoned blocks, one at a time. */
    method DeleteTxRows(ghost g: Move, rows: set<TxRow>, queriesOn: bool)
      requires Rolling(g, queriesOn) && Recorded() && g.f <= |g.c0|
      requires rows <= TxDb(g.c0) && rows !! TxDb(g.c0[..g.f]) && store.tip == TipRow(g.c0[..g.f])
      modifies this`steps, store`txstore, store`utxoCache, store`statsCache
      ensures Rolling(g, queriesOn) && Recorded()
      ensures store.txstore == old(store.txstore) - rows
    {
      hide *;
      var rest := rows;
      while rest != {}
        invariant rest <= rows && Rolling(g, queriesOn) && Recorded()
        invariant store.txstore == old(store.txstore) - (rows - rest)
        decreases rest
      {
        var row :| row in rest;
        RollingGives(g, queriesOn);
        DropRow(g, store.unspendables, store.txstore, store.history, store.tip, row);
        Was();
        StepKinds(steps[|steps| - 1]);
        store.txstore := Delete(store.txstore, row);
        Links();
        rest := rest - {row};
        RollingHolds(g, queriesOn);
        RollingStepDone(g, queriesOn);
      }
    }

    /** Deletes the history of a batch of abandoned blocks and collects the scripts it names.
        No previous output is missing, since the txstore still holds the whole old chain. */
    method IndexDelete(ghost g: Move, batch: seq<BlockEntry>, ghost m: nat, scripts: set<Script>,
                       queriesOn: bool) returns (all: set<Script>)
      requires Rolling(g, queriesOn) && Recorded() && Downward(batch, g.c0, m) && g.f + |batch| <= m <= |g.c0|
      requires store.txstore == TxDb(g.c0) && store.history == HistDb(g.c0[..m], store.unspendables)
      requires scripts == ScriptsOf(HistDb(g.c0, store.unspendables) - store.history)
      modifies this`steps, store`history, store`utxoCache, store`statsCache
      ensures Rolling(g, queriesOn) && Recorded() && store.history == HistDb(g.c0[..m - |batch|], store.unspendables)
      ensures all == ScriptsOf(HistDb(g.c0, store.unspendables) - store.history)
    {
      hide *;
      RollingGives(g, queriesOn);
      DownInChain(batch, g.c0, m);
      var rows := IndexRows(store.txstore, batch, store.unspendables, g.c0);
      all := scripts;
      for i := 0 to |batch|
        invariant Rolling(g, queriesOn) && Recorded() && store.history == HistDb(g.c0[..m - i], store.unspendables)
        invariant all == ScriptsOf(HistDb(g.c0, store.unspendables) - store.history)
      {
        DownAt(batch, g.c0, m, i);
        HistBack(g.c0, m - 1 - i, g.f, store.unspendables);
        MoreScripts(HistDb(g.c0, store.unspendables), store.history, rows.value[i]);
        all := all + ScriptsOf(rows.value[i]);
        DeleteHistory(g, rows.value[i], queriesOn);
      }
    }

    /** Deletes the txstore rows of a batch of abandoned blocks. */
    method AddDelete(ghost g: Move, batch: seq<BlockEntry>, ghost m: nat, queriesOn: bool)
      requires Rolling(g, queriesOn) && Recorded() && Downward(batch, g.c0, m) && g.f + |batch| <= m <= |g.c0|
      requires store.txstore == TxDb(g.c0[..m]) && store.added == Hashes(g.c0[..m]) && store.tip == TipRow(g.c0[..g.f])
      modifies this`steps, store`txstore, store`added, store`utxoCache, store`statsCache
      ensures Rolling(g, queriesOn) && Recorded() && store.txstore == TxDb(g.c0[..m - |batch|])
      ensures store.added == Hashes(g.c0[..m - |batch|])
    {
      hide *;
      RollingGives(g, queriesOn);
      for i := 0 to |batch|
        invariant Rolling(g, queriesOn) && Recorded() && store.txstore == TxDb(g.c0[..m - i])
                  && store.added == old(store.added)
      {
        DownAt(batch, g.c0, m, i);
        TxBack(g.c0, m - 1 - i, g.f);
        DeleteTxRows(g, BlockRows(batch[i].block, batch[i].height), queriesOn);
      }
      HashesBack(batch, g.c0, m);
      RollingGives(g, queriesOn);
      store.added := store.added - BatchHashes(batch);
      RollingHolds(g, queriesOn);
    }

    /** Drops the cache rows of the collected scripts: the statistics first, then the outputs. */
    method DropCaches(ghost g: Move, scripts: set<Script>, queriesOn: bool)
      requires Rolling(g, queriesOn) && Recorded() && g.f <= |g.c0|
      requires UtxosDue(store.utxoCache, g.c0[..g.f], scripts) && StatsDue(store.statsCache, g.c0[..g.f], scripts)
      modifies this`steps, store`utxoCache, store`statsCache
      ensures Rolling(g, queriesOn) && Recorded()
      ensures UtxosDue(store.utxoCache, g.c0[..g.f], {}) && StatsDue(store.statsCache, g.c0[..g.f], {})
    {
      hide *;
      var rest := scripts;
      while rest != {}
        invariant Rolling(g, queriesOn) && Recorded()
        invariant UtxosDue(store.utxoCache, g.c0[..g.f], rest) && StatsDue(store.statsCache, g.c0[..g.f], rest)
        decreases rest
      {
        var s :| s in rest;
        RollingGives(g, queriesOn);
        StatDropped(g.d, store.unspendables, store.utxoCache, store.statsCache, g.c0, s, g.c0[..g.f], rest);
        store.statsCache := store.statsCache - {s};
        RollingHolds(g, queriesOn);
        ghost var u, t := store.utxoCache, store.statsCache;
        Was();
        RollingStepDone(g, queriesOn);
        DueGrew(u, store.utxoCache, t, store.statsCache, g.c0[..g.f], rest, rest - {s});
        RollingGives(g, queriesOn);
        u, t := store.utxoCache - {s}, store.statsCache;
        UtxoDropped(g.d, store.unspendables, store.utxoCache, t, g.c0, s, g.c0[..g.f], rest);
        store.utxoCache := store.utxoCache - {s};
        rest := rest - {s};
        RollingHolds(g, queriesOn);
        Was();
        RollingStepDone(g, queriesOn);
        DueGrew(u, store.utxoCache, t, store.statsCache, g.c0[..g.f], rest, rest);
      }
    }

    /** The first pass over the abandoned blocks. */
    method DeleteHistories(ghost g: Move, d: Node, removed: seq<HeaderEntry>,
                           queriesOn: bool) returns (scripts: set<Script>)
      requires Rolling(g, queriesOn) && Recorded() && d == g.d && g.f <= |g.c0|
               && removed == Reversed(EntriesOf(g.c0)[g.f..])
      requires store.txstore == TxDb(g.c0) && store.history == HistDb(g.c0, store.unspendables)
      modifies this`steps, store`history, store`utxoCache, store`statsCache
      ensures Rolling(g, queriesOn) && Recorded() && store.history == HistDb(g.c0[..g.f], store.unspendables)
      ensures scripts == ScriptsOf(HistDb(g.c0, store.unspendables) - HistDb(g.c0[..g.f], store.unspendables))
    {
      hide *;
      RollingGives(g, queriesOn);
      RemovedBatch(g.d, g.tip, g.f, 0, 0);
      assert g.c0[..|g.c0|] == g.c0;
      NoScripts(HistDb(g.c0, store.unspendables));
      scripts := {};
      var i := 0;
      while i < |removed|
        invariant 0 <= i <= |removed| && Rolling(g, queriesOn) && Recorded()
        invariant store.history == HistDb(g.c0[..|g.c0| - i], store.unspendables)
        invariant scripts == ScriptsOf(HistDb(g.c0, store.unspendables) - store.history)
      {
        var j := ChunkEnd(i, |removed|);
        RemovedBatch(g.d, g.tip, g.f, i, j);
        scripts := IndexDelete(g, GetBlocks(d, removed[i..j]), |g.c0| - i, scripts, queriesOn);
        i := j;
      }
    }

    /** The second pass over the abandoned blocks. */
    method DeleteTxs(ghost g: Move, d: Node, removed: seq<HeaderEntry>, queriesOn: bool)
      requires Rolling(g, queriesOn) && Recorded() && d == g.d && g.f <= |g.c0|
               && removed == Reversed(EntriesOf(g.c0)[g.f..])
      requires store.txstore == TxDb(g.c0) && store.added == Hashes(g.c0) && store.tip == TipRow(g.c0[..g.f])
      modifies this`steps, store`txstore, store`added, store`utxoCache, store`statsCache
      ensures Rolling(g, queriesOn) && Recorded() && store.txstore == TxDb(g.c0[..g.f])
              && store.added == Hashes(g.c0[..g.f])
    {
      hide *;
      RollingGives(g, queriesOn);
      RemovedBatch(g.d, g.tip, g.f, 0, 0);
      assert g.c0[..|g.c0|] == g.c0;
      var i := 0;
      while i < |removed|
        invariant 0 <= i <= |removed| && Rolling(g, queriesOn) && Recorded()
        invariant store.txstore == TxDb(g.c0[..|g.c0| - i]) && store.added == Hashes(g.c0[..|g.c0| - i])
      {
        var j := ChunkEnd(i, |removed|);
        RemovedBatch(g.d, g.tip, g.f, i, j);
        AddDelete(g, GetBlocks(d, removed[i..j]), |g.c0| - i, queriesOn);
        i := j;
      }
    }

    /** Undoes the abandoned blocks: the databases are then those built from scratch for the
        shared blocks, and no cache row is stamped with an abandoned one. */
    method Reorg(ghost g: Move, d: Node, removed: seq<HeaderEntry>, queriesOn: bool)
      requires Rolling(g, queriesOn) && Recorded() && d == g.d && g.f <= |g.c0|
               && removed == Reversed(EntriesOf(g.c0)[g.f..])
      requires store.txstore == TxDb(g.c0) && store.history == HistDb(g.c0, store.unspendables)
      requires store.added == Hashes(g.c0) && store.tip == TipRow(g.c0[..g.f])
      modifies this`steps, store`txstore, store`history, store`added, store`utxoCache, store`statsCache
      ensures Rolling(g, queriesOn) && Recorded() && store.txstore == TxDb(g.c0[..g.f])
              && store.added == Hashes(g.c0[..g.f])
      ensures store.history == HistDb(g.c0[..g.f], store.unspendables)
      ensures g.d.Rooted() && CachesRight(g.d, store.unspendables, store.utxoCache, store.statsCache, g.c0[..g.f])
    {
      hide *;
      var scripts := DeleteHistories(g, d, removed, queriesOn);
      DeleteTxs(g, d, removed, queriesOn);
      RollingGives(g, queriesOn);
      AllDue(g, store.unspendables, store.utxoCache, store.statsCache);
      DropCaches(g, scripts, queriesOn);
      RollingGives(g, queriesOn);
      NoneDue(g.d, store.unspendables, store.utxoCache, store.statsCache, g.c0, g.c0[..g.f]);
    }

    // ----- rolling forward

    ghost predicate Forward(g: Move, added: set<nat>, done: set<nat>, p: nat, queriesOn: bool)
      reads this, store, store.headers
    {
      && Growing(g, store.unspendables, store.txstore, store.history, store.tip, added, done, p, queriesOn)
      && Between(g, p, g.n[..p], queriesOn)
    }

    lemma ForwardHolds(g: Move, added: set<nat>, done: set<nat>, p: nat, queriesOn: bool)
      requires g.Ok() && Follows(store.headers, g.d) && store.headers.tip == g.best
      requires Growing(g, store.unspendables, store.txstore, store.history, store.tip, added, done, p, queriesOn)
      requires StepsOk(g.d, queriesOn) && p <= |g.n|
      requires CachesRight(g.d, store.unspendables, store.utxoCache, store.statsCache, g.n[..p])
      ensures Forward(g, added, done, p, queriesOn)
    {
      hide Growing, CachesRight, Node.Valid, Node.Rooted, Node.ChainTo, Contains, PartAt, ValidChain, Shows,
        Recoverable;
      MoveFacts(g);
      GrowingMeans(g, store.unspendables, store.txstore, store.history, store.tip, added, done, p, queriesOn);
      PrefixContains(g.n, p);
    }

    lemma ForwardGives(g: Move, added: set<nat>, done: set<nat>, p: nat, queriesOn: bool)
      requires Forward(g, added, done, p, queriesOn)
      ensures g.Ok() && Follows(store.headers, g.d) && store.headers.tip == g.best && p <= |g.n|
      ensures Growing(g, store.unspendables, store.txstore, store.history, store.tip, added, done, p, queriesOn)
      ensures g.d.Rooted() && StepsOk(g.d, queriesOn)
              && CachesRight(g.d, store.unspendables, store.utxoCache, store.statsCache, g.n[..p])
      ensures g.d.Knows(g.best) && g.n == g.d.ChainTo(g.best) && ValidChain(g.n)
    {
      hide CachesRight, Ready, CachesReady;
      MoveFacts(g);
    }

    method ForwardStepDone(ghost g: Move, ghost added: set<nat>, ghost done: set<nat>, ghost p: nat, queriesOn: bool)
      requires Forward(g, added, done, p, queriesOn) && Linkable()
      modifies this`steps, store`utxoCache, store`statsCache
      ensures Forward(g, added, done, p, queriesOn) && Recorded()
    {
      hide Between, Linkable, Recorded;
      StepDone(g, p, g.n[..p], queriesOn);
    }

    /** Adds the transactions of a batch, in one write. */
    method AddBatch(ghost g: Move, batch: seq<BlockEntry>, ghost added: set<nat>, ghost done: set<nat>, ghost p: nat,
                    queriesOn: bool)
      requires Forward(g, added, done, p, queriesOn) && Recorded() && InChain(batch, g.n)
      modifies this`steps, store`txstore, store`added, store`utxoCache, store`statsCache
      ensures Forward(g, added + BatchHeights(batch), done, p, queriesOn) && Recorded()
      ensures store.added == old(store.added) + BatchHashes(batch)
    {
      hide *;
      ForwardGives(g, added, done, p, queriesOn);
      AddGrows(g, store.unspendables, store.txstore, store.history, store.tip, added, done, p, queriesOn, batch);
      Was();
      StepKinds(steps[|steps| - 1]);
      store.txstore := Put(store.txstore, AddRows(batch));
      Links();
      ForwardHolds(g, added + BatchHeights(batch), done, p, queriesOn);
      ForwardStepDone(g, added + BatchHeights(batch), done, p, queriesOn);
      ForwardGives(g, added + BatchHeights(batch), done, p, queriesOn);
      store.added := store.added + BatchHashes(batch);
      ForwardHolds(g, added + BatchHeights(batch), done, p, queriesOn);
    }

    /** Adds all the given blocks. */
    method AddAll(ghost g: Move, d: Node, entries: seq<HeaderEntry>, ghost done: set<nat>, ghost p: nat,
                  queriesOn: bool)
      requires Forward(g, Range(g.f), done, p, queriesOn) && Recorded() && d == g.d
      requires OnChain(entries, g.n) && Range(g.f) + Heights(entries) == Range(|g.n|)
      requires store.added == HashesAt(g.n, Range(g.f))
      modifies this`steps, store`txstore, store`added, store`utxoCache, store`statsCache
      ensures Forward(g, Range(|g.n|), done, p, queriesOn) && Recorded()
      ensures store.added == HashesAt(g.n, Range(|g.n|))
    {
      hide *;
      var left := entries;
      ghost var added := Range(g.f);
      while left != []
        invariant Forward(g, added, done, p, queriesOn) && Recorded() && OnChain(left, g.n)
        invariant added + Heights(left) == Range(|g.n|) && store.added == HashesAt(g.n, added)
        decreases |left|
      {
        ForwardGives(g, added, done, p, queriesOn);
        Fetched(g.d, g.best, left);
        var chosen, batch, rest := NextBatch(d, from, left);
        Divided(left, chosen, rest, g.n);
        Fetched(g.d, g.best, chosen);
        HashesMore(batch, g.n, added);
        AddBatch(g, batch, added, done, p, queriesOn);
        added, left := added + BatchHeights(batch), rest;
      }
      NoHeights();
      assert added == Range(|g.n|);
    }

    /** Writes the history of a batch, in one write. Every block has been added, so that no
        previous output is missing. */
    method IndexBatch(ghost g: Move, batch: seq<BlockEntry>, ghost done: set<nat>, ghost p: nat, ghost p': nat,
                      queriesOn: bool)
      returns (ok: bool)
      requires Forward(g, Range(|g.n|), done, p, queriesOn) && Recorded() && InChain(batch, g.n)
      requires p <= p' <= |g.n| && (queriesOn ==> done + BatchHeights(batch) == Range(p'))
      requires store.added == HashesAt(g.n, Range(|g.n|))
      modifies this`steps, store`history, store`utxoCache, store`statsCache
      ensures ok && Forward(g, Range(|g.n|), done + BatchHeights(batch), p', queriesOn) && Recorded()
    {
      hide *;
      ForwardGives(g, Range(|g.n|), done, p, queriesOn);
      AllAdded(g, store.unspendables, store.txstore, store.history, store.tip, done, p, queriesOn);
      HashesCover(batch, g.n);
      if !(BatchHashes(batch) <= store.added) {
        return false; // a block is missing from the store
      }
      var rows := IndexRows(store.txstore, batch, store.unspendables, g.n);
      if rows.None? {
        return false; // a previous output is missing
      }
      ghost var keys := rows.value;
      IndexGrows(g, store.unspendables, store.txstore, store.history, store.tip, done, p, queriesOn, batch, keys, p');
      CachesStay(g.d, store.unspendables, store.utxoCache, store.statsCache, g.n, p, p');
      Was();
      StepKinds(steps[|steps| - 1]);
      store.history := store.history + AllKeys(rows.value);
      Links();
      ForwardHolds(g, Range(|g.n|), done + BatchHeights(batch), p', queriesOn);
      ForwardStepDone(g, Range(|g.n|), done + BatchHeights(batch), p', queriesOn);
      return true;
    }

    /** Indexes all the given blocks. */
    method IndexAll(ghost g: Move, d: Node, entries: seq<HeaderEntry>, queriesOn: bool) returns (ok: bool, ghost p: nat)
      requires Forward(g, Range(|g.n|), Range(g.f), g.f, queriesOn) && Recorded() && d == g.d && g.f <= |g.n|
      requires OnChain(entries, g.n) && (queriesOn ==> from.Bitcoind? && entries == EntriesOf(g.n)[g.f..])
      requires store.added == HashesAt(g.n, Range(|g.n|))
      modifies this`steps, store`history, store`utxoCache, store`statsCache
      ensures ok && Forward(g, Range(|g.n|), Range(g.f) + Heights(entries), p, queriesOn) && Recorded()
    {
      hide *;
      var left := entries;
      ghost var done := Range(g.f);
      p := g.f;
      EntriesSize(g.n);
      while left != []
        invariant Forward(g, Range(|g.n|), done, p, queriesOn) && Recorded() && OnChain(left, g.n)
        invariant done + Heights(left) == Range(g.f) + Heights(entries)
        invariant g.f <= p <= |g.n| && (queriesOn ==> done == Range(p) && left == EntriesOf(g.n)[p..])
        decreases |left|
      {
        ForwardGives(g, Range(|g.n|), done, p, queriesOn);
        Fetched(g.d, g.best, left);
        var chosen, batch, rest := NextBatch(d, from, left);
        Divided(left, chosen, rest, g.n);
        Fetched(g.d, g.best, chosen);
        ghost var p' := p;
        if queriesOn {
          p' := p + |chosen|;
          NextHeights(g.n, p, |chosen|);
          RangeMore(p, p');
        }
        ok := IndexBatch(g, batch, done, p, p', queriesOn);
        done, p, left := done + BatchHeights(batch), p', rest;
      }
      NoHeights();
      assert done == Range(g.f) + Heights(entries);
      ok := true;
    }

    // ----- one update

    lemma Begins(g: Move, queriesOn: bool)
      requires g.Ok() && Follows(store.headers, g.d) && store.headers.tip == g.best && steps == []
      requires Describes(store, g.c0) && CachesRight(g.d, store.unspendables, store.utxoCache, store.statsCache, g.c0)
      ensures Rolling(g, queriesOn)
    {
      hide TxDb, HistDb, CachesRight, Node.Valid, Node.Rooted, Node.ChainTo, Follows, ValidChain, PartAt, Contains,
        TipRow, Hashes, Move.Ok, Shrinking;
      MoveFacts(g);
      NothingGone(g, store.unspendables);
      RollingHolds(g, queriesOn);
    }

    lemma RolledBack(g: Move, queriesOn: bool)
      requires Rolling(g, queriesOn) && g.f <= |g.c0| && Describes(store, g.c0[..g.f])
      requires g.d.Rooted() && CachesRight(g.d, store.unspendables, store.utxoCache, store.statsCache, g.c0[..g.f])
      ensures Forward(g, Range(g.f), Range(g.f), g.f, queriesOn)
      ensures store.added == HashesAt(g.n, Range(g.f))
    {
      hide TxDb, HistDb, TxOf, HistOf, Hashes, HashesAt, CachesRight, Shrinking, Between, Node.Valid, Follows, TipRow;
      RollingGives(g, queriesOn);
      PrefixRows(g.n, g.f, store.unspendables);
      PrefixHashes(g.n, g.f);
      ForwardHolds(g, Range(g.f), Range(g.f), g.f, queriesOn);
    }

    /** The rollback half of an update: the tip row first, then the rows. */
    method RollBack(ghost g: Move, d: Node, removed: seq<HeaderEntry>, rollbackTip: Option<BlockHash>, queriesOn: bool)
      requires Rolling(g, queriesOn) && steps == [] && Linkable() && d == g.d && g.f <= |g.c0|
               && removed == Reversed(EntriesOf(g.c0)[g.f..])
      requires rollbackTip == if 0 < g.f < |g.c0| then Some(g.c0[g.f - 1].header.hash) else None
      requires Describes(store, g.c0)
      modifies this`steps, store`txstore, store`history, store`tip, store`added, store`utxoCache, store`statsCache
      ensures Forward(g, Range(g.f), Range(g.f), g.f, queriesOn) && Recorded()
      ensures store.added == HashesAt(g.n, Range(g.f))
    {
      hide *;
      RollingGives(g, queriesOn);
      DescribesGives(store, g.c0);
      RemovedSize(g.c0, g.f);
      RollingStepDone(g, queriesOn);
      RollingGives(g, queriesOn);
      if removed != [] {
        TipRowIs(g.c0, g.f);
        TipMoved(g, store.unspendables, store.txstore, store.history, store.tip);
        Was();
        StepKinds(steps[|steps| - 1]);
        store.tip := rollbackTip;
        Links();
        RollingHolds(g, queriesOn);
        RollingStepDone(g, queriesOn);
        Reorg(g, d, removed, queriesOn);
        DescribesHolds(store, g.c0[..g.f]);
      } else {
        assert g.c0[..g.f] == g.c0;
        DescribesHolds(store, g.c0[..g.f]);
      }
      RolledBack(g, queriesOn);
    }

    /** The forward half of an update. */
    method RollForward(ghost g: Move, d: Node, best: BlockHash, newHeaders: seq<HeaderEntry>,
                       queriesOn: bool) returns (ok: bool)
      requires Forward(g, Range(g.f), Range(g.f), g.f, queriesOn) && Recorded() && d == g.d && best == g.best
               && best in d.blocks
      requires g.f <= |g.n| && newHeaders == EntriesOf(g.n)[g.f..]
      requires store.added == HashesAt(g.n, Range(g.f))
      requires queriesOn ==> from.Bitcoind? && NoneKnown(g.n, g.f, store.indexed)
      modifies this`steps, this`from, store`txstore, store`history, store`tip, store`added, store`utxoCache,
        store`statsCache
      ensures ok && Recorded() && g.Ok() && Follows(store.headers, g.d) && store.headers.tip == g.best && from.Bitcoind?
      ensures g.d.Rooted() && StepsOk(g.d, queriesOn)
              && CachesRight(g.d, store.unspendables, store.utxoCache, store.statsCache, g.n)
      ensures store.txstore == TxDb(g.n) && store.tip == TipRow(g.n) == Some(best) && store.added == Hashes(g.n)
      ensures store.history == HistOf(g.n, Covered(g.n, g.f, store.indexed), store.unspendables)
    {
      hide *;
      ForwardGives(g, Range(g.f), Range(g.f), g.f, queriesOn);
      MoveFacts(g);
      CoveredIs(g.n, g.f, store.added);
      NewIsNew(g.n, g.f);
      RangeMore(g.f, |g.n|);
      NewEntries(g.n, g.f);
      AddAll(g, d, FilterOut(newHeaders, store.added), Range(g.f), g.f, queriesOn);
      CoveredIs(g.n, g.f, store.indexed);
      ghost var p;
      ok, p := IndexAll(g, d, FilterOut(newHeaders, store.indexed), queriesOn);
      ghost var done := Covered(g.n, g.f, store.indexed);
      ForwardGives(g, Range(|g.n|), done, p, queriesOn);
      BestTip(g);
      TipAdvanced(g, store.unspendables, store.txstore, store.history, store.tip, done, p, queriesOn);
      Was();
      StepKinds(steps[|steps| - 1]);
      store.tip := Some(best);
      Links();
      ForwardHolds(g, Range(|g.n|), done, p, queriesOn);
      ForwardStepDone(g, Range(|g.n|), done, p, queriesOn);
      ForwardGives(g, Range(|g.n|), done, p, queriesOn);
      from := Bitcoind;
      Ends(g, store.unspendables, store.txstore, store.history, store.tip, done, p, queriesOn);
      CachesStay(g.d, store.unspendables, store.utxoCache, store.statsCache, g.n, p, |g.n|);
      PrefixHashes(g.n, |g.n|);
      assert g.n[..|g.n|] == g.n;
    }

    /** One update. It fails, changing nothing, exactly when the node's best block is a strict
        ancestor of our tip. Otherwise the databases end up exactly as if built from scratch for
        the best chain, provided no new block was in the set of indexed blocks loaded at open;
        and the store can be opened again after each database step, and queries between two
        steps see exactly some prefix of the best chain. */
    method Update(d: Node, best: BlockHash, queriesOn: bool) returns (r: Option<BlockHash>)
      requires Consistent(store, d) && best in d.blocks
      requires queriesOn ==>
                 from.Bitcoind?
                 && var n := d.ChainTo(best); NoneKnown(n, Fork(n, d.ChainTo(store.headers.tip)), store.indexed)
      modifies this, store, store.headers
      ensures store.indexed == old(store.indexed) && d.Rooted() && StepsOk(d, queriesOn)
      ensures r.Some? <==> !StrictAncestor(d, best, old(store.headers.tip))
      ensures r.None? ==> Consistent(store, d) && unchanged(store) && unchanged(store.headers) && from == old(from)
      ensures r.None? ==> steps == []
      ensures r.Some? ==> r.value == best == store.headers.tip && store.tip == Some(best)
      ensures r.Some? ==> Follows(store.headers, d) && from.Bitcoind?
      ensures r.Some? ==> Recorded() && origin == Snapshot(old(store.txstore), old(store.tip), old(store.history), best)
      ensures r.Some? ==>
                var n := d.ChainTo(best);
                var f := Fork(n, d.ChainTo(old(store.headers.tip)));
                && store.txstore == TxDb(n) && store.added == Hashes(n)
                && store.history == HistOf(n, Covered(n, f, store.indexed), store.unspendables)
                && (Consistent(store, d) <==> NoneKnown(n, f, store.indexed))
    {
      hide *;
      steps := [];
      ghost var tip := store.headers.tip;
      ConsistentGives(store, d);
      KnowsBlock(d, best);
      ghost var g := Move(d, tip, best, d.ChainTo(tip), d.ChainTo(best), Fork(d.ChainTo(best), d.ChainTo(tip)));
      MoveIsOk(g);
      NoSteps(d, queriesOn);
      var newHeaders, removed, rollbackTip := SyncHeaders(d, store.headers, best);
      if store.headers.tip != best {
        ConsistentHolds(store, d);
        return None;
      }
      origin := Snapshot(store.txstore, store.tip, store.history, best);
      Links();
      Begins(g, queriesOn);
      RollBack(g, d, removed, rollbackTip, queriesOn);
      var ok := RollForward(g, d, best, newHeaders, queriesOn);
      ConsistentIff(store, g);
      return Some(best);
    }

    lemma NoSteps(d: Node, queriesOn: bool)
      requires d.Rooted() && steps == []
      ensures StepsOk(d, queriesOn)
    {
    }
  }
}
