/** Opening the store, and whole runs: any sequence of updates, restarts and queries. */
module Lifecycle {
  import opened Chain
  import opened Headers
  import opened Daemon
  import opened History
  import opened Balance
  import opened Statistics
  import opened TxStore
  import opened HistStore
  import opened Visibility
  import opened Store
  import opened ChainQuery
  import opened Rollover
  import opened Batches
  import opened Indexer

  // ----- opening

  /** The header rows as a map. */
  method LoadBlockheaders(ghost d: Node, txstore: set<TxRow>) returns (m: map<BlockHash, Header>)
    requires HeaderRowsOf(d, txstore)
    ensures forall h, header :: B(h, header) in txstore <==> h in m && m[h] == header
  {
    m := map[];
    var rest := txstore;
    while rest != {}
      invariant rest <= txstore
      invariant forall h, header :: B(h, header) in txstore - rest <==> h in m && m[h] == header
      decreases rest
    {
      var row :| row in rest;
      if row.B? {
        assert row == B(row.hash, row.header);
        m := m[row.hash := row.header];
      }
      rest := rest - {row};
    }
  }

  function LoadAdded(txstore: set<TxRow>): set<BlockHash> {
    set r | r in txstore && r.Added? :: r.hash
  }

  function LoadIndexed(history: set<HistKey>): set<BlockHash> {
    set k | k in history && k.D? :: k.hash
  }

  /** A way through header rows of the node is the node's own chain. */
  lemma {:induction false} PathIsChain(d: Node, hs: seq<Header>, m: map<BlockHash, Header>, tip: BlockHash)
    requires d.Rooted() && Path(hs, m, tip) && forall h :: h in m ==> h in d.blocks && m[h] == d.blocks[h].header
    ensures d.Knows(tip) && hs == BlockHeaders(d.ChainTo(tip))
    decreases |hs|
  {
    hide Path, Node.Rooted, Node.ChainTo;
    PathEnd(hs, m, tip);
    if hs == [] {
      NullChain(d);
    } else {
      var n := |hs| - 1;
      PathIsChain(d, hs[..n], m, hs[n].prev);
      LastHeader(d, tip);
      assert hs == hs[..n] + [hs[n]];
    }
  }

  /** A path without its last header is a path to that header's predecessor. */
  lemma {:induction false} PathEnd(hs: seq<Header>, m: map<BlockHash, Header>, tip: BlockHash)
    requires Path(hs, m, tip)
    ensures hs == [] ==> tip == NULL_HASH
    ensures var n := |hs| - 1;
            hs != [] ==> && hs[n].hash == tip && tip in m && m[tip] == hs[n] && Path(hs[..n], m, hs[n].prev)
  {
    if hs != [] {
      var n := |hs| - 1;
      forall i | 0 <= i < n
        ensures hs[..n][i].prev == TipOf(hs[..n][..i])
      {
        assert hs[..n][..i] == hs[..i];
      }
    }
  }

  lemma {:induction false} NullChain(d: Node)
    requires d.Rooted()
    ensures d.Knows(NULL_HASH) && BlockHeaders(d.ChainTo(NULL_HASH)) == []
  {
  }

  lemma {:induction false} LastHeader(d: Node, tip: BlockHash)
    requires d.Rooted() && tip in d.blocks
    ensures var header := d.blocks[tip].header;
            && d.Knows(header.prev)
            && BlockHeaders(d.ChainTo(tip)) == BlockHeaders(d.ChainTo(header.prev)) + [header]
  {
    assert d.RootedAt(tip);
  }

  lemma {:induction false} ChainIsPath(d: Node, m: map<BlockHash, Header>, tip: BlockHash, txstore: set<TxRow>)
    requires d.Rooted() && d.Knows(tip) && HeadersKept(d.ChainTo(tip), txstore)
    requires forall h, header :: B(h, header) in txstore <==> h in m && m[h] == header
    ensures Path(BlockHeaders(d.ChainTo(tip)), m, tip)
  {
    ChainToLinked(d, tip);
  }

  /** `HeaderList::new` on the header rows; false stands for the "missing expected blockhash"
      panic. It happens exactly when the tip, or one of its ancestors, has no header row. */
  method RebuildHeaders(ghost d: Node, headers: HeaderList, txstore: set<TxRow>, tip: BlockHash) returns (ok: bool)
    requires d.Rooted() && HeaderRowsOf(d, txstore) && tip != NULL_HASH
    requires headers.Valid() && headers.headers == []
    modifies headers
    ensures ok <==> Recoverable(d, txstore, Some(tip))
    ensures ok ==> Follows(headers, d) && headers.tip == tip
  {
    hide *;
    EmptyFollows(d, headers);
    TipKnown(d, txstore, tip);
    var m := LoadBlockheaders(d, txstore);
    TreeMap(d, m, txstore);
    var chain := ChainedHeaders(m, tip);
    PathIff(d, m, tip, txstore, chain);
    if chain.None? {
      return false;
    }
    ForkOfNone(d, tip, headers.tip);
    var _, _, _ := Reattach(d, headers, tip, chain.value);
    return true;
  }

  lemma {:induction false} TipKnown(d: Node, txstore: set<TxRow>, tip: BlockHash)
    requires d.Rooted()
    ensures Recoverable(d, txstore, Some(tip)) ==> tip in d.blocks && d.Knows(tip)
  {
  }

  /** Opens a store on what is on disk; None stands for the panic of `RebuildHeaders`. */
  method Open(ghost d: Node, txstore: set<TxRow>, tip: Option<BlockHash>, history: set<HistKey>,
              utxoCache: map<Script, UtxoCacheRow>, statsCache: map<Script, StatsCacheRow>, unspendables: bool)
    returns (r: Option<Store>)
    requires d.Rooted() && HeaderRowsOf(d, txstore) && tip != Some(NULL_HASH)
    ensures r.Some? <==> Recoverable(d, txstore, tip)
    ensures r.Some? ==> fresh(r.value) && fresh(r.value.headers)
    ensures r.Some? ==> Follows(r.value.headers, d) && r.value.headers.tip == if tip.Some? then tip.value else NULL_HASH
    ensures r.Some? ==>
              var s := r.value;
              && s.txstore == txstore && s.tip == tip && s.history == history && s.unspendables == unspendables
              && s.utxoCache == utxoCache && s.statsCache == statsCache
              && s.added == LoadAdded(txstore) && s.indexed == LoadIndexed(history)
  {
    hide *;
    var s := new Store(unspendables);
    s.txstore, s.tip, s.history, s.utxoCache, s.statsCache := txstore, tip, history, utxoCache, statsCache;
    s.added, s.indexed := LoadAdded(txstore), LoadIndexed(history);
    EmptyFollows(d, s.headers);
    NoTip(d, txstore);
    if tip.Some? {
      var ok := RebuildHeaders(d, s.headers, txstore, tip.value);
      if !ok {
        return None;
      }
    }
    return Some(s);
  }

  lemma {:induction false} NoTip(d: Node, txstore: set<TxRow>)
    requires d.Rooted() && HeaderRowsOf(d, txstore)
    ensures Recoverable(d, txstore, None)
  {
  }

  lemma {:induction false} EmptyFollows(d: Node, headers: HeaderList)
    requires d.Rooted() && headers.Valid() && headers.headers == []
    ensures Follows(headers, d) && headers.tip == NULL_HASH
  {
  }

  lemma {:induction false} TreeMap(d: Node, m: map<BlockHash, Header>, txstore: set<TxRow>)
    requires d.Rooted() && HeaderRowsOf(d, txstore)
    requires forall h, header :: B(h, header) in txstore <==> h in m && m[h] == header
    ensures forall h :: h in m ==> h in d.blocks && m[h] == d.blocks[h].header && m[h].hash == h && h != NULL_HASH
  {
    forall h | h in m
      ensures h in d.blocks && m[h] == d.blocks[h].header && m[h].hash == h && h != NULL_HASH
    {
      assert B(h, m[h]) in txstore;
      assert d.RootedAt(h);
    }
  }

  /** The walk finds the node's chain exactly when all its header rows exist. */
  lemma {:induction false} PathIff(d: Node, m: map<BlockHash, Header>, tip: BlockHash, txstore: set<TxRow>,
                                   chain: Option<seq<Header>>)
    requires d.Rooted() && HeaderRowsOf(d, txstore) && tip != NULL_HASH
    requires forall h, header :: B(h, header) in txstore <==> h in m && m[h] == header
    requires forall h :: h in m ==> h in d.blocks && m[h] == d.blocks[h].header
    requires chain.Some? ==> Path(chain.value, m, tip)
    requires chain.None? ==> forall hs: seq<Header> :: !Path(hs, m, tip)
    ensures chain.Some? <==> Recoverable(d, txstore, Some(tip))
    ensures chain.Some? ==> chain.value != [] && chain.value == BlockHeaders(d.ChainTo(tip))
  {
    hide Node.ChainTo, Node.Rooted, Chained;
    if chain.Some? {
      PathIsChain(d, chain.value, m, tip);
      var c := d.ChainTo(tip);
      forall i | 0 <= i < |c|
        ensures B(c[i].header.hash, c[i].header) in txstore
      {
        assert chain.value[i] == c[i].header;
      }
    }
    if Recoverable(d, txstore, Some(tip)) {
      ChainIsPath(d, m, tip, txstore);
    }
  }

  lemma {:induction false} ForkOfNone(d: Node, tip: BlockHash, none: BlockHash)
    requires d.Rooted() && d.Knows(tip) && none == NULL_HASH
    ensures BlockHeaders(d.ChainTo(tip))[Fork(d.ChainTo(tip), d.ChainTo(none))..] == BlockHeaders(d.ChainTo(tip))
  {
  }

  /** A store opens on what any recorded step of an update left on disk, with the header list of
      the persisted tip. */
  method AfterCrash(ghost d: Node, ghost queriesOn: bool, step: Snapshot, utxoCache: map<Script, UtxoCacheRow>,
                    statsCache: map<Script, StatsCacheRow>, unspendables: bool) returns (store: Option<Store>)
    requires d.Rooted() && SnapshotOk(d, unspendables, queriesOn, step)
    ensures store.Some? && Follows(store.value.headers, d)
    ensures store.value.headers.tip == if step.tip.Some? then step.tip.value else NULL_HASH
    ensures store.value.txstore == step.txstore && store.value.history == step.history
  {
    hide Node.Rooted, Node.ChainTo, Shows, HeaderRowsOf, HeadersKept, Follows, LoadAdded, LoadIndexed;
    if step.tip.Some? {
      NotNull(d, step.tip.value);
    }
    store := Open(d, step.txstore, step.tip, step.history, utxoCache, statsCache, unspendables);
  }

  // ----- restarts of a consistent store

  lemma {:induction false} LoadedAre(c: seq<Block>, unspendables: bool)
    ensures LoadAdded(TxDb(c)) == Hashes(c) && LoadIndexed(HistDb(c, unspendables)) == Hashes(c)
  {
    hide TxRows, TxHist, Outs, Flatten;
    forall x
      ensures x in LoadAdded(TxDb(c)) <==> x in Hashes(c)
      ensures x in LoadIndexed(HistDb(c, unspendables)) <==> x in Hashes(c)
    {
      AddedRow(c, x);
      DoneRowIff(c, x, unspendables);
    }
  }

  lemma {:induction false} AddedRow(c: seq<Block>, x: BlockHash)
    ensures x in LoadAdded(TxDb(c)) <==> x in Hashes(c)
  {
    hide TxRows;
    if x in LoadAdded(TxDb(c)) {
      var h, _ := Owner(c, Added(x));
      assert c[h].header.hash == x;
    }
    if x in Hashes(c) {
      var h :| 0 <= h < |c| && c[h].header.hash == x;
      assert Added(x) in BlockRows(c[h], h);
      assert Added(x) in TxDb(c);
    }
  }

  lemma {:induction false} DoneRowIff(c: seq<Block>, x: BlockHash, unspendables: bool)
    ensures x in LoadIndexed(HistDb(c, unspendables)) <==> x in Hashes(c)
  {
    hide TxHist, Outs, Flatten;
    if x in LoadIndexed(HistDb(c, unspendables)) {
      assert D(x) in HistDb(c, unspendables);
      var h :| 0 <= h < |c| && D(x) in HistAt(c, h, unspendables);
      BlockHistIn(c[h], h, Outs(Flatten(c[..h + 1])), unspendables, D(x));
    }
    if x in Hashes(c) {
      var h :| 0 <= h < |c| && c[h].header.hash == x;
      assert D(x) in HistAt(c, h, unspendables);
      assert D(x) in HistDb(c, unspendables);
    }
  }

  /** Restarting on the databases of a consistent store gives a consistent store on the same
      chain. */
  method Restart(ghost d: Node, was: Store) returns (r: Option<Store>)
    requires Consistent(was, d)
    ensures r.Some? && fresh(r.value) && fresh(r.value.headers) && Consistent(r.value, d)
    ensures r.value.headers.tip == was.headers.tip && r.value.indexed == Hashes(d.ChainTo(was.headers.tip))
    ensures r.value.unspendables == was.unspendables
  {
    hide *;
    ConsistentGives(was, d);
    DescribesGives(was, d.ChainTo(was.headers.tip));
    DiskOk(d, was.headers.tip, was.txstore, was.tip);
    LoadedAre(d.ChainTo(was.headers.tip), was.unspendables);
    r := Open(d, was.txstore, was.tip, was.history, was.utxoCache, was.statsCache, was.unspendables);
    DescribesHolds(r.value, d.ChainTo(was.headers.tip));
    FollowsKnows(r.value.headers, d);
    ConsistentHolds(r.value, d);
  }

  lemma {:induction false} FollowsKnows(headers: HeaderList, d: Node)
    requires Follows(headers, d)
    ensures d.Knows(headers.tip)
  {
  }

  lemma {:induction false} DiskOk(d: Node, h: BlockHash, txstore: set<TxRow>, tip: Option<BlockHash>)
    requires d.Rooted() && d.Knows(h) && txstore == TxDb(d.ChainTo(h)) && tip == TipRow(d.ChainTo(h))
    ensures HeaderRowsOf(d, txstore) && Recoverable(d, txstore, tip) && tip != Some(NULL_HASH)
    ensures h == if tip.Some? then tip.value else NULL_HASH
  {
    hide Node.ChainTo, Node.Rooted, TxDb, HeaderRowsOf, HeadersKept;
    var c := d.ChainTo(h);
    assert c[..|c|] == c;
    TipRecoverable(d, h, |c|, txstore);
    if tip.Some? {
      NotNull(d, tip.value);
    }
    ChainToLinked(d, h);
  }

  // ----- the node grows

  /** The node only ever learns more blocks. */
  ghost predicate Extends(d: Node, d': Node) {
    && (forall h :: h in d.blocks ==> h in d'.blocks && d'.blocks[h] == d.blocks[h])
    && (forall h :: h in d.heights ==> h in d'.heights && d'.heights[h] == d.heights[h])
  }

  lemma {:induction false} SameChain(d: Node, d': Node, h: BlockHash)
    requires d.Rooted() && d'.Rooted() && Extends(d, d') && d.Knows(h)
    ensures d'.Knows(h) && d'.ChainTo(h) == d.ChainTo(h)
    decreases |d.ChainTo(h)|
  {
    if h != NULL_HASH {
      assert d.RootedAt(h) && d'.RootedAt(h);
      SameChain(d, d', d.blocks[h].header.prev);
    }
  }

  lemma {:induction false} StillConsistent(store: Store, d: Node, d': Node)
    requires Consistent(store, d) && Extends(d, d') && d'.Valid()
    ensures Consistent(store, d')
  {
    hide Describes, Node.Rooted, Node.ChainTo, Extends, Contains, HeaderList.Valid;
    var tip := store.headers.tip;
    SameChain(d, d', tip);
    forall s | s in store.utxoCache
      ensures UtxoRight(d', store.unspendables, s, store.utxoCache[s])
    {
      StillThere(d, d', store.utxoCache[s].stamp);
    }
    forall s | s in store.statsCache
      ensures StatsRight(d', store.unspendables, s, store.statsCache[s])
    {
      StillThere(d, d', store.statsCache[s].stamp);
    }
  }

  lemma {:induction false} StillThere(d: Node, d': Node, h: BlockHash)
    requires d.Rooted() && d'.Rooted() && Extends(d, d') && h in d.blocks
    ensures h in d'.blocks && d'.ChainTo(h) == d.ChainTo(h)
  {
    SameChain(d, d', h);
  }

  // ----- queries on a consistent store

  /** A consistent store shows its whole chain, and its caches are right for it. */
  lemma {:induction false} ConsistentReady(store: Store, d: Node)
    requires Consistent(store, d)
    ensures d.Valid() && d.Rooted() && d.Knows(store.headers.tip)
    ensures var n := d.ChainTo(store.headers.tip); Ready(store, d, |n|) && CachesReady(store, d, |n|, n)
  {
    hide *;
    ConsistentGives(store, d);
    var n := d.ChainTo(store.headers.tip);
    DescribesGives(store, n);
    TipValid(d, store.headers.tip);
    WholeShown(n, store.unspendables);
    PrefixContains(n, |n|);
    ReadyIs(store, d, |n|, n);
  }

  lemma {:induction false} WholeShown(n: seq<Block>, unspendables: bool)
    requires ValidChain(n)
    ensures n[..|n|] == n && Shows(TxDb(n), HistDb(n, unspendables), n, |n|, unspendables)
  {
    hide *;
    assert n[..|n|] == n;
    ForwardShows(n, |n|, TxDb(n), unspendables);
  }

  lemma {:induction false} ReadyIs(store: Store, d: Node, p: nat, n: seq<Block>)
    requires d.Valid() && d.Rooted() && d.Knows(store.headers.tip) && Follows(store.headers, d)
    requires n == d.ChainTo(store.headers.tip) && p == |n| && n[..p] == n
    requires Shows(store.txstore, store.history, n, p, store.unspendables)
    requires CachesRight(d, store.unspendables, store.utxoCache, store.statsCache, n)
    requires forall i :: 0 <= i < |n| ==> (Contains(n[..p], n[i].header.hash) <==> i < p)
    ensures Ready(store, d, p) && CachesReady(store, d, p, n)
  {
    hide Shows, Follows, CachesRight, Contains, Node.ChainTo, Node.Rooted;
  }

  /** Right cache rows are all that a query has to leave. */
  lemma {:induction false} StaysConsistent(store: Store, d: Node, p: nat)
    requires Ready(store, d, p) && CachesReady(store, d, p, d.ChainTo(store.headers.tip))
    requires Describes(store, d.ChainTo(store.headers.tip))
    ensures Consistent(store, d)
  {
    hide Shows, CachesRight, Describes, Node.ChainTo, Node.Rooted;
  }

  /** `utxo` on a consistent store: exactly the script's outputs on its chain, or the error of a
      limit that is exceeded on the way from some height. */
  ghost predicate UtxosRight(n: seq<Block>, unspendables: bool, s: Script, limit: nat, r: Result<UtxoMap>) {
    && ValidChain(n) && (r.Ok? ==> r.value == Unspents(n, unspendables, s))
    && exists from: nat :: from <= |n| && AnsweredFrom(n, from, unspendables, s, limit, r)
  }

  ghost predicate AnsweredFrom(n: seq<Block>, from: nat, unspendables: bool, s: Script, limit: nat, r: Result<UtxoMap>)
    requires ValidChain(n) && from <= |n|
  {
    if r.Ok? then FitsFrom(n, |n|, from, unspendables, s, limit)
    else FailsFrom(n, |n|, from, unspendables, s, limit, r.error)
  }

  method AskUtxos(store: Store, ghost d: Node, s: Script, limit: nat) returns (r: Result<UtxoMap>)
    requires Consistent(store, d) && s < U256
    modifies store`utxoCache
    ensures Consistent(store, d) && d.Rooted() && d.Knows(store.headers.tip)
    ensures UtxosRight(d.ChainTo(store.headers.tip), store.unspendables, s, limit, r)
  {
    hide *;
    ConsistentGives(store, d);
    ConsistentReady(store, d);
    ghost var n := d.ChainTo(store.headers.tip);
    DescribesGives(store, n);
    ghost var from;
    r, from := Utxo(store, d, |n|, n, s, limit);
    DescribesHolds(store, n);
    StaysConsistent(store, d, |n|);
    assert n[..|n|] == n;
    RightFrom(n, store.unspendables, s, limit, r, from);
  }

  lemma {:induction false} RightFrom(n: seq<Block>, unspendables: bool, s: Script, limit: nat, r: Result<UtxoMap>,
                                     from: nat)
    requires ValidChain(n) && from <= |n| && (r.Ok? ==> r.value == Unspents(n, unspendables, s))
    requires r.Ok? ==> FitsFrom(n, |n|, from, unspendables, s, limit)
    requires r.Err? ==> FailsFrom(n, |n|, from, unspendables, s, limit, r.error)
    ensures UtxosRight(n, unspendables, s, limit, r)
  {
    hide ValidChain, Unspents, FitsFrom, FailsFrom;
    assert AnsweredFrom(n, from, unspendables, s, limit, r);
  }

  method AskStats(store: Store, ghost d: Node, s: Script) returns (stats: ScriptStats)
    requires Consistent(store, d) && s < U256
    modifies store`statsCache
    ensures Consistent(store, d) && d.Rooted() && d.Knows(store.headers.tip)
    ensures stats == StatsOf(ChainEntries(d.ChainTo(store.headers.tip), store.unspendables, s))
  {
    hide *;
    ConsistentGives(store, d);
    ConsistentReady(store, d);
    ghost var n := d.ChainTo(store.headers.tip);
    DescribesGives(store, n);
    ghost var from;
    stats, from := Stats(store, d, |n|, n, s);
    DescribesHolds(store, n);
    StaysConsistent(store, d, |n|);
    assert n[..|n|] == n;
  }

  // ----- runs

  /** What happens to a running index: an update against the node as it is then, a restart, or a
      query. */
  datatype Event =
    | Sync(d: Node, best: BlockHash, from: FetchFrom)
    | Reopen
    | QueryUtxos(s: Script, limit: nat)
    | QueryStats(s: Script)

  datatype Answer = Utxos(r: Result<UtxoMap>) | Totals(stats: ScriptStats)

  /** The tip never moves to one of its own strict ancestors, and no block in the set loaded at
      the last restart comes back after it was abandoned. */
  ghost predicate Allowed(events: seq<Event>, d: Node, tip: BlockHash, known: set<BlockHash>)
    requires d.Valid() && d.Knows(tip)
  {
    events == [] ||
    match events[0]
    case Sync(d', best, _) =>
      && Extends(d, d') && d'.Valid() && best in d'.blocks && d'.Knows(tip) && !StrictAncestor(d', best, tip)
      && NoneKnown(d'.ChainTo(best), Fork(d'.ChainTo(best), d'.ChainTo(tip)), known)
      && Allowed(events[1..], d', best, known)
    case Reopen =>
      Allowed(events[1..], d, tip, Hashes(d.ChainTo(tip)))
    case QueryUtxos(s, _) =>
      s < U256 && Allowed(events[1..], d, tip, known)
    case QueryStats(s) =>
      s < U256 && Allowed(events[1..], d, tip, known)
  }

  /** Each query is answered for the chain that is current then. */
  ghost predicate Answered(events: seq<Event>, d: Node, tip: BlockHash, unspendables: bool, answers: seq<Answer>)
    requires d.Rooted() && d.Knows(tip)
  {
    if events == [] then answers == []
    else
      match events[0]
      case Sync(d', best, _) =>
        d'.Rooted() && d'.Knows(best) && Answered(events[1..], d', best, unspendables, answers)
      case Reopen =>
        Answered(events[1..], d, tip, unspendables, answers)
      case QueryUtxos(s, limit) =>
        && answers != [] && answers[0].Utxos?
        && UtxosRight(d.ChainTo(tip), unspendables, s, limit, answers[0].r)
        && Answered(events[1..], d, tip, unspendables, answers[1..])
      case QueryStats(s) =>
        && answers != [] && answers[0] == Totals(StatsOf(ChainEntries(d.ChainTo(tip), unspendables, s)))
        && Answered(events[1..], d, tip, unspendables, answers[1..])
  }

  function LastTip(events: seq<Event>, tip: BlockHash): BlockHash {
    if events == [] then tip
    else LastTip(events[1..], if events[0].Sync? then events[0].best else tip)
  }

  /** After any run of extensions, reorgs, restarts and queries, the databases equal those built
      from scratch for the chain of the last best block, and every query was answered for the
      chain that was current then. */
  method Run(events: seq<Event>, ghost d: Node, start: Store)
    returns (store: Store, answers: seq<Answer>, ghost end: Node)
    requires Consistent(start, d) && Allowed(events, d, start.headers.tip, start.indexed)
    modifies start, start.headers
    ensures Consistent(store, end) && store.headers.tip == LastTip(events, old(start.headers.tip))
    ensures d.Rooted() && d.Knows(old(start.headers.tip))
            && Answered(events, d, old(start.headers.tip), start.unspendables, answers)
    decreases |events|
  {
    hide Describes, CachesRight, Node.Rooted, Node.ChainTo, Node.Valid, HeaderList.Valid, Extends, Fork,
      StrictAncestor, NoneKnown, Covered, HistOf, UtxosRight, Consistent, ChainEntries, StatsOf;
    ConsistentGives(start, d);
    if events == [] {
      return start, [], d;
    }
    match events[0]
    case Reopen => {
      var r := Restart(d, start);
      store, answers, end := Run(events[1..], d, r.value);
    }
    case Sync(d', best, from) => {
      StillConsistent(start, d, d');
      KnowsBlock(d', best);
      var indexer := new Indexer(start, from);
      var _ := indexer.Update(d', best, from.Bitcoind?);
      store, answers, end := Run(events[1..], d', start);
    }
    case QueryUtxos(s, limit) => {
      var r := AskUtxos(start, d, s, limit);
      store, answers, end := Run(events[1..], d, start);
      answers := [Utxos(r)] + answers;
    }
    case QueryStats(s) => {
      var stats := AskStats(start, d, s);
      store, answers, end := Run(events[1..], d, start);
      answers := [Totals(stats)] + answers;
    }
  }

  /** A new store is consistent with nothing. */
  method Fresh(ghost d: Node, unspendables: bool) returns (store: Store)
    requires d.Valid()
    ensures fresh(store) && fresh(store.headers) && Consistent(store, d) && store.headers.tip == NULL_HASH
            && store.indexed == {}
  {
    store := new Store(unspendables);
  }
}
