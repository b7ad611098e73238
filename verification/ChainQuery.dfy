/** Confirmed queries with per-script caches. Each public query is one atomic step. */
module ChainQuery {
  import opened Chain
  import opened Headers
  import opened Daemon
  import opened History
  import opened Balance
  import opened Statistics
  import opened TxStore
  import opened Visibility
  import opened Store
  import opened Codec
  import opened Scan

  const MIN_HISTORY_ITEMS_TO_CACHE := 100

  datatype Error = TooManyUtxos(limit: nat) | TooManyTxs(limit: nat)
  datatype Result<+T> = Ok(value: T) | Err(error: Error)

  lemma {:induction false} Threshold()
    ensures MIN_HISTORY_ITEMS_TO_CACHE == 100
  {
  }

  /** Rows in key order. */
  predicate SortedRows(rows: seq<Row>) {
    forall i, j :: 0 <= i < j < |rows| ==> RowLess(rows[i], rows[j])
  }

  function TxHistoryLimit(limit: nat): nat {
    limit * 500 % 0x1_0000_0000_0000_0000 // usize arithmetic without overflow checks
  }

  /** The set of unspent outputs before each entry and after the last one. */
  function States(init: UtxoMap, es: seq<Entry>): (states: seq<UtxoMap>)
    ensures |states| == |es| + 1 && states[0] == init && states[|es|] == Fold(init, es)
    ensures forall k :: 0 <= k < |es| ==> states[k + 1] == Step(states[k], es[k])
  {
    if es == [] then [init]
    else
      var states := States(init, es[..|es| - 1]);
      states + [Step(states[|es| - 1], es[|es| - 1])]
  }

  /** Both limits are respected after every entry. */
  ghost predicate WithinLimits(states: seq<UtxoMap>, limit: nat, cap: nat) {
    |states| - 1 <= cap && forall k :: 0 < k < |states| ==> |states[k]| <= limit
  }

  /** The first entry after which a limit is exceeded. */
  ghost predicate Stops(states: seq<UtxoMap>, limit: nat, cap: nat, k: nat) {
    && 0 < k < |states| && (|states[k]| > limit || k > cap)
    && forall j :: 0 < j < k ==> |states[j]| <= limit && j <= cap
  }

  /** No limit is exceeded after any of the first `i` entries. */
  ghost predicate NotYet(states: seq<UtxoMap>, limit: nat, cap: nat, i: nat) {
    i < |states| && i <= cap && forall k :: 0 < k <= i ==> |states[k]| <= limit
  }

  lemma {:induction false} NotYetFirst(states: seq<UtxoMap>, limit: nat, cap: nat)
    requires states != []
    ensures NotYet(states, limit, cap, 0)
  {
  }

  lemma {:induction false} NotYetMore(states: seq<UtxoMap>, limit: nat, cap: nat, i: nat)
    requires NotYet(states, limit, cap, i) && i + 1 < |states|
    ensures NotYet(states, limit, cap, i + 1) <==> |states[i + 1]| <= limit && i + 1 <= cap
    ensures Stops(states, limit, cap, i + 1) <==> |states[i + 1]| > limit || i + 1 > cap
  {
  }

  lemma {:induction false} StopsAt(states: seq<UtxoMap>, limit: nat, cap: nat, k: nat)
    requires Stops(states, limit, cap, k)
    ensures FailsWith(states, limit, cap, if |states[k]| > limit then TooManyUtxos(limit) else TooManyTxs(cap))
    ensures !WithinLimits(states, limit, cap)
  {
  }

  lemma {:induction false} NeverStopped(states: seq<UtxoMap>, limit: nat, cap: nat)
    requires states != [] && NotYet(states, limit, cap, |states| - 1)
    ensures WithinLimits(states, limit, cap)
  {
  }

  /** The error names the limit that is exceeded first; of both, that on unspent outputs. */
  ghost predicate FailsWith(states: seq<UtxoMap>, limit: nat, cap: nat, error: Error) {
    exists k: nat ::
      && Stops(states, limit, cap, k)
      && error == if |states[k]| > limit then TooManyUtxos(limit) else TooManyTxs(cap)
  }

  method ApplyEntry(utxos: UtxoMap, e: Entry) returns (next: UtxoMap)
    ensures next == Step(utxos, e)
  {
    var o := e.row.info.FundedOutPoint();
    match e.row.info
    case Funding(_, _, value) => next := utxos[o := Unspent(e.at, value)];
    case Spending(_, _, _, _) => next := utxos - {o};
  }

  /** Replays history on top of a set of unspent outputs; it fails exactly when a limit is
      exceeded at some point on the way. */
  method ApplyUtxoDelta(init: UtxoMap, es: seq<Entry>, limit: nat, cap: nat)
    returns (r: Result<UtxoMap>, lastblock: Option<BlockHash>, processed: nat)
    ensures r.Ok? <==> WithinLimits(States(init, es), limit, cap)
    ensures r.Err? ==> FailsWith(States(init, es), limit, cap, r.error)
    ensures r.Ok? ==> && r.value == Fold(init, es) && processed == |es|
                      && lastblock == if es == [] then None else Some(es[|es| - 1].at.hash)
  {
    hide States, Fold, Step, FailsWith, WithinLimits, Stops, NotYet;
    ghost var states := States(init, es);
    var utxos := init;
    processed, lastblock := 0, None;
    NotYetFirst(states, limit, cap);
    for i := 0 to |es|
      invariant processed == i && utxos == states[i]
      invariant NotYet(states, limit, cap, i)
      invariant lastblock == if i == 0 then None else Some(es[i - 1].at.hash)
    {
      processed := processed + 1;
      lastblock := Some(es[i].at.hash);
      NotYetMore(states, limit, cap, i);
      utxos := ApplyEntry(utxos, es[i]);
      if |utxos| > limit {
        StopsAt(states, limit, cap, i + 1);
        return Err(TooManyUtxos(limit)), lastblock, processed;
      }
      if processed > cap {
        StopsAt(states, limit, cap, i + 1);
        return Err(TooManyTxs(cap)), lastblock, processed;
      }
    }
    NeverStopped(states, limit, cap);
    r := Ok(utxos);
  }

  /** Entries as `stats_delta` needs them: in chain order, and the same transaction only
      within one block. */
  ghost predicate Grouped(es: seq<Entry>) {
    && (forall i, j :: 0 <= i < j < |es| ==> es[i].at.height <= es[j].at.height)
    && (forall i, j :: 0 <= i < |es| && 0 <= j < |es| ==>
                         (es[i].at.height == es[j].at.height <==> es[i].at.hash == es[j].at.hash))
    && (forall i, j :: 0 <= i < |es| && 0 <= j < |es| && es[i].row.info.txid == es[j].row.info.txid ==>
                         es[i].at == es[j].at)
  }

  /** The transaction of the entry occurs in an earlier entry. */
  ghost predicate Repeats(es: seq<Entry>, k: nat)
    requires k < |es|
  {
    exists j :: 0 <= j < k && es[j].row.info.txid == es[k].row.info.txid
  }

  function Bump(st: ScriptStats, info: Info, repeated: bool): ScriptStats {
    Count(if repeated then st else st.(txCount := st.txCount + 1), info)
  }

  /** The statistics before each entry and after the last one. */
  ghost function StatsStates(init: ScriptStats, es: seq<Entry>): (states: seq<ScriptStats>)
    ensures |states| == |es| + 1 && states[0] == init && states[|es|] == Plus(init, StatsOf(es))
    ensures forall k :: 0 <= k < |es| ==> states[k + 1] == Bump(states[k], es[k].row.info, Repeats(es, k))
  {
    if es == [] then [init]
    else
      var n := |es| - 1;
      var states := StatsStates(init, es[..n]);
      StatsPush(init, es);
      assert forall k :: 0 <= k < n ==> (Repeats(es, k) <==> Repeats(es[..n], k));
      states + [Bump(states[n], es[n].row.info, Repeats(es, n))]
  }

  lemma {:induction false} StatsPush(init: ScriptStats, es: seq<Entry>)
    requires es != []
    ensures var n := |es| - 1;
            Plus(init, StatsOf(es)) == Bump(Plus(init, StatsOf(es[..n])), es[n].row.info, Repeats(es, n))
  {
    hide TxidsOf, Repeats;
    var n := |es| - 1;
    TxCountPush(es);
    assert Counts(es) == Count(Counts(es[..n]), es[n].row.info);
  }

  lemma {:induction false} TxCountPush(es: seq<Entry>)
    requires es != []
    ensures var n := |es| - 1; |TxidsOf(es)| == |TxidsOf(es[..n])| + if Repeats(es, n) then 0 else 1
  {
    var n := |es| - 1;
    var t, before := es[n].row.info.txid, TxidsOf(es[..n]);
    assert t in before <==> Repeats(es, n) by {
      TxidsAre(es[..n]);
      if Repeats(es, n) {
        var j :| 0 <= j < n && es[j].row.info.txid == t;
        assert es[..n][j] in es[..n];
      }
    }
    if t in before {
      assert before + {t} == before;
    }
  }

  /** The txids met so far in a block. */
  ghost predicate SeenIn(es: seq<Entry>, i: nat, hash: BlockHash, seen: set<Txid>)
    requires i <= |es|
  {
    forall t :: t in seen <==> exists k :: 0 <= k < i && es[k].row.info.txid == t && es[k].at.hash == hash
  }

  /** The loop state of `stats_delta`, and one round of it. */
  datatype Tally = Tally(stats: ScriptStats, seen: set<Txid>, lastblock: Option<BlockHash>)

  function TallyStep(t: Tally, e: Entry): Tally {
    var seen := if t.lastblock == Some(e.at.hash) then t.seen else {};
    Tally(Bump(t.stats, e.row.info, e.row.info.txid in seen), seen + {e.row.info.txid}, Some(e.at.hash))
  }

  function Tallies(init: ScriptStats, es: seq<Entry>): (ts: seq<Tally>)
    ensures |ts| == |es| + 1 && ts[0] == Tally(init, {}, None)
    ensures forall k :: 0 <= k < |es| ==> ts[k + 1] == TallyStep(ts[k], es[k])
  {
    if es == [] then [Tally(init, {}, None)]
    else
      var ts := Tallies(init, es[..|es| - 1]);
      ts + [TallyStep(ts[|es| - 1], es[|es| - 1])]
  }

  /** Although the set of seen txids is cleared whenever the block changes, every
      transaction is counted exactly once. */
  lemma {:induction false} TalliesRight(init: ScriptStats, es: seq<Entry>, ts: seq<Tally>, states: seq<ScriptStats>,
                                        k: nat)
    requires Grouped(es) && k <= |es| && ts == Tallies(init, es) && states == StatsStates(init, es)
    ensures ts[k].stats == states[k]
    ensures k > 0 ==> ts[k].lastblock == Some(es[k - 1].at.hash) && SeenIn(es, k, es[k - 1].at.hash, ts[k].seen)
  {
    hide Grouped, SeenIn, Repeats, Count, Plus, StatsOf, Tallies, StatsStates;
    if k > 0 {
      var i := k - 1;
      TalliesRight(init, es, ts, states, i);
      assert ts[i + 1] == TallyStep(ts[i], es[i]);
      if ts[i].lastblock == Some(es[i].at.hash) {
        SeenStep(es, i, ts[i].seen);
      } else {
        NewBlock(es, i);
        SeenStep(es, i, {});
      }
    }
  }

  /** Counts a history on top of known statistics. */
  method ApplyStatsDelta(init: ScriptStats, es: seq<Entry>) returns (stats: ScriptStats, lastblock: Option<BlockHash>)
    requires Grouped(es)
    ensures stats == Plus(init, StatsOf(es))
    ensures lastblock == if es == [] then None else Some(es[|es| - 1].at.hash)
  {
    stats, lastblock := CountEntries(init, es);
    TalliesRight(init, es, Tallies(init, es), StatsStates(init, es), |es|);
  }

  method CountEntries(init: ScriptStats, es: seq<Entry>) returns (stats: ScriptStats, lastblock: Option<BlockHash>)
    ensures var t := Tallies(init, es)[|es|]; stats == t.stats && lastblock == t.lastblock
  {
    ghost var ts := Tallies(init, es);
    stats, lastblock := init, None;
    var seen: set<Txid> := {};
    for i := 0 to |es|
      invariant ts[i] == Tally(stats, seen, lastblock)
    {
      var e := es[i];
      if lastblock != Some(e.at.hash) {
        seen := {};
      }
      if e.row.info.txid !in seen {
        seen := seen + {e.row.info.txid};
        stats := stats.(txCount := stats.txCount + 1);
      } else {
        assert seen + {e.row.info.txid} == seen;
      }
      stats := Count(stats, e.row.info);
      lastblock := Some(e.at.hash);
    }
  }

  lemma {:induction false} NewBlock(es: seq<Entry>, i: nat)
    requires Grouped(es) && i < |es| && (i == 0 || es[i - 1].at.hash != es[i].at.hash)
    ensures SeenIn(es, i, es[i].at.hash, {})
  {
    forall k | 0 <= k < i
      ensures es[k].at.hash != es[i].at.hash
    {
      assert es[k].at.height <= es[i - 1].at.height;
    }
  }

  /** A transaction was counted before exactly if it was seen in the current block. */
  lemma {:induction false} SeenStep(es: seq<Entry>, i: nat, seen: set<Txid>)
    requires Grouped(es) && i < |es| && SeenIn(es, i, es[i].at.hash, seen)
    ensures es[i].row.info.txid in seen <==> Repeats(es, i)
    ensures SeenIn(es, i + 1, es[i].at.hash, seen + {es[i].row.info.txid})
    ensures es[i].row.info.txid in seen ==> SeenIn(es, i + 1, es[i].at.hash, seen)
  {
    assert es[i].row.info.txid in seen ==> seen + {es[i].row.info.txid} == seen;
  }

  // ----- the confirmed history of a script

  /** The part of a script's history from a height on, in a chain of `p` blocks. */
  ghost function Later(n: seq<Block>, p: nat, start: nat, unspendables: bool, s: Script): seq<Entry>
    requires ValidChain(n) && start <= p <= |n|
  {
    ValidChainPrefix(n, p);
    EntriesSplit(n[..p], start, unspendables, s);
    assert n[..p][..start] == n[..start];
    ChainEntries(n[..p], unspendables, s)[|ChainEntries(n[..start], unspendables, s)|..]
  }

  /** The history from a height on is what the rows from that height on stand for, in order. */
  lemma {:induction false} LaterIs(n: seq<Block>, p: nat, start: nat, unspendables: bool, s: Script)
    requires ValidChain(n) && start <= p <= |n|
    ensures ChainEntries(n[..p], unspendables, s)
         == ChainEntries(n[..start], unspendables, s) + Later(n, p, start, unspendables, s)
    ensures Sorted(Later(n, p, start, unspendables, s))
    ensures forall e :: e in Later(n, p, start, unspendables, s) <==>
                          e in ChainEntries(n[..p], unspendables, s) && e.row.height >= start
    ensures forall e :: e in ChainEntries(n[..start], unspendables, s) ==> e.row.height < start
  {
    hide ChainEntries, ValidChain, Flatten, Entries;
    var c := n[..p];
    ValidChainPrefix(n, p);
    EntriesSplit(c, start, unspendables, s);
    assert c[..start] == n[..start];
    ChainSorted(c, unspendables, s);
    SplitFacts(ChainEntries(c, unspendables, s), ChainEntries(n[..start], unspendables, s), start);
  }

  lemma {:induction false} ChainSorted(c: seq<Block>, unspendables: bool, s: Script)
    requires ValidChain(c)
    ensures Sorted(ChainEntries(c, unspendables, s))
  {
    ChainOrdered(c);
    EntriesSorted(Flatten(c), unspendables, s);
  }

  lemma {:induction false} SplitFacts(es: seq<Entry>, ds: seq<Entry>, start: nat)
    requires Sorted(es) && ds <= es
    requires forall i :: 0 <= i < |es| ==> (i < |ds| <==> es[i].row.height < start)
    ensures es == ds + es[|ds|..] && Sorted(es[|ds|..])
    ensures forall e :: e in es[|ds|..] <==> e in es && e.row.height >= start
    ensures forall e :: e in ds ==> e.row.height < start
  {
    forall e | e in es && e.row.height >= start
      ensures e in es[|ds|..]
    {
      var i :| 0 <= i < |es| && es[i] == e;
      assert es[|ds|..][i - |ds|] == e;
    }
    forall e | e in ds
      ensures e.row.height < start
    {
      var i :| 0 <= i < |ds| && ds[i] == e;
      assert es[i] == e;
    }
  }

  /** Visible rows from a height on, joined with their blocks and in key order, are exactly
      the shown history from that height on. */
  lemma {:induction false} ScanIsLater(txdb: set<TxRow>, hist: set<HistKey>, n: seq<Block>, p: nat, start: nat,
                                       unspendables: bool, s: Script, es: seq<Entry>)
    requires ValidChain(n) && start <= p && Shows(txdb, hist, n, p, unspendables)
    requires Sorted(es)
    requires forall e :: e in es <==> Visible(txdb, hist, n, e) && e.row.script == s && e.row.height >= start
    ensures es == Later(n, p, start, unspendables, s)
  {
    LaterIs(n, p, start, unspendables, s);
    var later := Later(n, p, start, unspendables, s);
    forall e
      ensures e in es <==> e in later
    {
      if e in later {
        var _ := EntryFacts(n[..p], unspendables, s, e);
      }
    }
    SortedUnique(es, later);
  }

  // ----- the queries

  /** The databases show the first `p` blocks of the header list. */
  ghost predicate Ready(store: Store, d: Node, p: nat)
    reads store, store.headers
  {
    && d.Valid() && Follows(store.headers, d)
    && Shows(store.txstore, store.history, d.ChainTo(store.headers.tip), p, store.unspendables)
  }

  /** All cache rows are right and stamped with blocks of `c`, which meets the header list
      exactly in the shown blocks. */
  ghost predicate CachesReady(store: Store, d: Node, p: nat, c: seq<Block>)
    requires d.Rooted()
    reads store, store.headers
  {
    && CachesRight(d, store.unspendables, store.utxoCache, store.statsCache, c)
    && d.Knows(store.headers.tip) && p <= |d.ChainTo(store.headers.tip)|
    && forall i :: 0 <= i < |d.ChainTo(store.headers.tip)| ==>
                     (Contains(c, d.ChainTo(store.headers.tip)[i].header.hash) <==> i < p)
  }

  /** Rows that a query writes are stamped with shown blocks; the others stay. */
  ghost predicate UtxosGrew(was: map<Script, UtxoCacheRow>, now: map<Script, UtxoCacheRow>, shown: seq<Block>) {
    forall s :: s in now ==> (s in was && now[s] == was[s]) || Contains(shown, now[s].stamp)
  }

  ghost predicate StatsGrew(was: map<Script, StatsCacheRow>, now: map<Script, StatsCacheRow>, shown: seq<Block>) {
    forall s :: s in now ==> (s in was && now[s] == was[s]) || Contains(shown, now[s].stamp)
  }

  method TxConfirmingBlock(store: Store, ghost d: Node, txid: Txid) returns (r: Option<BlockId>)
    requires d.Valid() && Follows(store.headers, d)
    ensures r.Some? ==> ConfirmedAt(store.txstore, d.ChainTo(store.headers.tip), txid, r.value)
    ensures r.None? ==> forall at :: !ConfirmedAt(store.txstore, d.ChainTo(store.headers.tip), txid, at)
  {
    var confs := set row | row in store.txstore && row.C? && row.txid == txid :: row.hash;
    ghost var all := confs;
    while confs != {}
      invariant confs <= all
      invariant forall h :: h in all - confs ==> !Contains(d.ChainTo(store.headers.tip), h)
      decreases confs
    {
      var h :| h in confs; // the scan order does not matter
      HeaderFound(store.headers, d, h);
      var header := store.headers.HeaderByBlockhash(h);
      if header.Some? {
        assert C(txid, h) in store.txstore;
        return Some(BlockId(header.value.height, h, header.value.header.time));
      }
      confs := confs - {h};
    }
    NoneConfirmed(store.txstore, d.ChainTo(store.headers.tip), txid);
    r := None;
  }

  lemma {:induction false} HeaderFound(headers: HeaderList, d: Node, h: BlockHash)
    requires Follows(headers, d)
    ensures var r, n := headers.HeaderByBlockhash(h), d.ChainTo(headers.tip);
            && (r.Some? <==> Contains(n, h))
            && (r.Some? ==>
                  && r.value.height < |n|
                  && BlockId(r.value.height, h, r.value.header.time) == IdOf(n[r.value.height], r.value.height))
  {
    FoundOnChain(headers, d, h);
  }

  lemma {:induction false} NoneConfirmed(txdb: set<TxRow>, n: seq<Block>, txid: Txid)
    requires forall h :: C(txid, h) in txdb ==> !Contains(n, h)
    ensures forall at :: !ConfirmedAt(txdb, n, txid, at)
  {
  }

  function HistoryRows(hist: set<HistKey>): set<Row> {
    set k | k in hist && k.H? :: k.row
  }

  lemma {:induction false} RowsFit(hist: set<HistKey>)
    requires AllFit(hist)
    ensures forall r :: r in HistoryRows(hist) ==> Storable(r)
    ensures forall r :: r in HistoryRows(hist) <==> H(r) in hist
  {
    hide Storable;
    forall r | H(r) in hist
      ensures r in HistoryRows(hist)
    {
      assert H(r).row == r;
    }
  }

  lemma {:induction false} NoOthers()
    ensures Others({}) && U256 > 0
  {
  }

  /** The rows of a script from a height on that are confirmed, by the block at the height of the
      row, as a scan over the byte keys of the database finds them. */
  method ConfirmedHistory(store: Store, ghost d: Node, ghost p: nat, s: Script, start: nat) returns (es: seq<Entry>)
    requires Ready(store, d, p) && start <= p && s < U256
    ensures ValidChain(d.ChainTo(store.headers.tip))
    ensures es == Later(d.ChainTo(store.headers.tip), p, start, store.unspendables, s)
  {
    hide Others, Holds, Storable, Pow256, RowLess, Later, ChainEntries, Joined, Node.ChainTo, Node.Rooted;
    ghost var n := d.ChainTo(store.headers.tip);
    TipValid(d, store.headers.tip);
    RowsFit(store.history);
    WidePowers();
    NoOthers();
    var others: set<Bytes> :| Others(others);
    var keys := DiskKeys(HistoryRows(store.history), others);
    var rows := ScanFrom(keys, HistoryRows(store.history), s, start);
    es := JoinRows(store, d, rows);
    JoinedIsLater(store.txstore, store.history, n, p, start, store.unspendables, s, rows, es);
  }

  method JoinRows(store: Store, ghost d: Node, rows: seq<Row>) returns (es: seq<Entry>)
    requires d.Valid() && Follows(store.headers, d) && SortedRows(rows)
    requires ConfirmedOnce(store.txstore, d.ChainTo(store.headers.tip))
    ensures Joined(store.txstore, d.ChainTo(store.headers.tip), rows, |rows|, es)
  {
    ghost var n := d.ChainTo(store.headers.tip);
    es := [];
    for i := 0 to |rows|
      invariant Joined(store.txstore, n, rows, i, es)
    {
      var at := TxConfirmingBlock(store, d, rows[i].info.txid);
      JoinStep(store.txstore, n, rows, i, es, at);
      if at.Some? && at.value.height == rows[i].height {
        es := es + [Entry(rows[i], at.value)];
      }
    }
  }

  lemma {:induction false} JoinedIsLater(txdb: set<TxRow>, hist: set<HistKey>, n: seq<Block>, p: nat, start: nat,
                                         unspendables: bool, s: Script, rows: seq<Row>, es: seq<Entry>)
    requires ValidChain(n) && start <= p && Shows(txdb, hist, n, p, unspendables)
    requires forall r :: r in rows <==> H(r) in hist && r.script == s && r.height >= start
    requires Joined(txdb, n, rows, |rows|, es)
    ensures es == Later(n, p, start, unspendables, s)
  {
    assert rows[..|rows|] == rows;
    ScanIsLater(txdb, hist, n, p, start, unspendables, s, es);
  }

  /** The first `i` rows, joined with the blocks that confirm them at the right height. */
  ghost predicate Joined(txdb: set<TxRow>, n: seq<Block>, rows: seq<Row>, i: nat, es: seq<Entry>)
    requires i <= |rows|
  {
    && Sorted(es)
    && forall e :: e in es <==>
                     && e.row in rows[..i] && ConfirmedAt(txdb, n, e.row.info.txid, e.at)
                     && e.at.height == e.row.height
  }

  lemma {:induction false} JoinStep(txdb: set<TxRow>, n: seq<Block>, rows: seq<Row>, i: nat, es: seq<Entry>,
                                    at: Option<BlockId>)
    requires i < |rows| && SortedRows(rows) && Joined(txdb, n, rows, i, es)
    requires ConfirmedOnce(txdb, n)
    requires at.Some? ==> ConfirmedAt(txdb, n, rows[i].info.txid, at.value)
    requires at.None? ==> forall a :: !ConfirmedAt(txdb, n, rows[i].info.txid, a)
    ensures var next := if at.Some? && at.value.height == rows[i].height then es + [Entry(rows[i], at.value)] else es;
            Joined(txdb, n, rows, i + 1, next)
  {
    assert forall r :: r in rows[..i + 1] <==> r in rows[..i] || r == rows[i];
    forall e | e in es
      ensures RowLess(e.row, rows[i])
    {
      var k :| 0 <= k < i && rows[k] == e.row;
    }
  }

  // ----- cache rows are read and written right

  /** The last entry of a shown history names the block that the history is current for. */
  lemma {:induction false} StampIsCurrent(d: Node, tip: BlockHash, p: nat, unspendables: bool, s: Script)
    requires d.Valid() && d.Knows(tip) && p <= |d.ChainTo(tip)|
    requires ChainEntries(d.ChainTo(tip)[..p], unspendables, s) != []
    ensures var n := d.ChainTo(tip);
            var es := ChainEntries(n[..p], unspendables, s);
            var e := es[|es| - 1];
            && e.row.height < p && n[e.row.height].header.hash == e.at.hash
            && e.at.hash in d.blocks && ChainEntries(d.ChainTo(e.at.hash), unspendables, s) == es
            && Touches(d.ChainTo(e.at.hash), unspendables, s)
  {
    hide ChainEntries, Touches, Node.Rooted, Node.ChainTo, ValidChain;
    var n := d.ChainTo(tip);
    TipValid(d, tip);
    ValidChainPrefix(n, p);
    var h := LastBlock(n[..p], unspendables, s);
    ChainToPrefix(d, tip, h);
    assert n[..p][..h + 1] == n[..h + 1];
  }

  /** No block after the one of the last entry touches the script. */
  lemma {:induction false} LastBlock(c: seq<Block>, unspendables: bool, s: Script) returns (h: nat)
    requires ValidChain(c) && ChainEntries(c, unspendables, s) != []
    ensures var es := ChainEntries(c, unspendables, s);
            var e := es[|es| - 1];
            && h == e.row.height && h < |c| && c[h].header.hash == e.at.hash
            && ChainEntries(c[..h + 1], unspendables, s) == es && Touches(c[..h + 1], unspendables, s)
  {
    hide ChainEntries, ValidChain;
    var es := ChainEntries(c, unspendables, s);
    var e := es[|es| - 1];
    h := e.row.height;
    var _ := EntryFacts(c, unspendables, s, e);
    EntriesSplit(c, h + 1, unspendables, s);
    var ds := ChainEntries(c[..h + 1], unspendables, s);
    assert ds == es;
    assert e in ds;
  }

  lemma {:induction false} CoinPlaces(c: seq<Block>, unspendables: bool, s: Script)
    ensures var m := Unspents(c, unspendables, s);
            forall o :: o in m ==> m[o].at.height < |c| && m[o].at == IdOf(c[m[o].at.height], m[o].at.height)
  {
    FlattenPlaces(c);
    CoinsPlaced(Flatten(c));
  }

  lemma {:induction false} CoinsPlaced(fs: seq<Placed>)
    ensures forall o :: o in Ledger(fs) ==> exists q :: q in fs && q.at == Ledger(fs)[o].at
  {
    if fs != [] {
      var init, q := fs[..|fs| - 1], fs[|fs| - 1];
      CoinsPlaced(init);
      forall o | o in Ledger(fs)
        ensures exists x :: x in fs && x.at == Ledger(fs)[o].at
      {
        if o in Created(q) {
          assert q in fs;
        } else {
          assert o in Ledger(init) && Ledger(fs)[o] == Ledger(init)[o];
          var x :| x in init && x.at == Ledger(init)[o].at;
          assert x in fs;
        }
      }
    }
  }

  function IdAt(headers: seq<HeaderEntry>, height: nat): BlockId
    requires height < |headers|
  {
    BlockId(height, headers[height].Hash(), headers[height].header.time)
  }

  /** `from_utxo_cache`: block ids are read back from the header list; the range is the
      "missing blockheader" expectation. */
  function FromUtxoCache(headers: seq<HeaderEntry>, m: map<OutPoint, CachedUtxo>): UtxoMap
    requires forall o :: o in m ==> m[o].height < |headers|
  {
    map o | o in m :: Unspent(IdAt(headers, m[o].height), m[o].value)
  }

  /** A right cache row whose block is on the chain is read back without loss. */
  lemma {:induction false} CacheHit(d: Node, headers: HeaderList, unspendables: bool, s: Script, row: UtxoCacheRow)
    requires d.Valid() && Follows(headers, d) && UtxoRight(d, unspendables, s, row)
    requires headers.HeaderByBlockhash(row.stamp).Some?
    ensures var h, n := headers.HeaderByBlockhash(row.stamp).value.height, d.ChainTo(headers.tip);
            && h < |n| && n[h].header.hash == row.stamp && d.ChainTo(row.stamp) == n[..h + 1]
            && (forall o :: o in row.utxos ==> row.utxos[o].height < |headers.headers|)
            && FromUtxoCache(headers.headers, row.utxos) == Unspents(n[..h + 1], unspendables, s)
  {
    hide Unspents, Touches, Node.Rooted, Node.ChainTo, FromUtxoCache, MakeUtxoCache, HeaderList.Valid;
    HeaderFound(headers, d, row.stamp);
    var h, n := headers.HeaderByBlockhash(row.stamp).value.height, d.ChainTo(headers.tip);
    ChainToPrefix(d, headers.tip, h);
    ReadBack(n, h + 1, unspendables, s);
  }

  lemma {:induction false} ReadBack(n: seq<Block>, k: nat, unspendables: bool, s: Script)
    requires k <= |n|
    ensures var m := MakeUtxoCache(Unspents(n[..k], unspendables, s));
            && (forall o :: o in m ==> m[o].height < |EntriesOf(n)|)
            && FromUtxoCache(EntriesOf(n), m) == Unspents(n[..k], unspendables, s)
  {
    CoinPlaces(n[..k], unspendables, s);
  }

  lemma {:induction false} LaterGrouped(n: seq<Block>, p: nat, start: nat, unspendables: bool, s: Script)
    requires ValidChain(n) && start <= p <= |n|
    ensures Grouped(Later(n, p, start, unspendables, s))
  {
    LaterIs(n, p, start, unspendables, s);
    ValidChainPrefix(n, p);
    var es := Later(n, p, start, unspendables, s);
    forall i, j | 0 <= i < |es| && 0 <= j < |es|
      ensures i < j ==> es[i].at.height <= es[j].at.height
      ensures es[i].at.height == es[j].at.height <==> es[i].at.hash == es[j].at.hash
      ensures es[i].row.info.txid == es[j].row.info.txid ==> es[i].at == es[j].at
    {
      TwoEntries(n[..p], unspendables, s, es[i], es[j]);
    }
  }

  lemma {:induction false} TwoEntries(c: seq<Block>, unspendables: bool, s: Script, x: Entry, y: Entry)
    requires ValidChain(c) && x in ChainEntries(c, unspendables, s) && y in ChainEntries(c, unspendables, s)
    ensures RowLess(x.row, y.row) ==> x.at.height <= y.at.height
    ensures x.at.height == y.at.height <==> x.at.hash == y.at.hash
    ensures x.row.info.txid == y.row.info.txid ==> x.at == y.at
  {
    var p := EntryFacts(c, unspendables, s, x);
    var q := EntryFacts(c, unspendables, s, y);
    UniqueTxids(Flatten(c));
  }

  /** The height after which the cached answer has to be continued: 0 without a usable row. */
  ghost predicate Resumes(d: Node, tip: BlockHash, p: nat, unspendables: bool, s: Script, start: nat, init: UtxoMap)
    requires d.Rooted() && d.Knows(tip)
  {
    start <= p <= |d.ChainTo(tip)| && init == Unspents(d.ChainTo(tip)[..start], unspendables, s)
  }

  lemma {:induction false} ResumesFrom(d: Node, tip: BlockHash, p: nat, unspendables: bool, s: Script, start: nat,
                                       init: UtxoMap)
    requires d.Rooted() && d.Knows(tip) && Resumes(d, tip, p, unspendables, s, start, init)
    ensures start <= p <= |d.ChainTo(tip)| && init == Unspents(d.ChainTo(tip)[..start], unspendables, s)
  {
  }

  lemma {:induction false} ResumeUtxos(d: Node, tip: BlockHash, p: nat, unspendables: bool, s: Script, start: nat,
                                       init: UtxoMap)
    requires d.Valid() && d.Knows(tip) && ValidChain(d.ChainTo(tip)) && Resumes(d, tip, p, unspendables, s, start, init)
    ensures Fold(init, Later(d.ChainTo(tip), p, start, unspendables, s))
         == Unspents(d.ChainTo(tip)[..p], unspendables, s)
  {
    var n := d.ChainTo(tip);
    LaterIs(n, p, start, unspendables, s);
    ValidChainPrefix(n, p);
    ValidChainPrefix(n, start);
    UnspentsAreFold(n[..p], unspendables, s);
    UnspentsAreFold(n[..start], unspendables, s);
    FoldAppend(map[], ChainEntries(n[..start], unspendables, s), Later(n, p, start, unspendables, s));
  }

  /** The last entry of what was added is the last entry of the history. */
  lemma {:induction false} NewStamp(d: Node, tip: BlockHash, p: nat, unspendables: bool, s: Script, start: nat)
    requires d.Valid() && d.Knows(tip) && ValidChain(d.ChainTo(tip)) && start <= p <= |d.ChainTo(tip)|
    requires Later(d.ChainTo(tip), p, start, unspendables, s) != []
    ensures var n := d.ChainTo(tip);
            var es := Later(n, p, start, unspendables, s);
            var stamp := es[|es| - 1].at.hash;
            && (exists i :: 0 <= i < p && n[i].header.hash == stamp)
            && stamp in d.blocks
            && ChainEntries(d.ChainTo(stamp), unspendables, s) == ChainEntries(n[..p], unspendables, s)
            && Touches(d.ChainTo(stamp), unspendables, s)
            && Unspents(d.ChainTo(stamp), unspendables, s) == Unspents(n[..p], unspendables, s)
  {
    hide ChainEntries, Touches, Node.Rooted, Node.ChainTo, ValidChain, Unspents, Later, Fold;
    var n := d.ChainTo(tip);
    LaterIs(n, p, start, unspendables, s);
    StampIsCurrent(d, tip, p, unspendables, s);
    var es := Later(n, p, start, unspendables, s);
    var stamp := es[|es| - 1].at.hash;
    ValidChainPrefix(n, p);
    TipValid(d, stamp);
    UnspentsAreFold(n[..p], unspendables, s);
    UnspentsAreFold(d.ChainTo(stamp), unspendables, s);
  }

  lemma {:induction false} NewUtxoRow(d: Node, tip: BlockHash, p: nat, unspendables: bool, s: Script, start: nat)
    requires d.Valid() && d.Knows(tip) && ValidChain(d.ChainTo(tip)) && start <= p <= |d.ChainTo(tip)|
    requires Later(d.ChainTo(tip), p, start, unspendables, s) != []
    ensures var n := d.ChainTo(tip);
            var es := Later(n, p, start, unspendables, s);
            var row := UtxoCacheRow(MakeUtxoCache(Unspents(n[..p], unspendables, s)), es[|es| - 1].at.hash);
            UtxoRight(d, unspendables, s, row) && exists i :: 0 <= i < p && n[i].header.hash == row.stamp
  {
    hide Unspents, MakeUtxoCache, ChainEntries, Touches;
    NewStamp(d, tip, p, unspendables, s, start);
  }

  /** Reads the cached unspent outputs, unless there are none or their block was orphaned. */
  method UtxoFromCache(store: Store, ghost d: Node, ghost p: nat, ghost c: seq<Block>, s: Script)
    returns (hadCache: bool, start: nat, init: UtxoMap)
    requires Ready(store, d, p) && CachesReady(store, d, p, c)
    ensures Resumes(d, store.headers.tip, p, store.unspendables, s, start, init)
    ensures start <= p && (hadCache <==> start > 0)
    ensures d.Rooted() && d.Knows(store.headers.tip)
    ensures hadCache <==> s in store.utxoCache && Contains(d.ChainTo(store.headers.tip), store.utxoCache[s].stamp)
  {
    hide *;
    ReadyMeans(store, d, p);
    if s in store.utxoCache {
      var row := store.utxoCache[s];
      FoundOnChain(store.headers, d, row.stamp);
      var header := store.headers.HeaderByBlockhash(row.stamp);
      if header.Some? {
        UtxoRowHit(store, d, p, c, s);
        return true, header.value.height + 1, FromUtxoCache(store.headers.headers, row.utxos);
      }
    }
    NoCoinsYet(d, store.headers.tip, p, store.unspendables, s);
    return false, 0, map[];
  }

  lemma {:induction false} NoCoinsYet(d: Node, tip: BlockHash, p: nat, unspendables: bool, s: Script)
    requires d.Rooted() && d.Knows(tip) && p <= |d.ChainTo(tip)|
    ensures Resumes(d, tip, p, unspendables, s, 0, map[])
  {
    assert d.ChainTo(tip)[..0] == [];
  }

  /** A usable row lies within the shown blocks and resumes the query there. */
  lemma {:induction false} UtxoRowHit(store: Store, d: Node, p: nat, c: seq<Block>, s: Script)
    requires Ready(store, d, p) && CachesReady(store, d, p, c) && s in store.utxoCache
    requires store.headers.HeaderByBlockhash(store.utxoCache[s].stamp).Some?
    ensures var row := store.utxoCache[s];
            var h := store.headers.HeaderByBlockhash(row.stamp).value.height;
            && h < p && (forall o :: o in row.utxos ==> row.utxos[o].height < |store.headers.headers|)
            && var init := FromUtxoCache(store.headers.headers, row.utxos);
               Resumes(d, store.headers.tip, p, store.unspendables, s, h + 1, init)
  {
    hide Unspents, FromUtxoCache, Shows, UtxoRight, StatsRight;
    CacheHit(d, store.headers, store.unspendables, s, store.utxoCache[s]);
  }

  lemma {:induction false} ShownStamp(n: seq<Block>, p: nat, stamp: BlockHash)
    requires p <= |n| && exists i :: 0 <= i < p && n[i].header.hash == stamp
    ensures Contains(n[..p], stamp)
  {
    var i :| 0 <= i < p && n[i].header.hash == stamp;
    assert n[..p][i].header.hash == stamp;
  }

  method SaveUtxos(store: Store, ghost d: Node, ghost p: nat, ghost c: seq<Block>, s: Script, row: UtxoCacheRow)
    requires Ready(store, d, p) && CachesReady(store, d, p, c)
    requires UtxoRight(d, store.unspendables, s, row)
    requires exists i :: 0 <= i < p && d.ChainTo(store.headers.tip)[i].header.hash == row.stamp
    modifies store`utxoCache
    ensures store.utxoCache == old(store.utxoCache)[s := row]
    ensures Ready(store, d, p) && CachesReady(store, d, p, c)
    ensures UtxosGrew(old(store.utxoCache), store.utxoCache, d.ChainTo(store.headers.tip)[..p])
  {
    hide Unspents, UtxoRight, StatsRight, Shows, Follows;
    store.utxoCache := store.utxoCache[s := row];
    ShownStamp(d.ChainTo(store.headers.tip), p, row.stamp);
  }

  /** The sets of unspent outputs while the history is replayed from a height on. */
  ghost function StatesFrom(n: seq<Block>, p: nat, from: nat, unspendables: bool, s: Script): seq<UtxoMap>
    requires ValidChain(n) && from <= p <= |n|
  {
    States(Unspents(n[..from], unspendables, s), Later(n, p, from, unspendables, s))
  }

  /** Replaying the history from a height on exceeds no limit. */
  ghost predicate FitsFrom(n: seq<Block>, p: nat, from: nat, unspendables: bool, s: Script, limit: nat)
    requires ValidChain(n) && from <= p <= |n|
  {
    WithinLimits(StatesFrom(n, p, from, unspendables, s), limit, limit * 500 % U64)
  }

  ghost predicate FailsFrom(n: seq<Block>, p: nat, from: nat, unspendables: bool, s: Script, limit: nat, error: Error)
    requires ValidChain(n) && from <= p <= |n|
  {
    FailsWith(StatesFrom(n, p, from, unspendables, s), limit, limit * 500 % U64, error)
  }

  /** The unspent outputs of a script: the same whether or not a cache row is used, and exactly
      the script's coins on the shown chain. It fails exactly when a limit is exceeded on the way
      from the cached block, or from the beginning. Rows it writes are right for their block. */
  method Utxo(store: Store, ghost d: Node, ghost p: nat, ghost c: seq<Block>, s: Script,
              limit: nat) returns (r: Result<UtxoMap>, ghost from: nat)
    requires Ready(store, d, p) && CachesReady(store, d, p, c) && s < U256
    modifies store`utxoCache
    ensures r.Ok? ==> r.value == Unspents(d.ChainTo(store.headers.tip)[..p], store.unspendables, s)
    ensures ValidChain(d.ChainTo(store.headers.tip)) && from <= p
    ensures from > 0 <==>
              s in old(store.utxoCache) && Contains(d.ChainTo(store.headers.tip), old(store.utxoCache)[s].stamp)
    ensures r.Ok? <==> FitsFrom(d.ChainTo(store.headers.tip), p, from, store.unspendables, s, limit)
    ensures r.Err? ==> FailsFrom(d.ChainTo(store.headers.tip), p, from, store.unspendables, s, limit, r.error)
    ensures var es := Later(d.ChainTo(store.headers.tip), p, from, store.unspendables, s);
            store.utxoCache == if r.Ok? && es != [] && (from > 0 || |es| > 100)
                               then
                                 var row := UtxoCacheRow(MakeUtxoCache(r.value), es[|es| - 1].at.hash);
                                 old(store.utxoCache)[s := row]
                               else old(store.utxoCache)
    ensures Ready(store, d, p) && CachesReady(store, d, p, c)
    ensures UtxosGrew(old(store.utxoCache), store.utxoCache, d.ChainTo(store.headers.tip)[..p])
  {
    hide *;
    ReadyMeans(store, d, p);
    GrewNot(store.utxoCache, store.statsCache, d.ChainTo(store.headers.tip)[..p]);
    Threshold();
    var hadCache, start, init := UtxoFromCache(store, d, p, c, s);
    from := start;
    ResumesFrom(d, store.headers.tip, p, store.unspendables, s, start, init);
    var es := ConfirmedHistory(store, d, p, s, start);
    var lastblock, processed;
    r, lastblock, processed := ApplyUtxoDelta(init, es, limit, TxHistoryLimit(limit));
    FitsMeans(d.ChainTo(store.headers.tip), p, from, store.unspendables, s, limit);
    if r.Ok? {
      ResumeUtxos(d, store.headers.tip, p, store.unspendables, s, start, init);
      if lastblock.Some? && (hadCache || processed > MIN_HISTORY_ITEMS_TO_CACHE) {
        NewUtxoRow(d, store.headers.tip, p, store.unspendables, s, start);
        SaveUtxos(store, d, p, c, s, UtxoCacheRow(MakeUtxoCache(r.value), lastblock.value));
      }
    }
  }

  lemma {:induction false} FitsMeans(n: seq<Block>, p: nat, from: nat, unspendables: bool, s: Script, limit: nat)
    requires ValidChain(n) && from <= p <= |n|
    ensures var states, cap := StatesFrom(n, p, from, unspendables, s), TxHistoryLimit(limit);
            && states == States(Unspents(n[..from], unspendables, s), Later(n, p, from, unspendables, s))
            && (FitsFrom(n, p, from, unspendables, s, limit) <==> WithinLimits(states, limit, cap))
            && (forall error :: FailsFrom(n, p, from, unspendables, s, limit, error) <==>
                                  FailsWith(states, limit, cap, error))
  {
  }

  lemma {:induction false} GrewNot(u: map<Script, UtxoCacheRow>, t: map<Script, StatsCacheRow>, shown: seq<Block>)
    ensures UtxosGrew(u, u, shown) && StatsGrew(t, t, shown)
  {
  }

  /** Any number of queries, for any scripts, one after the other. */
  method RunQueries(store: Store, ghost d: Node, ghost p: nat, ghost c: seq<Block>)
    requires Ready(store, d, p) && CachesReady(store, d, p, c)
    modifies store`utxoCache, store`statsCache
    ensures Ready(store, d, p) && CachesReady(store, d, p, c)
    ensures UtxosGrew(old(store.utxoCache), store.utxoCache, d.ChainTo(store.headers.tip)[..p])
    ensures StatsGrew(old(store.statsCache), store.statsCache, d.ChainTo(store.headers.tip)[..p])
  {
    hide *;
    ReadyMeans(store, d, p);
    ghost var shown := d.ChainTo(store.headers.tip)[..p];
    GrewNot(store.utxoCache, store.statsCache, shown);
    var queries: nat :| true;
    for i := 0 to queries
      invariant Ready(store, d, p) && CachesReady(store, d, p, c)
      invariant UtxosGrew(old(store.utxoCache), store.utxoCache, shown)
                && StatsGrew(old(store.statsCache), store.statsCache, shown)
    {
      NoOthers();
      var s: Script, limit: nat, forUtxos: bool :| s < U256;
      ghost var u, t := store.utxoCache, store.statsCache;
      if forUtxos {
        var _, _ := Utxo(store, d, p, c, s, limit);
      } else {
        var _, _ := Stats(store, d, p, c, s);
      }
      GrewNot(store.utxoCache, store.statsCache, shown);
      GrewMore(old(store.utxoCache), u, store.utxoCache, old(store.statsCache), t, store.statsCache, shown);
    }
  }

  lemma {:induction false} GrewMore(u: map<Script, UtxoCacheRow>, u': map<Script, UtxoCacheRow>,
                                    u'': map<Script, UtxoCacheRow>,
                                    t: map<Script, StatsCacheRow>, t': map<Script, StatsCacheRow>,
                                    t'': map<Script, StatsCacheRow>, shown: seq<Block>)
    requires UtxosGrew(u, u', shown) && UtxosGrew(u', u'', shown) && StatsGrew(t, t', shown)
             && StatsGrew(t', t'', shown)
    ensures UtxosGrew(u, u'', shown) && StatsGrew(t, t'', shown)
  {
    hide Contains;
  }

  lemma {:induction false} ReadyMeans(store: Store, d: Node, p: nat)
    requires Ready(store, d, p)
    ensures d.Valid() && d.Rooted() && d.Knows(store.headers.tip) && store.headers.Valid() && Follows(store.headers, d)
    ensures ValidChain(d.ChainTo(store.headers.tip)) && p <= |d.ChainTo(store.headers.tip)|
  {
    TipValid(d, store.headers.tip);
  }

  // ----- statistics

  ghost predicate ResumesStats(d: Node, tip: BlockHash, p: nat, unspendables: bool, s: Script, start: nat,
                               init: ScriptStats)
    requires d.Rooted() && d.Knows(tip)
  {
    start <= p <= |d.ChainTo(tip)| && init == StatsOf(ChainEntries(d.ChainTo(tip)[..start], unspendables, s))
  }

  lemma {:induction false} ResumeStats(d: Node, tip: BlockHash, p: nat, unspendables: bool, s: Script, start: nat,
                                       init: ScriptStats)
    requires d.Valid() && d.Knows(tip) && ValidChain(d.ChainTo(tip))
             && ResumesStats(d, tip, p, unspendables, s, start, init)
    ensures Plus(init, StatsOf(Later(d.ChainTo(tip), p, start, unspendables, s)))
         == StatsOf(ChainEntries(d.ChainTo(tip)[..p], unspendables, s))
  {
    hide StatsOf, Later;
    var n := d.ChainTo(tip);
    LaterIs(n, p, start, unspendables, s);
    ValidChainPrefix(n, p);
    var a, b := ChainEntries(n[..start], unspendables, s), Later(n, p, start, unspendables, s);
    TxidsSplit(n[..p], start, unspendables, s, a, b);
    StatsAppend(a, b);
  }

  /** Reads cached statistics, unless there are none, they are not sane, or their block was
      orphaned. */
  method StatsFromCache(store: Store, ghost d: Node, ghost p: nat, ghost c: seq<Block>, s: Script)
    returns (start: nat, init: ScriptStats)
    requires Ready(store, d, p) && CachesReady(store, d, p, c)
    ensures ResumesStats(d, store.headers.tip, p, store.unspendables, s, start, init)
    ensures start <= p && d.Rooted() && d.Knows(store.headers.tip)
    ensures start > 0 <==> s in store.statsCache && IsSane(store.statsCache[s].stats)
                           && Contains(d.ChainTo(store.headers.tip), store.statsCache[s].stamp)
  {
    hide *;
    ReadyMeans(store, d, p);
    if s in store.statsCache {
      var row := store.statsCache[s];
      FoundOnChain(store.headers, d, row.stamp);
      var header := store.headers.HeaderByBlockhash(row.stamp);
      if IsSane(row.stats) && header.Some? {
        StatsRowHit(store, d, p, c, s);
        return header.value.height + 1, row.stats;
      }
    }
    NothingYet(d, store.headers.tip, p, store.unspendables, s);
    return 0, NO_STATS;
  }

  lemma {:induction false} StatsRowHit(store: Store, d: Node, p: nat, c: seq<Block>, s: Script)
    requires Ready(store, d, p) && CachesReady(store, d, p, c) && s in store.statsCache
    requires store.headers.HeaderByBlockhash(store.statsCache[s].stamp).Some?
    ensures var row := store.statsCache[s];
            var h := store.headers.HeaderByBlockhash(row.stamp).value.height;
            h < p && ResumesStats(d, store.headers.tip, p, store.unspendables, s, h + 1, row.stats)
  {
    hide StatsOf, ChainEntries, Shows, UtxoRight, StatsRight;
    StatsHit(d, store.headers, store.unspendables, s, store.statsCache[s]);
  }

  lemma {:induction false} NothingYet(d: Node, tip: BlockHash, p: nat, unspendables: bool, s: Script)
    requires d.Rooted() && d.Knows(tip) && p <= |d.ChainTo(tip)|
    ensures ResumesStats(d, tip, p, unspendables, s, 0, NO_STATS)
  {
    assert d.ChainTo(tip)[..0] == [];
  }

  lemma {:induction false} StatsHit(d: Node, headers: HeaderList, unspendables: bool, s: Script, row: StatsCacheRow)
    requires d.Valid() && Follows(headers, d) && StatsRight(d, unspendables, s, row)
    requires headers.HeaderByBlockhash(row.stamp).Some?
    ensures var h, n := headers.HeaderByBlockhash(row.stamp).value.height, d.ChainTo(headers.tip);
            && h < |n| && n[h].header.hash == row.stamp
            && row.stats == StatsOf(ChainEntries(n[..h + 1], unspendables, s))
  {
    hide StatsOf, ChainEntries;
    HeaderFound(headers, d, row.stamp);
    ChainToPrefix(d, headers.tip, headers.HeaderByBlockhash(row.stamp).value.height);
  }

  lemma {:induction false} NewStatsRow(d: Node, tip: BlockHash, p: nat, unspendables: bool, s: Script, start: nat)
    requires d.Valid() && d.Knows(tip) && ValidChain(d.ChainTo(tip)) && start <= p <= |d.ChainTo(tip)|
    requires Later(d.ChainTo(tip), p, start, unspendables, s) != []
    ensures var n := d.ChainTo(tip);
            var es := Later(n, p, start, unspendables, s);
            var row := StatsCacheRow(StatsOf(ChainEntries(n[..p], unspendables, s)), es[|es| - 1].at.hash);
            StatsRight(d, unspendables, s, row) && exists i :: 0 <= i < p && n[i].header.hash == row.stamp
  {
    hide Unspents, StatsOf, ChainEntries, Touches;
    NewStamp(d, tip, p, unspendables, s, start);
  }

  method SaveStats(store: Store, ghost d: Node, ghost p: nat, ghost c: seq<Block>, s: Script, row: StatsCacheRow)
    requires Ready(store, d, p) && CachesReady(store, d, p, c)
    requires StatsRight(d, store.unspendables, s, row)
    requires exists i :: 0 <= i < p && d.ChainTo(store.headers.tip)[i].header.hash == row.stamp
    modifies store`statsCache
    ensures store.statsCache == old(store.statsCache)[s := row]
    ensures Ready(store, d, p) && CachesReady(store, d, p, c)
    ensures StatsGrew(old(store.statsCache), store.statsCache, d.ChainTo(store.headers.tip)[..p])
  {
    hide StatsOf, UtxoRight, StatsRight, Shows, Follows;
    store.statsCache := store.statsCache[s := row];
    ShownStamp(d.ChainTo(store.headers.tip), p, row.stamp);
  }

  /** The statistics of a script: the same with no cache row, with one, or with one that is
      rejected, and exactly those of the shown chain. */
  method Stats(store: Store, ghost d: Node, ghost p: nat, ghost c: seq<Block>,
               s: Script) returns (stats: ScriptStats, ghost from: nat)
    requires Ready(store, d, p) && CachesReady(store, d, p, c) && s < U256
    modifies store`statsCache
    ensures stats == StatsOf(ChainEntries(d.ChainTo(store.headers.tip)[..p], store.unspendables, s))
    ensures ValidChain(d.ChainTo(store.headers.tip)) && from <= p
    ensures from > 0 <==> s in old(store.statsCache) && IsSane(old(store.statsCache)[s].stats)
                          && Contains(d.ChainTo(store.headers.tip), old(store.statsCache)[s].stamp)
    ensures var es := Later(d.ChainTo(store.headers.tip), p, from, store.unspendables, s);
            store.statsCache == if es != [] && stats.fundedCount + stats.spentCount > 100
                                then old(store.statsCache)[s := StatsCacheRow(stats, es[|es| - 1].at.hash)]
                                else old(store.statsCache)
    ensures Ready(store, d, p) && CachesReady(store, d, p, c)
    ensures StatsGrew(old(store.statsCache), store.statsCache, d.ChainTo(store.headers.tip)[..p])
  {
    hide *;
    ReadyMeans(store, d, p);
    GrewNot(store.utxoCache, store.statsCache, d.ChainTo(store.headers.tip)[..p]);
    Threshold();
    var start, init := StatsFromCache(store, d, p, c, s);
    from := start;
    var es := ConfirmedHistory(store, d, p, s, start);
    LaterGrouped(d.ChainTo(store.headers.tip), p, start, store.unspendables, s);
    var lastblock;
    stats, lastblock := ApplyStatsDelta(init, es);
    ResumeStats(d, store.headers.tip, p, store.unspendables, s, start, init);
    if lastblock.Some? && stats.fundedCount + stats.spentCount > MIN_HISTORY_ITEMS_TO_CACHE {
      NewStatsRow(d, store.headers.tip, p, store.unspendables, s, start);
      SaveStats(store, d, p, c, s, StatsCacheRow(stats, lastblock.value));
    }
  }

  /** The sanity check rejects a right row of a script whose only coin has no value: such a
      script is recounted each time, with the same answer. */
  lemma {:induction false} SaneRejectsWorthless(s: Script)
    requires s < U256
    ensures exists c: seq<Block> :: ValidChain(c) && !IsSane(StatsOf(ChainEntries(c, false, s)))
  {
    hide Ledger, ValidTxs, IsSane, StatsOf, ChainEntries;
    var tx := Tx(1, [NULL_OUTPOINT], [TxOut(s, 0, true)]);
    var b := Block(Header(1, NULL_HASH, 0), [tx]);
    var p := Placed(IdOf(b, 0), 0, tx);
    assert Flatten([b]) == [p] by {
      assert [b][..0] == [] && Flatten([]) == [] && PlacedIn(b, 0) == [p];
    }
    WorthlessCoin(p, s);
    var m := Unspents([b], false, s);
    assert OutPoint(1, 0) in m && !Worth(m);
    SaneIff([b], false, s);
    assert ValidChain([b]);
  }

  lemma {:induction false} WorthlessCoin(p: Placed, s: Script)
    requires p.tx == Tx(1, [NULL_OUTPOINT], [TxOut(s, 0, true)]) && s < U256
    ensures ValidTxs([p]) && Ledger([p]) == map[OutPoint(1, 0) := Coin(p.at, TxOut(s, 0, true))]
  {
    assert [p][..0] == [] && ValidTxs([]) && ValidNext([], p.tx);
    assert Created(p) == map[OutPoint(1, 0) := Coin(p.at, TxOut(s, 0, true))];
  }
}
