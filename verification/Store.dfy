/** The state shared by the indexer and the queries: three databases, the sets of block
    hashes loaded when the store was opened, and the header list. */
module Store {
  import opened Chain
  import opened Headers
  import opened Daemon
  import opened History
  import opened Balance
  import opened Statistics
  import opened TxStore

  /** (block_height, output_value) per outpoint, stamped with the block it was computed for. */
  datatype CachedUtxo = CachedUtxo(height: nat, value: nat)
  datatype UtxoCacheRow = UtxoCacheRow(utxos: map<OutPoint, CachedUtxo>, stamp: BlockHash)
  datatype StatsCacheRow = StatsCacheRow(stats: ScriptStats, stamp: BlockHash)

  class Store {
    var txstore: set<TxRow>
    var tip: Option<BlockHash>              // the t row of the txstore
    var history: set<HistKey>
    var utxoCache: map<Script, UtxoCacheRow>
    var statsCache: map<Script, StatsCacheRow>
    var added: set<BlockHash>               // added_blockhashes
    var indexed: set<BlockHash>             // indexed_blockhashes, as loaded at open
    const headers: HeaderList
    const unspendables: bool

    constructor (unspendables: bool)
      ensures txstore == {} && tip == None && history == {} && utxoCache == map[] && statsCache == map[]
      ensures added == {} && indexed == {} && this.unspendables == unspendables
      ensures fresh(headers) && headers.Valid() && headers.headers == []
    {
      txstore, tip, history, utxoCache, statsCache := {}, None, {}, map[], map[];
      added, indexed := {}, {};
      headers := new HeaderList.Empty();
      this.unspendables := unspendables;
    }
  }

  // ----- cache rows

  function MakeUtxoCache(m: UtxoMap): map<OutPoint, CachedUtxo> {
    map o | o in m :: CachedUtxo(m[o].at.height, m[o].value)
  }

  /** The script has an entry in the last block of the chain. */
  ghost predicate Touches(c: seq<Block>, unspendables: bool, s: Script) {
    exists e :: e in ChainEntries(c, unspendables, s) && e.row.height == |c| - 1
  }

  /** A cache row is right when it describes the chain that ends in the block it is stamped
      with, whatever the current chain is. */
  ghost predicate UtxoRight(d: Node, unspendables: bool, s: Script, row: UtxoCacheRow)
    requires d.Rooted()
  {
    && row.stamp in d.blocks
    && row.utxos == MakeUtxoCache(Unspents(d.ChainTo(row.stamp), unspendables, s))
    && Touches(d.ChainTo(row.stamp), unspendables, s)
  }

  ghost predicate StatsRight(d: Node, unspendables: bool, s: Script, row: StatsCacheRow)
    requires d.Rooted()
  {
    && row.stamp in d.blocks
    && row.stats == StatsOf(ChainEntries(d.ChainTo(row.stamp), unspendables, s))
    && Touches(d.ChainTo(row.stamp), unspendables, s)
  }

  /** All cache rows are right, and stamped with blocks of the given chain. */
  ghost predicate CachesRight(d: Node, unspendables: bool, utxoCache: map<Script, UtxoCacheRow>,
                              statsCache: map<Script, StatsCacheRow>, c: seq<Block>)
    requires d.Rooted()
  {
    && (forall s :: s in utxoCache ==> UtxoRight(d, unspendables, s, utxoCache[s]) && Contains(c, utxoCache[s].stamp))
    && (forall s :: s in statsCache ==>
                      StatsRight(d, unspendables, s, statsCache[s]) && Contains(c, statsCache[s].stamp))
  }
}
