/** The txstore database: its rows, what a block contributes, and the database built from
    scratch for a chain. A database is a set of rows no two of which share a key. */
module TxStore {
  import opened Chain

  datatype TxRow =
    | T(txid: Txid, tx: Tx)                        // raw transaction
    | C(txid: Txid, hash: BlockHash)               // confirmation
    | O(out: OutPoint, txout: TxOut)               // spendable output
    | B(hash: BlockHash, header: Header)           // block header
    | X(hash: BlockHash, txids: seq<Txid>)         // txids of a block
    | M(hash: BlockHash, txCount: nat)             // block metadata
    | Added(hash: BlockHash)                       // the block has been added

  /** Whether two rows have the same key. */
  predicate SameKey(a: TxRow, b: TxRow) {
    match (a, b)
    case (T(t, _), T(u, _)) => t == u
    case (C(t, h), C(u, g)) => t == u && h == g
    case (O(o, _), O(p, _)) => o == p
    case (B(h, _), B(g, _)) => h == g
    case (X(h, _), X(g, _)) => h == g
    case (M(h, _), M(g, _)) => h == g
    case (Added(h), Added(g)) => h == g
    case _ => false
  }

  /** A write batch: it replaces what it meets. */
  function Put(db: set<TxRow>, rows: set<TxRow>): set<TxRow> {
    (set r | r in db && !(exists q :: q in rows && SameKey(q, r))) + rows
  }

  function Delete(db: set<TxRow>, row: TxRow): set<TxRow> {
    set r | r in db && !SameKey(row, r)
  }

  /** The rows of `add_transaction`. */
  function TxRows(p: Placed): set<TxRow> {
    {T(p.tx.txid, p.tx), C(p.tx.txid, p.at.hash)}
    + set i | 0 <= i < |p.tx.outputs| && p.tx.outputs[i].spendable :: O(OutPoint(p.tx.txid, i), p.tx.outputs[i])
  }

  function HeadRows(b: Block): set<TxRow> {
    var h := b.header.hash;
    {X(h, seq(|b.txs|, i requires 0 <= i < |b.txs| => b.txs[i].txid)), M(h, |b.txs|), B(h, b.header), Added(h)}
  }

  /** The rows of `add_blocks` for one block. */
  function BlockRows(b: Block, height: nat): set<TxRow> {
    (set i, r | 0 <= i < |b.txs| && r in TxRows(Placed(IdOf(b, height), i, b.txs[i])) :: r) + HeadRows(b)
  }

  /** The database built from scratch for a chain, without the t row. */
  function TxDb(c: seq<Block>): set<TxRow> {
    set h, r | 0 <= h < |c| && r in BlockRows(c[h], h) :: r
  }

  // ----- rows of a chain belong to one block

  ghost predicate OwnedBy(r: TxRow, c: seq<Block>, h: nat, i: nat)
    requires h < |c|
  {
    if r.T? || r.C? || r.O? then i < |c[h].txs| && r in TxRows(Placed(IdOf(c[h], h), i, c[h].txs[i]))
    else r in HeadRows(c[h])
  }

  lemma {:induction false} Owner(c: seq<Block>, r: TxRow) returns (h: nat, i: nat)
    requires r in TxDb(c)
    ensures h < |c| && OwnedBy(r, c, h, i) && r in BlockRows(c[h], h)
  {
    h :| 0 <= h < |c| && r in BlockRows(c[h], h);
    if r in HeadRows(c[h]) {
      i := 0;
    } else {
      i :| 0 <= i < |c[h].txs| && r in TxRows(Placed(IdOf(c[h], h), i, c[h].txs[i]));
    }
  }

  /** A txid stands at one place of a valid chain. */
  lemma {:induction false} OnePlace(c: seq<Block>, h: nat, i: nat, g: nat, j: nat)
    requires ValidChain(c) && h < |c| && g < |c| && i < |c[h].txs| && j < |c[g].txs|
    requires c[h].txs[i].txid == c[g].txs[j].txid
    ensures h == g && i == j
  {
    FlattenPlaces(c);
    UniqueTxids(Flatten(c));
    assert Placed(IdOf(c[h], h), i, c[h].txs[i]) in Flatten(c);
    assert Placed(IdOf(c[g], g), j, c[g].txs[j]) in Flatten(c);
  }

  lemma {:induction false} OneOwner(c: seq<Block>, q: TxRow, r: TxRow, h: nat, i: nat, g: nat, j: nat)
    requires ValidChain(c) && h < |c| && g < |c| && OwnedBy(q, c, h, i) && OwnedBy(r, c, g, j) && SameKey(q, r)
    ensures h == g && q == r
  {
    if q.T? || q.C? || q.O? {
      OnePlace(c, h, i, g, j);
    }
  }

  /** On a valid chain a key has one row, in one block. */
  lemma {:induction false} KeysUnique(c: seq<Block>)
    requires ValidChain(c)
    ensures forall q, r :: q in TxDb(c) && r in TxDb(c) && SameKey(q, r) ==> q == r
    ensures forall g, h, r :: 0 <= g < |c| && 0 <= h < |c| && r in BlockRows(c[g], g) && r in BlockRows(c[h], h) ==>
                                g == h
  {
    forall q, r | q in TxDb(c) && r in TxDb(c) && SameKey(q, r)
      ensures q == r
    {
      var h, i := Owner(c, q);
      var g, j := Owner(c, r);
      OneOwner(c, q, r, h, i, g, j);
    }
    forall g, h, r | 0 <= g < |c| && 0 <= h < |c| && r in BlockRows(c[g], g) && r in BlockRows(c[h], h)
      ensures g == h
    {
      var i := Inside(c, g, r);
      var j := Inside(c, h, r);
      OneOwner(c, r, r, g, i, h, j);
    }
  }

  lemma {:induction false} Inside(c: seq<Block>, h: nat, r: TxRow) returns (i: nat)
    requires h < |c| && r in BlockRows(c[h], h)
    ensures OwnedBy(r, c, h, i)
  {
    if r in HeadRows(c[h]) {
      i := 0;
    } else {
      i :| 0 <= i < |c[h].txs| && r in TxRows(Placed(IdOf(c[h], h), i, c[h].txs[i]));
    }
  }

  /** Writing and deleting rows of one chain is adding to and taking from a set. */
  lemma {:induction false} PutIsUnion(c: seq<Block>, db: set<TxRow>, rows: set<TxRow>)
    requires ValidChain(c) && db <= TxDb(c) && rows <= TxDb(c)
    ensures Put(db, rows) == db + rows
  {
    KeysUnique(c);
  }

  lemma {:induction false} DeleteIsMinus(c: seq<Block>, db: set<TxRow>, row: TxRow)
    requires ValidChain(c) && db <= TxDb(c) && row in TxDb(c)
    ensures Delete(db, row) == db - {row}
  {
    KeysUnique(c);
    assert SameKey(row, row);
  }

  // ----- one block more, one block less

  lemma {:induction false} TxDbStep(c: seq<Block>, n: nat)
    requires ValidChain(c) && n < |c|
    ensures TxDb(c[..n + 1]) == TxDb(c[..n]) + BlockRows(c[n], n)
    ensures TxDb(c[..n]) !! BlockRows(c[n], n)
    ensures TxDb(c[..n + 1]) <= TxDb(c)
  {
    KeysUnique(c);
    hide BlockRows, ValidTxs, Flatten;
    var a, b := c[..n + 1], c[..n];
    assert forall h :: 0 <= h < n ==> a[h] == b[h] == c[h];
    assert a[n] == c[n];
  }

  // ----- lookups in the database of a chain

  lemma {:induction false} RowIn(c: seq<Block>, p: Placed, r: TxRow)
    requires p in Flatten(c) && r in TxRows(p)
    ensures r in TxDb(c)
  {
    FlattenPlaces(c);
    var h := p.at.height;
    assert p == Placed(IdOf(c[h], h), p.pos, c[h].txs[p.pos]);
    assert r in BlockRows(c[h], h);
  }

  lemma {:induction false} RowOf(c: seq<Block>, r: TxRow) returns (p: Placed)
    requires r in TxDb(c) && (r.T? || r.C? || r.O?)
    ensures p in Flatten(c) && r in TxRows(p)
  {
    FlattenPlaces(c);
    var h, i := Owner(c, r);
    p := Placed(IdOf(c[h], h), i, c[h].txs[i]);
  }

  lemma {:induction false} OutRow(p: Placed, o: OutPoint, out: TxOut)
    ensures O(o, out) in TxRows(p) <==> o in TxOuts(p.tx) && TxOuts(p.tx)[o] == out
  {
  }

  lemma {:induction false} OutputRows(c: seq<Block>, o: OutPoint, out: TxOut)
    requires ValidChain(c)
    ensures O(o, out) in TxDb(c) <==> o in Outs(Flatten(c)) && Outs(Flatten(c))[o] == out
  {
    hide Flatten, Outs, TxDb, TxRows, TxOuts, ValidTxs;
    var fs := Flatten(c);
    OutsAre(fs, o);
    if O(o, out) in TxDb(c) {
      var p := RowOf(c, O(o, out));
      OutRow(p, o, out);
    }
    if o in Outs(fs) && Outs(fs)[o] == out {
      var p :| p in fs && o in TxOuts(p.tx);
      OutRow(p, o, out);
      RowIn(c, p, O(o, out));
    }
  }

  lemma {:induction false} OutsAre(fs: seq<Placed>, o: OutPoint)
    requires ValidTxs(fs)
    ensures o in Outs(fs) <==> exists p :: p in fs && o in TxOuts(p.tx)
    ensures forall p :: p in fs && o in TxOuts(p.tx) ==> Outs(fs)[o] == TxOuts(p.tx)[o]
  {
    if fs != [] {
      var init, q := fs[..|fs| - 1], fs[|fs| - 1];
      OutsAre(init, o);
      UniqueTxids(fs);
      assert forall p :: p in fs <==> p in init || p == q;
    }
  }

  /** A transaction is confirmed by the blocks of the chain that hold it. */
  lemma {:induction false} ConfRows(c: seq<Block>, t: Txid, h: BlockHash)
    ensures C(t, h) in TxDb(c) <==> exists p :: p in Flatten(c) && p.tx.txid == t && p.at.hash == h
  {
    if C(t, h) in TxDb(c) {
      var p := RowOf(c, C(t, h));
    }
    if p :| p in Flatten(c) && p.tx.txid == t && p.at.hash == h {
      RowIn(c, p, C(t, h));
    }
  }
}
