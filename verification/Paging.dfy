/** The pages of an address's transactions: unconfirmed ones first, then confirmed ones, newest
    first. */
module Paging {
  import opened Chain
  import opened History
  import opened HistStore
  import opened Codec
  import opened Scan
  import opened Summaries
  import opened Cursor

  // ----- the confirmed part

  function Txids(rows: seq<Row>): seq<Txid> {
    seq(|rows|, i requires 0 <= i < |rows| => rows[i].info.txid)
  }

  ghost predicate Newest(rows: seq<Row>) {
    forall i, j :: 0 <= i < j < |rows| ==> RowLess(rows[j], rows[i])
  }

  /** A set of rows has one listing, newest first. */
  lemma {:induction false} OneListing(a: seq<Row>, b: seq<Row>)
    requires Newest(a) && Newest(b) && forall r :: r in a <==> r in b
    ensures a == b
    decreases |a|
  {
    hide RowLess;
    if a == [] {
      assert forall i :: 0 <= i < |b| ==> b[i] in b;
    } else {
      assert a[0] in b && b[0] in a;
      Heads(a, b);
      forall r
        ensures r in a[1..] <==> r in b[1..]
      {
        InTail(a, r);
        InTail(b, r);
      }
      OneListing(a[1..], b[1..]);
    }
  }

  lemma {:induction false} NotBoth(a: Row, b: Row)
    ensures !(RowLess(a, b) && RowLess(b, a)) && !RowLess(a, a)
  {
  }

  lemma {:induction false} Heads(a: seq<Row>, b: seq<Row>)
    requires Newest(a) && Newest(b) && a != [] && b != [] && a[0] in b && b[0] in a
    ensures a[0] == b[0]
  {
    hide RowLess;
    var i :| 0 <= i < |b| && b[i] == a[0];
    var j :| 0 <= j < |a| && a[j] == b[0];
    NotBoth(a[0], b[0]);
  }

  lemma {:induction false} InTail(a: seq<Row>, r: Row)
    requires Newest(a) && a != []
    ensures r in a[1..] <==> r in a && r != a[0]
  {
    hide RowLess;
    NotBoth(a[0], a[0]);
    if r in a && r != a[0] {
      var i :| 0 <= i < |a| && a[i] == r;
      assert a[1..][i - 1] == r;
    }
    if r in a[1..] {
      var i :| 0 <= i < |a[1..]| && a[1..][i] == r;
      assert a[i + 1] == r;
    }
  }

  /** Scanning from a height leaves out only a beginning of the full listing. */
  lemma {:induction false} FromHeightIsTail(top: seq<Row>, rows: seq<Row>, script: Script, start: nat) returns (k: nat)
    requires Newest(top) && Newest(rows)
    requires forall r :: r in rows <==> r in top && InRange(r, Some(start))
    requires forall r :: r in top ==> r.script == script && r.pos <= U16_MAX
    ensures k <= |top| && top[k..] == rows && forall i :: 0 <= i < k ==> !InRange(top[i], Some(start))
  {
    hide RowLess, InRange;
    k := 0;
    while k < |top| && !InRange(top[k], Some(start))
      invariant k <= |top| && forall i :: 0 <= i < k ==> !InRange(top[i], Some(start))
    {
      k := k + 1;
    }
    forall i | k <= i < |top|
      ensures InRange(top[i], Some(start))
    {
      if k < i {
        assert top[k] in top && top[i] in top;
        Downward(top[k], top[i], start);
      }
    }
    forall r
      ensures r in top[k..] <==> r in rows
    {
      if r in rows {
        var i :| 0 <= i < |top| && top[i] == r;
        assert top[k..][i - k] == r;
      }
    }
    OneListing(top[k..], rows);
  }

  lemma {:induction false} Downward(a: Row, b: Row, start: nat)
    requires RowLess(b, a) && InRange(a, Some(start)) && a.script == b.script && a.pos <= U16_MAX
    ensures InRange(b, Some(start))
  {
  }

  /** Starting the scan at the cursor's height finds the same rest as scanning from the top. */
  lemma {:induction false} SameRest(top: seq<Row>, rows: seq<Row>, script: Script, t: Txid, start: nat)
    requires Newest(top) && Newest(rows) && Proper(top)
    requires forall r :: r in rows <==> r in top && InRange(r, Some(start))
    requires forall r :: r in top ==> r.script == script && r.pos <= U16_MAX
    requires exists r :: r in rows && r.info.txid == t
    ensures After(Unique(Txids(top)), Some(t)) == After(Unique(Txids(rows)), Some(t))
  {
    hide RowLess, Newest, Unique;
    var k := FromHeightIsTail(top, rows, script, start);
    var a, b := Txids(top[..k]), Txids(top[k..]);
    assert Txids(top) == a + b;
    forall i, r | 0 <= i < k && r in rows
      ensures a[i] != r.info.txid
    {
      assert top[i] in top && r in top;
      Apart(top[i], r, start);
    }
    forall x | x in a
      ensures x !in b
    {
      var i :| 0 <= i < |a| && a[i] == x;
      assert forall j :: 0 <= j < |b| ==> b[j] == rows[j].info.txid && rows[j] in rows;
    }
    UniqueJoin(a, b);
    AfterPrefix(Unique(a), Unique(b), t);
  }

  lemma {:induction false} Apart(a: Row, b: Row, start: nat)
    requires (a.info.txid == b.info.txid <==> SamePlace(a, b)) && !InRange(a, Some(start)) && InRange(b, Some(start))
    ensures a.info.txid != b.info.txid
  {
  }

  // ----- the order of a page

  datatype Found = Found(txid: Txid, at: BlockId, pos: nat)

  predicate Later(a: Found, b: Found) {
    a.at.height > b.at.height || (a.at.height == b.at.height && a.pos > b.pos)
  }

  ghost predicate Strictly(fs: seq<Found>) {
    forall i, j :: 0 <= i < j < |fs| ==> Later(fs[i], fs[j])
  }

  ghost predicate InOrder(fs: seq<Found>) {
    forall i, j :: 0 <= i < j < |fs| ==> !Later(fs[j], fs[i])
  }

  lemma {:induction false} SameHead(a: seq<Found>, b: seq<Found>)
    requires Strictly(a) && InOrder(b) && a != [] && b != [] && a[0] in b && b[0] in a
    ensures a[0] == b[0]
  {
    hide Later;
    var i :| 0 <= i < |b| && b[i] == a[0];
    var j :| 0 <= j < |a| && a[j] == b[0];
    if i > 0 && j > 0 {
      assert !Later(b[i], b[0]) && Later(a[0], a[j]);
    }
  }

  lemma {:induction false} SameTail(a: seq<Found>, b: seq<Found>)
    requires multiset(a) == multiset(b) && a != [] && b != [] && a[0] == b[0]
    ensures multiset(a[1..]) == multiset(b[1..])
  {
    assert a == [a[0]] + a[1..] && b == [b[0]] + b[1..];
    assert multiset(a) == multiset{a[0]} + multiset(a[1..]);
    assert multiset(b) == multiset{b[0]} + multiset(b[1..]);
    assert multiset(a) - multiset{a[0]} == multiset(a[1..]);
    assert multiset(b) - multiset{b[0]} == multiset(b[1..]);
  }

  /** Sorting any permutation of a listing that is newest first gives the listing back. */
  lemma {:induction false} SortedBack(a: seq<Found>, b: seq<Found>)
    requires multiset(a) == multiset(b) && Strictly(a) && InOrder(b)
    ensures a == b
    decreases |a|
  {
    hide Later;
    assert |multiset(a)| == |a| && |multiset(b)| == |b|;
    if a != [] {
      assert a[0] in multiset(a) && b[0] in multiset(b);
      SameHead(a, b);
      SameTail(a, b);
      SortedBack(a[1..], b[1..]);
      assert a == [a[0]] + a[1..] && b == [b[0]] + b[1..];
    }
  }

  method SortFound(fs: seq<Found>) returns (out: seq<Found>)
    ensures multiset(out) == multiset(fs) && InOrder(out)
  {
    hide InOrder, Later;
    out := [];
    Trivial();
    for n := 0 to |fs|
      invariant multiset(out) == multiset(fs[..n]) && InOrder(out)
    {
      var k := 0;
      while k < |out| && !Later(fs[n], out[k])
        invariant 0 <= k <= |out| && forall i :: 0 <= i < k ==> !Later(fs[n], out[i])
      {
        k := k + 1;
      }
      Inserted(out, k, fs[n]);
      assert fs[..n + 1] == fs[..n] + [fs[n]];
      out := out[..k] + [fs[n]] + out[k..];
    }
    assert fs[..|fs|] == fs;
  }

  lemma {:induction false} Trivial()
    ensures InOrder([])
  {
  }

  lemma {:induction false} NotLater(a: Found, b: Found, c: Found)
    requires Later(a, b) && !Later(c, b)
    ensures !Later(c, a)
  {
  }

  lemma {:induction false} Inserted(out: seq<Found>, k: nat, f: Found)
    requires InOrder(out) && k <= |out| && (forall i :: 0 <= i < k ==> !Later(f, out[i]))
             && (k < |out| ==> Later(f, out[k]))
    ensures InOrder(out[..k] + [f] + out[k..])
    ensures multiset(out[..k] + [f] + out[k..]) == multiset(out) + multiset{f}
  {
    hide Later;
    assert out == out[..k] + out[k..];
    InsertedOrder(out, k, f);
  }

  lemma {:induction false} InsertedOrder(out: seq<Found>, k: nat, f: Found)
    requires InOrder(out) && k <= |out| && (forall i :: 0 <= i < k ==> !Later(f, out[i]))
             && (k < |out| ==> Later(f, out[k]))
    ensures InOrder(out[..k] + [f] + out[k..])
  {
    hide Later;
    forall i | k <= i < |out|
      ensures !Later(out[i], f)
    {
      if i > k {
        NotLater(f, out[k], out[i]);
      } else {
        Never(f, out[k]);
      }
    }
    var now := out[..k] + [f] + out[k..];
    forall i, j | 0 <= i < j < |now|
      ensures !Later(now[j], now[i])
    {
      assert now[i] == if i < k then out[i] else if i == k then f else out[i - 1];
      assert now[j] == if j < k then out[j] else if j == k then f else out[j - 1];
    }
  }

  lemma {:induction false} Never(a: Found, b: Found)
    ensures !(Later(a, b) && Later(b, a))
  {
  }

  // ----- one page

  /** What the databases and the mempool hold while a client follows the pages: the history of
      a chain, which transactions a block confirms, which are stored in the mempool, and the
      script's among these. A stored one may be confirmed already, until the next update of the
      mempool. */
  ghost predicate State(c: seq<Block>, unspendables: bool, keys: seq<Bytes>, all: set<Row>,
                        confirming: map<Txid, BlockId>,
                        mempool: set<Txid>, entries: seq<Txid>, script: Script, top: seq<Row>) {
    && ValidChain(c) && Holds(keys, all) && (forall r :: r in all <==> H(r) in HistDb(c, unspendables))
    && ConfirmingOf(c, confirming)
    && (forall t :: t in entries ==> t in mempool)
    && script < Pow256(32) && Newest(top) && (forall r :: r in top <==> r in all && r.script == script)
  }

  lemma {:induction false} TopFacts(c: seq<Block>, unspendables: bool, keys: seq<Bytes>, all: set<Row>,
                                    confirming: map<Txid, BlockId>,
                                    mempool: set<Txid>, entries: seq<Txid>, script: Script, top: seq<Row>)
    requires State(c, unspendables, keys, all, confirming, mempool, entries, script, top)
    ensures Proper(top)
    ensures forall r :: r in top ==> TopRow(r, script, confirming)
  {
    hide HistDb, ValidChain, Holds, Newest, Pow256, Proper;
    ChainProper(c, unspendables, top);
    forall r | r in top
      ensures TopRow(r, script, confirming)
    {
      var h, i, k := RowSource(c, unspendables, r);
      ShortChain(c, h, i);
    }
  }

  ghost predicate TopRow(r: Row, script: Script, confirming: map<Txid, BlockId>) {
    && r.script == script && r.pos < U16_MAX && r.height < U32_MAX
    && r.info.txid in confirming && confirming[r.info.txid].height == r.height
  }

  lemma {:induction false} ShortChain(c: seq<Block>, h: nat, i: nat)
    requires ValidChain(c) && h < |c| && i < |c[h].txs|
    ensures h < U32_MAX && i < U16_MAX
  {
  }

  // ----- the confirmed part of a page

  function Confirmed(ts: seq<Txid>, confirming: map<Txid, BlockId>): seq<Txid> {
    if ts == [] then []
    else (if ts[0] in confirming then [ts[0]] else []) + Confirmed(ts[1..], confirming)
  }

  lemma {:induction false} AllConfirmed(ts: seq<Txid>, confirming: map<Txid, BlockId>)
    requires forall t :: t in ts ==> t in confirming
    ensures Confirmed(ts, confirming) == ts
  {
    if ts != [] {
      AllConfirmed(ts[1..], confirming);
    }
  }

  /** The transactions that a chain page takes from the scanned rows. */
  function ChainPart(rows: seq<Row>, confirming: map<Txid, BlockId>, last: Option<Txid>, limit: nat): seq<Txid> {
    Take(Confirmed(After(Unique(Txids(rows)), last), confirming), limit)
  }

  /** The position of a transaction's first row. */
  function Pos(rows: seq<Row>, t: Txid): nat {
    if rows == [] then 0 else if rows[0].info.txid == t then rows[0].pos else Pos(rows[1..], t)
  }

  function FoundAt(rows: seq<Row>, confirming: map<Txid, BlockId>, t: Txid): (f: Found)
    requires t in confirming
    ensures f.txid == t
  {
    Found(t, confirming[t], Pos(rows, t))
  }

  function Founds(ts: seq<Txid>, rows: seq<Row>, confirming: map<Txid, BlockId>): (fs: seq<Found>)
    requires forall t :: t in ts ==> t in confirming
    ensures |fs| == |ts| && forall i :: 0 <= i < |ts| ==> fs[i] == FoundAt(rows, confirming, ts[i])
  {
    seq(|ts|, i requires 0 <= i < |ts| => FoundAt(rows, confirming, ts[i]))
  }

  lemma {:induction false} PosIs(rows: seq<Row>, r: Row)
    requires Proper(rows) && r in rows
    ensures Pos(rows, r.info.txid) == r.pos
  {
    hide Proper;
    var q := PosFrom(rows, r.info.txid, r);
    ProperAt(rows, q, r);
  }

  lemma {:induction false} ProperAt(rows: seq<Row>, a: Row, b: Row)
    requires Proper(rows) && a in rows && b in rows
    ensures a.info.txid == b.info.txid <==> SamePlace(a, b)
  {
  }

  lemma {:induction false} PosFrom(rows: seq<Row>, t: Txid, r: Row) returns (q: Row)
    requires r in rows && r.info.txid == t
    ensures q in rows && q.info.txid == t && Pos(rows, t) == q.pos
  {
    if rows[0].info.txid == t {
      q := rows[0];
    } else {
      assert rows == [rows[0]] + rows[1..];
      q := PosFrom(rows[1..], t, r);
    }
  }

  /** The confirmed part of a page is listed newest first. */
  lemma {:induction false} PartFalls(rows: seq<Row>, script: Script, confirming: map<Txid, BlockId>,
                                     last: Option<Txid>, limit: nat)
    requires Newest(rows) && Proper(rows) && forall r :: r in rows ==> TopRow(r, script, confirming)
    ensures var ts := ChainPart(rows, confirming, last, limit);
            && ts == Take(After(Unique(Txids(rows)), last), limit)
            && (forall t :: t in ts ==> t in confirming) && Strictly(Founds(ts, rows, confirming))
  {
    hide Newest, Proper, Unique, TopRow, After, Confirmed, Pos, Later, Txids, Founds;
    var us := Unique(Txids(rows));
    var k := AfterIsTail(us, last);
    UniqueConfirmed(rows, script, confirming);
    AllConfirmed(us[k..], confirming);
    var ts := ChainPart(rows, confirming, last, limit);
    assert ts == us[k..k + |ts|];
    var fs := Founds(ts, rows, confirming);
    forall i, j | 0 <= i < j < |fs|
      ensures Later(fs[i], fs[j])
    {
      assert ts[i] == us[k + i] && ts[j] == us[k + j];
      UniqueFalls(rows, script, confirming, k + i, k + j);
    }
  }

  lemma {:induction false} UniqueConfirmed(rows: seq<Row>, script: Script, confirming: map<Txid, BlockId>)
    requires forall r :: r in rows ==> TopRow(r, script, confirming)
    ensures forall t :: t in Unique(Txids(rows)) ==> t in confirming
  {
    hide Unique, TopRow;
    forall t | t in Unique(Txids(rows))
      ensures t in confirming
    {
      var i :| 0 <= i < |Txids(rows)| && Txids(rows)[i] == t;
      RowConfirmed(rows[i], script, confirming);
    }
  }

  lemma {:induction false} RowConfirmed(r: Row, script: Script, confirming: map<Txid, BlockId>)
    requires TopRow(r, script, confirming)
    ensures r.script == script && r.info.txid in confirming && confirming[r.info.txid].height == r.height
  {
  }

  lemma {:induction false} UniqueFalls(rows: seq<Row>, script: Script, confirming: map<Txid, BlockId>, i: nat, j: nat)
    requires Newest(rows) && Proper(rows) && (forall r :: r in rows ==> TopRow(r, script, confirming))
    requires i < j < |Unique(Txids(rows))|
    ensures var us := Unique(Txids(rows));
            && us[i] in confirming && us[j] in confirming
            && Later(FoundAt(rows, confirming, us[i]), FoundAt(rows, confirming, us[j]))
  {
    hide Proper, Unique, Pos;
    var p, q := UniqueOrder(Txids(rows), i, j);
    assert rows[p] in rows && rows[q] in rows;
    PosIs(rows, rows[p]);
    PosIs(rows, rows[q]);
    ProperAt(rows, rows[p], rows[q]);
    RowConfirmed(rows[p], script, confirming);
    RowConfirmed(rows[q], script, confirming);
    PlaceFalls(rows[q], rows[p]);
  }

  lemma {:induction false} PlaceFalls(a: Row, b: Row)
    requires RowLess(a, b) && a.script == b.script && !SamePlace(a, b)
    ensures Lower(a, b)
  {
  }

  /** The rows of a listing that are in range, in order. */
  function Ranged(top: seq<Row>, start: Option<nat>): (rows: seq<Row>)
    ensures forall r :: r in rows <==> r in top && InRange(r, start)
  {
    if top == [] then []
    else
      assert top == [top[0]] + top[1..];
      (if InRange(top[0], start) then [top[0]] else []) + Ranged(top[1..], start)
  }

  lemma {:induction false} RangedNewest(top: seq<Row>, start: Option<nat>)
    requires Newest(top)
    ensures Newest(Ranged(top, start))
  {
    hide RowLess, InRange;
    if top != [] {
      RangedNewest(top[1..], start);
      var rest := Ranged(top[1..], start);
      forall r | r in rest
        ensures RowLess(r, top[0])
      {
        var i :| 0 <= i < |top[1..]| && top[1..][i] == r;
        assert top[i + 1] == r;
      }
    }
  }

  /** The confirmed transactions after the cursor; the parallel lookup may return them in any
      order, and the page sorts them. */
  method ChainHistory(keys: seq<Bytes>, ghost all: set<Row>, script: Script, confirming: map<Txid, BlockId>,
                      last: Option<Txid>, start: Option<nat>, limit: nat, ghost top: seq<Row>)
    returns (txs: seq<Txid>)
    requires Holds(keys, all) && script < Pow256(32) && (start.Some? ==> start.value <= U32_MAX)
    requires Newest(top) && (forall r :: r in top <==> r in all && r.script == script)
    requires Proper(top) && forall r :: r in top ==> TopRow(r, script, confirming)
    ensures txs == Take(After(Unique(Txids(Ranged(top, start))), last), limit)
  {
    hide *;
    var scanned := ScanBack(keys, all, script, start);
    NewestIs(scanned);
    RangedNewest(top, start);
    OneListing(scanned, Ranged(top, start));
    ProperSub(top, scanned);
    var ts := ChainPart(scanned, confirming, last, limit);
    PartFalls(scanned, script, confirming, last, limit);
    var list := Founds(ts, scanned, confirming);
    var found: seq<Found> :| multiset(found) == multiset(list);
    var sorted := SortFound(found);
    SortedBack(list, sorted);
    txs := seq(|sorted|, i requires 0 <= i < |sorted| => sorted[i].txid);
    assert txs == ts;
  }

  lemma {:induction false} NewestIs(rows: seq<Row>)
    requires forall i, j :: 0 <= i < j < |rows| ==> RowLess(rows[j], rows[i])
    ensures Newest(rows)
  {
  }

  lemma {:induction false} ProperSub(top: seq<Row>, rows: seq<Row>)
    requires Proper(top) && forall r :: r in rows ==> r in top
    ensures Proper(rows)
  {
  }

  // ----- whole pages

  datatype TxidLocation = InMempool | InChain(height: nat) | Nowhere

  function FindTxid(t: Txid, mempool: set<Txid>, confirming: map<Txid, BlockId>): TxidLocation {
    if t in mempool then InMempool
    else if t in confirming then InChain(confirming[t].height)
    else Nowhere
  }

  /** After a cursor in the mempool the chain starts from the top. */
  function ConfirmedAfterTxid(location: TxidLocation, after: Option<Txid>): Option<Txid> {
    if location.InChain? then after else None
  }

  /** What is listed after a cursor, given the unconfirmed and the confirmed transactions. */
  function RestAfter(us: seq<Txid>, vs: seq<Txid>, mempool: set<Txid>, after: Option<Txid>): seq<Txid> {
    if after.None? then us + vs
    else if after.value in mempool then After(us, after) + vs
    else After(vs, after)
  }

  lemma {:induction false} TakeJoin(a: seq<Txid>, b: seq<Txid>, max: nat)
    ensures var t := Take(a, max);
            |t| <= max && Take(a + b, max) == if |t| < max then t + Take(b, max - |t|) else t
  {
  }

  lemma {:induction false} FullRange(top: seq<Row>, rows: seq<Row>, script: Script, confirming: map<Txid, BlockId>)
    requires Newest(top) && Newest(rows) && (forall r :: r in top ==> TopRow(r, script, confirming))
    requires forall r :: r in rows <==> r in top && InRange(r, None)
    ensures rows == top
  {
    OneListing(rows, top);
  }

  /** The scan from the cursor's height leaves the same rest. */
  lemma {:induction false} CursorRange(top: seq<Row>, rows: seq<Row>, script: Script, confirming: map<Txid, BlockId>,
                                       t: Txid)
    requires Newest(top) && Newest(rows) && Proper(top) && (forall r :: r in top ==> TopRow(r, script, confirming))
    requires t in confirming && forall r :: r in rows <==> r in top && InRange(r, Some(confirming[t].height))
    requires exists r :: r in top && r.info.txid == t
    ensures After(Unique(Txids(top)), Some(t)) == After(Unique(Txids(rows)), Some(t))
  {
    hide Newest, Proper, Unique, After;
    var r :| r in top && r.info.txid == t;
    assert r in rows;
    SameRest(top, rows, script, t, confirming[t].height);
  }

  lemma {:induction false} StateGives(c: seq<Block>, unspendables: bool, keys: seq<Bytes>, all: set<Row>,
                                      confirming: map<Txid, BlockId>,
                                      mempool: set<Txid>, entries: seq<Txid>, script: Script, top: seq<Row>)
    requires State(c, unspendables, keys, all, confirming, mempool, entries, script, top)
    ensures Holds(keys, all) && script < Pow256(32) && Newest(top)
    ensures forall r :: r in top <==> r in all && r.script == script
    ensures forall t :: t in confirming ==> confirming[t].height <= U32_MAX
  {
    TopFacts(c, unspendables, keys, all, confirming, mempool, entries, script, top);
    hide HistDb, Holds, Newest, Pow256;
  }

  /** The confirmed part of a page. */
  method ChainPage(keys: seq<Bytes>, ghost all: set<Row>, script: Script, confirming: map<Txid, BlockId>,
                   location: TxidLocation, after: Option<Txid>, limit: nat,
                     ghost top: seq<Row>) returns (txs: seq<Txid>)
    requires Holds(keys, all) && script < Pow256(32) && (location.InChain? ==> location.height <= U32_MAX)
    requires Newest(top) && (forall r :: r in top <==> r in all && r.script == script)
    requires Proper(top) && forall r :: r in top ==> TopRow(r, script, confirming)
    requires location.InChain? ==>
               after.Some? && after.value in confirming && location.height == confirming[after.value].height
    ensures !location.InChain? ==> txs == Take(Unique(Txids(top)), limit)
    ensures location.InChain? ==> txs == Take(After(Unique(Txids(top)), after), limit)
  {
    hide Newest, Proper, Unique, Holds, Pow256, TopRow, InRange, Txids, Ranged;
    var start: Option<nat> := if location.InChain? then Some(location.height) else None;
    txs := ChainHistory(keys, all, script, confirming, ConfirmedAfterTxid(location, after), start, limit, top);
    ghost var rows := Ranged(top, start);
    RangedNewest(top, start);
    if !location.InChain? {
      FullRange(top, rows, script, confirming);
    } else if exists r :: r in top && r.info.txid == after.value {
      CursorRange(top, rows, script, confirming, after.value);
    } else {
      NoRow(top, after.value);
      NoRow(rows, after.value);
    }
  }

  lemma {:induction false} NoRow(rows: seq<Row>, t: Txid)
    requires forall r :: r in rows ==> r.info.txid != t
    ensures After(Unique(Txids(rows)), Some(t)) == []
  {
    hide Unique;
    forall i | 0 <= i < |rows|
      ensures Txids(rows)[i] != t
    {
      assert rows[i] in rows;
    }
    NothingAfter(Unique(Txids(rows)), t);
  }

  /** The transactions of a page, before they are turned into JSON. None is the "after_txid not
      found" answer, given exactly for a cursor that is neither in the mempool nor confirmed. The
      page after any other cursor holds the first of what is listed after it. */
  method PageTxs(ghost c: seq<Block>, ghost unspendables: bool, keys: seq<Bytes>, ghost all: set<Row>,
                 confirming: map<Txid, BlockId>, mempool: set<Txid>, entries: seq<Txid>, script: Script,
                 after: Option<Txid>, max: nat, ghost top: seq<Row>)
    returns (r: Option<seq<Txid>>)
    requires State(c, unspendables, keys, all, confirming, mempool, entries, script, top)
    ensures r.None? <==> after.Some? && after.value !in mempool && after.value !in confirming
    ensures r.Some? ==> r.value == Take(RestAfter(Unique(entries), Unique(Txids(top)), mempool, after), max)
  {
    hide *;
    StateGives(c, unspendables, keys, all, confirming, mempool, entries, script, top);
    TopFacts(c, unspendables, keys, all, confirming, mempool, entries, script, top);
    var location := if after.None? then InMempool else FindTxid(after.value, mempool, confirming);
    FindIs(after, mempool, confirming);
    if location.Nowhere? {
      return None;
    }
    var txs: seq<Txid> := [];
    if location.InMempool? {
      txs := Take(After(Unique(entries), after), max);
    }
    if |txs| < max {
      var more := ChainPage(keys, all, script, confirming, location, after, max - |txs|, top);
      txs := txs + more;
    }
    RestIs(Unique(entries), Unique(Txids(top)), mempool, after);
    TakeJoin(After(Unique(entries), after), Unique(Txids(top)), max);
    TakeNone(After(Unique(Txids(top)), after));
    return Some(txs);
  }

  lemma {:induction false} RestIs(us: seq<Txid>, vs: seq<Txid>, mempool: set<Txid>, after: Option<Txid>)
    ensures var rest := RestAfter(us, vs, mempool, after);
            rest == if after.None? || after.value in mempool then After(us, after) + vs else After(vs, after)
  {
  }

  lemma {:induction false} FindIs(after: Option<Txid>, mempool: set<Txid>, confirming: map<Txid, BlockId>)
    ensures after.Some? ==>
              var location := FindTxid(after.value, mempool, confirming);
              && (location.InMempool? <==> after.value in mempool)
              && (location.Nowhere? <==> after.value !in mempool && after.value !in confirming)
              && (location.InChain? ==> after.value in confirming && location.height == confirming[after.value].height)
  {
  }

  lemma {:induction false} TakeNone(a: seq<Txid>)
    ensures Take(a, 0) == []
  {
  }

  // ----- pages as the client sees them

  /** What is left when transactions whose JSON cannot be made are dropped, because an output they
      spend is found neither on the chain nor in the mempool. */
  function Shown(ts: seq<Txid>, dropped: set<Txid>): seq<Txid> {
    if ts == [] then []
    else Shown(ts[..|ts| - 1], dropped) + if ts[|ts| - 1] in dropped then [] else [ts[|ts| - 1]]
  }

  lemma {:induction false} ShownJoin(a: seq<Txid>, b: seq<Txid>, dropped: set<Txid>)
    ensures Shown(a + b, dropped) == Shown(a, dropped) + Shown(b, dropped)
    decreases |b|
  {
    if b == [] {
      assert a + b == a;
    } else {
      var n := |b| - 1;
      assert (a + b)[..|a + b| - 1] == a + b[..n];
      ShownJoin(a, b[..n], dropped);
    }
  }

  lemma {:induction false} ShownNone(ts: seq<Txid>, dropped: set<Txid>)
    ensures Shown(ts, dropped) == [] <==> forall i :: 0 <= i < |ts| ==> ts[i] in dropped
  {
    if ts != [] {
      ShownNone(ts[..|ts| - 1], dropped);
    }
  }

  /** What the page after a cursor shows. */
  function PageAt(us: seq<Txid>, vs: seq<Txid>, mempool: set<Txid>, max: nat, dropped: set<Txid>,
                  after: Option<Txid>): seq<Txid> {
    Shown(Take(RestAfter(us, vs, mempool, after), max), dropped)
  }

  /** One page: None is the "after_txid not found" answer. The page after any other cursor shows
      what can be shown of the first that is listed after it. */
  method Page(ghost c: seq<Block>, ghost unspendables: bool, keys: seq<Bytes>, ghost all: set<Row>,
              confirming: map<Txid, BlockId>, mempool: set<Txid>, entries: seq<Txid>, script: Script,
              after: Option<Txid>, max: nat, dropped: set<Txid>, ghost top: seq<Row>)
    returns (r: Option<seq<Txid>>)
    requires State(c, unspendables, keys, all, confirming, mempool, entries, script, top)
    ensures r.None? <==> after.Some? && after.value !in mempool && after.value !in confirming
    ensures r.Some? ==> r.value == PageAt(Unique(entries), Unique(Txids(top)), mempool, max, dropped, after)
    ensures r.Some? ==> forall t :: t in r.value ==> t in mempool || t in confirming
  {
    hide *;
    var txs := PageTxs(c, unspendables, keys, all, confirming, mempool, entries, script, after, max, top);
    if txs.None? {
      return None;
    }
    PageAtIs(Unique(entries), Unique(Txids(top)), mempool, max, dropped, after);
    OnPage(c, unspendables, keys, all, confirming, mempool, entries, script, top, after, max, dropped);
    return Some(Shown(txs.value, dropped));
  }

  lemma {:induction false} PageAtIs(us: seq<Txid>, vs: seq<Txid>, mempool: set<Txid>, max: nat, dropped: set<Txid>,
                                    after: Option<Txid>)
    ensures PageAt(us, vs, mempool, max, dropped, after) == Shown(Take(RestAfter(us, vs, mempool, after), max), dropped)
  {
  }

  lemma {:induction false} OnPage(c: seq<Block>, unspendables: bool, keys: seq<Bytes>, all: set<Row>,
                                  confirming: map<Txid, BlockId>, mempool: set<Txid>, entries: seq<Txid>,
                                  script: Script, top: seq<Row>, after: Option<Txid>, max: nat, dropped: set<Txid>)
    requires State(c, unspendables, keys, all, confirming, mempool, entries, script, top)
    ensures forall t :: t in PageAt(Unique(entries), Unique(Txids(top)), mempool, max, dropped, after) ==>
                          t in mempool || t in confirming
  {
    hide HistDb, ValidChain, Holds, Newest, Pow256, Proper, Unique, TopRow, Shown, After;
    TopFacts(c, unspendables, keys, all, confirming, mempool, entries, script, top);
    UniqueConfirmed(top, script, confirming);
    var us, vs := Unique(entries), Unique(Txids(top));
    var rest := RestAfter(us, vs, mempool, after);
    var k := AfterIsTail(us, after);
    var l := AfterIsTail(vs, after);
    ShownIn(Take(rest, max), dropped);
    assert forall t :: t in rest ==> t in us || t in vs;
  }

  lemma {:induction false} ShownIn(ts: seq<Txid>, dropped: set<Txid>)
    ensures forall t :: t in Shown(ts, dropped) <==> t in ts && t !in dropped
  {
    if ts != [] {
      var n := |ts| - 1;
      ShownIn(ts[..n], dropped);
      assert ts == ts[..n] + [ts[n]];
    }
  }

  /** As many transactions as a page holds are dropped in a row, and one after them is not. */
  ghost predicate GapAt(ts: seq<Txid>, dropped: set<Txid>, max: nat, k: nat, j: nat) {
    && k + max <= j < |ts| && ts[j] !in dropped
    && forall i :: k <= i < k + max ==> ts[i] in dropped
  }

  ghost predicate Gapped(ts: seq<Txid>, dropped: set<Txid>, max: nat) {
    exists k: nat, j: nat :: GapAt(ts, dropped, max, k, j)
  }

  /** The client stands after the last transaction shown to it, and has met no gap. */
  ghost predicate Reached(listing: seq<Txid>, dropped: set<Txid>, max: nat, pos: nat, txs: seq<Txid>) {
    && pos <= |listing| && txs == Shown(listing[..pos], dropped)
    && (pos == 0 || (listing[pos - 1] !in dropped && txs != [] && txs[|txs| - 1] == listing[pos - 1]))
    && forall k: nat, j: nat :: j < pos ==> !GapAt(listing, dropped, max, k, j)
  }

  lemma {:induction false} NoGap(listing: seq<Txid>, dropped: set<Txid>, max: nat, pos: nat, txs: seq<Txid>, k: nat,
                                 j: nat)
    requires Reached(listing, dropped, max, pos, txs) && max > 0 && j < pos + max
    ensures !GapAt(listing, dropped, max, k, j)
  {
    hide Shown;
    if pos > 0 {
      assert !GapAt(listing, dropped, max, k, pos - 1);
    }
  }

  /** A page that shows nothing ends the listing, unless a gap lies ahead. */
  lemma {:induction false} ReachedEnd(listing: seq<Txid>, dropped: set<Txid>, max: nat, pos: nat, txs: seq<Txid>)
    requires Reached(listing, dropped, max, pos, txs) && max > 0
    requires Shown(Take(listing[pos..], max), dropped) == []
    ensures txs <= Shown(listing, dropped) && (txs == Shown(listing, dropped) <==> !Gapped(listing, dropped, max))
  {
    hide Shown;
    var rest := listing[pos..];
    assert listing == listing[..pos] + rest;
    ShownJoin(listing[..pos], rest, dropped);
    ShownNone(Take(rest, max), dropped);
    ShownNone(rest, dropped);
    if i :| 0 <= i < |rest| && rest[i] !in dropped {
      assert i >= max;
      Ahead(listing, dropped, max, pos, pos + i);
    } else {
      forall k: nat, j: nat
        ensures !GapAt(listing, dropped, max, k, j)
      {
        assert pos <= j < |listing| ==> rest[j - pos] == listing[j];
      }
    }
  }

  lemma {:induction false} Ahead(listing: seq<Txid>, dropped: set<Txid>, max: nat, pos: nat, j: nat)
    requires pos + max <= j < |listing| && listing[j] !in dropped
    requires forall i :: 0 <= i < |Take(listing[pos..], max)| ==> Take(listing[pos..], max)[i] in dropped
    ensures Gapped(listing, dropped, max)
  {
    forall i | pos <= i < pos + max
      ensures listing[i] in dropped
    {
      assert Take(listing[pos..], max)[i - pos] == listing[i];
    }
    assert GapAt(listing, dropped, max, pos, j);
  }

  // ----- a client that follows the pages

  /** What a client has got, and whether it met an empty page. */
  datatype Visited = Visited(txs: seq<Txid>, ended: bool)

  /** Asks for the page after the last transaction shown, until a page is empty or so many pages
      were asked for. */
  function Visit(us: seq<Txid>, vs: seq<Txid>, mempool: set<Txid>, max: nat, dropped: set<Txid>,
                 after: Option<Txid>, pages: nat): Visited
    decreases pages
  {
    if pages == 0 then Visited([], false)
    else
      var page := PageAt(us, vs, mempool, max, dropped, after);
      if page == [] then Visited([], true)
      else
        var later := Visit(us, vs, mempool, max, dropped, Some(page[|page| - 1]), pages - 1);
        Visited(page + later.txs, later.ended)
  }

  ghost predicate NoneTwice(ts: seq<Txid>) {
    forall i, j :: 0 <= i < j < |ts| ==> ts[i] != ts[j]
  }

  /** The client is done, and has got every transaction that can be shown, once and in order. */
  ghost predicate GotAll(us: seq<Txid>, vs: seq<Txid>, dropped: set<Txid>, v: Visited) {
    v.ended && v.txs == Shown(us + vs, dropped) && NoneTwice(v.txs)
  }

  /** No unconfirmed transaction that can be shown is confirmed already. */
  ghost predicate Separate(us: seq<Txid>, vs: seq<Txid>, dropped: set<Txid>) {
    forall t :: t in us && t in vs ==> t in dropped
  }

  /** Where a client stands after the page from a position on: after the last one shown. */
  function NextPos(ts: seq<Txid>, max: nat, dropped: set<Txid>, pos: nat): (next: nat)
    requires pos <= |ts|
    ensures pos <= next <= |ts|
  {
    pos + ShownUpTo(Take(ts[pos..], max), dropped)
  }

  function ShownUpTo(ts: seq<Txid>, dropped: set<Txid>): (n: nat)
    ensures n <= |ts|
  {
    if ts == [] then 0
    else if ts[|ts| - 1] !in dropped then |ts|
    else ShownUpTo(ts[..|ts| - 1], dropped)
  }

  /** The position is not after a confirmed transaction that is still stored in the mempool. */
  predicate Straight(us: seq<Txid>, vs: seq<Txid>, mempool: set<Txid>, pos: nat)
    requires pos <= |us + vs|
  {
    pos <= |us| || (us + vs)[pos - 1] !in mempool
  }

  /** No page, from a position on, ends in a confirmed transaction that is still stored in the
      mempool. */
  predicate NoReturn(us: seq<Txid>, vs: seq<Txid>, mempool: set<Txid>, max: nat, dropped: set<Txid>, pos: nat)
    requires pos <= |us + vs|
    decreases |us + vs| - pos
  {
    var next := NextPos(us + vs, max, dropped, pos);
    next == pos || (Straight(us, vs, mempool, next) && NoReturn(us, vs, mempool, max, dropped, next))
  }

  function CursorAt(ts: seq<Txid>, pos: nat): Option<Txid>
    requires pos <= |ts|
  {
    if pos == 0 then None else Some(ts[pos - 1])
  }

  /** After a straight position the listing goes on. */
  lemma {:induction false} GoesOn(us: seq<Txid>, vs: seq<Txid>, mempool: set<Txid>, pos: nat)
    requires NoneTwice(us) && NoneTwice(vs) && (forall t :: t in us ==> t in mempool)
    requires pos <= |us + vs| && Straight(us, vs, mempool, pos)
    ensures RestAfter(us, vs, mempool, CursorAt(us + vs, pos)) == (us + vs)[pos..]
  {
    if 0 < pos <= |us| {
      assert us[pos - 1] in us;
      AfterAt(us, pos - 1);
    } else if pos > |us| {
      AfterAt(vs, pos - 1 - |us|);
    }
  }

  /** After any other position it starts again from an earlier one. */
  lemma {:induction false} GoesBack(us: seq<Txid>, vs: seq<Txid>, mempool: set<Txid>, pos: nat) returns (back: nat)
    requires NoneTwice(us) && pos <= |us + vs| && !Straight(us, vs, mempool, pos)
    ensures back < pos && RestAfter(us, vs, mempool, CursorAt(us + vs, pos)) == (us + vs)[back..]
  {
    var t := (us + vs)[pos - 1];
    if t in us {
      var i :| 0 <= i < |us| && us[i] == t;
      hide After, Straight;
      AfterAt(us, i);
      back := i + 1;
      assert us[back..] + vs == (us + vs)[back..];
    } else {
      hide After, Straight;
      NothingAfter(us, t);
      back := |us|;
      assert [] + vs == (us + vs)[back..];
    }
  }

  /** A page that shows something leads to the next position. */
  lemma {:induction false} ReachedNext(listing: seq<Txid>, dropped: set<Txid>, max: nat, pos: nat, txs: seq<Txid>)
    requires Reached(listing, dropped, max, pos, txs) && max > 0
    ensures var page, next := Shown(Take(listing[pos..], max), dropped), NextPos(listing, max, dropped, pos);
            && (page == [] <==> next == pos)
            && (page != [] ==>
                  Reached(listing, dropped, max, next, txs + page) && page[|page| - 1] == listing[next - 1])
  {
    hide Shown, ShownUpTo;
    var window := Take(listing[pos..], max);
    UpToLast(window, dropped);
    if Shown(window, dropped) != [] {
      var next := pos + ShownUpTo(window, dropped);
      assert listing[..next] == listing[..pos] + window[..next - pos];
      ShownJoin(listing[..pos], window[..next - pos], dropped);
      forall k: nat, j: nat | j < next
        ensures !GapAt(listing, dropped, max, k, j)
      {
        NoGap(listing, dropped, max, pos, txs, k, j);
      }
    }
  }

  lemma {:induction false} UpToLast(ts: seq<Txid>, dropped: set<Txid>)
    ensures var n, shown := ShownUpTo(ts, dropped), Shown(ts, dropped);
            && (shown == [] <==> n == 0) && shown == Shown(ts[..n], dropped)
            && (n > 0 ==> ts[n - 1] !in dropped && shown[|shown| - 1] == ts[n - 1])
  {
    if ts != [] {
      var m := |ts| - 1;
      if ts[m] in dropped {
        UpToLast(ts[..m], dropped);
        var n := ShownUpTo(ts, dropped);
        assert ts[..m][..n] == ts[..n];
      } else {
        assert ts[..|ts|] == ts;
      }
    }
  }

  /** A page from an earlier position shows something that was shown before. */
  lemma {:induction false} ShowsAgain(listing: seq<Txid>, dropped: set<Txid>, max: nat, pos: nat, txs: seq<Txid>,
                                      back: nat) returns (t: Txid)
    requires Reached(listing, dropped, max, pos, txs) && max > 0 && back < pos
    ensures t in txs && t in Shown(Take(listing[back..], max), dropped)
  {
    hide Shown;
    var window := Take(listing[back..], max);
    assert !GapAt(listing, dropped, max, back, pos - 1);
    var i: nat;
    if back + max <= pos - 1 {
      i :| back <= i < back + max && listing[i] !in dropped;
    } else {
      i := pos - 1;
    }
    t := listing[i];
    assert window[i - back] == t && listing[..pos][i] == t;
    ShownIn(window, dropped);
    ShownIn(listing[..pos], dropped);
  }

  lemma {:induction false} Twice(a: seq<Txid>, b: seq<Txid>, c: seq<Txid>, t: Txid)
    requires t in a && t in b
    ensures !NoneTwice(a + (b + c))
  {
    var i :| 0 <= i < |a| && a[i] == t;
    var j :| 0 <= j < |b| && b[j] == t;
    assert (a + (b + c))[i] == t && (a + (b + c))[|a| + j] == t;
  }

  /** From a position that a client reached straight. */
  lemma {:induction false} VisitFrom(us: seq<Txid>, vs: seq<Txid>, mempool: set<Txid>, max: nat, dropped: set<Txid>,
                                     pos: nat, txs: seq<Txid>, pages: nat)
    requires NoneTwice(us) && NoneTwice(vs) && (forall t :: t in us ==> t in mempool) && max > 0
    requires Reached(us + vs, dropped, max, pos, txs) && Straight(us, vs, mempool, pos)
    ensures var v := Visit(us, vs, mempool, max, dropped, CursorAt(us + vs, pos), pages);
            var good := !Gapped(us + vs, dropped, max) && NoReturn(us, vs, mempool, max, dropped, pos);
            var got := v.ended && txs + v.txs == Shown(us + vs, dropped);
            && (got && NoneTwice(txs + v.txs) ==> good)
            && (good && pages > |us + vs| - pos ==> got)
            && (NoReturn(us, vs, mempool, max, dropped, pos) ==> txs + v.txs <= Shown(us + vs, dropped))
    decreases pages
  {
    hide *;
    var listing := us + vs;
    ReachedPrefix(listing, dropped, max, pos, txs);
    var cursor := CursorAt(listing, pos);
    VisitIs(us, vs, mempool, max, dropped, cursor, pages);
    if pages > 0 {
      GoesOn(us, vs, mempool, pos);
      PageAtIs(us, vs, mempool, max, dropped, cursor);
      var page, next := PageAt(us, vs, mempool, max, dropped, cursor), NextPos(listing, max, dropped, pos);
      ReachedNext(listing, dropped, max, pos, txs);
      NoReturnIs(us, vs, mempool, max, dropped, pos);
      if page == [] {
        ReachedEnd(listing, dropped, max, pos, txs);
        assert txs + [] == txs;
      } else {
        var later := Visit(us, vs, mempool, max, dropped, CursorAt(listing, next), pages - 1);
        CursorIs(listing, next);
        assert txs + (page + later.txs) == txs + page + later.txs;
        if Straight(us, vs, mempool, next) {
          VisitFrom(us, vs, mempool, max, dropped, next, txs + page, pages - 1);
        } else {
          Returned(us, vs, mempool, max, dropped, next, txs + page, pages - 1);
        }
      }
    }
  }

  lemma {:induction false} VisitIs(us: seq<Txid>, vs: seq<Txid>, mempool: set<Txid>, max: nat, dropped: set<Txid>,
                                   after: Option<Txid>, pages: nat)
    ensures var v, page := Visit(us, vs, mempool, max, dropped, after, pages),
                           PageAt(us, vs, mempool, max, dropped, after);
            if pages == 0 then v == Visited([], false)
            else if page == [] then v == Visited([], true)
            else
              var later := Visit(us, vs, mempool, max, dropped, Some(page[|page| - 1]), pages - 1);
              v == Visited(page + later.txs, later.ended)
  {
    hide PageAt;
  }

  lemma {:induction false} NoReturnIs(us: seq<Txid>, vs: seq<Txid>, mempool: set<Txid>, max: nat, dropped: set<Txid>,
                                      pos: nat)
    requires pos <= |us + vs|
    ensures var next := NextPos(us + vs, max, dropped, pos);
            NoReturn(us, vs, mempool, max, dropped, pos) <==>
              next == pos || (Straight(us, vs, mempool, next) && NoReturn(us, vs, mempool, max, dropped, next))
  {
    hide NextPos, Straight;
  }

  lemma {:induction false} CursorIs(ts: seq<Txid>, pos: nat)
    requires pos <= |ts|
    ensures CursorAt(ts, pos) == if pos == 0 then None else Some(ts[pos - 1])
  {
  }

  lemma {:induction false} ReachedPrefix(listing: seq<Txid>, dropped: set<Txid>, max: nat, pos: nat, txs: seq<Txid>)
    requires Reached(listing, dropped, max, pos, txs)
    ensures pos <= |listing| && txs + [] == txs && txs <= Shown(listing, dropped)
  {
    hide Shown;
    assert listing == listing[..pos] + listing[pos..];
    ShownJoin(listing[..pos], listing[pos..], dropped);
  }

  /** After a return, the client gets something again or asks for no more pages. */
  lemma {:induction false} Returned(us: seq<Txid>, vs: seq<Txid>, mempool: set<Txid>, max: nat, dropped: set<Txid>,
                                    pos: nat, txs: seq<Txid>, pages: nat)
    requires NoneTwice(us) && max > 0
    requires Reached(us + vs, dropped, max, pos, txs) && !Straight(us, vs, mempool, pos)
    ensures var v := Visit(us, vs, mempool, max, dropped, CursorAt(us + vs, pos), pages);
            v.ended ==> !NoneTwice(txs + v.txs)
  {
    hide *;
    ReachedPrefix(us + vs, dropped, max, pos, txs);
    var cursor := CursorAt(us + vs, pos);
    VisitIs(us, vs, mempool, max, dropped, cursor, pages);
    if pages > 0 {
      var back := GoesBack(us, vs, mempool, pos);
      PageAtIs(us, vs, mempool, max, dropped, cursor);
      var t := ShowsAgain(us + vs, dropped, max, pos, txs, back);
      var page := PageAt(us, vs, mempool, max, dropped, cursor);
      var later := Visit(us, vs, mempool, max, dropped, Some(page[|page| - 1]), pages - 1);
      Twice(txs, page, later.txs, t);
    }
  }

  lemma {:induction false} ShownTwice(ts: seq<Txid>, dropped: set<Txid>)
    requires NoneTwice(ts)
    ensures NoneTwice(Shown(ts, dropped))
    decreases |ts|
  {
    if ts != [] {
      var n := |ts| - 1;
      ShownTwice(ts[..n], dropped);
      ShownIn(ts[..n], dropped);
      assert ts[n] !in ts[..n];
    }
  }

  /** What can be shown is listed once exactly when nothing of it is both unconfirmed and
      confirmed. */
  lemma {:induction false} ListedOnce(us: seq<Txid>, vs: seq<Txid>, dropped: set<Txid>)
    requires NoneTwice(us) && NoneTwice(vs)
    ensures NoneTwice(Shown(us + vs, dropped)) <==> Separate(us, vs, dropped)
  {
    hide Shown;
    var a, b := Shown(us, dropped), Shown(vs, dropped);
    ShownJoin(us, vs, dropped);
    ShownIn(us, dropped);
    ShownIn(vs, dropped);
    ShownTwice(us, dropped);
    ShownTwice(vs, dropped);
    if !Separate(us, vs, dropped) {
      var t :| t in us && t in vs && t !in dropped;
      Twice(a, b, [], t);
      assert a + (b + []) == a + b;
    } else {
      forall i, j | 0 <= i < j < |a + b|
        ensures (a + b)[i] != (a + b)[j]
      {
        if i < |a| <= j {
          assert a[i] in a && b[j - |a|] in b;
        }
      }
    }
  }

  /** A client that follows the pages is done and has got every transaction that can be shown,
      once and in order, if and only if no unconfirmed one of them is confirmed already, no gap of
      a whole page hides some of them, and no page ends in a confirmed one that is still stored in
      the mempool. It needs no more pages than there are transactions, and one. */
  lemma {:induction false} VisitIff(us: seq<Txid>, vs: seq<Txid>, mempool: set<Txid>, max: nat, dropped: set<Txid>,
                                    pages: nat)
    requires NoneTwice(us) && NoneTwice(vs) && (forall t :: t in us ==> t in mempool) && max > 0
    ensures var v := Visit(us, vs, mempool, max, dropped, None, pages);
            var good := && Separate(us, vs, dropped) && !Gapped(us + vs, dropped, max)
                        && NoReturn(us, vs, mempool, max, dropped, 0);
            && (GotAll(us, vs, dropped, v) ==> good)
            && (pages > |us + vs| ==> (GotAll(us, vs, dropped, v) <==> good))
            && (NoReturn(us, vs, mempool, max, dropped, 0) ==> v.txs <= Shown(us + vs, dropped))
  {
    hide Visit, Shown, Gapped, NoReturn, NoneTwice, Separate, Reached;
    StartsReached(us + vs, dropped, max);
    VisitFrom(us, vs, mempool, max, dropped, 0, [], pages);
    ListedOnce(us, vs, dropped);
    var v := Visit(us, vs, mempool, max, dropped, None, pages);
    assert [] + v.txs == v.txs;
  }

  /** While no stored transaction is confirmed, every page leads straight on. */
  lemma {:induction false} SeparateIsStraight(us: seq<Txid>, vs: seq<Txid>, mempool: set<Txid>, max: nat,
                                           dropped: set<Txid>, pos: nat)
    requires (forall t :: t in us ==> t in mempool) && (forall t :: t in vs ==> t !in mempool) && pos <= |us + vs|
    ensures Separate(us, vs, dropped) && NoReturn(us, vs, mempool, max, dropped, pos)
    decreases |us + vs| - pos
  {
    hide NextPos;
    var next := NextPos(us + vs, max, dropped, pos);
    if next > |us| {
      assert (us + vs)[next - 1] == vs[next - 1 - |us|];
    }
    if next != pos {
      SeparateIsStraight(us, vs, mempool, max, dropped, next);
    }
  }

  /** While no stored transaction is confirmed and all can be shown, the client gets all
      unconfirmed and then all confirmed ones. */
  lemma {:induction false} OrdinaryVisit(us: seq<Txid>, vs: seq<Txid>, mempool: set<Txid>, max: nat,
                                         dropped: set<Txid>, pages: nat)
    requires NoneTwice(us) && NoneTwice(vs) && max > 0 && pages > |us + vs|
    requires (forall t :: t in us ==> t in mempool) && (forall t :: t in vs ==> t !in mempool)
    requires forall t :: t in us + vs ==> t !in dropped
    ensures Visit(us, vs, mempool, max, dropped, None, pages) == Visited(us + vs, true)
  {
    hide Visit, Shown, Gapped, NoReturn, NoneTwice, Separate;
    SeparateIsStraight(us, vs, mempool, max, dropped, 0);
    NoneDropped(us + vs, dropped, max);
    VisitIff(us, vs, mempool, max, dropped, pages);
  }

  /** A client that asks for the page after the last transaction shown to it, until a page is
      empty or it has asked for so many. */
  method FollowPages(ghost c: seq<Block>, ghost unspendables: bool, keys: seq<Bytes>, ghost all: set<Row>,
                     confirming: map<Txid, BlockId>, mempool: set<Txid>, entries: seq<Txid>, script: Script,
                     max: nat, dropped: set<Txid>, pages: nat, ghost top: seq<Row>)
    returns (txs: seq<Txid>, ended: bool)
    requires State(c, unspendables, keys, all, confirming, mempool, entries, script, top) && max > 0
    ensures var us, vs := Unique(entries), Unique(Txids(top));
            Visited(txs, ended) == Visit(us, vs, mempool, max, dropped, None, pages)
    ensures var us, vs := Unique(entries), Unique(Txids(top));
            var good := && Separate(us, vs, dropped) && !Gapped(us + vs, dropped, max)
                        && NoReturn(us, vs, mempool, max, dropped, 0);
            && (GotAll(us, vs, dropped, Visited(txs, ended)) ==> good)
            && (pages > |us + vs| ==> (GotAll(us, vs, dropped, Visited(txs, ended)) <==> good))
            && (NoReturn(us, vs, mempool, max, dropped, 0) ==> txs <= Shown(us + vs, dropped))
  {
    hide *;
    ghost var us, vs := Unique(entries), Unique(Txids(top));
    var after: Option<Txid> := None;
    txs, ended := [], false;
    var left := pages;
    assert [] + Visit(us, vs, mempool, max, dropped, None, pages).txs
        == Visit(us, vs, mempool, max, dropped, None, pages).txs;
    while left > 0 && !ended
      invariant after.Some? ==> after.value in mempool || after.value in confirming
      invariant var all, rest := Visit(us, vs, mempool, max, dropped, None, pages),
                                 Visit(us, vs, mempool, max, dropped, after, left);
                if ended then all == Visited(txs, true) else all == Visited(txs + rest.txs, rest.ended)
      decreases left, !ended
    {
      VisitIs(us, vs, mempool, max, dropped, after, left);
      var page := Page(c, unspendables, keys, all, confirming, mempool, entries, script, after, max, dropped, top);
      if page.value == [] {
        assert txs + [] == txs;
        ended := true;
      } else {
        var last := page.value[|page.value| - 1];
        ghost var later := Visit(us, vs, mempool, max, dropped, Some(last), left - 1);
        assert txs + (page.value + later.txs) == txs + page.value + later.txs;
        assert last in page.value;
        txs, after, left := txs + page.value, Some(last), left - 1;
      }
    }
    if !ended {
      VisitIs(us, vs, mempool, max, dropped, after, 0);
      assert txs + [] == txs;
    }
    EntriesStored(c, unspendables, keys, all, confirming, mempool, entries, script, top);
    VisitIff(us, vs, mempool, max, dropped, pages);
  }

  lemma {:induction false} EntriesStored(c: seq<Block>, unspendables: bool, keys: seq<Bytes>, all: set<Row>,
                                         confirming: map<Txid, BlockId>, mempool: set<Txid>, entries: seq<Txid>,
                                         script: Script, top: seq<Row>)
    requires State(c, unspendables, keys, all, confirming, mempool, entries, script, top)
    ensures forall t :: t in Unique(entries) ==> t in mempool
    ensures NoneTwice(Unique(entries)) && NoneTwice(Unique(Txids(top)))
  {
    hide Holds, HistDb, ValidChain, Newest, Pow256;
  }

  lemma {:induction false} StartsReached(listing: seq<Txid>, dropped: set<Txid>, max: nat)
    ensures Reached(listing, dropped, max, 0, [])
  {
  }

  lemma {:induction false} NoneDropped(ts: seq<Txid>, dropped: set<Txid>, max: nat)
    requires max > 0 && forall t :: t in ts ==> t !in dropped
    ensures Shown(ts, dropped) == ts && !Gapped(ts, dropped, max)
    decreases |ts|
  {
    if ts != [] {
      var n := |ts| - 1;
      NoneDropped(ts[..n], dropped, max);
      assert ts == ts[..n] + [ts[n]];
    }
    forall k: nat, j: nat
      ensures !GapAt(ts, dropped, max, k, j)
    {
      assert k < |ts| ==> ts[k] !in dropped;
    }
  }

  // ----- a client that never ends

  /** With the newest confirmed transaction still stored in the mempool and one transaction to a
      page, every page is the same, whether it is one of the script's unconfirmed transactions or
      stored without having been processed. */
  lemma {:induction false} SamePageAgain(us: seq<Txid>, after: Option<Txid>, pages: nat)
    requires (us == [2] || us == []) && (after.None? || after == Some(2))
    ensures var v := Visit(us, [2, 1], {2}, 1, {}, after, pages);
            !v.ended && 1 !in v.txs && |v.txs| == pages
    decreases pages
  {
    hide PageAt, Visit;
    VisitIs(us, [2, 1], {2}, 1, {}, after, pages);
    if pages > 0 {
      FirstPage(us, after);
      SamePageAgain(us, Some(2), pages - 1);
    }
  }

  lemma {:induction false} FirstPage(us: seq<Txid>, after: Option<Txid>)
    requires (us == [2] || us == []) && (after.None? || after == Some(2))
    ensures PageAt(us, [2, 1], {2}, 1, {}, after) == [2]
  {
    var rest := RestAfter(us, [2, 1], {2}, after);
    if us == [2] {
      AfterAt(us, 0);
      assert us[1..] == [];
    } else {
      assert After(us, Some(2)) == [];
    }
    assert |rest| >= 2 && rest[0] == 2;
    assert rest[..1] == [2];
    assert Shown([2], {}) == Shown([], {}) + [2] by {
      assert [2 as Txid][..0] == [];
    }
  }

  function Paying(txid: Txid): Tx {
    Tx(txid, [], [TxOut(7, 100, true)])
  }

  /** Two blocks with a transaction each that pays to the script. */
  const PAID: seq<Block> := [Block(Header(1, NULL_HASH, 0), [Paying(1)]), Block(Header(2, 1, 0), [Paying(2)])]
  const OLD_ROW: Row := Row(7, 0, 0, Funding(1, 0, 100))
  const NEW_ROW: Row := Row(7, 1, 0, Funding(2, 0, 100))
  const CONFIRMING: map<Txid, BlockId> := map[1 := IdOf(PAID[0], 0), 2 := IdOf(PAID[1], 1)]

  lemma {:induction false} PaidRows(h: nat, r: Row)
    requires h < 2
    ensures H(r) in HistAt(PAID, h, false) <==> r == if h == 0 then OLD_ROW else NEW_ROW
  {
    var outs := Outs(Flatten(PAID[..h + 1]));
    var p := Placed(IdOf(PAID[h], h), 0, PAID[h].txs[0]);
    assert H(r) in TxHist(p, outs, false) <==> H(r) == H(FundRow(p, 0)) by {
      assert Indexed(p.tx.outputs[0], false);
    }
    assert PAID[h].txs[0] == Paying(h + 1) && |PAID[h].txs| == 1;
  }

  lemma {:induction false} PaidValid()
    ensures ValidChain(PAID) && ConfirmingOf(PAID, CONFIRMING)
    ensures forall r :: r in {OLD_ROW, NEW_ROW} <==> H(r) in HistDb(PAID, false)
  {
    hide HistAt, ValidTxs, Flatten;
    PaidTxs();
    forall r
      ensures r in {OLD_ROW, NEW_ROW} <==> H(r) in HistDb(PAID, false)
    {
      PaidRows(0, r);
      PaidRows(1, r);
    }
    assert PAID[0].txs[0].txid == 1 && PAID[1].txs[0].txid == 2;
  }

  lemma {:induction false} PaidTxs()
    ensures ValidTxs(Flatten(PAID))
  {
    hide ValidTxs;
    var p, q := Placed(IdOf(PAID[0], 0), 0, Paying(1)), Placed(IdOf(PAID[1], 1), 0, Paying(2));
    assert PAID[..1] == [PAID[0]] && [PAID[0]][..0] == [] && Flatten([]) == [];
    assert Flatten([PAID[0]]) == [] + PlacedIn(PAID[0], 0) == [p];
    assert Flatten(PAID) == [p] + PlacedIn(PAID[1], 1) == [p, q];
    PaidInOrder(p, q);
  }

  lemma {:induction false} PaidInOrder(p: Placed, q: Placed)
    requires p.tx == Paying(1) && q.tx == Paying(2)
    ensures ValidTxs([p, q])
  {
    hide Ledger;
    assert [p, q][..1] == [p] && [p][..0] == [];
    assert ValidTxs([]) && ValidNext([], p.tx) && ValidTxs([p]) && ValidNext([p], q.tx);
  }

  lemma {:induction false} PaidFits()
    ensures Storable(OLD_ROW) && Storable(NEW_ROW) && 7 < Pow256(32) && Others({})
    ensures Newest([NEW_ROW, OLD_ROW]) && Txids([NEW_ROW, OLD_ROW]) == [2, 1]
  {
    Powers();
    WidePowers();
  }

  lemma {:induction false} PaidUnique()
    ensures Unique([2]) == [2] && Unique([2, 1]) == [2, 1]
  {
    assert [2 as Txid][..0] == [] && [2 as Txid, 1][..1] == [2];
    assert Unique([]) == [];
  }

  /** The last block's transaction is still stored in the mempool: a client asks for the same page
      as often as it likes, and never gets the older transaction. */
  method NeverEnds(pages: nat) returns (keys: seq<Bytes>, txs: seq<Txid>, ended: bool)
    ensures State(PAID, false, keys, {OLD_ROW, NEW_ROW}, CONFIRMING, {2}, [2], 7, [NEW_ROW, OLD_ROW])
    ensures !ended && 1 !in txs && |txs| == pages
  {
    hide *;
    PaidFits();
    PaidUnique();
    keys := DiskKeys({OLD_ROW, NEW_ROW}, {});
    PaidState(keys);
    ghost var rows, top := {OLD_ROW, NEW_ROW}, [NEW_ROW, OLD_ROW];
    txs, ended := FollowPages(PAID, false, keys, rows, CONFIRMING, {2}, [2], 7, 1, {}, pages, top);
    SamePageAgain([2], None, pages);
  }

  lemma {:induction false} PaidState(keys: seq<Bytes>)
    requires Holds(keys, {OLD_ROW, NEW_ROW})
    ensures State(PAID, false, keys, {OLD_ROW, NEW_ROW}, CONFIRMING, {2}, [2], 7, [NEW_ROW, OLD_ROW])
  {
    hide Holds, ValidChain, ConfirmingOf, HistDb, Newest, Pow256;
    PaidFits();
    PaidValid();
  }
}
