/** Address summaries: the rows of a group of scripts collated by transaction. */
module Summaries {
  import opened Chain
  import opened History
  import opened TxStore
  import opened HistStore
  import opened Codec
  import opened Scan
  import opened Merge

  const I64_MAX := 0x7FFF_FFFF_FFFF_FFFF
  const I64_MIN := -0x8000_0000_0000_0000

  datatype Summary = Summary(txid: Txid, value: int, height: nat, time: nat, pos: nat)

  function Saturate(v: int): int {
    if v > I64_MAX then I64_MAX else if v < I64_MIN then I64_MIN else v
  }

  /** `try_into().unwrap_or(0)` from u64. */
  function ToI64(v: nat): int {
    if v <= I64_MAX then v else 0
  }

  // ----- what the rows of a group satisfy

  /** Newest first. */
  ghost predicate Ranked(rows: seq<Row>) {
    forall i, j :: 0 <= i < j < |rows| ==> !RowLess(Plain(rows[i]), Plain(rows[j]))
  }

  predicate Lower(a: Row, b: Row) {
    a.height < b.height || (a.height == b.height && a.pos < b.pos)
  }

  predicate SamePlace(a: Row, b: Row) {
    a.height == b.height && a.pos == b.pos
  }

  /** A transaction stands at one place, and a place holds one transaction; an input or output
      has one row. */
  ghost predicate Proper(rows: seq<Row>) {
    && (forall a, b :: a in rows && b in rows ==> (a.info.txid == b.info.txid <==> SamePlace(a, b)))
    && (forall a, b :: a in rows && b in rows && Slot(a) == Slot(b) ==> a == b)
  }

  function Slot(r: Row): (Txid, nat, bool) {
    (r.info.txid, r.info.Index(), r.info.Spending?)
  }

  lemma {:induction false} RankedPlaces(rows: seq<Row>, i: nat, j: nat)
    requires Ranked(rows) && i <= j < |rows|
    ensures !Lower(rows[i], rows[j])
  {
  }

  // ----- totals over the distinct rows of a transaction

  function Signed(r: Row): int {
    var v: int := r.info.value;
    if r.info.Funding? then v else -v
  }

  function Weight(r: Row, signed: bool): int {
    if signed then Signed(r) else r.info.value
  }

  /** The total of the distinct rows of a transaction among the first `n`. */
  function Tally(rows: seq<Row>, n: nat, t: Txid, signed: bool): int
    requires n <= |rows|
  {
    if n == 0 then 0
    else
      Tally(rows, n - 1, t, signed)
      + if rows[n - 1].info.txid == t && rows[n - 1] !in rows[..n - 1] then Weight(rows[n - 1], signed) else 0
  }

  /** What they fund, less what they spend. */
  function Net(rows: seq<Row>, n: nat, t: Txid): int
    requires n <= |rows|
  {
    Tally(rows, n, t, true)
  }

  function Gross(rows: seq<Row>, n: nat, t: Txid): int
    requires n <= |rows|
  {
    Tally(rows, n, t, false)
  }

  /** The total as i64 arithmetic keeps it, row by row: a value beyond the range counts as nothing,
      and a sum beyond it stays at its end. */
  function Running(rows: seq<Row>, n: nat, t: Txid): int
    requires n <= |rows|
  {
    if n == 0 then 0
    else
      var was, r := Running(rows, n - 1, t), rows[n - 1];
      if r.info.txid != t || r in rows[..n - 1] then was
      else
        var v := if r.info.value >= 0x8000_0000_0000_0000 then 0 else r.info.value;
        var sum: int := if r.info.Funding? then was + v else was - v;
        if sum >= 0x8000_0000_0000_0000 then 0x7FFF_FFFF_FFFF_FFFF
        else if sum < -0x8000_0000_0000_0000 then -0x8000_0000_0000_0000
        else sum
  }

  /** It is an i64, and exact while what is moved fits one. */
  lemma {:induction false} RunningExact(rows: seq<Row>, n: nat, t: Txid)
    requires n <= |rows|
    ensures -0x8000_0000_0000_0000 <= Running(rows, n, t) <= 0x7FFF_FFFF_FFFF_FFFF
    ensures Gross(rows, n, t) <= 0x7FFF_FFFF_FFFF_FFFF ==> Running(rows, n, t) == Net(rows, n, t)
  {
    if n > 0 {
      RunningExact(rows, n - 1, t);
      NetBound(rows, n - 1, t);
      NetBound(rows, n, t);
    }
  }

  lemma {:induction false} NetBound(rows: seq<Row>, n: nat, t: Txid)
    requires n <= |rows|
    ensures -Gross(rows, n, t) <= Net(rows, n, t) <= Gross(rows, n, t)
  {
    if n > 0 {
      NetBound(rows, n - 1, t);
    }
  }

  /** Rows of other transactions do not count. */
  lemma {:induction false} RunningStays(rows: seq<Row>, n: nat, m: nat, t: Txid)
    requires n <= m <= |rows| && forall j :: n <= j < m ==> rows[j].info.txid != t
    ensures Running(rows, m, t) == Running(rows, n, t)
  {
    if n < m {
      RunningStays(rows, n, m - 1, t);
    }
  }

  // ----- totals as sums over sets

  ghost function Sum(rows: set<Row>, signed: bool): int {
    if rows == {} then 0
    else
      var r :| r in rows;
      Weight(r, signed) + Sum(rows - {r}, signed)
  }

  lemma {:induction false} SumRemove(rows: set<Row>, r: Row, signed: bool)
    requires r in rows
    ensures Sum(rows, signed) == Weight(r, signed) + Sum(rows - {r}, signed)
    decreases rows
  {
    hide Weight;
    var q :| q in rows && Sum(rows, signed) == Weight(q, signed) + Sum(rows - {q}, signed);
    if q != r {
      SumRemove(rows - {q}, r, signed);
      SumRemove(rows - {r}, q, signed);
      assert rows - {q} - {r} == rows - {r} - {q};
    }
  }

  function OfTxid(all: set<Row>, t: Txid): set<Row> {
    set r | r in all && r.info.txid == t
  }

  function RowsOf(rows: seq<Row>, t: Txid): set<Row> {
    set r | r in rows && r.info.txid == t
  }

  lemma {:induction false} TallyIsSum(rows: seq<Row>, n: nat, t: Txid, signed: bool)
    requires n <= |rows|
    ensures Tally(rows, n, t, signed) == Sum(RowsOf(rows[..n], t), signed)
  {
    hide Weight;
    if n > 0 {
      TallyIsSum(rows, n - 1, t, signed);
      var r, was, now := rows[n - 1], RowsOf(rows[..n - 1], t), RowsOf(rows[..n], t);
      assert rows[..n] == rows[..n - 1] + [r];
      if r.info.txid == t && r !in rows[..n - 1] {
        SumRemove(now, r, signed);
        assert now - {r} == was;
      } else {
        assert now == was;
      }
    }
  }

  // ----- the cursor

  /** The row comes after the last seen transaction. */
  ghost predicate Passes(rows: seq<Row>, lastSeen: Option<Txid>, j: nat)
    requires j < |rows|
  {
    lastSeen.Some? ==> rows[j].info.txid != lastSeen.value && Reached(rows, lastSeen.value, j)
  }

  ghost predicate Reached(rows: seq<Row>, t: Txid, j: nat)
    requires j <= |rows|
  {
    exists i :: 0 <= i < j && rows[i].info.txid == t
  }

  /** Transactions come one after the other: once another has followed, none comes back. */
  lemma {:induction false} Gone(rows: seq<Row>, i: nat, j: nat, k: nat)
    requires Ranked(rows) && Proper(rows) && i < j < k < |rows| && rows[i].info.txid != rows[j].info.txid
    ensures rows[k].info.txid != rows[i].info.txid
  {
    hide RowLess;
    RankedPlaces(rows, i, j);
    RankedPlaces(rows, j, k);
    assert rows[i] in rows && rows[j] in rows && rows[k] in rows;
  }

  /** What the answer must list. */
  ghost predicate Listed(rows: seq<Row>, n: nat, confirming: map<Txid, BlockId>, lastSeen: Option<Txid>, t: Txid)
    requires n <= |rows|
  {
    t in confirming && exists j :: 0 <= j < n && rows[j].info.txid == t && Passes(rows, lastSeen, j)
  }

  ghost predicate Right(rows: seq<Row>, n: nat, confirming: map<Txid, BlockId>, s: Summary)
    requires n <= |rows|
  {
    && s.txid in confirming && s.height == confirming[s.txid].height && s.time == confirming[s.txid].time
    && s.value == Running(rows, n, s.txid)
    && exists j :: 0 <= j < n && rows[j].info.txid == s.txid && rows[j].pos == s.pos
  }

  /** The table after `n` rows: every listed transaction, with its total so far. */
  ghost predicate Table(rows: seq<Row>, n: nat, confirming: map<Txid, BlockId>, lastSeen: Option<Txid>,
                        m: map<Txid, Summary>)
    requires n <= |rows|
  {
    && (forall t :: t in m <==> Listed(rows, n, confirming, lastSeen, t))
    && (forall t :: t in m ==> m[t].txid == t && Right(rows, n, confirming, m[t]))
  }

  lemma {:induction false} PassesOn(rows: seq<Row>, lastSeen: Option<Txid>, j: nat, i: nat)
    requires j <= i < |rows| && rows[j].info.txid == rows[i].info.txid && Passes(rows, lastSeen, j)
    ensures Passes(rows, lastSeen, i)
  {
  }

  lemma {:induction false} PassesBack(rows: seq<Row>, lastSeen: Option<Txid>, j: nat, i: nat)
    requires Ranked(rows) && Proper(rows)
    requires j <= i < |rows| && rows[j].info.txid == rows[i].info.txid && Passes(rows, lastSeen, i)
    ensures Passes(rows, lastSeen, j)
  {
    hide Ranked, Proper;
    if lastSeen.Some? {
      var k :| 0 <= k < i && rows[k].info.txid == lastSeen.value;
      if j < k {
        Gone(rows, j, k, i);
      }
    }
  }

  lemma {:induction false} ListedNext(rows: seq<Row>, i: nat, confirming: map<Txid, BlockId>, lastSeen: Option<Txid>,
                                      t: Txid)
    requires i < |rows|
    ensures Listed(rows, i + 1, confirming, lastSeen, t) <==>
              Listed(rows, i, confirming, lastSeen, t) || (t == rows[i].info.txid && t in confirming
                && Passes(rows, lastSeen, i))
  {
    hide Passes;
  }

  /** A row that is left out changes nothing. */
  lemma {:induction false} TableSkip(rows: seq<Row>, i: nat, confirming: map<Txid, BlockId>, lastSeen: Option<Txid>,
                                     m: map<Txid, Summary>)
    requires i < |rows| && Table(rows, i, confirming, lastSeen, m) && Ranked(rows) && Proper(rows)
    requires rows[i] in rows[..i] || !Passes(rows, lastSeen, i) || rows[i].info.txid !in confirming
    ensures Table(rows, i + 1, confirming, lastSeen, m)
  {
    hide Ranked, Proper, Passes, Listed, Right;
    forall t
      ensures t in m <==> Listed(rows, i + 1, confirming, lastSeen, t)
      ensures t in m ==> m[t].txid == t && Right(rows, i + 1, confirming, m[t])
    {
      ListedNext(rows, i, confirming, lastSeen, t);
      if t == rows[i].info.txid {
        SkippedTx(rows, i, confirming, lastSeen);
      }
      if t in m {
        RightSkip(rows, i, confirming, m[t]);
      }
    }
  }

  lemma {:induction false} SkippedTx(rows: seq<Row>, i: nat, confirming: map<Txid, BlockId>, lastSeen: Option<Txid>)
    requires i < |rows| && Ranked(rows) && Proper(rows)
    requires rows[i] in rows[..i] || !Passes(rows, lastSeen, i) || rows[i].info.txid !in confirming
    ensures var t := rows[i].info.txid;
            && (Passes(rows, lastSeen, i) && t in confirming ==> Listed(rows, i, confirming, lastSeen, t))
            && (rows[i] in rows[..i] || !Listed(rows, i, confirming, lastSeen, t))
  {
    hide Ranked, Proper, Passes;
    var t := rows[i].info.txid;
    if rows[i] in rows[..i] && Passes(rows, lastSeen, i) {
      var k :| 0 <= k < i && rows[k] == rows[i];
      PassesBack(rows, lastSeen, k, i);
    }
    if Listed(rows, i, confirming, lastSeen, t) {
      var j :| 0 <= j < i && rows[j].info.txid == t && Passes(rows, lastSeen, j);
      PassesOn(rows, lastSeen, j, i);
    }
  }

  lemma {:induction false} RightSkip(rows: seq<Row>, i: nat, confirming: map<Txid, BlockId>, s: Summary)
    requires i < |rows| && Right(rows, i, confirming, s) && (rows[i] in rows[..i] || s.txid != rows[i].info.txid)
    ensures Right(rows, i + 1, confirming, s)
  {
  }

  /** A row that counts is added to its transaction. */
  lemma {:induction false} TableAdd(rows: seq<Row>, i: nat, confirming: map<Txid, BlockId>, lastSeen: Option<Txid>,
                                    m: map<Txid, Summary>, s: Summary)
    requires i < |rows| && Table(rows, i, confirming, lastSeen, m) && Ranked(rows) && Proper(rows)
    requires rows[i] !in rows[..i] && Passes(rows, lastSeen, i) && rows[i].info.txid in confirming
    requires var t := rows[i].info.txid;
             s == if t in m then m[t].(value := Saturate(m[t].value + Change(rows[i])))
                  else Summary(t, Saturate(Change(rows[i])), confirming[t].height, confirming[t].time, rows[i].pos)
    ensures Table(rows, i + 1, confirming, lastSeen, m[rows[i].info.txid := s])
  {
    hide Ranked, Proper, Passes, Listed, Right;
    var t := rows[i].info.txid;
    Added(rows, i, confirming, lastSeen, m, s);
    forall u
      ensures u in m[t := s] <==> Listed(rows, i + 1, confirming, lastSeen, u)
      ensures u in m && u != t ==> Right(rows, i + 1, confirming, m[u])
    {
      ListedNext(rows, i, confirming, lastSeen, u);
      if u in m && u != t {
        RightSkip(rows, i, confirming, m[u]);
      }
    }
  }

  lemma {:induction false} NotYetListed(rows: seq<Row>, i: nat, confirming: map<Txid, BlockId>,
                                        lastSeen: Option<Txid>, j: nat)
    requires j < i < |rows| && Ranked(rows) && Proper(rows) && Passes(rows, lastSeen, i)
             && rows[i].info.txid in confirming
    requires !Listed(rows, i, confirming, lastSeen, rows[i].info.txid)
    ensures rows[j].info.txid != rows[i].info.txid
  {
    hide Ranked, Proper, Passes;
    if rows[j].info.txid == rows[i].info.txid {
      PassesBack(rows, lastSeen, j, i);
    }
  }

  lemma {:induction false} Added(rows: seq<Row>, i: nat, confirming: map<Txid, BlockId>, lastSeen: Option<Txid>,
                                 m: map<Txid, Summary>, s: Summary)
    requires i < |rows| && Table(rows, i, confirming, lastSeen, m) && Ranked(rows) && Proper(rows)
    requires rows[i] !in rows[..i] && Passes(rows, lastSeen, i) && rows[i].info.txid in confirming
    requires var t := rows[i].info.txid;
             s == if t in m then m[t].(value := Saturate(m[t].value + Change(rows[i])))
                  else Summary(t, Saturate(Change(rows[i])), confirming[t].height, confirming[t].time, rows[i].pos)
    ensures s.txid == rows[i].info.txid && Right(rows, i + 1, confirming, s)
  {
    hide Ranked, Proper, Passes;
    var t := rows[i].info.txid;
    if t !in m {
      forall j: nat | j < i
        ensures rows[j].info.txid != t
      {
        NotYetListed(rows, i, confirming, lastSeen, j);
      }
      RunningStays(rows, 0, i, t);
    }
  }

  // ----- the answer

  function RowSet(rows: seq<Row>): set<Row> {
    set r | r in rows
  }

  /** All rows of `t` lie below all rows of `u`. */
  ghost predicate Older(group: set<Row>, t: Txid, u: Txid) {
    forall a, b :: a in group && b in group && a.info.txid == t && b.info.txid == u ==> Lower(a, b)
  }

  /** The first `limit` transactions after the cursor, with complete totals. */
  ghost predicate Answer(rows: seq<Row>, confirming: map<Txid, BlockId>, lastSeen: Option<Txid>, limit: nat,
                         m: map<Txid, Summary>) {
    && |m| <= limit
    && (forall t :: t in m ==>
                      && Listed(rows, |rows|, confirming, lastSeen, t) && m[t].txid == t
                      && Right(rows, |rows|, confirming, m[t]))
    && (forall t :: Listed(rows, |rows|, confirming, lastSeen, t) && t !in m ==>
                      |m| == limit && forall u :: u in m ==> Older(RowSet(rows), t, u))
  }

  lemma {:induction false} Exhausted(rows: seq<Row>, confirming: map<Txid, BlockId>, lastSeen: Option<Txid>,
                                     limit: nat, m: map<Txid, Summary>)
    requires |m| <= limit && Table(rows, |rows|, confirming, lastSeen, m)
    ensures Answer(rows, confirming, lastSeen, limit, m)
  {
    hide Listed, Right;
  }

  /** When the table is full and another transaction comes, every total is complete and every
      transaction left out is older. */
  lemma {:induction false} Full(rows: seq<Row>, i: nat, confirming: map<Txid, BlockId>, lastSeen: Option<Txid>,
                                limit: nat, m: map<Txid, Summary>)
    requires i < |rows| && |m| == limit && Table(rows, i, confirming, lastSeen, m) && Ranked(rows) && Proper(rows)
    requires rows[i].info.txid !in m && rows[i] !in rows[..i] && Passes(rows, lastSeen, i)
             && rows[i].info.txid in confirming
    ensures Answer(rows, confirming, lastSeen, limit, m)
  {
    hide Ranked, Proper, Passes, Listed, Right, Older;
    forall u | u in m
      ensures Listed(rows, |rows|, confirming, lastSeen, u) && Right(rows, |rows|, confirming, m[u])
    {
      Complete(rows, i, confirming, lastSeen, m[u]);
    }
    forall t, u | Listed(rows, |rows|, confirming, lastSeen, t) && t !in m && u in m
      ensures Older(RowSet(rows), t, u)
    {
      LeftOut(rows, i, confirming, lastSeen, t, u);
    }
  }

  lemma {:induction false} Complete(rows: seq<Row>, i: nat, confirming: map<Txid, BlockId>, lastSeen: Option<Txid>,
                                    s: Summary)
    requires i < |rows| && Ranked(rows) && Proper(rows)
    requires Listed(rows, i, confirming, lastSeen, s.txid) && Right(rows, i, confirming, s)
             && rows[i].info.txid != s.txid
    ensures Listed(rows, |rows|, confirming, lastSeen, s.txid) && Right(rows, |rows|, confirming, s)
  {
    hide Ranked, Proper, Passes;
    var j :| 0 <= j < i && rows[j].info.txid == s.txid && Passes(rows, lastSeen, j);
    forall k | i <= k < |rows|
      ensures rows[k].info.txid != s.txid
    {
      if i < k {
        Gone(rows, j, i, k);
      }
    }
    RunningStays(rows, i, |rows|, s.txid);
  }

  lemma {:induction false} LeftOut(rows: seq<Row>, i: nat, confirming: map<Txid, BlockId>, lastSeen: Option<Txid>,
                                   t: Txid, u: Txid)
    requires i < |rows| && Ranked(rows) && Proper(rows)
    requires Listed(rows, |rows|, confirming, lastSeen, t) && !Listed(rows, i, confirming, lastSeen, t)
    requires Listed(rows, i, confirming, lastSeen, u)
    ensures Older(RowSet(rows), t, u)
  {
    hide Passes;
    var k :| 0 <= k < |rows| && rows[k].info.txid == t && Passes(rows, lastSeen, k);
    var j :| 0 <= j < i && rows[j].info.txid == u && Passes(rows, lastSeen, j);
    assert k >= i;
    RankedPlaces(rows, j, k);
    hide Ranked;
    forall a, b | a in RowSet(rows) && b in RowSet(rows) && a.info.txid == t && b.info.txid == u
      ensures Lower(a, b)
    {
      assert SamePlace(a, rows[k]) && SamePlace(b, rows[j]) && !SamePlace(rows[j], rows[k]);
    }
  }

  // ----- the cursor of the iterator chain

  /** Once a row has passed, the last seen transaction does not come back. */
  lemma {:induction false} StillPasses(rows: seq<Row>, lastSeen: Option<Txid>, k: nat, i: nat)
    requires Ranked(rows) && Proper(rows) && k < i < |rows| && Passes(rows, lastSeen, k)
    ensures Passes(rows, lastSeen, i)
  {
    hide Ranked, Proper;
    if lastSeen.Some? {
      var j :| 0 <= j < k && rows[j].info.txid == lastSeen.value;
      Gone(rows, j, k, i);
    }
  }

  lemma {:induction false} SeenIff(rows: seq<Row>, i: nat)
    requires i < |rows| && Proper(rows)
    ensures Slot(rows[i]) in (set k | 0 <= k < i :: Slot(rows[k])) <==> rows[i] in rows[..i]
  {
    hide Slot, SamePlace;
    if Slot(rows[i]) in (set k | 0 <= k < i :: Slot(rows[k])) {
      var k :| 0 <= k < i && Slot(rows[k]) == Slot(rows[i]);
      assert rows[k] in rows && rows[i] in rows;
      assert rows[..i][k] == rows[i];
    }
    if rows[i] in rows[..i] {
      var k :| 0 <= k < i && rows[..i][k] == rows[i];
    }
  }

  /** The rows that are left after repeated ones, those up to the last seen transaction and its
      own are dropped. */
  ghost predicate Kept(rows: seq<Row>, lastSeen: Option<Txid>, i: nat)
    requires i < |rows|
  {
    rows[i] !in rows[..i] && Passes(rows, lastSeen, i)
  }

  method AfterCursor(rows: seq<Row>, lastSeen: Option<Txid>) returns (keep: seq<bool>)
    requires Ranked(rows) && Proper(rows)
    ensures |keep| == |rows| && forall i :: 0 <= i < |rows| ==> (keep[i] <==> Kept(rows, lastSeen, i))
  {
    hide Ranked, Proper, Slot, Passes, Reached;
    keep := [];
    var seen: set<(Txid, nat, bool)> := {};
    var reached, left := lastSeen.None?, false;
    NotReached(rows);
    for i := 0 to |rows|
      invariant |keep| == i && forall k :: 0 <= k < i ==> (keep[k] <==> Kept(rows, lastSeen, k))
      invariant seen == set k | 0 <= k < i :: Slot(rows[k])
      invariant reached <==> lastSeen.None? || Reached(rows, lastSeen.value, i)
      invariant left <==> exists k :: 0 <= k < i && Passes(rows, lastSeen, k)
    {
      var t := rows[i].info.txid;
      SeenIff(rows, i);
      CursorStep(rows, i, lastSeen);
      if Slot(rows[i]) in seen {
        RepeatedRow(rows, i, lastSeen);
        keep := keep + [false];
        continue;
      }
      seen := seen + {Slot(rows[i])};
      reached := reached || lastSeen == Some(t);
      if !reached || (!left && lastSeen == Some(t)) {
        keep := keep + [false];
        continue;
      }
      left := true;
      keep := keep + [true];
    }
  }

  lemma {:induction false} NotReached(rows: seq<Row>)
    ensures forall t :: !Reached(rows, t, 0)
  {
  }

  /** How the two skips treat a row. */
  lemma {:induction false} CursorStep(rows: seq<Row>, i: nat, lastSeen: Option<Txid>)
    requires i < |rows| && Ranked(rows) && Proper(rows)
    ensures lastSeen.Some? ==> (Reached(rows, lastSeen.value, i + 1) <==>
              Reached(rows, lastSeen.value, i) || lastSeen == Some(rows[i].info.txid))
    ensures Passes(rows, lastSeen, i) <==>
              lastSeen != Some(rows[i].info.txid) && (lastSeen.None? || Reached(rows, lastSeen.value, i))
    ensures (exists k :: 0 <= k < i && Passes(rows, lastSeen, k)) ==> Passes(rows, lastSeen, i)
  {
    hide Ranked, Proper;
    if k :| 0 <= k < i && Passes(rows, lastSeen, k) {
      StillPasses(rows, lastSeen, k, i);
    }
  }

  /** Adds up the rows by transaction until one more transaction would exceed the limit. */
  method Collate(rows: seq<Row>, confirming: map<Txid, BlockId>, lastSeen: Option<Txid>,
                 limit: nat) returns (m: map<Txid, Summary>)
    requires Ranked(rows) && Proper(rows)
    ensures Answer(rows, confirming, lastSeen, limit, m)
  {
    hide Ranked, Proper, Table, Answer, Change, Saturate, Passes;
    m := map[];
    EmptyTable(rows, confirming, lastSeen);
    var keep := AfterCursor(rows, lastSeen);
    for i := 0 to |rows|
      invariant Table(rows, i, confirming, lastSeen, m) && |m| <= limit
    {
      var r := rows[i];
      var t := r.info.txid;
      if !keep[i] || t !in confirming {
        TableSkip(rows, i, confirming, lastSeen, m);
        continue;
      }
      if t !in m && |m| >= limit {
        Full(rows, i, confirming, lastSeen, limit, m);
        return;
      }
      var v := Change(r);
      var s := if t in m then m[t].(value := Saturate(m[t].value + v))
               else Summary(t, Saturate(v), confirming[t].height, confirming[t].time, r.pos);
      TableAdd(rows, i, confirming, lastSeen, m, s);
      m := m[t := s];
    }
    Exhausted(rows, confirming, lastSeen, limit, m);
  }

  /** The signed amount of a row, converted to i64. */
  function Change(r: Row): int {
    if r.info.Funding? then ToI64(r.info.value) else -ToI64(r.info.value)
  }

  lemma {:induction false} EmptyTable(rows: seq<Row>, confirming: map<Txid, BlockId>, lastSeen: Option<Txid>)
    ensures Table(rows, 0, confirming, lastSeen, map[])
  {
  }

  lemma {:induction false} RepeatedRow(rows: seq<Row>, i: nat, lastSeen: Option<Txid>)
    requires i < |rows| && rows[i] in rows[..i] && Ranked(rows) && Proper(rows)
    ensures Passes(rows, lastSeen, i) ==> exists k :: 0 <= k < i && Passes(rows, lastSeen, k)
    ensures lastSeen.Some? && Reached(rows, lastSeen.value, i + 1) ==> Reached(rows, lastSeen.value, i)
  {
    var k :| 0 <= k < i && rows[..i][k] == rows[i];
    assert rows[k] == rows[i];
    if Passes(rows, lastSeen, i) {
      PassesBack(rows, lastSeen, k, i);
    }
  }

  // ----- the order of the answer

  /** Newest block first, then the later position, then the smaller value. */
  predicate Precedes(a: Summary, b: Summary) {
    if a.height != b.height then a.height > b.height
    else if a.pos != b.pos then a.pos > b.pos
    else a.value < b.value
  }

  ghost predicate InOrder(out: seq<Summary>) {
    forall i, j :: 0 <= i < j < |out| ==> !Precedes(out[j], out[i])
  }

  method First(m: map<Txid, Summary>, among: set<Txid>) returns (t: Txid)
    requires among != {} && among <= m.Keys
    ensures t in among && forall u :: u in among ==> !Precedes(m[u], m[t])
  {
    t :| t in among;
    var rest := among - {t};
    while rest != {}
      invariant rest <= among && t in among && forall u :: u in among ==> u in rest || !Precedes(m[u], m[t])
      decreases rest
    {
      var u :| u in rest;
      if Precedes(m[u], m[t]) {
        t := u;
      }
      rest := rest - {u};
    }
  }

  /** The values of the table in order, each once. */
  method SortSummaries(m: map<Txid, Summary>) returns (out: seq<Summary>)
    requires forall t :: t in m ==> m[t].txid == t
    ensures InOrder(out) && |out| == |m|
    ensures forall s :: s in out <==> s.txid in m && m[s.txid] == s
    ensures forall i, j :: 0 <= i < j < |out| ==> out[i].txid != out[j].txid
  {
    hide Precedes;
    out := [];
    var rest := m.Keys;
    while rest != {}
      invariant rest <= m.Keys && |out| + |rest| == |m|
      invariant forall s :: s in out <==> s.txid in m && s.txid !in rest && m[s.txid] == s
      invariant InOrder(out)
      invariant forall i, t :: 0 <= i < |out| && t in rest ==> !Precedes(m[t], out[i])
      invariant forall i, j :: 0 <= i < j < |out| ==> out[i].txid != out[j].txid
      decreases rest
    {
      var t := First(m, rest);
      out := out + [m[t]];
      rest := rest - {t};
    }
  }

  // ----- the answer in terms of the rows as a set

  /** The row lies after the last seen transaction, that is, below its place. */
  ghost predicate BelowCursor(group: set<Row>, lastSeen: Option<Txid>, r: Row) {
    lastSeen.Some? ==> exists q :: q in group && q.info.txid == lastSeen.value && Lower(r, q)
  }

  /** A confirmed transaction of the group after the cursor. */
  ghost predicate Due(group: set<Row>, confirming: map<Txid, BlockId>, lastSeen: Option<Txid>, t: Txid) {
    t in confirming && exists r :: r in group && r.info.txid == t && BelowCursor(group, lastSeen, r)
  }

  /** The value is what i64 arithmetic makes of the transaction's rows, newest first. */
  ghost predicate AddedUp(group: set<Row>, x: Summary) {
    exists rows :: Ranked(rows) && RowSet(rows) == group && x.value == Running(rows, |rows|, x.txid)
  }

  /** What a summary says of its transaction: where it is confirmed, and what all its rows in the
      group fund less what they spend, exactly so whenever these amounts together fit an i64. */
  ghost predicate Tells(group: set<Row>, confirming: map<Txid, BlockId>, x: Summary) {
    && x.txid in confirming && x.height == confirming[x.txid].height && x.time == confirming[x.txid].time
    && -0x8000_0000_0000_0000 <= x.value <= 0x7FFF_FFFF_FFFF_FFFF && AddedUp(group, x)
    && (Sum(OfTxid(group, x.txid), false) <= 0x7FFF_FFFF_FFFF_FFFF ==> x.value == Sum(OfTxid(group, x.txid), true))
    && exists r :: r in group && r.info.txid == x.txid && r.pos == x.pos
  }

  ghost predicate Has(out: seq<Summary>, t: Txid) {
    exists i :: 0 <= i < |out| && out[i].txid == t
  }

  /** The first `limit` transactions after the cursor, each once and with its complete total; what
      is left out is older than everything listed. */
  ghost predicate Summarises(group: set<Row>, confirming: map<Txid, BlockId>, lastSeen: Option<Txid>, limit: nat,
                             out: seq<Summary>) {
    && |out| <= limit && InOrder(out) && (forall i, j :: 0 <= i < j < |out| ==> out[i].txid != out[j].txid)
    && (forall x :: x in out ==> Due(group, confirming, lastSeen, x.txid) && Tells(group, confirming, x))
    && (forall t :: Due(group, confirming, lastSeen, t) && !Has(out, t) ==>
          |out| == limit && forall x :: x in out ==> Older(group, t, x.txid))
  }

  /** Following a row of the last seen transaction is lying below it. */
  lemma {:induction false} PassesIsBelow(rows: seq<Row>, lastSeen: Option<Txid>, j: nat)
    requires Ranked(rows) && Proper(rows) && j < |rows|
    ensures Passes(rows, lastSeen, j) <==> BelowCursor(RowSet(rows), lastSeen, rows[j])
  {
    hide Ranked, Proper;
    if lastSeen.Some? {
      if Passes(rows, lastSeen, j) {
        var i :| 0 <= i < j && rows[i].info.txid == lastSeen.value;
        RankedPlaces(rows, i, j);
        ProperPair(rows, i, j);
        assert rows[i] in RowSet(rows) && Lower(rows[j], rows[i]);
      }
      if BelowCursor(RowSet(rows), lastSeen, rows[j]) {
        var q :| q in RowSet(rows) && q.info.txid == lastSeen.value && Lower(rows[j], q);
        var i :| 0 <= i < |rows| && rows[i] == q;
        ProperPair(rows, i, j);
        if j <= i {
          RankedPlaces(rows, j, i);
        }
      }
    }
  }

  lemma {:induction false} ProperPair(rows: seq<Row>, i: nat, j: nat)
    requires Proper(rows) && i < |rows| && j < |rows|
    ensures rows[i].info.txid == rows[j].info.txid <==> SamePlace(rows[i], rows[j])
  {
    assert rows[i] in rows && rows[j] in rows;
  }

  lemma {:induction false} ListedIsDue(rows: seq<Row>, confirming: map<Txid, BlockId>, lastSeen: Option<Txid>, t: Txid)
    requires Ranked(rows) && Proper(rows)
    ensures Listed(rows, |rows|, confirming, lastSeen, t) <==> Due(RowSet(rows), confirming, lastSeen, t)
  {
    hide Ranked, Proper, Passes, BelowCursor;
    if Listed(rows, |rows|, confirming, lastSeen, t) {
      var j :| 0 <= j < |rows| && rows[j].info.txid == t && Passes(rows, lastSeen, j);
      PassesIsBelow(rows, lastSeen, j);
      assert rows[j] in RowSet(rows);
    }
    if Due(RowSet(rows), confirming, lastSeen, t) {
      var r :| r in RowSet(rows) && r.info.txid == t && BelowCursor(RowSet(rows), lastSeen, r);
      var j :| 0 <= j < |rows| && rows[j] == r;
      PassesIsBelow(rows, lastSeen, j);
    }
  }

  lemma {:induction false} RightIsTold(rows: seq<Row>, confirming: map<Txid, BlockId>, x: Summary)
    requires Ranked(rows) && Right(rows, |rows|, confirming, x)
    ensures Tells(RowSet(rows), confirming, x)
  {
    hide Ranked, Sum, Tally;
    TallyIsSum(rows, |rows|, x.txid, true);
    TallyIsSum(rows, |rows|, x.txid, false);
    RunningExact(rows, |rows|, x.txid);
    assert rows[..|rows|] == rows;
    assert RowsOf(rows, x.txid) == OfTxid(RowSet(rows), x.txid);
    var j :| 0 <= j < |rows| && rows[j].info.txid == x.txid && rows[j].pos == x.pos;
    assert rows[j] in RowSet(rows);
  }

  lemma {:induction false} AnswerSummarises(rows: seq<Row>, confirming: map<Txid, BlockId>, lastSeen: Option<Txid>,
                                            limit: nat, m: map<Txid, Summary>, out: seq<Summary>)
    requires Ranked(rows) && Proper(rows) && Answer(rows, confirming, lastSeen, limit, m)
    requires InOrder(out) && |out| == |m| && (forall x :: x in out <==> x.txid in m && m[x.txid] == x)
    requires forall i, j :: 0 <= i < j < |out| ==> out[i].txid != out[j].txid
    ensures Summarises(RowSet(rows), confirming, lastSeen, limit, out)
  {
    hide Ranked, Proper, Listed, Right, InOrder, Due, Tells, Older;
    forall x | x in out
      ensures Due(RowSet(rows), confirming, lastSeen, x.txid) && Tells(RowSet(rows), confirming, x)
    {
      ListedIsDue(rows, confirming, lastSeen, x.txid);
      RightIsTold(rows, confirming, x);
    }
    forall t | Due(RowSet(rows), confirming, lastSeen, t) && !Has(out, t)
      ensures |out| == limit && forall x :: x in out ==> Older(RowSet(rows), t, x.txid)
    {
      ListedIsDue(rows, confirming, lastSeen, t);
      if t in m {
        InHas(m, out, t);
      }
    }
  }

  lemma {:induction false} InHas(m: map<Txid, Summary>, out: seq<Summary>, t: Txid)
    requires (forall x :: x in out <==> x.txid in m && m[x.txid] == x) && t in m && m[t].txid == t
    ensures Has(out, t)
  {
    assert m[t] in out;
    var i :| 0 <= i < |out| && out[i] == m[t];
  }

  /** `collate_summaries`. */
  method CollateSummaries(rows: seq<Row>, confirming: map<Txid, BlockId>, lastSeen: Option<Txid>,
                          limit: nat) returns (out: seq<Summary>)
    requires Ranked(rows) && Proper(rows)
    ensures Summarises(RowSet(rows), confirming, lastSeen, limit, out)
  {
    hide Ranked, Proper, InOrder, Listed, Right, Older, Summarises;
    var m := Collate(rows, confirming, lastSeen, limit);
    out := SortSummaries(m);
    AnswerSummarises(rows, confirming, lastSeen, limit, m, out);
  }

  // ----- on the history of a chain

  /** Where a history row comes from. */
  ghost predicate Source(c: seq<Block>, unspendables: bool, r: Row, h: nat, i: nat, k: nat) {
    && h < |c| && i < |c[h].txs| && r.height == h && r.pos == i % 0x1_0000
    && r.info.txid == c[h].txs[i].txid && r.info.Index() == k
    && var p, outs := Placed(IdOf(c[h], h), i, c[h].txs[i]), Outs(Flatten(c[..h + 1]));
       if r.info.Spending? then k < |p.tx.inputs| && p.tx.inputs[k] in outs && r == SpendRow(p, k, outs[p.tx.inputs[k]])
       else k < |p.tx.outputs| && r == FundRow(p, k)
  }

  lemma {:induction false} TxRowSource(p: Placed, outs: map<OutPoint, TxOut>, unspendables: bool, r: Row)
    requires H(r) in TxHist(p, outs, unspendables)
    ensures var k := r.info.Index();
            && r.height == p.at.height && r.pos == p.pos % 0x1_0000 && r.info.txid == p.tx.txid
            && if r.info.Spending? then k < |p.tx.inputs| && p.tx.inputs[k] in outs
              && r == SpendRow(p, k, outs[p.tx.inputs[k]])
               else k < |p.tx.outputs| && r == FundRow(p, k)
  {
  }

  lemma {:induction false} RowSource(c: seq<Block>, unspendables: bool, r: Row) returns (h: nat, i: nat, k: nat)
    requires H(r) in HistDb(c, unspendables)
    ensures Source(c, unspendables, r, h, i, k)
  {
    hide Outs, Flatten, TxHist, SpendRow, FundRow;
    h :| 0 <= h < |c| && H(r) in HistAt(c, h, unspendables);
    var outs := Outs(Flatten(c[..h + 1]));
    i :| 0 <= i < |c[h].txs| && H(r) in TxHist(Placed(IdOf(c[h], h), i, c[h].txs[i]), outs, unspendables);
    k := r.info.Index();
    TxRowSource(Placed(IdOf(c[h], h), i, c[h].txs[i]), outs, unspendables, r);
  }

  lemma {:induction false} SourcesProper(c: seq<Block>, unspendables: bool, a: Row, b: Row)
    requires ValidChain(c) && H(a) in HistDb(c, unspendables) && H(b) in HistDb(c, unspendables)
    ensures a.info.txid == b.info.txid <==> SamePlace(a, b)
    ensures Slot(a) == Slot(b) ==> a == b
  {
    hide HistDb, Outs, Flatten, ValidTxs;
    var h, i, k := RowSource(c, unspendables, a);
    var g, j, l := RowSource(c, unspendables, b);
    assert i < 0xFFFF && j < 0xFFFF;
    if a.info.txid == b.info.txid {
      OnePlace(c, h, i, g, j);
    }
  }

  /** Rows of one chain's history are proper. */
  lemma {:induction false} ChainProper(c: seq<Block>, unspendables: bool, rows: seq<Row>)
    requires ValidChain(c) && forall r :: r in rows ==> H(r) in HistDb(c, unspendables)
    ensures Proper(rows)
  {
    hide ValidChain, HistDb, SamePlace, Slot;
    forall a, b | a in rows && b in rows
      ensures a.info.txid == b.info.txid <==> SamePlace(a, b)
      ensures Slot(a) == Slot(b) ==> a == b
    {
      SourcesProper(c, unspendables, a, b);
    }
  }

  /** Which block of the chain confirms a transaction. */
  ghost predicate ConfirmingOf(c: seq<Block>, confirming: map<Txid, BlockId>) {
    && (forall t :: t in confirming ==> exists h, i :: 0 <= h < |c| && 0 <= i < |c[h].txs| && c[h].txs[i].txid == t)
    && (forall h, i :: 0 <= h < |c| && 0 <= i < |c[h].txs| ==>
          c[h].txs[i].txid in confirming && confirming[c[h].txs[i].txid] == IdOf(c[h], h))
  }

  /** The summary names the block and the position of its transaction. */
  ghost predicate Stands(c: seq<Block>, x: Summary) {
    && x.height < |c| && x.pos < |c[x.height].txs| && c[x.height].txs[x.pos].txid == x.txid
    && x.time == c[x.height].header.time
  }

  lemma {:induction false} SummaryStands(c: seq<Block>, unspendables: bool, confirming: map<Txid, BlockId>,
                                         group: set<Row>, x: Summary)
    requires ValidChain(c) && ConfirmingOf(c, confirming) && Tells(group, confirming, x)
    requires forall r :: r in group ==> H(r) in HistDb(c, unspendables)
    ensures Stands(c, x)
  {
    hide HistDb, AddedUp, Sum, OfTxid, ValidTxs, Flatten, Outs;
    var r :| r in group && r.info.txid == x.txid && r.pos == x.pos;
    var h, i, k := RowSource(c, unspendables, r);
    assert i < 0x1_0000;
  }

  lemma {:induction false} GroupStands(c: seq<Block>, unspendables: bool, confirming: map<Txid, BlockId>,
                                       all: set<Row>, scripts: seq<Script>, start: Option<nat>,
                                       lastSeen: Option<Txid>, limit: nat, out: seq<Summary>)
    requires ValidChain(c) && ConfirmingOf(c, confirming)
    requires forall r :: r in all ==> H(r) in HistDb(c, unspendables)
    requires Summarises(Group(all, scripts, start), confirming, lastSeen, limit, out)
    ensures forall x :: x in out ==> Stands(c, x)
    ensures forall r :: r in all ==> r.info.txid in confirming
  {
    hide HistDb, ValidChain, Tells, Due, Older, InOrder, Stands, ConfirmingOf, InRange;
    forall x | x in out
      ensures Stands(c, x)
    {
      SummaryStands(c, unspendables, confirming, Group(all, scripts, start), x);
    }
    forall r | r in all
      ensures r.info.txid in confirming
    {
      RowIsConfirmed(c, unspendables, confirming, r);
    }
  }

  lemma {:induction false} RowIsConfirmed(c: seq<Block>, unspendables: bool, confirming: map<Txid, BlockId>, r: Row)
    requires ValidChain(c) && ConfirmingOf(c, confirming) && H(r) in HistDb(c, unspendables)
    ensures r.info.txid in confirming
  {
    hide HistDb, ValidTxs, Flatten, Outs;
    var h, i, k := RowSource(c, unspendables, r);
  }

  /** The rows of the listed scripts in range. */
  function Group(all: set<Row>, scripts: seq<Script>, start: Option<nat>): set<Row> {
    set r | r in all && r.script in scripts && InRange(r, start)
  }

  /** The summary of a group of scripts, from the database of a chain: the first `limit`
      transactions after the cursor, whatever scripts are listed twice. With the chain's own
      confirming blocks every row counts, and each summary names the place of its transaction. */
  method SummaryGroup(keys: seq<Bytes>, ghost c: seq<Block>, ghost unspendables: bool, ghost all: set<Row>,
                      confirming: map<Txid, BlockId>, scripts: seq<Script>, lastSeen: Option<Txid>,
                      start: Option<nat>, limit: nat)
    returns (out: seq<Summary>)
    requires ValidChain(c) && Holds(keys, all) && (forall r :: r in all <==> H(r) in HistDb(c, unspendables))
    requires (forall s :: s in scripts ==> s < Pow256(32)) && (start.Some? ==> start.value <= U32_MAX)
    ensures Summarises(Group(all, scripts, start), confirming, lastSeen, limit, out)
    ensures ConfirmingOf(c, confirming) ==>
              && (forall x :: x in out ==> Stands(c, x))
              && (forall r :: r in all ==> r.info.txid in confirming)
  {
    hide *;
    var rows := ScanGroup(keys, all, scripts, start);
    RankedIs(rows);
    ChainProper(c, unspendables, rows);
    out := CollateSummaries(rows, confirming, lastSeen, limit);
    IsGroup(all, scripts, start, rows);
    if ConfirmingOf(c, confirming) {
      GroupStands(c, unspendables, confirming, all, scripts, start, lastSeen, limit, out);
    }
  }

  lemma {:induction false} IsGroup(all: set<Row>, scripts: seq<Script>, start: Option<nat>, rows: seq<Row>)
    requires forall r :: r in rows <==> r in all && r.script in scripts && InRange(r, start)
    ensures RowSet(rows) == Group(all, scripts, start)
  {
    hide InRange;
  }

  lemma {:induction false} RankedIs(rows: seq<Row>)
    requires forall i, j :: 0 <= i < j < |rows| ==> !RowLess(Plain(rows[i]), Plain(rows[j]))
    ensures Ranked(rows)
  {
  }
}
