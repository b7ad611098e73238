/** The reverse merge of several scans by the part of the key after the script. */
module Merge {
  import opened Chain
  import opened History
  import opened Codec
  import opened Scan

  function Suffix(k: Bytes, offset: nat): Bytes {
    if offset <= |k| then k[offset..] else []
  }

  /** `a` is nowhere after `b` in the merged order. */
  predicate AtLeast(a: Bytes, b: Bytes, offset: nat) {
    !Less(Suffix(a, offset), Suffix(b, offset))
  }

  lemma {:induction false} AtLeastTrans(a: Bytes, b: Bytes, c: Bytes, offset: nat)
    requires AtLeast(a, b, offset) && AtLeast(b, c, offset)
    ensures AtLeast(a, c, offset)
  {
    var x, y, z := Suffix(a, offset), Suffix(b, offset), Suffix(c, offset);
    LessTotal(x, y);
    LessTotal(y, z);
    LessTotal(x, z);
    if Less(x, z) && Less(z, y) {
      LessTrans(x, z, y);
    }
  }

  /** Non-increasing in the merged order. */
  ghost predicate Falling(ks: seq<Bytes>, offset: nat) {
    forall i, j :: 0 <= i < j < |ks| ==> AtLeast(ks[i], ks[j], offset)
  }

  // ----- the pending keys as values

  function Total(ps: seq<seq<Bytes>>): multiset<Bytes> {
    if ps == [] then multiset{} else multiset(ps[0]) + Total(ps[1..])
  }

  lemma {:induction false} TotalTake(ps: seq<seq<Bytes>>, b: nat)
    requires b < |ps| && ps[b] != []
    ensures Total(ps) == multiset{ps[b][0]} + Total(ps[b := ps[b][1..]])
  {
    var qs := ps[b := ps[b][1..]];
    assert ps[b] == [ps[b][0]] + ps[b][1..];
    if b == 0 {
      assert qs[1..] == ps[1..];
    } else {
      TotalTake(ps[1..], b - 1);
      assert qs[1..] == ps[1..][b - 1 := ps[b][1..]];
    }
  }

  lemma {:induction false} TotalEmpty(ps: seq<seq<Bytes>>)
    requires forall i :: 0 <= i < |ps| ==> ps[i] == []
    ensures Total(ps) == multiset{}
  {
    if ps != [] {
      TotalEmpty(ps[1..]);
    }
  }

  lemma {:induction false} TotalHas(ps: seq<seq<Bytes>>, k: Bytes)
    requires k in Total(ps)
    ensures exists i :: 0 <= i < |ps| && k in ps[i]
  {
    if k !in ps[0] {
      TotalHas(ps[1..], k);
      var i :| 0 <= i < |ps[1..]| && k in ps[1..][i];
      assert ps[i + 1] == ps[1..][i];
    }
  }

  /** Everything pending is nowhere before `k`. */
  ghost predicate Bounded(ps: seq<seq<Bytes>>, k: Bytes, offset: nat) {
    forall i, x :: 0 <= i < |ps| && x in ps[i] ==> AtLeast(k, x, offset)
  }

  /** The head that the merge takes, and what is left. */
  ghost predicate Takes(ps: seq<seq<Bytes>>, b: nat, offset: nat) {
    && b < |ps| && ps[b] != []
    && (forall i :: 0 <= i < |ps| && ps[i] != [] ==> AtLeast(ps[b][0], ps[i][0], offset))
  }

  lemma {:induction false} TakesBound(ps: seq<seq<Bytes>>, b: nat, offset: nat)
    requires Takes(ps, b, offset) && forall i :: 0 <= i < |ps| ==> Falling(ps[i], offset)
    ensures Bounded(ps, ps[b][0], offset)
    ensures var qs := ps[b := ps[b][1..]];
            Bounded(qs, ps[b][0], offset) && forall i :: 0 <= i < |qs| ==> Falling(qs[i], offset)
  {
    hide AtLeast;
    forall i, x | 0 <= i < |ps| && x in ps[i]
      ensures AtLeast(ps[b][0], x, offset)
    {
      var n :| 0 <= n < |ps[i]| && ps[i][n] == x;
      if n > 0 {
        assert AtLeast(ps[i][0], ps[i][n], offset);
        AtLeastTrans(ps[b][0], ps[i][0], x, offset);
      }
    }
    var qs := ps[b := ps[b][1..]];
    forall i, x | 0 <= i < |qs| && x in qs[i]
      ensures x in ps[i]
    {
    }
  }

  /** The row with the greatest suffix; of equals the last. */
  method BestIndex(rows: seq<Option<Bytes>>, offset: nat) returns (b: nat)
    requires exists i :: 0 <= i < |rows| && rows[i].Some?
    ensures b < |rows| && rows[b].Some?
    ensures forall i :: 0 <= i < |rows| && rows[i].Some? ==> AtLeast(rows[b].value, rows[i].value, offset)
    ensures forall i :: b < i < |rows| && rows[i].Some? ==> !AtLeast(rows[i].value, rows[b].value, offset)
  {
    hide AtLeast;
    Same(offset);
    b := 0;
    for i := 1 to |rows|
      invariant b < i && ((exists j :: 0 <= j < i && rows[j].Some?) ==> rows[b].Some?)
      invariant forall j :: 0 <= j < i && rows[j].Some? ==>
                              rows[b].Some? && AtLeast(rows[b].value, rows[j].value, offset)
      invariant rows[b].Some? ==>
                  forall j :: b < j < i && rows[j].Some? ==> !AtLeast(rows[j].value, rows[b].value, offset)
    {
      if rows[i].None? {
        b := if rows[b].None? then i else b;
      } else if rows[b].None? || AtLeast(rows[i].value, rows[b].value, offset) {
        if rows[b].Some? {
          forall j | 0 <= j < i && rows[j].Some?
            ensures AtLeast(rows[i].value, rows[j].value, offset)
          {
            AtLeastTrans(rows[i].value, rows[b].value, rows[j].value, offset);
          }
        }
        b := i;
      } else {
        Either(rows[b].value, rows[i].value, offset);
      }
    }
  }

  lemma {:induction false} Either(a: Bytes, b: Bytes, offset: nat)
    ensures AtLeast(a, b, offset) || AtLeast(b, a, offset)
  {
    LessTotal(Suffix(a, offset), Suffix(b, offset));
  }

  lemma {:induction false} Same(offset: nat)
    ensures forall a :: AtLeast(a, a, offset)
  {
    forall a: Bytes
      ensures AtLeast(a, a, offset)
    {
      Either(a, a, offset);
    }
  }

  // ----- the iterator

  /** What a scan has still to give, the row in hand first. */
  function Hand(row: Option<Bytes>, left: seq<Bytes>): seq<Bytes> {
    if row.Some? then [row.value] + left else []
  }

  ghost predicate InHand(it: ReverseScanIterator, row: Option<Bytes>, pending: seq<Bytes>)
    reads it
  {
    it.Valid() && (row.None? ==> it.Left() == []) && pending == Hand(row, it.Left())
  }

  class GroupIterator {
    const iters: seq<ReverseScanIterator>
    var nextRows: seq<Option<Bytes>>
    const offset: nat
    var done: bool
    ghost var pending: seq<seq<Bytes>>

    ghost predicate Valid()
      reads this, iters
    {
      && |nextRows| == |iters| == |pending| && (forall i, j :: 0 <= i < j < |iters| ==> iters[i] != iters[j])
      && (forall i :: 0 <= i < |iters| ==> InHand(iters[i], nextRows[i], pending[i]))
      && (done <==> forall i :: 0 <= i < |nextRows| ==> nextRows[i].None?)
    }

    /** Takes the first row of every scan in hand. */
    constructor (iters: seq<ReverseScanIterator>, offset: nat)
      requires forall i, j :: 0 <= i < j < |iters| ==> iters[i] != iters[j]
      requires forall i :: 0 <= i < |iters| ==> iters[i].Valid()
      modifies iters
      ensures Valid() && this.iters == iters && this.offset == offset
      ensures forall i :: 0 <= i < |iters| ==> pending[i] == old(iters[i].Left())
    {
      hide ReverseScanIterator.Left, InHand;
      this.iters, this.offset, nextRows, done := iters, offset, [], false;
      pending := seq(|iters|, i requires 0 <= i < |iters| && iters[i].Valid() reads iters => iters[i].Left());
      new;
      nextRows := FirstRows(iters);
      done := forall i :: 0 <= i < |nextRows| ==> nextRows[i].None?;
    }

    /** Returns the greatest pending row, and takes the next one of its scan in hand. */
    method Next() returns (r: Option<Bytes>, ghost b: nat)
      requires Valid()
      modifies this, iters
      ensures Valid()
      ensures r.None? <==> forall i :: 0 <= i < |iters| ==> old(pending)[i] == []
      ensures r.None? ==> pending == old(pending)
      ensures r.Some? ==> Takes(old(pending), b, offset) && r.value == old(pending)[b][0]
                          && pending == old(pending)[b := old(pending)[b][1..]]
    {
      hide AtLeast, ReverseScanIterator.Left, InHand, Hand;
      b := 0;
      ghost var was := pending;
      forall i | 0 <= i < |iters|
        ensures nextRows[i].Some? <==> was[i] != []
        ensures nextRows[i].Some? ==> nextRows[i].value == was[i][0]
      {
        HandIs(iters[i], nextRows[i], was[i]);
      }
      if done {
        return None, 0;
      }
      var best := BestIndex(nextRows, offset);
      b := best;
      r := nextRows[best];
      var next := AdvanceOne(iters, nextRows, was, best);
      nextRows := nextRows[best := next];
      pending := was[best := was[best][1..]];
      if forall i :: 0 <= i < |nextRows| ==> nextRows[i].None? {
        done := true;
      }
    }
  }

  lemma {:induction false} HandIs(it: ReverseScanIterator, row: Option<Bytes>, pending: seq<Bytes>)
    requires InHand(it, row, pending)
    ensures row.Some? <==> pending != []
    ensures row.Some? ==> row.value == pending[0]
  {
  }

  method AdvanceOne(iters: seq<ReverseScanIterator>, rows: seq<Option<Bytes>>, ghost pending: seq<seq<Bytes>>, b: nat)
    returns (r: Option<Bytes>)
    requires forall i, j :: 0 <= i < j < |iters| ==> iters[i] != iters[j]
    requires |rows| == |iters| == |pending| && b < |iters| && rows[b].Some? && pending[b] != []
    requires forall i :: 0 <= i < |iters| ==> InHand(iters[i], rows[i], pending[i])
    modifies iters[b]
    ensures InHand(iters[b], r, pending[b][1..])
    ensures forall i :: 0 <= i < |iters| && i != b ==> InHand(iters[i], rows[i], pending[i])
  {
    hide ReverseScanIterator.Left;
    r := iters[b].Next();
  }

  method FirstRows(iters: seq<ReverseScanIterator>) returns (rows: seq<Option<Bytes>>)
    requires forall i, j :: 0 <= i < j < |iters| ==> iters[i] != iters[j]
    requires forall i :: 0 <= i < |iters| ==> iters[i].Valid()
    modifies iters
    ensures |rows| == |iters| && forall i :: 0 <= i < |iters| ==> InHand(iters[i], rows[i], old(iters[i].Left()))
  {
    hide ReverseScanIterator.Left;
    rows := [];
    for i := 0 to |iters|
      invariant |rows| == i
      invariant forall j :: 0 <= j < |iters| ==> iters[j].Valid()
      invariant forall j :: i <= j < |iters| ==> iters[j].Left() == old(iters[j].Left())
      invariant forall j :: 0 <= j < i ==> InHand(iters[j], rows[j], old(iters[j].Left()))
    {
      var next := iters[i].Next();
      rows := rows + [next];
    }
  }

  /** Everything that an iterator still has: every pending row, in falling order. */
  method Drain(it: GroupIterator) returns (out: seq<Bytes>)
    requires it.Valid() && forall i :: 0 <= i < |it.iters| ==> Falling(it.pending[i], it.offset)
    modifies it, it.iters
    ensures multiset(out) == Total(old(it.pending)) && Falling(out, it.offset)
  {
    hide AtLeast, Total, Falling, Bounded;
    out := [];
    FallingNone(it.offset);
    var r: Option<Bytes>;
    ghost var b: nat;
    ghost var ps := it.pending;
    r, b := it.Next();
    while r.Some?
      invariant it.Valid()
      invariant multiset(out) + Total(ps) == Total(old(it.pending))
      invariant |ps| == |it.iters| && forall i :: 0 <= i < |ps| ==> Falling(ps[i], it.offset)
      invariant Falling(out, it.offset) && (forall i :: 0 <= i < |out| ==> Bounded(ps, out[i], it.offset))
      invariant r.Some? ==> Takes(ps, b, it.offset) && r.value == ps[b][0] && it.pending == ps[b := ps[b][1..]]
      invariant r.None? ==> forall i :: 0 <= i < |ps| ==> ps[i] == []
      decreases |Total(ps)|
    {
      TakesBound(ps, b, it.offset);
      TotalTake(ps, b);
      FallingPush(ps, b, out, it.offset);
      out := out + [r.value];
      ps := it.pending;
      r, b := it.Next();
    }
    TotalEmpty(ps);
  }

  lemma {:induction false} FallingNone(offset: nat)
    ensures Falling([], offset)
  {
  }

  lemma {:induction false} FallingPush(ps: seq<seq<Bytes>>, b: nat, out: seq<Bytes>, offset: nat)
    requires Takes(ps, b, offset) && Falling(out, offset) && forall i :: 0 <= i < |out| ==> Bounded(ps, out[i], offset)
    requires Bounded(ps[b := ps[b][1..]], ps[b][0], offset)
    ensures Falling(out + [ps[b][0]], offset)
    ensures var out', qs := out + [ps[b][0]], ps[b := ps[b][1..]];
            forall i :: 0 <= i < |out'| ==> Bounded(qs, out'[i], offset)
  {
    hide AtLeast;
    var out', qs := out + [ps[b][0]], ps[b := ps[b][1..]];
    assert ps[b][0] in ps[b];
    forall i, j, x | 0 <= i < |out| && 0 <= j < |qs| && x in qs[j]
      ensures AtLeast(out'[i], x, offset)
    {
      assert x in ps[j];
    }
  }

  // ----- scans of a group of scripts

  /** The row as the merge compares it. */
  function Plain(r: Row): Row {
    r.(script := 0)
  }

  lemma {:induction false} SuffixOrder(a: Row, b: Row)
    requires Storable(a) && Storable(b)
    ensures AtLeast(EncodeRow(a), EncodeRow(b), 33) <==> !RowLess(Plain(a), Plain(b))
  {
    hide Storable, Less, EncodeRow, RowLess;
    StorablePlain(a);
    StorablePlain(b);
    SuffixOf(a);
    SuffixOf(b);
    LessPrefix(Filter(0), Suffix(EncodeRow(a), 33), Suffix(EncodeRow(b), 33));
    RowOrder(Plain(a), Plain(b));
  }

  lemma {:induction false} StorablePlain(r: Row)
    requires Storable(r)
    ensures Storable(Plain(r)) && 0 < Pow256(32) && r.script < Pow256(32)
  {
  }

  lemma {:induction false} SuffixOf(r: Row)
    requires Storable(r)
    ensures EncodeRow(Plain(r)) == Filter(0) + Suffix(EncodeRow(r), 33)
  {
    hide Enc, KeyFields, Pow256, Storable;
    StorablePlain(r);
    Filters(r.script, 0);
    TailOf(r);
    var fs, gs := KeyFields(r), KeyFields(Plain(r));
    EncAppend(fs[..2], fs[2..]);
    EncAppend(gs[..2], gs[2..]);
    assert fs == fs[..2] + fs[2..] && gs == gs[..2] + gs[2..];
    assert Suffix(EncodeRow(r), 33) == Enc(fs[2..]);
  }

  lemma {:induction false} TailOf(r: Row)
    ensures var fs, gs := KeyFields(r), KeyFields(Plain(r));
            && |fs| == |gs| && |fs| >= 2 && fs[2..] == gs[2..]
            && fs[..2] == [Field(CODE, 1), Field(r.script, 32)] && gs[..2] == [Field(CODE, 1), Field(0, 32)]
  {
  }

  /** Within one script the merged order is the order of the keys. */
  lemma {:induction false} ScriptFalls(ks: seq<Bytes>, script: Script)
    requires Descending(ks) && script < Pow256(32) && forall k :: k in ks ==> StartsWith(k, Filter(script))
    ensures Falling(ks, 33)
  {
    hide Less, Filter, Pow256;
    Filters(script, script);
    forall i, j | 0 <= i < j < |ks|
      ensures AtLeast(ks[i], ks[j], 33)
    {
      assert ks[i] in ks && ks[j] in ks;
      assert ks[i] == Filter(script) + Suffix(ks[i], 33) && ks[j] == Filter(script) + Suffix(ks[j], 33);
      LessPrefix(Filter(script), Suffix(ks[i], 33), Suffix(ks[j], 33));
      LessTotal(ks[i], ks[j]);
    }
  }

  /** The keys that a reverse scan of a script returns. */
  ghost predicate IsScan(ks: seq<Bytes>, keys: seq<Bytes>, script: Script, start: Option<nat>) {
    && Descending(ks)
    && forall k :: k in ks <==> k in keys && StartsWith(k, Filter(script)) && !Less(Bound(script, start), k)
  }

  method OpenAll(keys: seq<Bytes>, scripts: seq<Script>, start: Option<nat>) returns (iters: seq<ReverseScanIterator>)
    requires KeysSorted(keys)
    ensures |iters| == |scripts| && (forall i, j :: 0 <= i < j < |iters| ==> iters[i] != iters[j])
    ensures forall i :: 0 <= i < |iters| ==>
                          fresh(iters[i]) && iters[i].Valid() && IsScan(iters[i].Left(), keys, scripts[i], start)
  {
    hide Less, StartsWith, Descending, Filter, Bound, ReverseScanIterator.Left, KeysSorted;
    iters := [];
    for i := 0 to |scripts|
      invariant |iters| == i && (forall j, k :: 0 <= j < k < i ==> iters[j] != iters[k])
      invariant forall j :: 0 <= j < i ==>
                              fresh(iters[j]) && iters[j].Valid() && IsScan(iters[j].Left(), keys, scripts[j], start)
    {
      BoundStarts(scripts[i], start);
      var it := new ReverseScanIterator(keys, Filter(scripts[i]), Bound(scripts[i], start));
      iters := iters + [it];
    }
  }

  lemma {:induction false} ScanFalls(ks: seq<Bytes>, keys: seq<Bytes>, script: Script, start: Option<nat>)
    requires IsScan(ks, keys, script, start) && script < Pow256(32)
    ensures Falling(ks, 33)
  {
    hide Less, StartsWith, Descending, Filter, PrefixEnd, PrefixHeightEnd, Pow256, Falling;
    ScriptFalls(ks, script);
  }

  lemma {:induction false} TotalIn(ps: seq<seq<Bytes>>, i: nat, k: Bytes)
    requires i < |ps| && k in ps[i]
    ensures k in Total(ps)
  {
    if i > 0 {
      TotalIn(ps[1..], i - 1, k);
    }
  }

  /** The merged keys are those of the rows in range of the listed scripts. */
  ghost predicate GroupKeys(out: seq<Bytes>, all: set<Row>, scripts: seq<Script>, start: Option<nat>) {
    && (forall k :: k in out ==> exists r ::
            r in all && Storable(r) && k == EncodeRow(r) && r.script in scripts && InRange(r, start))
    && (forall r :: r in all && r.script in scripts && InRange(r, start) ==> EncodeRow(r) in out)
  }

  lemma {:induction false} MergedKeys(keys: seq<Bytes>, all: set<Row>, scripts: seq<Script>, start: Option<nat>,
                                      ps: seq<seq<Bytes>>, out: seq<Bytes>)
    requires Holds(keys, all) && (forall s :: s in scripts ==> s < Pow256(32))
             && (start.Some? ==> start.value <= U32_MAX)
    requires |ps| == |scripts| && (forall i :: 0 <= i < |ps| ==> IsScan(ps[i], keys, scripts[i], start))
    requires multiset(out) == Total(ps)
    ensures GroupKeys(out, all, scripts, start)
  {
    hide Less, StartsWith, Descending, Filter, Bound, Pow256, Total, EncodeRow, Storable, InRange, KeysSorted;
    forall k | k in out
      ensures exists r :: r in all && Storable(r) && k == EncodeRow(r) && r.script in scripts && InRange(r, start)
    {
      assert k in multiset(out);
      TotalHas(ps, k);
      var i :| 0 <= i < |ps| && k in ps[i];
      assert scripts[i] in scripts;
      HistoryKey(k, scripts[i]);
      var r :| r in all && k == EncodeRow(r);
      BoundIs(r, scripts[i], start);
    }
    forall r | r in all && r.script in scripts && InRange(r, start)
      ensures EncodeRow(r) in out
    {
      var i :| 0 <= i < |scripts| && scripts[i] == r.script;
      BoundIs(r, scripts[i], start);
      TotalIn(ps, i, EncodeRow(r));
      assert EncodeRow(r) in multiset(out);
    }
  }

  method Decoded(out: seq<Bytes>, ghost all: set<Row>, ghost scripts: seq<Script>,
                 ghost start: Option<nat>) returns (rows: seq<Row>)
    requires GroupKeys(out, all, scripts, start)
    ensures |rows| == |out|
    ensures forall i :: 0 <= i < |rows| ==> rows[i] in all && Storable(rows[i]) && out[i] == EncodeRow(rows[i])
                                            && rows[i].script in scripts && InRange(rows[i], start)
  {
    hide EncodeRow, DecodeRow, Storable, InRange;
    rows := [];
    for i := 0 to |out|
      invariant |rows| == i
      invariant forall j :: 0 <= j < i ==> rows[j] in all && Storable(rows[j]) && out[j] == EncodeRow(rows[j])
                                           && rows[j].script in scripts && InRange(rows[j], start)
    {
      assert out[i] in out;
      ghost var r :| r in all && Storable(r) && out[i] == EncodeRow(r) && r.script in scripts && InRange(r, start);
      RoundTrip(r, []);
      assert EncodeRow(r) + [] == EncodeRow(r);
      var decoded := DecodeRow(out[i]);
      rows := rows + [decoded.value];
    }
  }

  lemma {:induction false} MergedRows(all: set<Row>, scripts: seq<Script>, start: Option<nat>, out: seq<Bytes>,
                                      rows: seq<Row>)
    requires GroupKeys(out, all, scripts, start) && Falling(out, 33) && |rows| == |out|
    requires forall i :: 0 <= i < |rows| ==> rows[i] in all && Storable(rows[i]) && out[i] == EncodeRow(rows[i])
                                             && rows[i].script in scripts && InRange(rows[i], start)
    requires forall r :: r in all ==> Storable(r)
    ensures forall i, j :: 0 <= i < j < |rows| ==> !RowLess(Plain(rows[i]), Plain(rows[j]))
    ensures forall r :: r in rows <==> r in all && r.script in scripts && InRange(r, start)
  {
    hide EncodeRow, Storable, InRange, RowLess, AtLeast, Plain;
    forall i, j | 0 <= i < j < |rows|
      ensures !RowLess(Plain(rows[i]), Plain(rows[j]))
    {
      assert AtLeast(out[i], out[j], 33);
      SuffixOrder(rows[i], rows[j]);
    }
    forall r | r in all && r.script in scripts && InRange(r, start)
      ensures r in rows
    {
      var i :| 0 <= i < |out| && out[i] == EncodeRow(r);
      SameRow(rows[i], r);
    }
  }

  /** Scans the histories of a group of scripts: exactly their rows in range, newest first, even
      when a script is listed twice. */
  method ScanGroup(keys: seq<Bytes>, ghost all: set<Row>, scripts: seq<Script>,
                   start: Option<nat>) returns (rows: seq<Row>)
    requires Holds(keys, all) && (forall s :: s in scripts ==> s < Pow256(32))
             && (start.Some? ==> start.value <= U32_MAX)
    ensures forall i, j :: 0 <= i < j < |rows| ==> !RowLess(Plain(rows[i]), Plain(rows[j]))
    ensures forall r :: r in rows <==> r in all && r.script in scripts && InRange(r, start)
  {
    hide *;
    HoldsGives(keys, all);
    var iters := OpenAll(keys, scripts, start);
    var group := new GroupIterator(iters, 33);
    ghost var ps := group.pending;
    GroupSize(group);
    forall i | 0 <= i < |ps|
      ensures Falling(ps[i], 33)
    {
      assert scripts[i] in scripts;
      ScanFalls(ps[i], keys, scripts[i], start);
    }
    var out := Drain(group);
    MergedKeys(keys, all, scripts, start, ps, out);
    rows := Decoded(out, all, scripts, start);
    MergedRows(all, scripts, start, out, rows);
  }

  lemma {:induction false} GroupSize(group: GroupIterator)
    requires group.Valid()
    ensures |group.pending| == |group.iters|
  {
  }

  lemma {:induction false} HoldsGives(keys: seq<Bytes>, all: set<Row>)
    requires Holds(keys, all)
    ensures KeysSorted(keys) && forall r :: r in all ==> Storable(r)
  {
  }
}
