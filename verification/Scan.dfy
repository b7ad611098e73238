/** Scans over a database whose keys are sorted bytewise. */
module Scan {
  import opened Chain
  import opened History
  import opened Codec

  ghost predicate KeysSorted(keys: seq<Bytes>) {
    forall i, j :: 0 <= i < j < |keys| ==> Less(keys[i], keys[j])
  }

  /** What lies between two strings that start alike starts alike too. */
  lemma {:induction false} Between(p: Bytes, a: Bytes, b: Bytes, c: Bytes)
    requires StartsWith(a, p) && StartsWith(c, p) && !Less(b, a) && !Less(c, b)
    ensures StartsWith(b, p)
    decreases |p|
  {
    if p != [] {
      LessTotal(a, b);
      LessTotal(b, c);
      assert a[0] == p[0] == c[0] && b != [] && b[0] == p[0];
      assert a[1..][..|p| - 1] == a[..|p|][1..] && c[1..][..|p| - 1] == c[..|p|][1..];
      assert p[1..] == a[..|p|][1..];
      Between(p[1..], a[1..], b[1..], c[1..]);
      assert b[..|p|] == [b[0]] + b[1..][..|p| - 1] && p == [p[0]] + p[1..];
    }
  }

  // ----- forward

  /** The end of the run of keys from `i` on that start with the prefix. */
  function RunEnd(keys: seq<Bytes>, prefix: Bytes, i: nat): (j: nat)
    requires i <= |keys|
    ensures i <= j <= |keys| && (forall k :: i <= k < j ==> StartsWith(keys[k], prefix))
    ensures j < |keys| ==> !StartsWith(keys[j], prefix)
    decreases |keys| - i
  {
    if i < |keys| && StartsWith(keys[i], prefix) then RunEnd(keys, prefix, i + 1) else i
  }

  /** The first key that is not below `start`. */
  method Seek(keys: seq<Bytes>, start: Bytes) returns (i: nat)
    requires KeysSorted(keys)
    ensures i <= |keys| && (forall k :: 0 <= k < i ==> Less(keys[k], start))
    ensures forall k :: i <= k < |keys| ==> !Less(keys[k], start)
  {
    i := 0;
    while i < |keys| && Less(keys[i], start)
      invariant i <= |keys| && forall k :: 0 <= k < i ==> Less(keys[k], start)
    {
      i := i + 1;
    }
    forall k | i <= k < |keys|
      ensures !Less(keys[k], start)
    {
      NotBelow(keys, i, k, start);
    }
  }

  lemma {:induction false} NotBelow(keys: seq<Bytes>, i: nat, k: nat, start: Bytes)
    requires KeysSorted(keys) && i <= k < |keys| && !Less(keys[i], start)
    ensures !Less(keys[k], start)
  {
    if Less(keys[k], start) && i < k {
      LessTrans(keys[i], keys[k], start);
    }
  }

  class ScanIterator {
    const keys: seq<Bytes>
    const prefix: Bytes
    var next: nat
    var done: bool

    ghost predicate Valid()
      reads this
    {
      next <= |keys|
    }

    /** The keys it will return. */
    ghost function Left(): seq<Bytes>
      requires Valid()
      reads this
    {
      if done then [] else keys[next..RunEnd(keys, prefix, next)]
    }

    /** `iter_scan_from`: it will return exactly the keys with the prefix that are not below
        `start`, in order. */
    constructor (keys: seq<Bytes>, prefix: Bytes, start: Bytes)
      requires KeysSorted(keys) && StartsWith(start, prefix)
      ensures this.keys == keys && this.prefix == prefix && Valid()
      ensures KeysSorted(Left()) && forall k :: k in Left() <==> k in keys && StartsWith(k, prefix) && !Less(k, start)
    {
      this.keys, this.prefix, done := keys, prefix, false;
      next := 0;
      new;
      next := Seek(keys, start);
      RunIs(keys, prefix, start, next);
    }

    method Next() returns (r: Option<Bytes>)
      requires Valid()
      modifies this
      ensures Valid()
      ensures if old(Left()) == [] then r == None && Left() == []
              else r == Some(old(Left())[0]) && Left() == old(Left())[1..]
    {
      if done {
        return None;
      }
      if next == |keys| {
        return None;
      }
      var key := keys[next];
      next := next + 1;
      if !StartsWith(key, prefix) {
        done := true;
        return None;
      }
      return Some(key);
    }
  }

  lemma {:induction false} RunIs(keys: seq<Bytes>, prefix: Bytes, start: Bytes, i: nat)
    requires KeysSorted(keys) && StartsWith(start, prefix) && i <= |keys|
    requires forall k :: 0 <= k < i ==> Less(keys[k], start)
    requires forall k :: i <= k < |keys| ==> !Less(keys[k], start)
    ensures var run := keys[i..RunEnd(keys, prefix, i)];
            KeysSorted(run) && forall k :: k in run <==> k in keys && StartsWith(k, prefix) && !Less(k, start)
  {
    hide Less, StartsWith, RunEnd;
    var j := RunEnd(keys, prefix, i);
    var run := keys[i..j];
    forall n | j <= n < |keys|
      ensures !StartsWith(keys[n], prefix)
    {
      AfterRun(keys, prefix, start, j, n);
    }
    forall k | k in keys && StartsWith(k, prefix) && !Less(k, start)
      ensures k in run
    {
      var n :| 0 <= n < |keys| && keys[n] == k;
      assert run[n - i] == k;
    }
  }

  lemma {:induction false} AfterRun(keys: seq<Bytes>, prefix: Bytes, start: Bytes, j: nat, n: nat)
    requires KeysSorted(keys) && StartsWith(start, prefix) && j <= n < |keys|
    requires !StartsWith(keys[j], prefix) && !Less(keys[j], start)
    ensures !StartsWith(keys[n], prefix)
  {
    if StartsWith(keys[n], prefix) && j < n {
      LessTotal(keys[n], keys[j]);
      Between(prefix, start, keys[j], keys[n]);
    }
  }

  // ----- backward

  /** The start of the run of keys that ends below `j` and starts with the prefix. */
  function RunStart(keys: seq<Bytes>, prefix: Bytes, j: nat): (i: nat)
    requires j <= |keys|
    ensures i <= j && (forall k :: i <= k < j ==> StartsWith(keys[k], prefix))
    ensures i > 0 ==> !StartsWith(keys[i - 1], prefix)
  {
    if j > 0 && StartsWith(keys[j - 1], prefix) then RunStart(keys, prefix, j - 1) else j
  }

  ghost predicate Descending(keys: seq<Bytes>) {
    forall i, j :: 0 <= i < j < |keys| ==> Less(keys[j], keys[i])
  }

  /** One past the last key that is not above `max`. */
  method SeekForPrev(keys: seq<Bytes>, max: Bytes) returns (i: nat)
    requires KeysSorted(keys)
    ensures i <= |keys| && (forall k :: 0 <= k < i ==> !Less(max, keys[k]))
    ensures forall k :: i <= k < |keys| ==> Less(max, keys[k])
  {
    i := |keys|;
    while i > 0 && Less(max, keys[i - 1])
      invariant i <= |keys| && forall k :: i <= k < |keys| ==> Less(max, keys[k])
    {
      i := i - 1;
    }
    forall k | 0 <= k < i
      ensures !Less(max, keys[k])
    {
      if Less(max, keys[k]) && k < i - 1 {
        LessTrans(max, keys[k], keys[i - 1]);
      }
    }
  }

  class ReverseScanIterator {
    const keys: seq<Bytes>
    const prefix: Bytes
    var below: nat // the raw iterator stands at the key before this one
    var done: bool

    ghost predicate Valid()
      reads this
    {
      below <= |keys|
    }

    ghost function Left(): seq<Bytes>
      requires Valid()
      reads this
    {
      if done then [] else Reversed(keys[RunStart(keys, prefix, below)..below])
    }

    /** `iter_scan_reverse`: it will return exactly the keys with the prefix that are not above
        `max`, highest first. */
    constructor (keys: seq<Bytes>, prefix: Bytes, max: Bytes)
      requires KeysSorted(keys) && StartsWith(max, prefix)
      ensures this.keys == keys && this.prefix == prefix && Valid()
      ensures Descending(Left()) && forall k :: k in Left() <==> k in keys && StartsWith(k, prefix) && !Less(max, k)
    {
      this.keys, this.prefix, done := keys, prefix, false;
      below := 0;
      new;
      below := SeekForPrev(keys, max);
      RunBackIs(keys, prefix, max, below);
    }

    method Next() returns (r: Option<Bytes>)
      requires Valid()
      modifies this
      ensures Valid()
      ensures if old(Left()) == [] then r == None && Left() == []
              else r == Some(old(Left())[0]) && Left() == old(Left())[1..]
    {
      hide StartsWith, RunStart, Reversed;
      if done || below == 0 {
        LastOne(keys, prefix, 0);
        return None;
      }
      LastOne(keys, prefix, below);
      var key := keys[below - 1];
      if !StartsWith(key, prefix) {
        done := true;
        return None;
      }
      below := below - 1;
      return Some(key);
    }
  }

  /** The run that ends below `j` starts, read backwards, with the key before `j`. */
  lemma {:induction false} LastOne(keys: seq<Bytes>, prefix: Bytes, j: nat)
    requires j <= |keys|
    ensures var run := Reversed(keys[RunStart(keys, prefix, j)..j]);
            if j == 0 || !StartsWith(keys[j - 1], prefix) then run == []
            else run == [keys[j - 1]] + Reversed(keys[RunStart(keys, prefix, j - 1)..j - 1])
  {
    hide StartsWith;
    if j > 0 && StartsWith(keys[j - 1], prefix) {
      var i := RunStart(keys, prefix, j - 1);
      assert RunStart(keys, prefix, j) == i;
      assert keys[i..j] == keys[i..j - 1] + [keys[j - 1]];
      LastFirst(keys[i..j - 1], keys[j - 1]);
    }
  }

  lemma {:induction false} LastFirst(s: seq<Bytes>, x: Bytes)
    ensures Reversed(s + [x]) == [x] + Reversed(s)
  {
  }

  lemma {:induction false} RunBackIs(keys: seq<Bytes>, prefix: Bytes, max: Bytes, j: nat)
    requires KeysSorted(keys) && StartsWith(max, prefix) && j <= |keys|
    requires forall k :: 0 <= k < j ==> !Less(max, keys[k])
    requires forall k :: j <= k < |keys| ==> Less(max, keys[k])
    ensures var run := Reversed(keys[RunStart(keys, prefix, j)..j]);
            Descending(run) && forall k :: k in run <==> k in keys && StartsWith(k, prefix) && !Less(max, k)
  {
    hide Less, StartsWith, RunStart;
    var i := RunStart(keys, prefix, j);
    var up := keys[i..j];
    var run := Reversed(up);
    RunDescends(keys, i, j);
    hide Descending, KeysSorted;
    forall n | 0 <= n < i
      ensures !StartsWith(keys[n], prefix)
    {
      BeforeRun(keys, prefix, max, i, n);
    }
    forall k | k in keys && StartsWith(k, prefix) && !Less(max, k)
      ensures k in run
    {
      var n :| 0 <= n < |keys| && keys[n] == k;
      assert run[|up| - 1 - (n - i)] == k;
    }
    forall k | k in run
      ensures k in keys && StartsWith(k, prefix) && !Less(max, k)
    {
      var n :| 0 <= n < |run| && run[n] == k;
      assert k == keys[j - 1 - n];
    }
  }

  lemma {:induction false} RunDescends(keys: seq<Bytes>, i: nat, j: nat)
    requires KeysSorted(keys) && i <= j <= |keys|
    ensures Descending(Reversed(keys[i..j]))
  {
    hide Less;
  }

  lemma {:induction false} BeforeRun(keys: seq<Bytes>, prefix: Bytes, max: Bytes, i: nat, n: nat)
    requires KeysSorted(keys) && StartsWith(max, prefix) && n < i <= |keys|
    requires !StartsWith(keys[i - 1], prefix) && !Less(max, keys[i - 1])
    ensures !StartsWith(keys[n], prefix)
  {
    if StartsWith(keys[n], prefix) && n < i - 1 {
      LessTotal(keys[n], keys[i - 1]);
      Between(prefix, keys[n], keys[i - 1], max);
    }
  }

  // ----- scans of a script's history

  /** The keys of the history database: the H keys are those of the given rows. */
  ghost predicate Holds(keys: seq<Bytes>, rows: set<Row>) {
    && KeysSorted(keys) && (forall r :: r in rows ==> Storable(r) && EncodeRow(r) in keys)
    && (forall k :: k in keys && StartsWith(k, Big(CODE, 1)) ==> exists r :: r in rows && k == EncodeRow(r))
  }

  ghost predicate IsRowOf(r: Row, all: set<Row>, key: Bytes) {
    r in all && Storable(r) && EncodeRow(r) == key
  }

  method MinKey(ks: set<Bytes>) returns (m: Bytes)
    requires ks != {}
    ensures m in ks && forall k :: k in ks && k != m ==> Less(m, k)
  {
    hide Less;
    m :| m in ks;
    var rest := ks - {m};
    while rest != {}
      invariant m in ks && rest <= ks && forall k :: k in ks && k !in rest && k != m ==> Less(m, k)
      decreases rest
    {
      var k :| k in rest;
      rest := rest - {k};
      LessTotal(k, m);
      if Less(k, m) {
        forall x | x in ks && x !in rest && x != k && x != m
          ensures Less(k, x)
        {
          LessTrans(k, m, x);
        }
        m := k;
      }
    }
  }

  /** A database keeps its keys in bytewise order. */
  method SortKeys(ks: set<Bytes>) returns (keys: seq<Bytes>)
    ensures KeysSorted(keys) && forall k :: k in keys <==> k in ks
  {
    hide Less;
    keys := [];
    var rest := ks;
    while rest != {}
      invariant KeysSorted(keys) && forall k :: k in ks <==> k in keys || k in rest
      invariant forall i, k :: 0 <= i < |keys| && k in rest ==> Less(keys[i], k)
      decreases rest
    {
      var m := MinKey(rest);
      keys, rest := keys + [m], rest - {m};
    }
  }

  /** Keys that are not those of history rows. */
  predicate Others(ks: set<Bytes>) {
    forall k :: k in ks ==> !StartsWith(k, Big(CODE, 1))
  }

  /** The history database on disk: the keys of the rows, among others. */
  method DiskKeys(rows: set<Row>, others: set<Bytes>) returns (keys: seq<Bytes>)
    requires (forall r :: r in rows ==> Storable(r)) && Others(others)
    ensures Holds(keys, rows)
  {
    hide EncodeRow, Storable, StartsWith, Big, KeysSorted;
    keys := SortKeys((set r | r in rows :: EncodeRow(r)) + others);
  }

  /** Reads the rows that an iterator still has. */
  method Rows(it: ScanIterator, ghost all: set<Row>) returns (rows: seq<Row>)
    requires it.Valid() && forall k :: k in it.Left() ==> exists r :: r in all && Storable(r) && k == EncodeRow(r)
    modifies it
    ensures |rows| == |old(it.Left())|
    ensures forall i :: 0 <= i < |rows| ==> IsRowOf(rows[i], all, old(it.Left())[i])
  {
    hide EncodeRow, DecodeRow, Storable, StartsWith, RunEnd, ScanIterator.Left;
    rows := [];
    ghost var keys := it.Left();
    var key := it.Next();
    while key.Some?
      invariant it.Valid() && |rows| <= |keys|
      invariant key.None? ==> |rows| == |keys|
      invariant key.Some? ==> |rows| < |keys| && key.value == keys[|rows|] && it.Left() == keys[|rows| + 1..]
      invariant forall i :: 0 <= i < |rows| ==> IsRowOf(rows[i], all, keys[i])
      decreases |keys| - |rows|
    {
      assert key.value in keys;
      ghost var r :| r in all && Storable(r) && key.value == EncodeRow(r);
      RoundTrip(r, []);
      assert EncodeRow(r) + [] == EncodeRow(r);
      var decoded := DecodeRow(key.value);
      rows := rows + [decoded.value];
      key := it.Next();
    }
  }

  /** A forward scan from a height returns exactly the script's rows at that height or above, in
      the order of the rows. */
  method ScanFrom(keys: seq<Bytes>, ghost all: set<Row>, script: Script, height: nat) returns (rows: seq<Row>)
    requires Holds(keys, all) && script < Pow256(32) && height <= U32_MAX
    ensures forall i, j :: 0 <= i < j < |rows| ==> RowLess(rows[i], rows[j])
    ensures forall r :: r in rows <==> r in all && r.script == script && r.height >= height
  {
    hide Less, EncodeRow, DecodeRow, Filter, PrefixHeight, RowLess, Pow256, Storable, StartsWith;
    BoundsStart(script, height);
    var it := new ScanIterator(keys, Filter(script), PrefixHeight(script, height));
    ghost var left := it.Left();
    forall k | k in left
      ensures exists r :: r in all && Storable(r) && k == EncodeRow(r)
    {
      HistoryKey(k, script);
    }
    rows := Rows(it, all);
    forall i, j | 0 <= i < j < |rows|
      ensures RowLess(rows[i], rows[j])
    {
      RowOrder(rows[i], rows[j]);
    }
    forall r
      ensures r in rows <==> r in all && r.script == script && r.height >= height
    {
      if r in rows {
        var i :| 0 <= i < |rows| && rows[i] == r;
        assert left[i] in left;
        FilterIs(r, script);
        FromHeight(r, height);
      }
      if r in all && r.script == script && r.height >= height {
        FilterIs(r, script);
        FromHeight(r, height);
        assert EncodeRow(r) in left;
        var i :| 0 <= i < |left| && left[i] == EncodeRow(r);
        SameRow(rows[i], r);
      }
    }
  }

  lemma {:induction false} HistoryKey(k: Bytes, script: Script)
    requires StartsWith(k, Filter(script)) && script < Pow256(32)
    ensures StartsWith(k, Big(CODE, 1))
  {
    hide Pow256, Enc;
    Filters(script, script);
    assert k[..33][..1] == k[..1] && Filter(script)[..1] == Big(CODE, 1);
  }

  lemma {:induction false} SameRow(a: Row, b: Row)
    requires Storable(a) && Storable(b) && EncodeRow(a) == EncodeRow(b)
    ensures a == b
  {
    RoundTrip(a, []);
    RoundTrip(b, []);
  }

  // ----- reverse scans of a script's history

  /** What a reverse scan from an optional height covers. */
  predicate InRange(r: Row, start: Option<nat>) {
    if start.None? then r.height != U32_MAX
    else r.height < start.value || (r.height == start.value && r.pos != U16_MAX)
  }

  function Bound(script: Script, start: Option<nat>): Bytes {
    if start.None? then PrefixEnd(script) else PrefixHeightEnd(script, start.value)
  }

  lemma {:induction false} BoundIs(r: Row, script: Script, start: Option<nat>)
    requires Storable(r) && script < Pow256(32) && (start.Some? ==> start.value <= U32_MAX)
    ensures StartsWith(EncodeRow(r), Filter(script)) && !Less(Bound(script, start), EncodeRow(r))
       <==> r.script == script && InRange(r, start)
  {
    hide Less, EncodeRow, Filter, PrefixEnd, PrefixHeightEnd, Storable, StartsWith, Pow256;
    FilterIs(r, script);
    if r.script == script {
      UpToEnd(r);
      if start.Some? {
        UpToHeight(r, start.value);
      }
    }
  }

  /** Reads the rows that a reverse iterator still has. */
  method RowsBack(it: ReverseScanIterator, ghost all: set<Row>) returns (rows: seq<Row>)
    requires it.Valid() && forall k :: k in it.Left() ==> exists r :: r in all && Storable(r) && k == EncodeRow(r)
    modifies it
    ensures |rows| == |old(it.Left())|
    ensures forall i :: 0 <= i < |rows| ==> IsRowOf(rows[i], all, old(it.Left())[i])
  {
    hide EncodeRow, DecodeRow, Storable, StartsWith, RunStart, ReverseScanIterator.Left;
    rows := [];
    ghost var keys := it.Left();
    var key := it.Next();
    while key.Some?
      invariant it.Valid() && |rows| <= |keys|
      invariant key.None? ==> |rows| == |keys|
      invariant key.Some? ==> |rows| < |keys| && key.value == keys[|rows|] && it.Left() == keys[|rows| + 1..]
      invariant forall i :: 0 <= i < |rows| ==> IsRowOf(rows[i], all, keys[i])
      decreases |keys| - |rows|
    {
      assert key.value in keys;
      ghost var r :| r in all && Storable(r) && key.value == EncodeRow(r);
      RoundTrip(r, []);
      assert EncodeRow(r) + [] == EncodeRow(r);
      var decoded := DecodeRow(key.value);
      rows := rows + [decoded.value];
      key := it.Next();
    }
  }

  /** A reverse scan returns exactly the script's rows in range, newest first. */
  method ScanBack(keys: seq<Bytes>, ghost all: set<Row>, script: Script, start: Option<nat>) returns (rows: seq<Row>)
    requires Holds(keys, all) && script < Pow256(32) && (start.Some? ==> start.value <= U32_MAX)
    ensures forall i, j :: 0 <= i < j < |rows| ==> RowLess(rows[j], rows[i])
    ensures forall r :: r in rows <==> r in all && r.script == script && InRange(r, start)
  {
    hide Less, EncodeRow, DecodeRow, Filter, Bound, RowLess, Pow256, Storable, StartsWith, InRange;
    BoundStarts(script, start);
    var it := new ReverseScanIterator(keys, Filter(script), Bound(script, start));
    ghost var left := it.Left();
    forall k | k in left
      ensures exists r :: r in all && Storable(r) && k == EncodeRow(r)
    {
      HistoryKey(k, script);
    }
    rows := RowsBack(it, all);
    forall i, j | 0 <= i < j < |rows|
      ensures RowLess(rows[j], rows[i])
    {
      RowOrder(rows[j], rows[i]);
    }
    forall r
      ensures r in rows <==> r in all && r.script == script && InRange(r, start)
    {
      if r in rows {
        var i :| 0 <= i < |rows| && rows[i] == r;
        assert left[i] in left;
        BoundIs(r, script, start);
      }
      if r in all && r.script == script && InRange(r, start) {
        BoundIs(r, script, start);
        assert EncodeRow(r) in left;
        var i :| 0 <= i < |left| && left[i] == EncodeRow(r);
        SameRow(rows[i], r);
      }
    }
  }

  lemma {:induction false} BoundStarts(script: Script, start: Option<nat>)
    ensures StartsWith(Bound(script, start), Filter(script))
  {
    BoundsStart(script, if start.Some? then start.value else 0);
  }
}
