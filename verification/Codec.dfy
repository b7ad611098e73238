/** Byte strings in database order, and the keys of history rows. */
module Codec {
  import opened Chain
  import opened History

  type Byte = b: nat | b < 256
  type Bytes = seq<Byte>

  // ----- bytewise order

  predicate Less(a: Bytes, b: Bytes)
    decreases |b|
  {
    b != [] && (a == [] || a[0] < b[0] || (a[0] == b[0] && Less(a[1..], b[1..])))
  }

  lemma {:induction false} LessPrefix(p: Bytes, a: Bytes, b: Bytes)
    ensures Less(p + a, p + b) <==> Less(a, b)
    decreases |p|
  {
    if p == [] {
      assert p + a == a && p + b == b;
    } else {
      LessPrefix(p[1..], a, b);
      assert (p + a)[1..] == p[1..] + a && (p + b)[1..] == p[1..] + b;
    }
  }

  lemma {:induction false} LessDiffer(x: Bytes, y: Bytes, a: Bytes, b: Bytes)
    requires |x| == |y| && x != y
    ensures Less(x + a, y + b) <==> Less(x, y)
    decreases |x|
  {
    assert (x + a)[1..] == x[1..] + a && (y + b)[1..] == y[1..] + b;
    if x[0] == y[0] {
      assert x == [x[0]] + x[1..] && y == [y[0]] + y[1..];
      LessDiffer(x[1..], y[1..], a, b);
    }
  }

  lemma {:induction false} LessTotal(a: Bytes, b: Bytes)
    ensures Less(a, b) || a == b || Less(b, a)
    ensures !(Less(a, b) && Less(b, a)) && !Less(a, a)
    decreases |a|
  {
    if a != [] && b != [] && a[0] == b[0] {
      LessTotal(a[1..], b[1..]);
      assert a == [a[0]] + a[1..] && b == [b[0]] + b[1..];
    }
    if a != [] {
      LessTotal(a[1..], a[1..]);
    }
  }

  lemma {:induction false} LessTrans(a: Bytes, b: Bytes, c: Bytes)
    requires Less(a, b) && Less(b, c)
    ensures Less(a, c)
    decreases |a|
  {
    if a != [] && a[0] == b[0] && b[0] == c[0] {
      LessTrans(a[1..], b[1..], c[1..]);
    }
  }

  // ----- big-endian integers

  function Pow256(n: nat): nat {
    if n == 0 then 1 else 256 * Pow256(n - 1)
  }

  function Big(v: nat, n: nat): (bs: Bytes)
    ensures |bs| == n
  {
    if n == 0 then [] else Big(v / 256, n - 1) + [v % 256]
  }

  function Num(bs: Bytes): nat {
    if bs == [] then 0 else 256 * Num(bs[..|bs| - 1]) + bs[|bs| - 1]
  }

  lemma {:induction false} NumOfBig(v: nat, n: nat)
    requires v < Pow256(n)
    ensures Num(Big(v, n)) == v
  {
    if n > 0 {
      NumOfBig(v / 256, n - 1);
      assert Big(v, n)[..n - 1] == Big(v / 256, n - 1);
    }
  }

  lemma {:induction false} BigOrder(v: nat, u: nat, n: nat)
    requires v < Pow256(n) && u < Pow256(n)
    ensures Less(Big(v, n), Big(u, n)) <==> v < u
    ensures Big(v, n) == Big(u, n) <==> v == u
  {
    NumOfBig(v, n);
    NumOfBig(u, n);
    if n > 0 {
      BigOrder(v / 256, u / 256, n - 1);
      var x, y := Big(v / 256, n - 1), Big(u / 256, n - 1);
      if v / 256 == u / 256 {
        LessPrefix(x, [v % 256], [u % 256]);
      } else {
        LessDiffer(x, y, [v % 256], [u % 256]);
      }
    } else {
      assert v == 0 && u == 0;
    }
  }

  // ----- records of fixed-width integers

  datatype Field = Field(value: nat, width: nat)

  function Enc(fs: seq<Field>): Bytes {
    if fs == [] then [] else Big(fs[0].value, fs[0].width) + Enc(fs[1..])
  }

  predicate Fits(fs: seq<Field>) {
    forall i :: 0 <= i < |fs| ==> fs[i].width > 0 && fs[i].value < Pow256(fs[i].width)
  }

  /** Field by field; a record that ends is smaller than one that goes on. */
  predicate FieldsLess(fs: seq<Field>, gs: seq<Field>)
    decreases |gs|
  {
    gs != [] && (fs == [] || fs[0].value < gs[0].value || (fs[0].value == gs[0].value && FieldsLess(fs[1..], gs[1..])))
  }

  /** The widths agree at least as long as the values do, and one more. */
  predicate Aligned(fs: seq<Field>, gs: seq<Field>)
    decreases |gs|
  {
    fs == [] || gs == [] || (fs[0].width == gs[0].width && (fs[0].value == gs[0].value ==> Aligned(fs[1..], gs[1..])))
  }

  /** Encodings sort bytewise as their fields sort. */
  lemma {:induction false} EncOrder(fs: seq<Field>, gs: seq<Field>)
    requires Fits(fs) && Fits(gs) && Aligned(fs, gs)
    ensures Less(Enc(fs), Enc(gs)) <==> FieldsLess(fs, gs)
    decreases |fs|
  {
    if fs != [] && gs != [] {
      var x, y := Big(fs[0].value, fs[0].width), Big(gs[0].value, gs[0].width);
      BigOrder(fs[0].value, gs[0].value, fs[0].width);
      if fs[0].value == gs[0].value {
        EncOrder(fs[1..], gs[1..]);
        LessPrefix(x, Enc(fs[1..]), Enc(gs[1..]));
      } else {
        LessDiffer(x, y, Enc(fs[1..]), Enc(gs[1..]));
      }
    }
  }

  lemma {:induction false} EncAppend(fs: seq<Field>, gs: seq<Field>)
    ensures Enc(fs + gs) == Enc(fs) + Enc(gs)
    decreases |fs|
  {
    hide Big;
    if fs == [] {
      assert fs + gs == gs;
    } else {
      EncAppend(fs[1..], gs);
      assert (fs + gs)[1..] == fs[1..] + gs;
    }
  }

  // ----- history keys

  const CODE := 72 // 'H'
  const U16_MAX := 0xFFFF
  const U32_MAX := 0xFFFF_FFFF

  /** The row fits the integer types of its key. */
  predicate Storable(r: Row) {
    && r.script < Pow256(32) && r.height < Pow256(4) && r.pos < Pow256(2)
    && r.info.txid < Pow256(32) && r.info.Index() < Pow256(4) && r.info.value < Pow256(8)
    && (r.info.Spending? ==> r.info.prev.txid < Pow256(32) && r.info.prev.vout < Pow256(4))
  }

  function HeadFields(script: Script, height: nat): seq<Field> {
    [Field(CODE, 1), Field(script, 32), Field(height, 4)]
  }

  function KeyFields(r: Row): seq<Field> {
    match r.info
    case Spending(txid, vin, prev, value) =>
      [Field(CODE, 1), Field(r.script, 32), Field(r.height, 4), Field(r.pos, 2), Field(0, 4),
       Field(txid, 32), Field(vin, 4), Field(prev.txid, 32), Field(prev.vout, 4), Field(value, 8)]
    case Funding(txid, vout, value) =>
      [Field(CODE, 1), Field(r.script, 32), Field(r.height, 4), Field(r.pos, 2), Field(1, 4),
       Field(txid, 32), Field(vout, 4), Field(value, 8)]
  }

  function EncodeRow(r: Row): Bytes {
    Enc(KeyFields(r))
  }

  lemma {:induction false} Powers()
    ensures Pow256(1) == 256 && Pow256(2) == 0x1_0000 && Pow256(4) == 0x1_0000_0000
  {
    assert Pow256(2) == 256 * Pow256(1) && Pow256(3) == 256 * Pow256(2) && Pow256(4) == 256 * Pow256(3);
  }

  lemma {:induction false} WidePowers()
    ensures Pow256(8) == U64 && Pow256(32) == U256
  {
    Powers();
    assert Pow256(8) == 256 * (256 * (256 * (256 * Pow256(4)))) by {
      Four(4);
    }
    Four(8);
    Four(12);
    Four(16);
    Four(20);
    Four(24);
    Four(28);
  }

  lemma {:induction false} Four(n: nat)
    ensures Pow256(n + 4) == 0x1_0000_0000 * Pow256(n)
  {
    assert Pow256(n + 4) == 256 * Pow256(n + 3) && Pow256(n + 3) == 256 * Pow256(n + 2);
    assert Pow256(n + 2) == 256 * Pow256(n + 1) && Pow256(n + 1) == 256 * Pow256(n);
  }

  lemma {:induction false} RowFits(r: Row)
    requires Storable(r)
    ensures Fits(KeyFields(r))
  {
    hide Pow256;
    Powers();
  }

  /** The first field that differs decides. */
  lemma {:induction false} FirstDiffer(fs: seq<Field>, gs: seq<Field>, k: nat)
    requires k < |fs| && k < |gs| && fs[k].value != gs[k].value
    requires forall i :: 0 <= i <= k ==> fs[i].width == gs[i].width
    requires forall i :: 0 <= i < k ==> fs[i].value == gs[i].value
    ensures Aligned(fs, gs) && (FieldsLess(fs, gs) <==> fs[k].value < gs[k].value)
    decreases k
  {
    if k > 0 {
      FirstDiffer(fs[1..], gs[1..], k - 1);
    }
  }

  /** When one record continues the other, the shorter is smaller. */
  lemma {:induction false} Continues(fs: seq<Field>, gs: seq<Field>)
    requires |fs| <= |gs| && forall i :: 0 <= i < |fs| ==> fs[i] == gs[i]
    ensures Aligned(fs, gs) && Aligned(gs, fs)
    ensures (FieldsLess(fs, gs) <==> |fs| < |gs|) && !FieldsLess(gs, fs)
    decreases |fs|
  {
    if fs != [] {
      Continues(fs[1..], gs[1..]);
    }
  }

  /** Encoded keys sort bytewise as script, height, position, then Spending before Funding. */
  lemma {:induction false} RowOrder(a: Row, b: Row)
    requires Storable(a) && Storable(b)
    ensures Less(EncodeRow(a), EncodeRow(b)) <==> RowLess(a, b)
  {
    RowFits(a);
    RowFits(b);
    KeyOrder(a, b);
    EncOrder(KeyFields(a), KeyFields(b));
  }

  lemma {:induction false} KeyHead(r: Row)
    ensures var fs := KeyFields(r);
            && |fs| > 4 && fs[0] == Field(CODE, 1) && fs[1] == Field(r.script, 32) && fs[2] == Field(r.height, 4)
            && fs[3] == Field(r.pos, 2)
  {
  }

  lemma {:induction false} KeyOrder(a: Row, b: Row)
    ensures Aligned(KeyFields(a), KeyFields(b)) && (FieldsLess(KeyFields(a), KeyFields(b)) <==> RowLess(a, b))
  {
    hide Aligned, FieldsLess, InfoLess, KeyFields;
    KeyHead(a);
    KeyHead(b);
    var x, y := KeyFields(a), KeyFields(b);
    if a.script != b.script {
      FirstDiffer(x, y, 1);
    } else if a.height != b.height {
      FirstDiffer(x, y, 2);
    } else if a.pos != b.pos {
      FirstDiffer(x, y, 3);
    } else {
      InfoOrder(a, b);
    }
  }

  lemma {:induction false} InfoOrder(a: Row, b: Row)
    requires a.script == b.script && a.height == b.height && a.pos == b.pos
    ensures Aligned(KeyFields(a), KeyFields(b))
            && (FieldsLess(KeyFields(a), KeyFields(b)) <==> InfoLess(a.info, b.info))
  {
    hide Aligned, FieldsLess;
    if a.info.Spending? != b.info.Spending? {
      FirstDiffer(KeyFields(a), KeyFields(b), 4);
    } else if a.info.Spending? {
      SpendingOrder(a, b);
    } else {
      FundingOrder(a, b);
    }
  }

  lemma {:induction false} SpendingOrder(a: Row, b: Row)
    requires a.script == b.script && a.height == b.height && a.pos == b.pos && a.info.Spending? && b.info.Spending?
    ensures Aligned(KeyFields(a), KeyFields(b))
            && (FieldsLess(KeyFields(a), KeyFields(b)) <==> InfoLess(a.info, b.info))
  {
    hide Aligned, FieldsLess;
    var x, y, i, j := KeyFields(a), KeyFields(b), a.info, b.info;
    assert forall k :: 0 <= k < 10 ==> x[k].width == y[k].width;
    if i.txid != j.txid {
      FirstDiffer(x, y, 5);
    } else if i.vin != j.vin {
      FirstDiffer(x, y, 6);
    } else if i.prev.txid != j.prev.txid {
      FirstDiffer(x, y, 7);
    } else if i.prev.vout != j.prev.vout {
      FirstDiffer(x, y, 8);
    } else if i.value != j.value {
      FirstDiffer(x, y, 9);
    } else {
      Continues(x, y);
    }
  }

  lemma {:induction false} FundingOrder(a: Row, b: Row)
    requires a.script == b.script && a.height == b.height && a.pos == b.pos && a.info.Funding? && b.info.Funding?
    ensures Aligned(KeyFields(a), KeyFields(b))
            && (FieldsLess(KeyFields(a), KeyFields(b)) <==> InfoLess(a.info, b.info))
  {
    hide Aligned, FieldsLess;
    var x, y, i, j := KeyFields(a), KeyFields(b), a.info, b.info;
    if i.txid != j.txid {
      FirstDiffer(x, y, 5);
    } else if i.vout != j.vout {
      FirstDiffer(x, y, 6);
    } else if i.value != j.value {
      FirstDiffer(x, y, 7);
    } else {
      Continues(x, y);
    }
  }

  // ----- the bounds of scans

  predicate StartsWith(k: Bytes, p: Bytes) {
    |p| <= |k| && k[..|p|] == p
  }

  /** The common start of all keys of a script. */
  function Filter(script: Script): Bytes {
    Enc([Field(CODE, 1), Field(script, 32)])
  }

  function PrefixHeight(script: Script, height: nat): Bytes {
    Enc(HeadFields(script, height))
  }

  /** Where a reverse scan from a height starts. */
  function PrefixHeightEnd(script: Script, height: nat): Bytes {
    Enc(HeadFields(script, height) + [Field(U16_MAX, 2)])
  }

  function PrefixEnd(script: Script): Bytes {
    Enc(HeadFields(script, U32_MAX))
  }

  lemma {:induction false} EncStart(fs: seq<Field>, k: nat)
    requires k <= |fs|
    ensures StartsWith(Enc(fs), Enc(fs[..k]))
  {
    EncAppend(fs[..k], fs[k..]);
    assert fs == fs[..k] + fs[k..];
  }

  /** The keys of a script, and the bounds of its scans, are those that start with its filter. */
  lemma {:induction false} FilterIs(r: Row, script: Script)
    requires Storable(r) && script < Pow256(32)
    ensures StartsWith(EncodeRow(r), Filter(script)) <==> r.script == script
  {
    hide Enc, KeyFields;
    var fs := KeyFields(r);
    KeyHead(r);
    EncStart(fs, 2);
    assert fs[..2] == [Field(CODE, 1), Field(r.script, 32)];
    Filters(r.script, script);
  }

  lemma {:induction false} Filters(a: Script, b: Script)
    requires a < Pow256(32) && b < Pow256(32)
    ensures |Filter(a)| == 33 && |Filter(b)| == 33 && (Filter(a) == Filter(b) <==> a == b)
    ensures Filter(a) == Big(CODE, 1) + Big(a, 32)
  {
    hide Pow256, Big;
    BigOrder(a, b, 32);
    var x, y := [Field(CODE, 1), Field(a, 32)], [Field(CODE, 1), Field(b, 32)];
    assert x[1..] == [Field(a, 32)] && y[1..] == [Field(b, 32)] && x[1..][1..] == [] && y[1..][1..] == [];
    assert Enc(x[1..]) == Big(a, 32) + [] && Enc(y[1..]) == Big(b, 32) + [];
    assert Big(a, 32) + [] == Big(a, 32) && Big(b, 32) + [] == Big(b, 32);
    assert Filter(a)[1..] == Big(a, 32) && Filter(b)[1..] == Big(b, 32);
  }

  lemma {:induction false} BoundsStart(script: Script, height: nat)
    ensures StartsWith(PrefixHeight(script, height), Filter(script))
    ensures StartsWith(PrefixHeightEnd(script, height), Filter(script))
    ensures StartsWith(PrefixEnd(script), Filter(script))
  {
    hide Enc;
    EncStart(HeadFields(script, height), 2);
    EncStart(HeadFields(script, height) + [Field(U16_MAX, 2)], 2);
    EncStart(HeadFields(script, U32_MAX), 2);
    assert HeadFields(script, height)[..2] == [Field(CODE, 1), Field(script, 32)];
    assert (HeadFields(script, height) + [Field(U16_MAX, 2)])[..2] == [Field(CODE, 1), Field(script, 32)];
    assert HeadFields(script, U32_MAX)[..2] == [Field(CODE, 1), Field(script, 32)];
  }

  /** A forward scan from a height meets exactly the rows at that height or above. */
  lemma {:induction false} FromHeight(r: Row, height: nat)
    requires Storable(r) && height <= U32_MAX
    ensures Less(EncodeRow(r), PrefixHeight(r.script, height)) <==> r.height < height
    ensures EncodeRow(r) != PrefixHeight(r.script, height)
  {
    hide Aligned, FieldsLess, KeyFields, Enc;
    KeyHead(r);
    RowFits(r);
    Powers();
    var x, y := KeyFields(r), HeadFields(r.script, height);
    if r.height != height {
      FirstDiffer(x, y, 2);
      FirstDiffer(y, x, 2);
    } else {
      Continues(y, x);
    }
    EncOrder(x, y);
    EncOrder(y, x);
    LessTotal(Enc(x), Enc(y));
  }

  /** A reverse scan from a height meets the rows at that height or below, but for those at the
      last position of the height itself. */
  lemma {:induction false} UpToHeight(r: Row, height: nat)
    requires Storable(r) && height <= U32_MAX
    ensures Less(PrefixHeightEnd(r.script, height), EncodeRow(r)) <==>
              r.height > height || (r.height == height && r.pos == 65535)
  {
    hide Aligned, FieldsLess, KeyFields, Enc;
    KeyHead(r);
    RowFits(r);
    Powers();
    var x, y := KeyFields(r), HeadFields(r.script, height) + [Field(U16_MAX, 2)];
    if r.height != height {
      FirstDiffer(y, x, 2);
    } else if r.pos != U16_MAX {
      FirstDiffer(y, x, 3);
    } else {
      Continues(y, x);
    }
    EncOrder(y, x);
  }

  /** It meets all rows at the height or below exactly when none of them stands at the last
      position of the height. */
  lemma {:induction false} ReverseCompleteIff(rows: set<Row>, script: Script, height: nat)
    requires (forall r :: r in rows ==> Storable(r) && r.script == script) && height <= U32_MAX
    ensures (forall r :: r in rows ==> (!Less(PrefixHeightEnd(script, height), EncodeRow(r)) <==> r.height <= height))
       <==> (forall r :: r in rows ==> r.height != height || r.pos != 65535)
  {
    hide Less, PrefixHeightEnd, EncodeRow, Storable;
    forall r | r in rows
      ensures Less(PrefixHeightEnd(script, height), EncodeRow(r)) <==>
                r.height > height || (r.height == height && r.pos == 65535)
    {
      UpToHeight(r, height);
    }
  }

  /** A transaction at position 65535 is missed at its own height. */
  lemma {:induction false} LastPositionMissed()
    ensures var r := Row(5, 10, 65535, Funding(1, 0, 0)); Storable(r) && Less(PrefixHeightEnd(5, 10), EncodeRow(r))
  {
    var r := Row(5, 10, U16_MAX, Funding(1, 0, 0));
    Powers();
    PowersGrow(2, 32);
    PowersGrow(2, 8);
    UpToHeight(r, 10);
  }

  lemma {:induction false} PowersGrow(m: nat, n: nat)
    requires m <= n
    ensures Pow256(m) <= Pow256(n)
  {
    if m < n {
      PowersGrow(m, n - 1);
    }
  }

  /** A reverse scan from the end meets all rows below the last height. */
  lemma {:induction false} UpToEnd(r: Row)
    requires Storable(r)
    ensures Less(PrefixEnd(r.script), EncodeRow(r)) <==> r.height == 4294967295
  {
    hide Aligned, FieldsLess, KeyFields, Enc;
    KeyHead(r);
    RowFits(r);
    Powers();
    var x, y := KeyFields(r), HeadFields(r.script, U32_MAX);
    if r.height != U32_MAX {
      FirstDiffer(y, x, 2);
    } else {
      Continues(y, x);
    }
    EncOrder(y, x);
  }

  // ----- the layout of a key

  /** The letter H, the script, the height and the position, then what is spent or funded. */
  lemma {:induction false} KeyLayout(r: Row)
    ensures var head := Big(72, 1) + Big(r.script, 32) + Big(r.height, 4) + Big(r.pos, 2);
            match r.info
            case Spending(txid, vin, prev, value) =>
              EncodeRow(r) == head + Big(0, 4) + Big(txid, 32) + Big(vin, 4)
                              + Big(prev.txid, 32) + Big(prev.vout, 4) + Big(value, 8)
            case Funding(txid, vout, value) =>
              EncodeRow(r) == head + Big(1, 4) + Big(txid, 32) + Big(vout, 4) + Big(value, 8)
  {
    hide Big, Enc;
    var fs := KeyFields(r);
    EncFour(fs);
    EncFour(fs[4..]);
    EncRest(fs[8..]);
  }

  lemma {:induction false} EncFour(fs: seq<Field>)
    requires |fs| >= 4
    ensures Enc(fs) == Big(fs[0].value, fs[0].width) + Big(fs[1].value, fs[1].width) + Big(fs[2].value, fs[2].width)
                       + Big(fs[3].value, fs[3].width) + Enc(fs[4..])
  {
    hide Big;
    EncTwo(fs);
    EncTwo(fs[2..]);
    assert fs[2..][2..] == fs[4..];
  }

  lemma {:induction false} EncTwo(fs: seq<Field>)
    requires |fs| >= 2
    ensures Enc(fs) == Big(fs[0].value, fs[0].width) + Big(fs[1].value, fs[1].width) + Enc(fs[2..])
  {
    hide Big;
    assert fs[1..][1..] == fs[2..];
  }

  lemma {:induction false} EncRest(fs: seq<Field>)
    ensures fs == [] ==> Enc(fs) == []
    ensures |fs| >= 2 ==> Enc(fs) == Big(fs[0].value, fs[0].width) + Big(fs[1].value, fs[1].width) + Enc(fs[2..])
    ensures |fs| == 2 ==> Enc(fs[2..]) == []
  {
    if |fs| >= 2 {
      EncTwo(fs);
    }
  }

  // ----- reading a key back

  /** Bytes after the key are allowed. */
  function DecodeRow(bs: Bytes): (r: Option<Row>) {
    if |bs| < 87 then None
    else
      var script, height, pos, tag := Num(bs[1..33]), Num(bs[33..37]), Num(bs[37..39]), Num(bs[39..43]);
      var txid, index := Num(bs[43..75]), Num(bs[75..79]);
      if tag == 0 then
        if |bs| < 123 then None
        else
          var prev := OutPoint(Num(bs[79..111]), Num(bs[111..115]));
          Some(Row(script, height, pos, Spending(txid, index, prev, Num(bs[115..123]))))
      else if tag == 1 then Some(Row(script, height, pos, Funding(txid, index, Num(bs[79..87]))))
      else None
  }

  lemma {:induction false} TakeField(f: Field, rest: Bytes)
    requires f.value < Pow256(f.width)
    ensures var bs := Big(f.value, f.width) + rest;
            Num(bs[..f.width]) == f.value && bs[f.width..] == rest
  {
    NumOfBig(f.value, f.width);
    assert (Big(f.value, f.width) + rest)[..f.width] == Big(f.value, f.width);
  }

  /** Where the fields of a record start, and that reading there gives them back. */
  function Offset(fs: seq<Field>, k: nat): nat
    requires k <= |fs|
  {
    if k == 0 then 0 else fs[0].width + Offset(fs[1..], k - 1)
  }

  lemma {:induction false} ReadField(fs: seq<Field>, k: nat, tail: Bytes)
    requires k < |fs| && Fits(fs)
    ensures var bs, o := Enc(fs) + tail, Offset(fs, k);
            o + fs[k].width <= |bs| && Num(bs[o..o + fs[k].width]) == fs[k].value
    decreases k
  {
    hide Num, Pow256, Big;
    var f := fs[0];
    var rest := Enc(fs[1..]) + tail;
    assert Enc(fs) + tail == Big(f.value, f.width) + rest;
    if k == 0 {
      TakeField(f, rest);
      assert (Enc(fs) + tail)[0..f.width] == (Big(f.value, f.width) + rest)[..f.width];
    } else {
      ReadField(fs[1..], k - 1, tail);
      var o := Offset(fs[1..], k - 1);
      assert (Enc(fs) + tail)[f.width + o..f.width + o + fs[k].width] == rest[o..o + fs[k].width];
    }
  }

  lemma {:induction false} OffsetStep(fs: seq<Field>, k: nat)
    requires k < |fs|
    ensures Offset(fs, k + 1) == Offset(fs, k) + fs[k].width
  {
    if k > 0 {
      OffsetStep(fs[1..], k - 1);
    }
  }

  lemma {:induction false} RowOffsets(r: Row)
    ensures var fs := KeyFields(r);
            && Offset(fs, 1) == 1 && Offset(fs, 2) == 33 && Offset(fs, 3) == 37 && Offset(fs, 4) == 39
            && Offset(fs, 5) == 43 && Offset(fs, 6) == 75 && Offset(fs, 7) == 79
            && (r.info.Spending? ==> Offset(fs, 8) == 111 && Offset(fs, 9) == 115)
  {
    var fs := KeyFields(r);
    assert Offset(fs, 0) == 0;
    hide Offset;
    OffsetStep(fs, 0);
    OffsetStep(fs, 1);
    OffsetStep(fs, 2);
    OffsetStep(fs, 3);
    OffsetStep(fs, 4);
    OffsetStep(fs, 5);
    OffsetStep(fs, 6);
    OffsetStep(fs, 7);
    if r.info.Spending? {
      OffsetStep(fs, 8);
    }
  }

  /** A key read back is the row it was made from. */
  lemma {:induction false} RoundTrip(r: Row, tail: Bytes)
    requires Storable(r)
    ensures DecodeRow(EncodeRow(r) + tail) == Some(r)
  {
    hide Offset, Enc, Num, Pow256, Storable, Fits;
    var fs := KeyFields(r);
    RowFits(r);
    RowOffsets(r);
    ReadField(fs, 1, tail);
    ReadField(fs, 2, tail);
    ReadField(fs, 3, tail);
    ReadField(fs, 4, tail);
    ReadField(fs, 5, tail);
    ReadField(fs, 6, tail);
    ReadField(fs, 7, tail);
    if r.info.Spending? {
      ReadField(fs, 8, tail);
      ReadField(fs, 9, tail);
    }
  }
}
