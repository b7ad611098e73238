/** Lists of txids, and what follows a cursor in them. */
module Cursor {
  import opened Chain

  // ----- lists of txids

  /** Each txid once, where it first occurs. */
  function Unique(ts: seq<Txid>): (us: seq<Txid>)
    ensures forall t :: t in us <==> t in ts
    ensures forall i, j :: 0 <= i < j < |us| ==> us[i] != us[j]
  {
    if ts == [] then []
    else
      var init, last := Unique(ts[..|ts| - 1]), ts[|ts| - 1];
      assert ts == ts[..|ts| - 1] + [last];
      if last in init then init else init + [last]
  }

  /** Distinct txids come in the order in which they first occur. */
  lemma {:induction false} UniqueOrder(ts: seq<Txid>, i: nat, j: nat) returns (p: nat, q: nat)
    requires i < j < |Unique(ts)|
    ensures p < q < |ts| && ts[p] == Unique(ts)[i] && ts[q] == Unique(ts)[j]
    ensures ts[p] !in ts[..p] && ts[q] !in ts[..q]
    decreases |ts|
  {
    var n := |ts| - 1;
    var us := Unique(ts[..n]);
    if j < |us| {
      p, q := UniqueOrder(ts[..n], i, j);
      assert ts[..n][..p] == ts[..p] && ts[..n][..q] == ts[..q];
    } else {
      q := n;
      p := FirstOf(ts[..n], us[i]);
      assert ts[..n][..p] == ts[..p];
    }
  }

  lemma {:induction false} FirstOf(ts: seq<Txid>, t: Txid) returns (p: nat)
    requires t in ts
    ensures p < |ts| && ts[p] == t && t !in ts[..p]
  {
    if ts[0] == t {
      p := 0;
    } else {
      var q := FirstOf(ts[1..], t);
      p := q + 1;
      assert ts[..p] == [ts[0]] + ts[1..][..q];
    }
  }

  /** What follows the last seen txid; everything when there is none, nothing when it is not
      found. */
  function After(ts: seq<Txid>, last: Option<Txid>): seq<Txid> {
    if last.None? then ts
    else if ts == [] then []
    else if ts[0] == last.value then ts[1..]
    else After(ts[1..], last)
  }

  function Take(ts: seq<Txid>, n: nat): seq<Txid> {
    if |ts| <= n then ts else ts[..n]
  }

  lemma {:induction false} AfterAt(ts: seq<Txid>, k: nat)
    requires k < |ts| && forall i, j :: 0 <= i < j < |ts| ==> ts[i] != ts[j]
    ensures After(ts, Some(ts[k])) == ts[k + 1..]
  {
    if k > 0 {
      AfterAt(ts[1..], k - 1);
    }
  }

  lemma {:induction false} NothingAfter(ts: seq<Txid>, t: Txid)
    requires t !in ts
    ensures After(ts, Some(t)) == []
  {
    if ts != [] {
      NothingAfter(ts[1..], t);
    }
  }

  lemma {:induction false} AfterPrefix(a: seq<Txid>, b: seq<Txid>, t: Txid)
    requires t !in a
    ensures After(a + b, Some(t)) == After(b, Some(t))
  {
    if a == [] {
      assert a + b == b;
    } else {
      AfterPrefix(a[1..], b, t);
      assert (a + b)[1..] == a[1..] + b;
    }
  }

  lemma {:induction false} UniqueJoin(a: seq<Txid>, b: seq<Txid>)
    requires forall t :: t in a ==> t !in b
    ensures Unique(a + b) == Unique(a) + Unique(b)
    decreases |b|
  {
    if b == [] {
      assert a + b == a;
    } else {
      var n := |b| - 1;
      assert (a + b)[..|a + b| - 1] == a + b[..n];
      UniqueJoin(a, b[..n]);
    }
  }

  lemma {:induction false} AfterIsTail(us: seq<Txid>, last: Option<Txid>) returns (k: nat)
    ensures k <= |us| && After(us, last) == us[k..]
  {
    if last.None? || us == [] {
      k := 0;
    } else if us[0] == last.value {
      k := 1;
    } else {
      var n := AfterIsTail(us[1..], last);
      k := n + 1;
    }
  }
}
