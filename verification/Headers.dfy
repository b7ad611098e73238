/** The in-memory header list: a hash-linked chain that survives reorganisations, with a
    hash-to-height table whose entries for abandoned blocks are never removed. */
module Headers {
  import opened Chain

  datatype HeaderEntry = HeaderEntry(height: nat, header: Header) {
    function Hash(): BlockHash {
      header.hash
    }
  }

  /** Each header names its predecessor, from the genesis block up; none hashes to null. */
  predicate Chained(hs: seq<Header>) {
    forall i :: 0 <= i < |hs| ==> hs[i].hash != NULL_HASH && hs[i].prev == TipOf(hs[..i])
  }

  /** A hash determines its header. */
  ghost predicate Coherent(hs: seq<Header>) {
    forall i, j :: 0 <= i < |hs| && 0 <= j < |hs| && hs[i].hash == hs[j].hash ==> hs[i] == hs[j]
  }

  predicate Distinct(hs: seq<Header>) {
    forall i, j :: 0 <= i < j < |hs| ==> hs[i].hash != hs[j].hash
  }

  /** A chain cannot meet the same block twice: its way back to null would never end. */
  lemma {:induction false} ChainedDistinct(hs: seq<Header>)
    requires Chained(hs) && Coherent(hs)
    ensures Distinct(hs)
  {
    forall i, j | 0 <= i < j < |hs|
      ensures hs[i].hash != hs[j].hash
    {
      ChainedDiffer(hs, i, j);
    }
  }

  lemma {:induction false} ChainedDiffer(hs: seq<Header>, i: nat, j: nat)
    requires Chained(hs) && Coherent(hs) && i < j < |hs|
    ensures hs[i].hash != hs[j].hash
  {
    if i > 0 {
      ChainedDiffer(hs, i - 1, j - 1);
    }
  }

  function HeadersOf(es: seq<HeaderEntry>): seq<Header> {
    seq(|es|, i requires 0 <= i < |es| => es[i].header)
  }

  function Numbered(hs: seq<Header>, from: nat): seq<HeaderEntry> {
    seq(|hs|, i requires 0 <= i < |hs| => HeaderEntry(from + i, hs[i]))
  }

  function TipOf(hs: seq<Header>): BlockHash {
    if hs == [] then NULL_HASH else hs[|hs| - 1].hash
  }

  /** Every entry stands at its height, and the table finds it there. */
  predicate Tabled(es: seq<HeaderEntry>, heights: map<BlockHash, nat>) {
    forall i :: 0 <= i < |es| ==> es[i].height == i && es[i].Hash() in heights && heights[es[i].Hash()] == i
  }

  lemma {:induction false} TabledPush(es: seq<HeaderEntry>, heights: map<BlockHash, nat>, e: HeaderEntry)
    requires Tabled(es, heights) && e.height == |es|
    requires forall i :: 0 <= i < |es| ==> es[i].Hash() != e.Hash()
    ensures Tabled(es + [e], heights[e.Hash() := e.height])
  {
  }

  lemma {:induction false} DistinctEntries(es: seq<HeaderEntry>)
    requires Distinct(HeadersOf(es))
    ensures forall i, j :: 0 <= i < j < |es| ==> es[i].Hash() != es[j].Hash()
  {
    var hs := HeadersOf(es);
    forall i, j | 0 <= i < j < |es|
      ensures es[i].Hash() != es[j].Hash()
    {
      assert hs[i].hash != hs[j].hash;
    }
  }

  class HeaderList {
    var headers: seq<HeaderEntry>
    var heights: map<BlockHash, nat>
    var tip: BlockHash

    /** Nothing is said about `heights` outside the chain: it may hold stale entries. */
    ghost predicate Valid()
      reads this
    {
      && Chained(HeadersOf(headers)) && Distinct(HeadersOf(headers))
      && Tabled(headers, heights)
      && tip == TipOf(HeadersOf(headers))
    }

    constructor Empty()
      ensures Valid() && headers == []
    {
      headers, heights, tip := [], map[], NULL_HASH;
    }

    /** Finds a block if and only if it is on the current chain, and at its true height. */
    function HeaderByBlockhash(blockhash: BlockHash): (r: Option<HeaderEntry>)
      requires Valid()
      reads this
      ensures r.Some? <==> exists i :: 0 <= i < |headers| && headers[i].Hash() == blockhash
      ensures r.Some? ==> && r.value.Hash() == blockhash
                          && r.value.height < |headers| && headers[r.value.height] == r.value
    {
      if blockhash !in heights then None
      else
        var height := heights[blockhash];
        if height < |headers| && headers[height].Hash() == blockhash then Some(headers[height]) else None
    }

    lemma Found(i: nat)
      requires Valid() && i < |headers|
      ensures HeaderByBlockhash(headers[i].Hash()) == Some(headers[i])
    {
    }

    /** Numbers new headers from where they attach; None stands for the panics: headers that
        are not linked, or whose first parent is not part of the chain. */
    method Order(newHeaders: seq<Header>) returns (r: Option<seq<HeaderEntry>>)
      requires Valid()
      ensures r.Some? <==>
              && (forall i :: 1 <= i < |newHeaders| ==> newHeaders[i].prev == newHeaders[i - 1].hash)
              && (newHeaders == [] || newHeaders[0].prev == NULL_HASH || HeaderByBlockhash(newHeaders[0].prev).Some?)
      ensures r.Some? && newHeaders == [] ==> r.value == []
      ensures r.Some? && newHeaders != [] ==>
                && r.value != [] && r.value == Numbered(newHeaders, r.value[0].height) && r.value[0].height <= |headers|
                && r.value[0].height == if newHeaders[0].prev == NULL_HASH then 0
                                        else HeaderByBlockhash(newHeaders[0].prev).value.height + 1
    {
      var i := 1;
      while i < |newHeaders|
        invariant forall k :: 1 <= k < i && k < |newHeaders| ==> newHeaders[k].prev == newHeaders[k - 1].hash
      {
        if newHeaders[i].prev != newHeaders[i - 1].hash {
          return None;
        }
        i := i + 1;
      }
      if newHeaders == [] {
        return Some([]);
      }
      var height := 0;
      if newHeaders[0].prev != NULL_HASH {
        var prev := HeaderByBlockhash(newHeaders[0].prev);
        if prev.None? {
          return None;
        }
        height := prev.value.height + 1;
      }
      return Some(Numbered(newHeaders, height));
    }

    /** Truncates the chain where the new headers attach and extends it with them. Returns the
        removed entries, old tip first, and the tip that is left when something was removed. */
    method Apply(newHeaders: seq<HeaderEntry>) returns (removed: seq<HeaderEntry>, reorgedTip: Option<BlockHash>)
      requires Valid()
      requires newHeaders != [] ==>
                 && newHeaders[0].height <= |headers|
                 && newHeaders == Numbered(HeadersOf(newHeaders), newHeaders[0].height)
                 && Chained(HeadersOf(headers[..newHeaders[0].height] + newHeaders))
                 && Coherent(HeadersOf(headers[..newHeaders[0].height] + newHeaders))
      modifies this
      ensures Valid()
      ensures newHeaders == [] ==> headers == old(headers) && removed == [] && reorgedTip == None
      ensures newHeaders != [] ==>
                var n := newHeaders[0].height;
                && headers == old(headers)[..n] + newHeaders
                && removed == Reversed(old(headers)[n..])
                && reorgedTip == if removed != [] && n > 0 then Some(old(headers)[n - 1].Hash()) else None
    {
      if newHeaders == [] {
        return [], None;
      }
      var n := newHeaders[0].height;
      ghost var all := headers[..n] + newHeaders;
      ChainedDistinct(HeadersOf(all));
      removed := headers[n..];
      headers := headers[..n];
      reorgedTip := if removed != [] && n > 0 then Some(headers[n - 1].Hash()) else None;
      DistinctEntries(all);
      PushAll(newHeaders);
      removed := Reversed(removed);
    }

    method PushAll(newHeaders: seq<HeaderEntry>)
      requires Tabled(headers, heights) && newHeaders != []
      requires forall i :: 0 <= i < |newHeaders| ==> newHeaders[i].height == |headers| + i
      requires var all := headers + newHeaders;
               forall i, j :: 0 <= i < j < |all| ==> all[i].Hash() != all[j].Hash()
      modifies this
      ensures headers == old(headers) + newHeaders && Tabled(headers, heights)
      ensures tip == newHeaders[|newHeaders| - 1].Hash()
    {
      ghost var all := headers + newHeaders;
      ghost var n := |headers|;
      for i := 0 to |newHeaders|
        invariant headers == all[..n + i]
        invariant i > 0 ==> tip == newHeaders[i - 1].Hash()
        invariant Tabled(headers, heights)
      {
        assert all[n + i] == newHeaders[i];
        TabledPush(headers, heights, newHeaders[i]);
        tip := newHeaders[i].Hash();
        headers := headers + [newHeaders[i]];
        heights := heights[tip := newHeaders[i].height];
      }
    }
  }

  // ----- rebuilding the list from persisted headers

  /** `hs` is a way from null up to `tip` through persisted headers. */
  ghost predicate Path(hs: seq<Header>, headersMap: map<BlockHash, Header>, tip: BlockHash) {
    && Chained(hs) && TipOf(hs) == tip
    && (forall i :: 0 <= i < |hs| ==> hs[i].hash in headersMap && headersMap[hs[i].hash] == hs[i])
  }

  lemma {:induction false} PathDistinct(hs: seq<Header>, headersMap: map<BlockHash, Header>, tip: BlockHash)
    requires Path(hs, headersMap, tip)
    ensures Distinct(hs)
  {
    ChainedDistinct(hs);
  }

  /** Walks back from the tip, removing each header it uses. None stands for the
      "missing expected blockhash" panic: it happens exactly when there is no path. */
  method ChainedHeaders(headersMap: map<BlockHash, Header>, tip: BlockHash) returns (r: Option<seq<Header>>)
    requires forall h :: h in headersMap ==> headersMap[h].hash == h && h != NULL_HASH
    ensures r.Some? ==> Path(r.value, headersMap, tip)
    ensures r.None? ==> forall hs: seq<Header> :: !Path(hs, headersMap, tip)
  {
    var rest, blockhash := headersMap, tip;
    var walked: seq<Header> := []; // tip first
    while blockhash != NULL_HASH
      invariant forall h :: h in rest ==> h in headersMap && rest[h] == headersMap[h]
      invariant forall h :: h in headersMap && h !in rest ==> exists x :: x in walked && x.hash == h
      invariant Walk(walked, headersMap, tip)
      invariant blockhash == WalkEnd(walked, tip)
      decreases |rest|
    {
      if blockhash !in rest {
        forall hs: seq<Header>
          ensures !Path(hs, headersMap, tip)
        {
          WalkStuck(hs, headersMap, tip, walked);
        }
        return None;
      }
      var header := rest[blockhash];
      rest := rest - {blockhash};
      blockhash := header.prev;
      WalkPush(walked, headersMap, tip, header);
      walked := walked + [header];
    }
    WalkDone(walked, headersMap, tip);
    r := Some(Reversed(walked));
  }

  ghost predicate Walk(walked: seq<Header>, headersMap: map<BlockHash, Header>, tip: BlockHash) {
    forall i :: 0 <= i < |walked| ==>
                  && walked[i].hash in headersMap && headersMap[walked[i].hash] == walked[i]
                  && walked[i].hash == WalkEnd(walked[..i], tip)
  }

  function WalkEnd(walked: seq<Header>, tip: BlockHash): BlockHash {
    if walked == [] then tip else walked[|walked| - 1].prev
  }

  lemma {:induction false} WalkPush(walked: seq<Header>, headersMap: map<BlockHash, Header>, tip: BlockHash,
                                    header: Header)
    requires Walk(walked, headersMap, tip) && header.hash == WalkEnd(walked, tip)
    requires header.hash in headersMap && headersMap[header.hash] == header
    ensures Walk(walked + [header], headersMap, tip)
    ensures forall x :: x in walked + [header] <==> x in walked || x == header
  {
    forall i | 0 <= i < |walked| + 1
      ensures (walked + [header])[i].hash == WalkEnd((walked + [header])[..i], tip)
    {
      assert (walked + [header])[..i] == walked[..i];
      assert walked[..|walked|] == walked;
    }
  }

  lemma {:induction false} WalkDone(walked: seq<Header>, headersMap: map<BlockHash, Header>, tip: BlockHash)
    requires NULL_HASH !in headersMap
    requires Walk(walked, headersMap, tip) && WalkEnd(walked, tip) == NULL_HASH
    ensures Path(Reversed(walked), headersMap, tip)
  {
    var hs := Reversed(walked);
    forall i | 0 <= i < |hs|
      ensures hs[i].prev == TipOf(hs[..i])
    {
      var k := |hs| - 1 - i;
      assert walked[..k + 1][k].prev == WalkEnd(walked[..k + 1], tip);
      if i > 0 {
        assert walked[k + 1].hash == WalkEnd(walked[..k + 1], tip);
      } else {
        assert walked[..k + 1] == walked;
      }
    }
  }

  /** The walk is the end of the path, reversed. */
  ghost predicate Along(hs: seq<Header>, tip: BlockHash, walked: seq<Header>) {
    && |walked| <= |hs| && walked == Reversed(hs[|hs| - |walked|..])
    && WalkEnd(walked, tip) == TipOf(hs[..|hs| - |walked|])
  }

  /** The walk has no choice: any path ends in the reversed walk. */
  lemma {:induction false} WalkFollowsPath(hs: seq<Header>, headersMap: map<BlockHash, Header>, tip: BlockHash,
                                           walked: seq<Header>)
    requires NULL_HASH !in headersMap
    requires Path(hs, headersMap, tip) && Walk(walked, headersMap, tip)
    ensures Along(hs, tip, walked)
  {
    hide *;
    if walked == [] {
      WalkStart(hs, headersMap, tip);
    } else {
      WalkPrefix(walked, headersMap, tip);
      WalkFollowsPath(hs, headersMap, tip, walked[..|walked| - 1]);
      WalkNext(hs, headersMap, tip, walked);
    }
  }

  lemma {:induction false} WalkStart(hs: seq<Header>, headersMap: map<BlockHash, Header>, tip: BlockHash)
    requires Path(hs, headersMap, tip)
    ensures Along(hs, tip, [])
  {
    assert hs[..|hs|] == hs;
  }

  lemma {:induction false} WalkPrefix(walked: seq<Header>, headersMap: map<BlockHash, Header>, tip: BlockHash)
    requires Walk(walked, headersMap, tip) && walked != []
    ensures Walk(walked[..|walked| - 1], headersMap, tip)
  {
    hide WalkEnd;
    var n := |walked| - 1;
    forall i | 0 <= i < n
      ensures walked[..n][..i] == walked[..i]
    {
    }
  }

  lemma {:induction false} WalkNext(hs: seq<Header>, headersMap: map<BlockHash, Header>, tip: BlockHash,
                                    walked: seq<Header>)
    requires NULL_HASH !in headersMap && walked != []
    requires Path(hs, headersMap, tip) && Walk(walked, headersMap, tip)
    requires Along(hs, tip, walked[..|walked| - 1])
    ensures Along(hs, tip, walked)
  {
    hide Reversed;
    var n := |walked| - 1;
    var x := walked[n];
    assert x.hash == WalkEnd(walked[..n], tip) && x.hash in headersMap && headersMap[x.hash] == x;
    var k := |hs| - n - 1;
    assert hs[..k + 1][k] == hs[k];
    assert x == hs[k] && hs[k].prev == TipOf(hs[..k]);
    ReversedTail(hs, k, walked[..n]);
    assert walked == walked[..n] + [x];
  }

  lemma {:induction false} ReversedTail(hs: seq<Header>, k: nat, w: seq<Header>)
    requires k < |hs| && w == Reversed(hs[k + 1..])
    ensures w + [hs[k]] == Reversed(hs[k..])
  {
  }

  lemma {:induction false} WalkStuck(hs: seq<Header>, headersMap: map<BlockHash, Header>, tip: BlockHash,
                                     walked: seq<Header>)
    requires NULL_HASH !in headersMap
    requires Walk(walked, headersMap, tip) && WalkEnd(walked, tip) != NULL_HASH
    requires WalkEnd(walked, tip) !in headersMap || exists x :: x in walked && x.hash == WalkEnd(walked, tip)
    ensures !Path(hs, headersMap, tip)
  {
    if Path(hs, headersMap, tip) {
      WalkFollowsPath(hs, headersMap, tip, walked);
      PathDistinct(hs, headersMap, tip);
    }
  }
}
