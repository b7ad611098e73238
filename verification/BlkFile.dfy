/** The parser of the node's blk*.dat files. */
module BlkFile {
  import opened Chain
  import opened Codec

  datatype Parsed = Blocks(blocks: seq<(seq<Byte>, nat)>) | NoBlockSize | SliceOutOfRange

  /** A little-endian 32-bit word. */
  function Word(bs: seq<Byte>): (v: nat)
    requires |bs| == 4
    ensures v < U32 && v % 256 == bs[0]
  {
    var a: nat, b: nat, c: nat, d: nat := bs[0], bs[1], bs[2], bs[3];
    a + 256 * (b + 256 * (c + 256 * d))
  }

  function Bytes(v: nat): (bs: seq<Byte>)
    ensures |bs| == 4
  {
    [v % 256, v / 256 % 256, v / 0x1_0000 % 256, v / 0x100_0000 % 256]
  }

  lemma {:induction false} WordOfBytes(v: nat)
    requires v < U32
    ensures Word(Bytes(v)) == v
  {
    var a, b := v / 256, v / 0x1_0000;
    assert b == a / 256 && v / 0x100_0000 == b / 256;
    assert b / 256 < 256;
  }

  // ----- the parser

  /** What the scan finds from a position on. */
  function Parse(blob: seq<Byte>, pos: nat, magic: nat): Parsed
    requires pos <= |blob|
    decreases |blob| - pos
  {
    if |blob| < pos + 4 then Blocks([])
    else if Word(blob[pos..pos + 4]) != magic then Parse(blob, pos + 1, magic)
    else if |blob| < pos + 8 then NoBlockSize
    else
      var start := pos + 8;
      var end := start + Word(blob[pos + 4..start]);
      if |blob| < start + 4 then Blocks([])
      else if Word(blob[start..start + 4]) == magic then Parse(blob, start, magic)
      else if |blob| < end then SliceOutOfRange
      else Cons((blob[start..end], end - start), Parse(blob, end, magic))
  }

  function Cons(b: (seq<Byte>, nat), rest: Parsed): Parsed {
    if rest.Blocks? then Blocks([b] + rest.blocks) else rest
  }

  /** The blocks found so far, before what the rest of the file holds. */
  function Found(slices: seq<(seq<Byte>, nat)>, rest: Parsed): Parsed {
    if rest.Blocks? then Blocks(slices + rest.blocks) else rest
  }

  method ParseBlocks(blob: seq<Byte>, magic: nat) returns (r: Parsed)
    ensures r == Parse(blob, 0, magic)
  {
    hide Word;
    var pos := 0;
    var slices: seq<(seq<Byte>, nat)> := [];
    while pos < |blob|
      invariant 0 <= pos <= |blob|
      invariant Parse(blob, 0, magic) == Found(slices, Parse(blob, pos, magic))
    {
      var offset := pos;
      if |blob| < offset + 4 {
        break; // end of file
      }
      if Word(blob[offset..offset + 4]) != magic {
        pos := offset + 1;
        continue;
      }
      if |blob| < offset + 8 {
        return NoBlockSize;
      }
      var blockSize := Word(blob[offset + 4..offset + 8]);
      var start := offset + 8;
      var end := start + blockSize;
      if |blob| < start + 4 {
        pos := start;
        break; // end of file
      }
      if Word(blob[start..start + 4]) == magic {
        pos := start;
        continue;
      }
      if |blob| < end {
        return SliceOutOfRange;
      }
      slices := slices + [(blob[start..end], blockSize)];
      pos := end;
    }
    return Blocks(slices);
  }

  // ----- the files it is for

  /** A zero byte of padding, a record whose body was never written, or a complete record. */
  datatype Segment = Zero | Aborted(size: nat) | Record(body: seq<Byte>)

  function Encode(magic: nat, segs: seq<Segment>): seq<Byte>
    decreases |segs|
  {
    if segs == [] then []
    else EncodeOne(magic, segs[0]) + Encode(magic, segs[1..])
  }

  function EncodeOne(magic: nat, s: Segment): seq<Byte> {
    match s
    case Zero => [0]
    case Aborted(size) => Bytes(magic) + Bytes(size)
    case Record(body) => Bytes(magic) + Bytes(|body|) + body
  }

  function Bodies(segs: seq<Segment>): seq<(seq<Byte>, nat)>
    decreases |segs|
  {
    if segs == [] then []
    else (if segs[0].Record? then [(segs[0].body, |segs[0].body|)] else []) + Bodies(segs[1..])
  }

  /** Sizes fit their words, and a body does not start with the magic. */
  ghost predicate Sized(magic: nat, segs: seq<Segment>) {
    forall i :: 0 <= i < |segs| ==>
                  match segs[i]
                  case Zero => true
                  case Aborted(size) => size < U32
                  case Record(body) => 4 <= |body| < U32 && Word(body[..4]) != magic
  }

  /** Every aborted record is directly followed by another record, or by less than a word. */
  ghost predicate Skipped(magic: nat, segs: seq<Segment>)
    decreases |segs|
  {
    segs != [] ==> Skipped(magic, segs[1..]) && (segs[0].Aborted? ==> Skips(magic, segs[1..]))
  }

  ghost predicate Skips(magic: nat, rest: seq<Segment>) {
    (rest != [] && !rest[0].Zero?) || |Encode(magic, rest)| < 4
  }

  lemma {:induction false} ShortIsPadding(magic: nat, segs: seq<Segment>)
    requires |Encode(magic, segs)| < 8
    ensures Bodies(segs) == []
    decreases |segs|
  {
    if segs != [] {
      ShortIsPadding(magic, segs[1..]);
    }
  }

  lemma {:induction false} StartsWithMagic(magic: nat, segs: seq<Segment>)
    requires magic < U32 && segs != [] && !segs[0].Zero?
    ensures |Encode(magic, segs)| >= 8 && Word(Encode(magic, segs)[..4]) == magic
  {
    WordOfBytes(magic);
    assert Encode(magic, segs)[..4] == Bytes(magic);
  }

  lemma {:induction false} Apart(before: seq<Byte>, magic: nat, segs: seq<Segment>)
    requires segs != []
    ensures before + Encode(magic, segs) == before + EncodeOne(magic, segs[0]) + Encode(magic, segs[1..])
  {
    hide EncodeOne;
  }

  /** From the start of any segment on, the parser recovers exactly the bodies and sizes of the
      complete records, in order. */
  lemma {:induction false} Recovers(magic: nat, before: seq<Byte>, segs: seq<Segment>)
    requires magic < U32 && magic % 256 != 0 && Sized(magic, segs) && Skipped(magic, segs)
    ensures Parse(before + Encode(magic, segs), |before|, magic) == Blocks(Bodies(segs))
    decreases |segs|
  {
    hide Parse, Encode, EncodeOne, Word, Bytes, Over;
    if segs == [] {
      Nothing(magic, segs);
      ParseShort(magic, before, segs);
    } else {
      Apart(before, magic, segs);
      SizedTail(magic, segs);
      Recovers(magic, before + EncodeOne(magic, segs[0]), segs[1..]);
      ParseFirst(magic, before, segs);
      OverIs(segs, Parse(before + Encode(magic, segs), |before + EncodeOne(magic, segs[0])|, magic));
    }
  }

  lemma {:induction false} SizedTail(magic: nat, segs: seq<Segment>)
    requires Sized(magic, segs) && segs != []
    ensures Sized(magic, segs[1..]) && Sized(magic, segs[..1])
  {
    hide Word;
  }

  /** What a segment adds to the blocks that the rest of the file holds. */
  function Over(seg: Segment, later: Parsed): Parsed {
    if seg.Record? then Cons((seg.body, |seg.body|), later) else later
  }

  lemma {:induction false} OverIs(segs: seq<Segment>, later: Parsed)
    requires segs != []
    ensures Over(segs[0], later) == Blocks(Bodies(segs)) <==> later == Blocks(Bodies(segs[1..]))
  {
    if later.Blocks? && segs[0].Record? {
      assert ([(segs[0].body, |segs[0].body|)] + later.blocks)[1..] == later.blocks;
      assert Bodies(segs)[1..] == Bodies(segs[1..]);
    }
  }

  /** One step of the parser over a segment, unless that is an aborted record which is not
      skipped. */
  lemma {:induction false} ParseFirst(magic: nat, before: seq<Byte>, segs: seq<Segment>)
    requires magic < U32 && magic % 256 != 0 && Sized(magic, segs) && segs != []
    requires segs[0].Aborted? ==> Skips(magic, segs[1..])
    ensures var blob, next := before + Encode(magic, segs), |before + EncodeOne(magic, segs[0])|;
            next <= |blob| && Parse(blob, |before|, magic) == Over(segs[0], Parse(blob, next, magic))
  {
    hide Parse, Encode, EncodeOne, Word, Bytes;
    Apart(before, magic, segs);
    WordOfBytes(magic);
    var rest := Encode(magic, segs[1..]);
    match segs[0]
    case Zero =>
      ParseZero(magic, before, rest);
    case Aborted(size) =>
      if segs[1..] != [] && !segs[1..][0].Zero? {
        StartsWithMagic(magic, segs[1..]);
        ParseAborted(magic, before, size, rest);
      } else {
        ParseCut(magic, before, size, rest);
      }
    case Record(body) =>
      WordOfBytes(|body|);
      ParseRecord(magic, before, body, rest);
  }

  lemma {:induction false} Nothing(magic: nat, segs: seq<Segment>)
    ensures Encode(magic, segs) == [] <==> segs == []
    ensures segs == [] ==> Bodies(segs) == []
  {
  }

  lemma {:induction false} ParseShort(magic: nat, before: seq<Byte>, segs: seq<Segment>)
    requires |Encode(magic, segs)| < 4
    ensures Parse(before + Encode(magic, segs), |before|, magic) == Blocks(Bodies(segs))
  {
    ShortIsPadding(magic, segs);
  }

  /** One step over a byte of padding. */
  lemma {:induction false} ParseZero(magic: nat, before: seq<Byte>, rest: seq<Byte>)
    requires magic % 256 != 0
    ensures var blob := before + EncodeOne(magic, Zero) + rest;
            Parse(blob, |before|, magic) == Parse(blob, |before| + 1, magic)
    ensures |EncodeOne(magic, Zero)| == 1
  {
    hide Word;
    var blob, pos := before + EncodeOne(magic, Zero) + rest, |before|;
    if |blob| >= pos + 4 {
      assert blob[pos..pos + 4][0] == 0;
    }
  }

  /** One step over an aborted record that another record follows. */
  lemma {:induction false} ParseAborted(magic: nat, before: seq<Byte>, size: nat, rest: seq<Byte>)
    requires Word(Bytes(magic)) == magic && |rest| >= 4 && Word(rest[..4]) == magic
    ensures var one := EncodeOne(magic, Aborted(size));
            var blob := before + one + rest;
            Parse(blob, |before|, magic) == Parse(blob, |before + one|, magic)
  {
    hide Word, Bytes;
    var blob, pos := before + EncodeOne(magic, Aborted(size)) + rest, |before|;
    assert blob[pos..pos + 4] == Bytes(magic);
    assert blob[pos + 8..pos + 12] == rest[..4];
  }

  /** One step over an aborted record after which the file ends. */
  lemma {:induction false} ParseCut(magic: nat, before: seq<Byte>, size: nat, rest: seq<Byte>)
    requires Word(Bytes(magic)) == magic && |rest| < 4
    ensures var one := EncodeOne(magic, Aborted(size));
            var blob := before + one + rest;
            Parse(blob, |before|, magic) == Blocks([]) == Parse(blob, |before + one|, magic)
  {
    hide Word, Bytes;
    var blob, pos := before + EncodeOne(magic, Aborted(size)) + rest, |before|;
    assert blob[pos..pos + 4] == Bytes(magic);
  }

  /** An aborted record that anything else follows, padding for example: what follows is taken for
      its body, or the slice ends beyond the file. */
  lemma {:induction false} ParseMistaken(magic: nat, before: seq<Byte>, size: nat, rest: seq<Byte>)
    requires magic < U32 && size < U32 && |rest| >= 4 && Word(rest[..4]) != magic
    ensures var one := EncodeOne(magic, Aborted(size));
            var blob := before + one + rest;
            if |rest| < size then Parse(blob, |before|, magic) == SliceOutOfRange
            else Parse(blob, |before|, magic) == Cons((rest[..size], size), Parse(blob, |before + one| + size, magic))
  {
    hide Word, Bytes;
    WordOfBytes(magic);
    WordOfBytes(size);
    var one := EncodeOne(magic, Aborted(size));
    var blob, pos := before + one + rest, |before|;
    assert one[..4] == Bytes(magic) && one[4..8] == Bytes(size);
    assert blob[pos..pos + 4] == one[..4] && blob[pos + 4..pos + 8] == one[4..8];
    assert blob[pos + 8..pos + 12] == rest[..4];
    if size <= |rest| {
      assert blob[pos + 8..pos + 8 + size] == rest[..size];
    }
  }

  /** One step over a complete record. */
  lemma {:induction false} ParseRecord(magic: nat, before: seq<Byte>, body: seq<Byte>, rest: seq<Byte>)
    requires Word(Bytes(magic)) == magic && Word(Bytes(|body|)) == |body| && |body| >= 4 && Word(body[..4]) != magic
    ensures var one := EncodeOne(magic, Record(body));
            var blob := before + one + rest;
            Parse(blob, |before|, magic) == Cons((body, |body|), Parse(blob, |before + one|, magic))
  {
    hide Word, Bytes, Parse;
    RecordSlices(before, Bytes(magic), Bytes(|body|), body, rest);
    ParseStep(before + EncodeOne(magic, Record(body)) + rest, |before|, magic, |body|);
  }

  lemma {:induction false} RecordSlices(before: seq<Byte>, magic: seq<Byte>, size: seq<Byte>, body: seq<Byte>,
                                        rest: seq<Byte>)
    requires |magic| == 4 && |size| == 4 && |body| >= 4
    ensures var blob, pos := before + (magic + size + body) + rest, |before|;
            && |blob| >= pos + 8 + |body|
            && blob[pos..pos + 4] == magic && blob[pos + 4..pos + 8] == size
            && blob[pos + 8..pos + 8 + |body|] == body && blob[pos + 8..pos + 12] == body[..4]
  {
    var blob, pos := before + (magic + size + body) + rest, |before|;
    assert blob[pos..pos + 8 + |body|] == magic + size + body;
    var one := magic + size + body;
    assert one[..4] == magic && one[4..8] == size && one[8..] == body;
    assert blob[pos..pos + 4] == one[..4] && blob[pos + 4..pos + 8] == one[4..8];
    assert blob[pos + 8..pos + 8 + |body|] == one[8..];
    assert blob[pos + 8..pos + 12] == one[8..][..4];
  }

  lemma {:induction false} ParseStep(blob: seq<Byte>, pos: nat, magic: nat, size: nat)
    requires size >= 4 && |blob| >= pos + 8 + size
    requires Word(blob[pos..pos + 4]) == magic && Word(blob[pos + 4..pos + 8]) == size
             && Word(blob[pos + 8..pos + 12]) != magic
    ensures Parse(blob, pos, magic) == Cons((blob[pos + 8..pos + 8 + size], size), Parse(blob, pos + 8 + size, magic))
  {
    hide Word;
  }

  /** A file of padding, skipped aborted records, and complete records. */
  lemma {:induction false} RoundTrip(magic: nat, segs: seq<Segment>)
    requires magic < U32 && magic % 256 != 0 && Sized(magic, segs) && Skipped(magic, segs)
    ensures Parse(Encode(magic, segs), 0, magic) == Blocks(Bodies(segs))
  {
    Recovers(magic, [], segs);
    assert [] + Encode(magic, segs) == Encode(magic, segs);
  }

  // ----- exactly when a file is recovered

  /** Some zeros and then the start of the magic: how a file goes on after an aborted record. */
  predicate Padded(magic: nat, bs: seq<Byte>)
    decreases |bs|
  {
    bs == [] || bs <= Bytes(magic) || (bs[0] == 0 && Padded(magic, bs[1..]))
  }

  /** No body starts like padding: its first word, the version of the block, is not made of
      zeros and the start of the magic. */
  ghost predicate Genuine(magic: nat, segs: seq<Segment>) {
    forall i :: 0 <= i < |segs| && segs[i].Record? ==> |segs[i].body| >= 4 && !Padded(magic, segs[i].body[..4])
  }

  lemma {:induction false} FileIsPadded(magic: nat, segs: seq<Segment>, n: nat)
    requires n <= 4 && n <= |Encode(magic, segs)|
    ensures Padded(magic, Encode(magic, segs)[..n])
    decreases |segs|
  {
    hide Bytes;
    var bs := Encode(magic, segs)[..n];
    if n > 0 {
      if segs[0].Zero? {
        FileIsPadded(magic, segs[1..], n - 1);
        assert bs[1..] == Encode(magic, segs[1..])[..n - 1];
      } else {
        assert EncodeOne(magic, segs[0])[..4] == Bytes(magic);
        assert bs == EncodeOne(magic, segs[0])[..4][..n];
      }
    }
  }

  /** A body that was taken from after an aborted record is none of the file's. */
  lemma {:induction false} NotABody(magic: nat, segs: seq<Segment>, size: nat)
    requires Genuine(magic, segs) && 4 <= |Encode(magic, segs)| && size <= |Encode(magic, segs)| && Bodies(segs) != []
    ensures Bodies(segs)[0] != (Encode(magic, segs)[..size], size)
  {
    hide Encode, Padded;
    FileIsPadded(magic, segs, 4);
    FirstBody(magic, segs);
    assert size >= 4 ==> Encode(magic, segs)[..size][..4] == Encode(magic, segs)[..4];
  }

  lemma {:induction false} FirstBody(magic: nat, segs: seq<Segment>)
    requires Genuine(magic, segs) && Bodies(segs) != []
    ensures var b := Bodies(segs)[0]; |b.0| == b.1 && b.1 >= 4 && !Padded(magic, b.0[..4])
    decreases |segs|
  {
    hide Padded;
    if !segs[0].Record? {
      assert Bodies(segs) == Bodies(segs[1..]);
      FirstBody(magic, segs[1..]);
    }
  }

  /** From the start of any segment on, exactly the complete records are recovered if and only if
      every aborted record is skipped. */
  lemma {:induction false} RecoversIff(magic: nat, before: seq<Byte>, segs: seq<Segment>)
    requires magic < U32 && magic % 256 != 0 && Sized(magic, segs) && Genuine(magic, segs)
    ensures Parse(before + Encode(magic, segs), |before|, magic) == Blocks(Bodies(segs)) <==> Skipped(magic, segs)
    decreases |segs|
  {
    hide Parse, Encode, EncodeOne, Word, Bytes, Padded, Skips, Over, Bodies;
    if segs == [] {
      Recovers(magic, before, segs);
    } else {
      Apart(before, magic, segs);
      SizedTail(magic, segs);
      RecoversIff(magic, before + EncodeOne(magic, segs[0]), segs[1..]);
      if segs[0].Aborted? && !Skips(magic, segs[1..]) {
        Mistaken(magic, before, segs);
      } else {
        ParseFirst(magic, before, segs);
        OverIs(segs, Parse(before + Encode(magic, segs), |before + EncodeOne(magic, segs[0])|, magic));
      }
    }
  }

  lemma {:induction false} Mistaken(magic: nat, before: seq<Byte>, segs: seq<Segment>)
    requires magic < U32 && magic % 256 != 0 && Sized(magic, segs) && Genuine(magic, segs)
    requires segs != [] && segs[0].Aborted? && !Skips(magic, segs[1..])
    ensures Parse(before + Encode(magic, segs), |before|, magic) != Blocks(Bodies(segs))
  {
    hide Parse, Word, Bytes, Padded;
    var rest, size := Encode(magic, segs[1..]), segs[0].size;
    Apart(before, magic, segs);
    ZeroFirst(magic, segs[1..]);
    NotMagic(magic, rest);
    ParseMistaken(magic, before, size, rest);
    assert Bodies(segs) == Bodies(segs[1..]);
    assert Genuine(magic, segs[1..]);
    if size <= |rest| && Bodies(segs) != [] {
      NotABody(magic, segs[1..], size);
    }
  }

  lemma {:induction false} ZeroFirst(magic: nat, rest: seq<Segment>)
    requires !Skips(magic, rest)
    ensures |Encode(magic, rest)| >= 4 && Encode(magic, rest)[0] == 0
  {
  }

  lemma {:induction false} NotMagic(magic: nat, rest: seq<Byte>)
    requires magic % 256 != 0 && |rest| >= 4 && rest[0] == 0
    ensures Word(rest[..4]) != magic
  {
    assert Word(rest[..4]) % 256 == rest[..4][0];
  }

  /** A file is recovered if and only if each of its aborted records is directly followed by
      another record, or by less than four bytes. */
  lemma {:induction false} RecoveredIff(magic: nat, segs: seq<Segment>)
    requires magic < U32 && magic % 256 != 0 && Sized(magic, segs) && Genuine(magic, segs)
    ensures Parse(Encode(magic, segs), 0, magic) == Blocks(Bodies(segs)) <==> Skipped(magic, segs)
  {
    RecoversIff(magic, [], segs);
    assert [] + Encode(magic, segs) == Encode(magic, segs);
  }

  /** Wherever the scan meets the magic with less than a word after it, it fails. */
  lemma {:induction false} NoSize(blob: seq<Byte>, pos: nat, magic: nat)
    requires pos + 4 <= |blob| < pos + 8 && Word(blob[pos..pos + 4]) == magic
    ensures Parse(blob, pos, magic) == NoBlockSize
  {
    hide Word;
  }

  /** A file that ends within four bytes after the magic is refused, whatever records came before. */
  lemma {:induction false} CutFile(magic: nat, before: seq<Byte>, segs: seq<Segment>, rest: seq<Byte>)
    requires magic < U32 && magic % 256 != 0 && Sized(magic, segs) && |rest| < 4
    requires forall i :: 0 <= i < |segs| - 1 && segs[i].Aborted? ==> !segs[i + 1].Zero?
    ensures Parse(before + (Encode(magic, segs) + (Bytes(magic) + rest)), |before|, magic) == NoBlockSize
    decreases |segs|
  {
    hide Parse, Encode, EncodeOne, Word, Bytes;
    var end := Bytes(magic) + rest;
    WordOfBytes(magic);
    if segs == [] {
      Nothing(magic, segs);
      assert before + (Encode(magic, segs) + end) == before + end;
      assert (before + end)[|before|..|before| + 4] == Bytes(magic);
      NoSize(before + end, |before|, magic);
    } else {
      var one, later := EncodeOne(magic, segs[0]), Encode(magic, segs[1..]) + end;
      EncodeFirst(magic, segs);
      assert before + (one + Encode(magic, segs[1..]) + end) == before + one + later;
      SizedTail(magic, segs);
      CutFile(magic, before + one, segs[1..], rest);
      match segs[0]
      case Zero =>
        ParseZero(magic, before, later);
      case Aborted(size) =>
        MagicNext(magic, segs[1..], rest);
        ParseAborted(magic, before, size, later);
      case Record(body) =>
        WordOfBytes(|body|);
        ParseRecord(magic, before, body, later);
    }
  }

  lemma {:induction false} EncodeFirst(magic: nat, segs: seq<Segment>)
    requires segs != []
    ensures Encode(magic, segs) == EncodeOne(magic, segs[0]) + Encode(magic, segs[1..])
  {
    hide EncodeOne;
  }

  lemma {:induction false} MagicNext(magic: nat, segs: seq<Segment>, rest: seq<Byte>)
    requires magic < U32 && (segs != [] ==> !segs[0].Zero?)
    ensures var later := Encode(magic, segs) + (Bytes(magic) + rest);
            |later| >= 4 && Word(later[..4]) == magic
  {
    hide Word, Bytes;
    WordOfBytes(magic);
    var later := Encode(magic, segs) + (Bytes(magic) + rest);
    if segs == [] {
      assert later[..4] == Bytes(magic);
    } else {
      StartsWithMagic(magic, segs);
      assert later[..4] == Encode(magic, segs)[..4];
    }
  }

  ghost predicate RecordAt(blob: seq<Byte>, at: nat, magic: nat, b: (seq<Byte>, nat)) {
    && at + 8 + b.1 <= |blob| && Word(blob[at..at + 4]) == magic
    && Word(blob[at + 4..at + 8]) == b.1 && blob[at + 8..at + 8 + b.1] == b.0
  }

  /** Whatever the file, every block returned is one of its slices, of the size that the word
      before it names, after the magic. */
  lemma {:induction false} OnlyRecords(blob: seq<Byte>, pos: nat, magic: nat, k: nat)
    requires pos <= |blob| && Parse(blob, pos, magic).Blocks? && k < |Parse(blob, pos, magic).blocks|
    ensures exists at :: pos <= at && RecordAt(blob, at, magic, Parse(blob, pos, magic).blocks[k])
    decreases |blob| - pos
  {
    hide Word;
    var all := Parse(blob, pos, magic).blocks;
    if Word(blob[pos..pos + 4]) != magic {
      OnlyRecords(blob, pos + 1, magic, k);
    } else if Word(blob[pos + 8..pos + 12]) == magic {
      OnlyRecords(blob, pos + 8, magic, k);
    } else if k > 0 {
      var end := pos + 8 + Word(blob[pos + 4..pos + 8]);
      OnlyRecords(blob, end, magic, k - 1);
      assert all[k] == Parse(blob, end, magic).blocks[k - 1];
    } else {
      assert RecordAt(blob, pos, magic, all[0]);
    }
  }

  /** An aborted record at the end of any file, before any number of zeros, is skipped if and only
      if there are fewer than four of them. */
  lemma {:induction false} AbortedThenPadding(magic: nat, before: seq<Byte>, size: nat, rest: seq<Byte>)
    requires magic < U32 && magic % 256 != 0 && size < U32 && forall i :: 0 <= i < |rest| ==> rest[i] == 0
    ensures var blob := before + EncodeOne(magic, Aborted(size)) + rest;
            && (Parse(blob, |before|, magic) == Blocks([]) <==> |rest| < 4)
            && (4 <= |rest| < size ==> Parse(blob, |before|, magic) == SliceOutOfRange)
            && (|rest| >= 4 && |rest| >= size ==>
                  Parse(blob, |before|, magic) == Blocks([(rest[..size], size)]))
  {
    hide Parse, Word, Bytes;
    var one := EncodeOne(magic, Aborted(size));
    var blob := before + one + rest;
    WordOfBytes(magic);
    if |rest| < 4 {
      ParseCut(magic, before, size, rest);
    } else {
      NotMagic(magic, rest);
      ParseMistaken(magic, before, size, rest);
      if size <= |rest| {
        ParseNone(blob, |before + one| + size, magic);
      }
    }
  }

  /** Where the magic starts nowhere, nothing is found. */
  lemma {:induction false} ParseNone(blob: seq<Byte>, pos: nat, magic: nat)
    requires pos <= |blob| && forall i :: pos <= i < |blob| - 3 ==> blob[i] != magic % 256
    ensures Parse(blob, pos, magic) == Blocks([])
    decreases |blob| - pos
  {
    hide Word;
    if |blob| >= pos + 4 {
      assert blob[pos..pos + 4][0] == blob[pos];
      ParseNone(blob, pos + 1, magic);
    }
  }

  const MAINNET: nat := 0xD9B4_BEF9
  const ACCIDENT: seq<Segment> := [Aborted(4), Zero, Record([0, 0xF9, 0xBE, 0xB4])]

  /** A body that starts like padding: the aborted record is not skipped, and what is taken for its
      body happens to be that of the record after it. */
  lemma {:induction false} RightByAccident()
    ensures Sized(MAINNET, ACCIDENT) && !Skipped(MAINNET, ACCIDENT) && !Genuine(MAINNET, ACCIDENT)
    ensures Parse(Encode(MAINNET, ACCIDENT), 0, MAINNET) == Blocks(Bodies(ACCIDENT))
  {
    hide Encode, Skipped, Bodies, Sized, Genuine, Word, Parse, Bytes;
    var magic, segs, body: seq<Byte> := MAINNET, ACCIDENT, [0, 0xF9, 0xBE, 0xB4];
    var rest: seq<Byte> := [0, 0xF9, 0xBE, 0xB4, 0xD9, 4, 0, 0, 0, 0, 0xF9, 0xBE, 0xB4];
    AccidentEncoded(rest);
    assert rest[..4] == body;
    ParseMistaken(magic, [], 4, rest);
    var blob := [] + EncodeOne(magic, Aborted(4)) + rest;
    assert blob == Encode(magic, segs);
    ParseNone(blob, 12, magic);
    AccidentBody();
  }

  lemma {:induction false} AccidentEncoded(rest: seq<Byte>)
    requires rest == [0, 0xF9, 0xBE, 0xB4, 0xD9, 4, 0, 0, 0, 0, 0xF9, 0xBE, 0xB4]
    ensures Encode(MAINNET, ACCIDENT) == EncodeOne(MAINNET, Aborted(4)) + rest
    ensures !Skipped(MAINNET, ACCIDENT)
  {
    var body: seq<Byte> := [0, 0xF9, 0xBE, 0xB4];
    assert ACCIDENT[1..] == [Zero, Record(body)] && ACCIDENT[1..][1..] == [Record(body)];
    assert Encode(MAINNET, [Record(body)]) == EncodeOne(MAINNET, Record(body)) by {
      assert [Record(body)][1..] == [];
    }
    assert Bytes(MAINNET) == [0xF9, 0xBE, 0xB4, 0xD9] && Bytes(4) == [4, 0, 0, 0];
    assert Encode(MAINNET, [Zero, Record(body)]) == rest;
  }

  lemma {:induction false} AccidentBody()
    ensures Sized(MAINNET, ACCIDENT) && !Genuine(MAINNET, ACCIDENT)
    ensures Bodies(ACCIDENT) == [([0, 0xF9, 0xBE, 0xB4], 4)]
  {
    var body: seq<Byte> := [0, 0xF9, 0xBE, 0xB4];
    assert body[..4] == body && body[1..] == Bytes(MAINNET)[..3];
    assert Padded(MAINNET, body);
    assert ACCIDENT[1..] == [Zero, Record(body)] && ACCIDENT[1..][1..] == [Record(body)];
    assert Bodies([Record(body)]) == [(body, 4)];
    assert ACCIDENT[2].Record?;
  }
}
