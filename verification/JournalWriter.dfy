/** The exclusive writer of one journal directory: append with rotation. */
module JournalWriter {
  import opened Common
  import opened Journal
  import R = RecordRef

  const MAXIMUM_SEGMENTS := 0x1_0000_0000

  /** The blocks of every segment a writer has opened, in segment order. */
  type Layout = seq<seq<Block>>

  ghost predicate AllFramed(layout: Layout) {
    forall s :: 0 <= s < |layout| ==> SegmentFramed(layout[s])
  }

  ghost predicate SegmentFramed(blocks: seq<Block>) {
    forall b :: b in blocks ==> Framed(b)
  }

  ghost predicate OnDisk(files: seq<Bytes>, layout: Layout) {
    |files| == |layout| && forall s :: 0 <= s < |files| ==> files[s] == Laid(layout[s])
  }

  lemma NewSegment(files: seq<Bytes>, layout: Layout)
    requires AllFramed(layout) && OnDisk(files, layout)
    ensures AllFramed(layout + [[]]) && OnDisk(files + [HEADER], layout + [[]])
  {
    assert Laid([]) == HEADER;
  }

  lemma Grown(files: seq<Bytes>, layout: Layout, b: Block)
    requires layout != [] && AllFramed(layout) && OnDisk(files, layout) && Framed(b)
    ensures var s := |layout| - 1; var after := layout[s := layout[s] + [b]];
      && AllFramed(after) && OnDisk(files[s := files[s] + BlockBytes(b)], after)
      && Offset(after[s], |layout[s]|) == |files[s]|
  {
    AppendedBlock(layout[|layout| - 1], b);
  }

  /** The open segment is kept unless it already holds a frame and `size` more bytes would take it
      over the limit; then the next one is opened. */
  function Opened(layout: Layout, size: nat, limit: nat): (r: Layout)
    requires layout != []
    ensures r != []
  {
    var last := layout[|layout| - 1];
    if last == [] || |Laid(last)| + size <= limit then layout else layout + [[]]
  }

  function Placed(layout: Layout, b: Block, limit: nat): Layout
    requires layout != []
  {
    var r := Opened(layout, BlockSize(b), limit);
    r[|r| - 1 := r[|r| - 1] + [b]]
  }

  function PlacedAll(blocks: seq<Block>, limit: nat): (layout: Layout)
    ensures layout != []
  {
    if blocks == [] then [[]] else Placed(PlacedAll(blocks[..|blocks| - 1], limit), blocks[|blocks| - 1], limit)
  }

  /** The frame written last, and the reference to it. */
  ghost predicate HasNewest(layout: Layout) {
    layout != [] && layout[|layout| - 1] != [] && Framed(Newest(layout))
  }

  ghost function Newest(layout: Layout): Block
    requires layout != [] && layout[|layout| - 1] != []
  {
    var blocks := layout[|layout| - 1];
    blocks[|blocks| - 1]
  }

  ghost function NewestRef(writer: string, layout: Layout): R.Ref
    requires HasNewest(layout)
  {
    var s := |layout| - 1;
    RefTo(writer, s, Offset(layout[s], |layout[s]| - 1), Newest(layout))
  }

  // ---------- the writer ----------

  class Writer<T(!new)> {
    const codec: Codec<T>
    const writer: string
    const limit: nat
    var files: seq<Bytes>
    var usable: bool
    ghost var layout: Layout

    ghost predicate Valid() reads this {
      && ValidCodec(codec) && CanonicalUuid(writer)
      && layout != [] && |layout| <= MAXIMUM_SEGMENTS && AllFramed(layout) && OnDisk(files, layout)
    }

    constructor (codec: Codec<T>, writer: string, limit: nat)
      requires ValidCodec(codec) && CanonicalUuid(writer)
      ensures Valid() && usable && layout == [[]] && this.codec == codec && this.writer == writer && this.limit == limit
    {
      this.codec, this.writer, this.limit := codec, writer, limit;
      files, usable, layout := [HEADER], true, [[]];
    }

    /** On success the record is the last block of the last segment and the text refers to it there.
        A payload whose length does not fit the length field changes nothing; running out of
        segment numbers closes the writer and leaves every file as it was. */
    method Append(record: T) returns (ref: Option<string>)
      requires Valid()
      modifies this`files, this`usable, this`layout
      ensures Valid()
      ensures ref.None? <==> Refused(codec.encode(record), old(usable), old(layout))
      ensures ref.None? ==> files == old(files) && layout == old(layout)
      ensures ref.Some? ==> usable && layout == Placed(old(layout), Stored(codec, record), limit)
      ensures ref.Some? ==>
        HasNewest(layout) && Newest(layout) == Stored(codec, record) && ref.value == R.Encode(NewestRef(writer, layout))
    {
      var stored := Store(record);
      ref := if stored.Some? then Some(R.Encode(stored.value)) else None;
    }

    predicate Refused(payload: Bytes, usable: bool, layout: Layout)
      requires layout != []
    {
      || |payload| >= WORD || !usable
      || |Placed(layout, Block(payload, Digest(codec, payload)), limit)| > MAXIMUM_SEGMENTS
    }

    method Store(record: T) returns (ref: Option<R.Ref>)
      requires Valid()
      modifies this`files, this`usable, this`layout
      ensures Valid()
      ensures ref.None? <==> Refused(codec.encode(record), old(usable), old(layout))
      ensures ref.None? ==> files == old(files) && layout == old(layout)
      ensures ref.Some? ==> usable && layout == Placed(old(layout), Stored(codec, record), limit)
      ensures ref.Some? ==>
        && HasNewest(layout) && Newest(layout) == Stored(codec, record)
        && ref.value == NewestRef(writer, layout)
    {
      var payload := codec.encode(record);
      if |payload| >= WORD || !usable { return None; }
      var block := Block(payload, Digest(codec, payload));
      var ready := RotateIfNeeded(BlockSize(block));
      if !ready { return None; }
      var reference := Write(block);
      ref := Some(reference);
    }

    /** The bytes go to the end of the open segment; the reference names where they begin. */
    method Write(block: Block) returns (reference: R.Ref)
      requires Valid() && Framed(block)
      modifies this`files, this`layout
      ensures Valid()
      ensures var s := |old(layout)| - 1; layout == old(layout)[s := old(layout)[s] + [block]]
      ensures HasNewest(layout) && Newest(layout) == block && reference == NewestRef(writer, layout)
    {
      var s := |files| - 1;
      var offset := |files[s]|;
      Grown(files, layout, block);
      files := files[s := files[s] + BlockBytes(block)];
      layout := layout[s := layout[s] + [block]];
      reference := R.Ref(writer, s, offset, |block.payload|, HexText(block.checksum[..16]));
    }

    method RotateIfNeeded(size: nat) returns (ready: bool)
      requires Valid() && usable
      modifies this`files, this`usable, this`layout
      ensures Valid()
      ensures ready <==> |Opened(old(layout), size, limit)| <= MAXIMUM_SEGMENTS
      ensures usable == ready
      ensures layout == if ready then Opened(old(layout), size, limit) else old(layout)
      ensures !ready ==> files == old(files)
    {
      var s := |files| - 1;
      EmptyIffHeader(layout[s]);
      if |files[s]| == |HEADER| || |files[s]| + size <= limit { return true; }
      if s + 1 > MAXIMUM_SEGMENTS - 1 {
        usable := false;
        return false;
      }
      NewSegment(files, layout);
      files := files + [HEADER];
      layout := layout + [[]];
      return true;
    }
  }

  lemma AppendedBlock(blocks: seq<Block>, b: Block)
    requires SegmentFramed(blocks) && Framed(b)
    ensures Laid(blocks + [b]) == Laid(blocks) + BlockBytes(b)
    ensures Offset(blocks + [b], |blocks|) == |Laid(blocks)|
  {
    assert (blocks + [b])[..|blocks|] == blocks;
    LaidSize(blocks);
    OffsetOfPrefix(blocks + [b], blocks, |blocks|);
  }

  lemma EmptyIffHeader(blocks: seq<Block>)
    requires SegmentFramed(blocks)
    ensures |Laid(blocks)| == |HEADER| <==> blocks == []
  {
    LaidSize(blocks);
    OffsetsGrow(blocks, 0, |blocks|);
  }

  // ---------- what later appends leave alone ----------

  /** Closed segments are untouched and the open one only grows. */
  ghost predicate Extends(before: Layout, after: Layout) {
    |before| <= |after| && forall s :: 0 <= s < |before| ==> before[s] <= after[s]
  }

  lemma PlacedExtends(layout: Layout, b: Block, limit: nat)
    requires layout != []
    ensures Extends(layout, Placed(layout, b, limit))
  {
  }

  lemma {:induction false} LaterExtends(blocks: seq<Block>, i: nat, limit: nat)
    requires i <= |blocks|
    ensures Extends(PlacedAll(blocks[..i], limit), PlacedAll(blocks, limit))
    decreases |blocks|
  {
    if i == |blocks| {
      assert blocks[..i] == blocks;
    } else {
      var shorter := blocks[..|blocks| - 1];
      assert shorter[..i] == blocks[..i];
      LaterExtends(shorter, i, limit);
      PlacedExtends(PlacedAll(shorter, limit), blocks[|blocks| - 1], limit);
    }
  }

  /** The segment and the place in it that append number i used. */
  function SegmentOf(blocks: seq<Block>, i: nat, limit: nat): nat
    requires i < |blocks|
  {
    |PlacedAll(blocks[..i + 1], limit)| - 1
  }

  function IndexIn(blocks: seq<Block>, i: nat, limit: nat): int
    requires i < |blocks|
  {
    |PlacedAll(blocks[..i + 1], limit)[SegmentOf(blocks, i, limit)]| - 1
  }

  /** Append number j places its block after all earlier ones. */
  lemma NextPlaced(blocks: seq<Block>, j: nat, limit: nat)
    requires j < |blocks|
    ensures PlacedAll(blocks[..j + 1], limit) == Placed(PlacedAll(blocks[..j], limit), blocks[j], limit)
  {
    var next := blocks[..j + 1];
    assert next[..|next| - 1] == blocks[..j] && next[j] == blocks[j];
  }

  lemma PlacedLast(layout: Layout, b: Block, limit: nat)
    requires layout != []
    ensures var n, after := |layout| - 1, Placed(layout, b, limit);
      || (|after| == |layout| && after[n] == layout[n] + [b])
      || (|after| == |layout| + 1 && after[n + 1] == [b])
  {
  }

  lemma PlaceOf(blocks: seq<Block>, i: nat, limit: nat)
    requires i < |blocks|
    ensures var L := PlacedAll(blocks, limit); var s, k := SegmentOf(blocks, i, limit), IndexIn(blocks, i, limit);
      s < |L| && 0 <= k < |L[s]| && L[s][k] == blocks[i]
  {
    NextPlaced(blocks, i, limit);
    PlacedLast(PlacedAll(blocks[..i], limit), blocks[i], limit);
    LaterExtends(blocks, i + 1, limit);
    var first, s := PlacedAll(blocks[..i + 1], limit), SegmentOf(blocks, i, limit);
    assert first[s] <= PlacedAll(blocks, limit)[s];
  }

  /** No two appends use the same place. */
  lemma PlacesDiffer(blocks: seq<Block>, i: nat, j: nat, limit: nat)
    requires i < j < |blocks|
    ensures SegmentOf(blocks, i, limit) < SegmentOf(blocks, j, limit)
      || (SegmentOf(blocks, i, limit) == SegmentOf(blocks, j, limit)
        && IndexIn(blocks, i, limit) < IndexIn(blocks, j, limit))
  {
    ExtendsBetween(blocks, i + 1, j, limit);
    NextPlaced(blocks, j, limit);
    PlacedLast(PlacedAll(blocks[..j], limit), blocks[j], limit);
    LaterEnds(PlacedAll(blocks[..i + 1], limit), PlacedAll(blocks[..j], limit), PlacedAll(blocks[..j + 1], limit),
      blocks[j]);
  }

  lemma ExtendsBetween(blocks: seq<Block>, i: nat, j: nat, limit: nat)
    requires i <= j <= |blocks|
    ensures Extends(PlacedAll(blocks[..i], limit), PlacedAll(blocks[..j], limit))
  {
    LaterExtends(blocks[..j], i, limit);
    assert blocks[..j][..i] == blocks[..i];
  }

  lemma LaterEnds(first: Layout, before: Layout, after: Layout, b: Block)
    requires first != [] && Extends(first, before)
    requires var n := |before| - 1;
      (|after| == |before| && after[n] == before[n] + [b]) || (|after| == |before| + 1 && after[n + 1] == [b])
    ensures var s, t := |first| - 1, |after| - 1; s < t || (s == t && |first[s]| < |after[t]|)
  {
    var s := |first| - 1;
    assert first[s] <= before[s];
  }

  // ---------- the promises ----------

  function StoredAll<T>(c: Codec<T>, records: seq<T>): seq<Block> {
    seq(|records|, i requires 0 <= i < |records| => Stored(c, records[i]))
  }

  ghost predicate Storable<T(!new)>(c: Codec<T>, records: seq<T>) {
    ValidCodec(c) && forall i :: 0 <= i < |records| ==> |c.encode(records[i])| < WORD
  }

  /** The reference append number i returned. */
  function Reference<T>(c: Codec<T>, writer: string, records: seq<T>, i: nat, limit: nat): R.Ref
    requires i < |records| && Framed(Stored(c, records[i]))
  {
    var blocks := StoredAll(c, records);
    PlaceOf(blocks, i, limit);
    var s, k := SegmentOf(blocks, i, limit), IndexIn(blocks, i, limit);
    RefTo(writer, s, Offset(PlacedAll(blocks, limit)[s], k), Stored(c, records[i]))
  }

  lemma {:induction false} PlacedFramed(blocks: seq<Block>, limit: nat)
    requires SegmentFramed(blocks)
    ensures forall s :: 0 <= s < |PlacedAll(blocks, limit)| ==> SegmentFramed(PlacedAll(blocks, limit)[s])
  {
    if blocks != [] {
      PlacedFramed(blocks[..|blocks| - 1], limit);
      assert Framed(blocks[|blocks| - 1]);
    }
  }

  /** For every list of records and every segment limit, each reference keeps reading back its own
      record after all later appends and rotations. */
  lemma AppendedReadsBack<T(!new)>(c: Codec<T>, writer: string, records: seq<T>, i: nat, limit: nat)
    requires Storable(c, records) && i < |records|
    ensures var blocks := StoredAll(c, records); var r := Reference(c, writer, records, i, limit);
      && r.segment < |PlacedAll(blocks, limit)|
      && ReadFrame(c, Some(Laid(PlacedAll(blocks, limit)[r.segment])), r.offset, r.length, r.prefix) == Ok(records[i])
  {
    var blocks := StoredAll(c, records);
    assert SegmentFramed(blocks);
    PlacedFramed(blocks, limit);
    PlaceOf(blocks, i, limit);
    var s, k := SegmentOf(blocks, i, limit), IndexIn(blocks, i, limit);
    var segment := PlacedAll(blocks, limit)[s];
    SegmentReadsBack(c, segment, k);
  }

  /** Each append returns a reference of its own. */
  lemma ReferencesDiffer<T(!new)>(c: Codec<T>, writer: string, records: seq<T>, i: nat, j: nat, limit: nat)
    requires Storable(c, records) && CanonicalUuid(writer) && i < j < |records|
    ensures R.Encode(Reference(c, writer, records, i, limit)) != R.Encode(Reference(c, writer, records, j, limit))
  {
    PlacesOfReferencesDiffer(c, writer, records, i, j, limit);
    var a, b := Reference(c, writer, records, i, limit), Reference(c, writer, records, j, limit);
    if R.Encode(a) == R.Encode(b) {
      R.EncodeInjective(a, b);
    }
  }

  lemma PlacesOfReferencesDiffer<T(!new)>(c: Codec<T>, writer: string, records: seq<T>, i: nat, j: nat, limit: nat)
    requires Storable(c, records) && i < j < |records|
    ensures Reference(c, writer, records, i, limit) != Reference(c, writer, records, j, limit)
  {
    var blocks := StoredAll(c, records);
    PlacesDiffer(blocks, i, j, limit);
    PlaceOf(blocks, i, limit);
    PlaceOf(blocks, j, limit);
    var a, b := Reference(c, writer, records, i, limit), Reference(c, writer, records, j, limit);
    if a.segment == b.segment {
      OffsetsGrow(PlacedAll(blocks, limit)[a.segment], IndexIn(blocks, i, limit), IndexIn(blocks, j, limit));
    }
  }

  /** Every segment is within the limit or holds a single frame. */
  ghost predicate WithinLimit(layout: Layout, limit: nat) {
    forall s :: 0 <= s < |layout| ==> |layout[s]| <= 1 || |Laid(layout[s])| <= limit
  }

  lemma {:induction false} SegmentsWithinLimit(blocks: seq<Block>, limit: nat)
    requires SegmentFramed(blocks)
    ensures WithinLimit(PlacedAll(blocks, limit), limit)
  {
    if blocks != [] {
      var shorter, b := blocks[..|blocks| - 1], blocks[|blocks| - 1];
      SegmentsWithinLimit(shorter, limit);
      assert Framed(b);
      PlacedWithinLimit(PlacedAll(shorter, limit), b, limit);
    }
  }

  lemma PlacedWithinLimit(layout: Layout, b: Block, limit: nat)
    requires layout != [] && WithinLimit(layout, limit) && Framed(b)
    ensures WithinLimit(Placed(layout, b, limit), limit)
  {
    var n := |layout| - 1;
    var last := layout[n];
    LaidAppend(last, b);
    var after := Placed(layout, b, limit);
    forall s | 0 <= s < |after|
      ensures |after[s]| <= 1 || |Laid(after[s])| <= limit
    {
      if s < n { assert after[s] == layout[s]; }
    }
  }

  /** Segment s was left because the first frame of the next one did not fit. */
  ghost predicate LeftFull(layout: Layout, limit: nat, s: nat)
    requires s + 1 < |layout|
  {
    layout[s] != [] && layout[s + 1] != [] && |Laid(layout[s])| + BlockSize(layout[s + 1][0]) > limit
  }

  lemma {:induction false} SegmentsLeftFull(blocks: seq<Block>, limit: nat, s: nat)
    requires s + 1 < |PlacedAll(blocks, limit)|
    ensures LeftFull(PlacedAll(blocks, limit), limit, s)
    decreases |blocks|
  {
    var before := PlacedAll(blocks[..|blocks| - 1], limit);
    if s + 1 < |before| { SegmentsLeftFull(blocks[..|blocks| - 1], limit, s); }
    PlacedLeftFull(before, blocks[|blocks| - 1], limit, s);
  }

  lemma {:induction false} PlacedLeftFull(layout: Layout, b: Block, limit: nat, s: nat)
    requires layout != [] && s + 1 < |Placed(layout, b, limit)|
    requires s + 1 < |layout| ==> LeftFull(layout, limit, s)
    ensures LeftFull(Placed(layout, b, limit), limit, s)
  {
    var after := Placed(layout, b, limit);
    assert after[s] == layout[s];
    if s + 1 < |layout| { assert after[s + 1][0] == layout[s + 1][0]; }
  }

  lemma LaidAppend(blocks: seq<Block>, b: Block)
    requires Framed(b)
    ensures |Laid(blocks + [b])| == |Laid(blocks)| + BlockSize(b)
  {
    assert (blocks + [b])[..|blocks|] == blocks;
  }

  /** A reference a writer hands out parses back to itself exactly when the offset fits its printed
      field, and every segment limit up to 64 bits sees to that. */
  lemma ReferenceParses<T(!new)>(c: Codec<T>, writer: string, records: seq<T>, i: nat, limit: nat)
    requires Storable(c, records) && CanonicalUuid(writer) && i < |records|
    requires |PlacedAll(StoredAll(c, records), limit)| <= MAXIMUM_SEGMENTS
    ensures var r := Reference(c, writer, records, i, limit);
      && (R.Parse(R.Encode(r)) == Some(r) <==> r.offset < R.Power36(13))
      && (limit <= WORD ==> R.Parse(R.Encode(r)) == Some(r))
  {
    PlaceOf(StoredAll(c, records), i, limit);
    R.FieldsAreWideEnough();
    R.ParseInvertsEncode(Reference(c, writer, records, i, limit));
    if limit <= WORD { OffsetWithinLimit(c, writer, records, i, limit); }
  }

  lemma OffsetWithinLimit<T(!new)>(c: Codec<T>, writer: string, records: seq<T>, i: nat, limit: nat)
    requires Storable(c, records) && i < |records|
    ensures Reference(c, writer, records, i, limit).offset <= |HEADER|
      || Reference(c, writer, records, i, limit).offset < limit
  {
    var blocks := StoredAll(c, records);
    assert SegmentFramed(blocks);
    PlacedFramed(blocks, limit);
    SegmentsWithinLimit(blocks, limit);
    PlaceOf(blocks, i, limit);
    var s, k := SegmentOf(blocks, i, limit), IndexIn(blocks, i, limit);
    BlockAt(PlacedAll(blocks, limit)[s], k);
  }

  // ---------- what the appends returned ----------

  /** At the time of append number i its frame is the newest, and the reference to it then is the one
      the promises speak of. */
  lemma NewestIsReference<T(!new)>(c: Codec<T>, writer: string, records: seq<T>, i: nat, limit: nat)
    requires Storable(c, records) && i < |records|
    ensures var layout := PlacedAll(StoredAll(c, records)[..i + 1], limit);
      HasNewest(layout) && Newest(layout) == Stored(c, records[i])
        && NewestRef(writer, layout) == Reference(c, writer, records, i, limit)
  {
    var blocks := StoredAll(c, records);
    assert blocks[i] == Stored(c, records[i]) && Framed(blocks[i]);
    NewestPlace(blocks, i, limit);
    SameReference(writer, PlacedAll(blocks, limit), PlacedAll(blocks[..i + 1], limit), SegmentOf(blocks, i, limit),
      IndexIn(blocks, i, limit), blocks[i]);
  }

  lemma SameReference(writer: string, later: Layout, layout: Layout, s: nat, k: nat, b: Block)
    requires HasNewest(layout) && Newest(layout) == b && s == |layout| - 1 && k == |layout[s]| - 1
    requires s < |later| && k < |later[s]| && Offset(later[s], k) == Offset(layout[s], k)
    ensures NewestRef(writer, layout) == RefTo(writer, s, Offset(later[s], k), b)
  {
  }

  lemma NewestPlace(blocks: seq<Block>, i: nat, limit: nat)
    requires i < |blocks| && Framed(blocks[i])
    ensures var layout := PlacedAll(blocks[..i + 1], limit);
      var s, k := SegmentOf(blocks, i, limit), IndexIn(blocks, i, limit);
      && HasNewest(layout) && Newest(layout) == blocks[i] && s < |PlacedAll(blocks, limit)|
        && 0 <= k < |PlacedAll(blocks, limit)[s]|
      && k < |layout[s]| && Offset(PlacedAll(blocks, limit)[s], k) == Offset(layout[s], k)
  {
    NextPlaced(blocks, i, limit);
    PlacedLast(PlacedAll(blocks[..i], limit), blocks[i], limit);
    PlaceOf(blocks, i, limit);
    LaterExtends(blocks, i + 1, limit);
    var first, s, k := PlacedAll(blocks[..i + 1], limit), SegmentOf(blocks, i, limit), IndexIn(blocks, i, limit);
    assert first[s] <= PlacedAll(blocks, limit)[s];
    OffsetOfPrefix(PlacedAll(blocks, limit)[s], first[s], k);
  }

  /** What append number n - 1 returned: the reference to the newest frame at that time. */
  ghost function ReturnedBy<T(!new)>(c: Codec<T>, writer: string, records: seq<T>, limit: nat, n: nat): R.Ref
    requires n <= |records|
  {
    var layout := PlacedAll(StoredAll(c, records)[..n], limit);
    if HasNewest(layout) then NewestRef(writer, layout) else R.Ref(writer, 0, 0, 0, "")
  }

  /** What the first n appends returned. */
  ghost function AllReturned<T(!new)>(c: Codec<T>, writer: string, records: seq<T>, limit: nat, n: nat): seq<R.Ref>
    requires n <= |records|
  {
    seq(n, i requires 0 <= i < n => ReturnedBy(c, writer, records, limit, i + 1))
  }

  lemma {:induction false} OneMoreReturned<T(!new)>(c: Codec<T>, writer: string, records: seq<T>, limit: nat, n: nat,
      next: R.Ref)
    requires n < |records| && next == ReturnedBy(c, writer, records, limit, n + 1)
    ensures AllReturned(c, writer, records, limit, n + 1) == AllReturned(c, writer, records, limit, n) + [next]
  {
  }

  ghost predicate AllFit<T(!new)>(c: Codec<T>, records: seq<T>, n: nat)
    requires n <= |records|
  {
    n > 0 ==> AllFit(c, records, n - 1) && |c.encode(records[n - 1])| < WORD
  }

  /** They are the references the promises speak of, whatever was appended later. */
  lemma ReturnedIsReference<T(!new)>(c: Codec<T>, writer: string, records: seq<T>, limit: nat, n: nat, i: nat)
    requires i < n <= |records| && Storable(c, records[..n])
    ensures |AllReturned(c, writer, records, limit, n)| == n
    ensures AllReturned(c, writer, records, limit, n)[i] == Reference(c, writer, records[..n], i, limit)
  {
    assert StoredAll(c, records[..n])[..i + 1] == StoredAll(c, records)[..i + 1];
    NewestIsReference(c, writer, records[..n], i, limit);
  }

  lemma {:induction false} FitIsStorable<T(!new)>(c: Codec<T>, records: seq<T>, n: nat)
    requires n <= |records| && ValidCodec(c) && AllFit(c, records, n)
    ensures Storable(c, records[..n])
  {
    if n > 0 {
      FitIsStorable(c, records, n - 1);
      assert forall i :: 0 <= i < n - 1 ==> records[..n][i] == records[..n - 1][i];
    }
  }

  /** Append number n, after the n earlier ones. */
  method AppendNext<T(!new)>(w: Writer<T>, ghost records: seq<T>, record: T,
      ghost n: nat) returns (text: Option<string>)
    requires w.Valid() && w.usable && n < |records| && records[n] == record
    requires w.layout == PlacedAll(StoredAll(w.codec, records)[..n], w.limit)
    modifies w
    ensures w.Valid()
    ensures text.Some? ==> w.usable && |w.codec.encode(record)| < WORD
    ensures text.Some? ==> w.layout == PlacedAll(StoredAll(w.codec, records)[..n + 1], w.limit)
    ensures text.Some? ==> HasNewest(w.layout) && text.value == R.Encode(NewestRef(w.writer, w.layout))
    ensures text.None? ==> w.layout == old(w.layout) && w.Refused(w.codec.encode(record), true, w.layout)
  {
    text := w.Append(record);
    NextPlaced(StoredAll(w.codec, records), n, w.limit);
  }

  /** The texts of a list of references. */
  function Printed(refs: seq<R.Ref>): seq<string> {
    if refs == [] then [] else Printed(refs[..|refs| - 1]) + [R.Encode(refs[|refs| - 1])]
  }

  lemma PrintedMore(refs: seq<R.Ref>, ref: R.Ref, text: string)
    requires text == R.Encode(ref)
    ensures Printed(refs + [ref]) == Printed(refs) + [text]
  {
    assert (refs + [ref])[..|refs|] == refs;
  }

  /** The first appends of a list of records: their references, as they were returned and as printed,
      and where they put the frames. */
  ghost predicate Appended<T(!new)>(c: Codec<T>, writer: string, records: seq<T>, limit: nat, layout: Layout,
      texts: seq<string>, refs: seq<R.Ref>) {
    && |texts| == |refs| <= |records| && AllFit(c, records, |refs|) && texts == Printed(refs)
    && refs == AllReturned(c, writer, records, limit, |refs|)
    && layout == PlacedAll(StoredAll(c, records)[..|refs|], limit)
  }

  lemma NothingAppended<T(!new)>(c: Codec<T>, writer: string, records: seq<T>, limit: nat)
    ensures Appended(c, writer, records, limit, [[]], [], [])
  {
  }

  lemma {:induction false} OneMoreAppended<T(!new)>(c: Codec<T>, writer: string, records: seq<T>, limit: nat,
      before: Layout, layout: Layout, texts: seq<string>, refs: seq<R.Ref>, text: string, next: R.Ref)
    requires Appended(c, writer, records, limit, before, texts, refs) && |refs| < |records|
    requires |c.encode(records[|refs|])| < WORD && layout == PlacedAll(StoredAll(c, records)[..|refs| + 1], limit)
    requires next == ReturnedBy(c, writer, records, limit, |refs| + 1) && text == R.Encode(next)
    ensures Appended(c, writer, records, limit, layout, texts + [text], refs + [next])
  {
    var n := |refs|;
    assert |refs + [next]| == n + 1 == |texts + [text]|;
    assert AllFit(c, records, n + 1);
    PrintedMore(refs, next, text);
    OneMoreReturned(c, writer, records, limit, n, next);
  }

  /** One more append of a writer's life; `next` is the reference it returns, if it does. */
  method AppendMore<T(!new)>(w: Writer<T>, records: seq<T>, texts: seq<string>, ghost refs: seq<R.Ref>)
      returns (text: Option<string>, ghost next: R.Ref)
    requires w.Valid() && w.usable && |texts| < |records|
    requires Appended(w.codec, w.writer, records, w.limit, w.layout, texts, refs)
    modifies w
    ensures w.Valid()
    ensures text.Some? ==>
      w.usable && Appended(w.codec, w.writer, records, w.limit, w.layout, texts + [text.value], refs + [next])
    ensures text.None? ==> w.layout == old(w.layout) && w.Refused(w.codec.encode(records[|texts|]), true, w.layout)
  {
    ghost var n, before := |refs|, w.layout;
    assert |texts| == n;
    text := AppendNext(w, records, records[|texts|], n);
    next := ReturnedBy(w.codec, w.writer, records, w.limit, n + 1);
    if text.Some? {
      OneMoreAppended(w.codec, w.writer, records, w.limit, before, w.layout, texts, refs, text.value, next);
    }
  }

  /** A writer's whole life: each append returns the text of its own reference, and the files are
      laid out as the promises assume. Appending stops at the first refusal. */
  method AppendAll<T(!new)>(w: Writer<T>, records: seq<T>) returns (texts: seq<string>, ghost refs: seq<R.Ref>)
    requires w.Valid() && w.usable && w.layout == [[]]
    modifies w
    ensures w.Valid() && Appended(w.codec, w.writer, records, w.limit, w.layout, texts, refs)
    ensures |texts| < |records| ==> w.Refused(w.codec.encode(records[|texts|]), true, w.layout)
  {
    texts, refs := [], [];
    NothingAppended(w.codec, w.writer, records, w.limit);
    while |texts| < |records|
      invariant w.Valid() && w.usable && Appended(w.codec, w.writer, records, w.limit, w.layout, texts, refs)
    {
      var text, next := AppendMore(w, records, texts, refs);
      if text.None? { return; }
      texts, refs := texts + [text.value], refs + [next];
    }
  }
}
