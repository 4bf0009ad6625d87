/** The packed append-only journal: framing, rotation, verified reads and the forgiving walk. */
module Journal {
  import opened Common
  import R = RecordRef

  type Bytes = seq<byte>

  /** "HTTK-HWJ-V1\n" */
  const HEADER: Bytes := [72, 84, 84, 75, 45, 72, 87, 74, 45, 86, 49, 10]

  const MAXIMUM_FRAME_BYTES := 16 * 1024 * 1024

  // ---------- what the journal takes from outside ----------

  datatype Decoded<+T> = Object(value: T) | NotObject | Undecodable

  /** The digest and the record serialization, as far as the journal relies on them. */
  datatype Codec<!T> = Codec(sha: Bytes -> Bytes, encode: T -> Bytes, decode: Bytes -> Decoded<T>)

  ghost predicate ValidCodec<T(!new)>(c: Codec<T>) {
    && (forall b :: |c.sha(b)| == 32)
    && (forall r :: c.decode(c.encode(r)) == Object(r))
  }

  // ---------- length fields ----------

  function BigEndian(n: nat, width: nat): (b: Bytes)
    ensures |b| == width
  {
    if width == 0 then [] else BigEndian(n / 256, width - 1) + [n % 256]
  }

  function Unsigned(b: Bytes): nat {
    if b == [] then 0 else Unsigned(b[..|b| - 1]) * 256 + b[|b| - 1]
  }

  function Power256(k: nat): nat { if k == 0 then 1 else 256 * Power256(k - 1) }

  lemma {:induction false} UnsignedInverts(n: nat, width: nat)
    requires n < Power256(width)
    ensures Unsigned(BigEndian(n, width)) == n
  {
    if width > 0 {
      UnsignedInverts(n / 256, width - 1);
      var b := BigEndian(n, width);
      assert b[..|b| - 1] == BigEndian(n / 256, width - 1);
    }
  }

  const WORD := 0x1_0000_0000_0000_0000

  function Pack(n: nat): Bytes { BigEndian(n, 8) }

  lemma PackInverts(n: nat)
    requires n < WORD
    ensures Unsigned(Pack(n)) == n
  {
    assert Power256(4) == 0x1_0000_0000;
    assert Power256(8) == 0x1_0000_0000 * Power256(4) by {
      assert Power256(6) == 0x1_0000 * Power256(4);
    }
    UnsignedInverts(n, 8);
  }

  lemma {:induction false} BigEndianInverts(b: Bytes)
    ensures Unsigned(b) < Power256(|b|) && BigEndian(Unsigned(b), |b|) == b
  {
    if b != [] {
      var front, last := b[..|b| - 1], b[|b| - 1];
      BigEndianInverts(front);
      assert Unsigned(b) / 256 == Unsigned(front) && Unsigned(b) % 256 == last;
      assert b == front + [last];
    }
  }

  lemma UnsignedInWord(b: Bytes)
    requires |b| == 8
    ensures Unsigned(b) < WORD && Pack(Unsigned(b)) == b
  {
    BigEndianInverts(b);
    assert Power256(4) == 0x1_0000_0000;
    assert Power256(6) == 0x1_0000 * Power256(4);
    assert Power256(8) == 0x1_0000 * Power256(6);
  }

  // ---------- frames ----------

  /** A frame whose two length fields are intact; payload and checksum may be anything. */
  datatype Block = Block(payload: Bytes, checksum: Bytes)

  predicate Framed(b: Block) { |b.payload| < WORD && |b.checksum| == 32 }

  function BlockBytes(b: Block): Bytes {
    Pack(|b.payload|) + b.payload + b.checksum + Pack(|b.payload|)
  }

  function BlockSize(b: Block): nat { |b.payload| + 48 }

  function Digest<T>(c: Codec<T>, payload: Bytes): Bytes { c.sha(Pack(|payload|) + payload) }

  predicate Intact<T>(c: Codec<T>, b: Block) {
    Digest(c, b.payload) == b.checksum && c.decode(b.payload).Object?
  }

  function Stored<T>(c: Codec<T>, record: T): Block {
    var payload := c.encode(record);
    Block(payload, Digest(c, payload))
  }

  function Laid(blocks: seq<Block>): Bytes {
    if blocks == [] then HEADER else Laid(blocks[..|blocks| - 1]) + BlockBytes(blocks[|blocks| - 1])
  }

  function Offset(blocks: seq<Block>, k: nat): nat
    requires k <= |blocks|
  {
    if k == 0 then |HEADER| else Offset(blocks, k - 1) + BlockSize(blocks[k - 1])
  }

  function HexByte(b: byte): string { [R.Digit(b / 16), R.Digit(b % 16)] }

  function HexText(b: Bytes): (s: string)
    ensures |s| == 2 * |b| && R.Hex(s)
  {
    if b == [] then [] else HexByte(b[0]) + HexText(b[1..])
  }

  function HexValue(c: char): int {
    if '0' <= c <= '9' then c as int - '0' as int else c as int - 'a' as int + 10
  }

  /** Two digits spell each byte, the high one first. */
  lemma {:induction false} HexReadsBack(b: Bytes, i: nat)
    requires i < |b|
    ensures HexValue(HexText(b)[2 * i]) * 16 + HexValue(HexText(b)[2 * i + 1]) == b[i]
  {
    var rest := HexText(b[1..]);
    assert HexText(b) == HexByte(b[0]) + rest;
    if i > 0 {
      HexReadsBack(b[1..], i - 1);
      assert HexText(b)[2 * i] == rest[2 * (i - 1)] && HexText(b)[2 * i + 1] == rest[2 * (i - 1) + 1];
    } else {
      HexDigitValue(b[0] / 16);
      HexDigitValue(b[0] % 16);
    }
  }

  lemma HexDigitValue(d: nat)
    requires d < 16
    ensures HexValue(R.Digit(d)) == d
  {
  }

  function RefTo(writer: string, segment: nat, offset: nat, b: Block): R.Ref
    requires Framed(b)
  {
    R.Ref(writer, segment, offset, |b.payload|, HexText(b.checksum[..16]))
  }

  // ---------- where blocks lie ----------

  lemma {:induction false} LaidSize(blocks: seq<Block>)
    requires forall b :: b in blocks ==> Framed(b)
    ensures |Laid(blocks)| == Offset(blocks, |blocks|)
  {
    if blocks != [] {
      var front := blocks[..|blocks| - 1];
      LaidSize(front);
      OffsetOfPrefix(blocks, front, |front|);
      assert Framed(blocks[|blocks| - 1]);
    }
  }

  lemma {:induction false} OffsetOfPrefix(blocks: seq<Block>, front: seq<Block>, k: nat)
    requires front <= blocks && k <= |front|
    ensures Offset(blocks, k) == Offset(front, k)
  {
    if k > 0 { OffsetOfPrefix(blocks, front, k - 1); }
  }

  lemma {:induction false} OffsetsGrow(blocks: seq<Block>, j: nat, k: nat)
    requires j <= k <= |blocks|
    ensures |HEADER| <= Offset(blocks, j) && Offset(blocks, j) + 48 * (k - j) <= Offset(blocks, k)
    decreases k
  {
    if j < k {
      OffsetsGrow(blocks, j, k - 1);
    } else if k > 0 {
      OffsetsGrow(blocks, k - 1, k - 1);
    }
  }

  /** A segment holds each of its blocks at that block's offset. */
  lemma {:induction false} BlockAt(blocks: seq<Block>, k: nat)
    requires k < |blocks| && forall b :: b in blocks ==> Framed(b)
    ensures Offset(blocks, k + 1) <= |Laid(blocks)|
    ensures Laid(blocks)[Offset(blocks, k)..Offset(blocks, k + 1)] == BlockBytes(blocks[k])
  {
    LaidSize(blocks);
    OffsetsGrow(blocks, k + 1, |blocks|);
    var front, last := blocks[..|blocks| - 1], blocks[|blocks| - 1];
    LaidSize(front);
    OffsetOfPrefix(blocks, front, k);
    if k < |blocks| - 1 {
      OffsetOfPrefix(blocks, front, k + 1);
      BlockAt(front, k);
      SliceOfFirst(Laid(front), BlockBytes(last), Offset(blocks, k), Offset(blocks, k + 1));
    } else {
      BlockParts(last);
      SliceOfSecond(Laid(front), BlockBytes(last));
    }
  }

  lemma SliceOfFirst(a: Bytes, b: Bytes, i: nat, j: nat)
    requires i <= j <= |a|
    ensures (a + b)[i..j] == a[i..j]
  {
  }

  lemma SliceOfSecond(a: Bytes, b: Bytes)
    ensures (a + b)[|a|..|a| + |b|] == b
  {
  }

  lemma {:induction false} LaidHeader(blocks: seq<Block>)
    ensures HEADER <= Laid(blocks)
  {
    if blocks != [] { LaidHeader(blocks[..|blocks| - 1]); }
  }

  // ---------- verified random access ----------

  datatype Problem =
    | MissingSegment | ShortRead | InvalidHeader | LengthMismatch | TrailerMismatch
    | ChecksumMismatch | ReferenceMismatch | UndecodableFrame | NotAnObject

  datatype Result<+T> = Ok(value: T) | Err(problem: Problem)

  /** Up to `n` bytes from `offset`, as a file read returns them. */
  function Read(file: Bytes, offset: nat, n: nat): Bytes {
    if offset >= |file| then [] else if offset + n <= |file| then file[offset..offset + n] else file[offset..]
  }

  function ReadFrame<T>(c: Codec<T>, file: Option<Bytes>, offset: nat, length: nat, prefix: string): Result<T> {
    if file.None? then Err(MissingSegment)
    else
      var f := file.value;
      var header := Read(f, 0, |HEADER|);
      if |header| != |HEADER| then Err(ShortRead)
      else if header != HEADER then Err(InvalidHeader)
      else
        var size := Read(f, offset, 8);
        if |size| != 8 then Err(ShortRead)
        else if Unsigned(size) != length then Err(LengthMismatch)
        else
          var payload := Read(f, offset + 8, length);
          var checksum := Read(f, offset + 8 + length, 32);
          var trailer := Read(f, offset + 40 + length, 8);
          if |payload| != length || |checksum| != 32 || |trailer| != 8 then Err(ShortRead)
          else if trailer != size then Err(TrailerMismatch)
          else if c.sha(size + payload) != checksum then Err(ChecksumMismatch)
          else if HexText(checksum[..16]) != prefix then Err(ReferenceMismatch)
          else match c.decode(payload)
            case Undecodable => Err(UndecodableFrame)
            case NotObject => Err(NotAnObject)
            case Object(value) => Ok(value)
  }

  /** The four reads at the offset of a block return its four parts. */
  lemma BlockReads(file: Bytes, offset: nat, b: Block)
    requires Framed(b) && offset + BlockSize(b) <= |file| && file[offset..offset + BlockSize(b)] == BlockBytes(b)
    ensures var n := |b.payload|;
      && Read(file, offset, 8) == Pack(n) && Unsigned(Pack(n)) == n
      && Read(file, offset + 8, n) == b.payload
      && Read(file, offset + 8 + n, 32) == b.checksum
      && Read(file, offset + 40 + n, 8) == Pack(n)
  {
    PackInverts(|b.payload|);
    BlockParts(b);
    PartsRead(file, offset, BlockBytes(b), |b.payload|);
  }

  lemma PartsRead(file: Bytes, offset: nat, whole: Bytes, n: nat)
    requires |whole| == 48 + n && offset + |whole| <= |file| && file[offset..offset + |whole|] == whole
    ensures Read(file, offset, 8) == whole[0..8] && Read(file, offset + 8, n) == whole[8..8 + n]
    ensures Read(file, offset + 8 + n, 32) == whole[8 + n..40 + n]
    ensures Read(file, offset + 40 + n, 8) == whole[40 + n..48 + n]
  {
    ReadWithin(file, offset, whole, 0, 8);
    ReadWithin(file, offset, whole, 8, 8 + n);
    ReadWithin(file, offset, whole, 8 + n, 40 + n);
    ReadWithin(file, offset, whole, 40 + n, 48 + n);
  }

  lemma ReadWithin(file: Bytes, offset: nat, part: Bytes, i: nat, j: nat)
    requires offset + |part| <= |file| && file[offset..offset + |part|] == part && i <= j <= |part|
    ensures Read(file, offset + i, j - i) == part[i..j]
  {
    Within(file, offset, part, i, j);
  }

  lemma BlockParts(b: Block)
    requires Framed(b)
    ensures var n, whole := |b.payload|, BlockBytes(b);
      && |whole| == 48 + n && whole[0..8] == Pack(n) && whole[8..8 + n] == b.payload
      && whole[8 + n..40 + n] == b.checksum && whole[40 + n..48 + n] == Pack(n)
  {
  }

  lemma Within(file: Bytes, offset: nat, part: Bytes, i: nat, j: nat)
    requires offset + |part| <= |file| && file[offset..offset + |part|] == part && i <= j <= |part|
    ensures file[offset + i..offset + j] == part[i..j]
  {
    var a, b := file[offset + i..offset + j], part[i..j];
    forall k | 0 <= k < j - i
      ensures a[k] == b[k]
    {
      assert a[k] == file[offset + (i + k)] == file[offset..offset + |part|][i + k];
    }
  }

  /** An intact frame reads back through its reference, from any file that still holds it. */
  lemma ReadsBack<T>(c: Codec<T>, file: Bytes, offset: nat, b: Block)
    requires HEADER <= file && Framed(b) && Intact(c, b)
    requires offset + BlockSize(b) <= |file| && file[offset..offset + BlockSize(b)] == BlockBytes(b)
    ensures ReadFrame(c, Some(file), offset, |b.payload|, HexText(b.checksum[..16])) == Ok(c.decode(b.payload).value)
  {
    assert Read(file, 0, |HEADER|) == HEADER;
    BlockReads(file, offset, b);
  }

  /** The file is a segment and holds this frame at the offset, with length and checksum as the reference
      states them; the checksum is right and the payload an object. */
  ghost predicate HoldsFrame<T>(c: Codec<T>, file: Bytes, offset: nat, length: nat, prefix: string, b: Block) {
    && HEADER <= file && Framed(b) && |b.payload| == length && HexText(b.checksum[..16]) == prefix
    && offset + BlockSize(b) <= |file| && file[offset..offset + BlockSize(b)] == BlockBytes(b)
    && c.sha(Pack(|b.payload|) + b.payload) == b.checksum && c.decode(b.payload).Object?
  }

  /** A verified read succeeds exactly if the file holds such a frame, and then returns what it says. */
  lemma ReadsExactly<T>(c: Codec<T>, file: Bytes, offset: nat, length: nat, prefix: string)
    ensures ReadFrame(c, Some(file), offset, length, prefix).Ok? <==>
      exists b :: HoldsFrame(c, file, offset, length, prefix, b)
    ensures forall b :: HoldsFrame(c, file, offset, length, prefix, b) ==>
      ReadFrame(c, Some(file), offset, length, prefix) == Ok(c.decode(b.payload).value)
  {
    forall b | HoldsFrame(c, file, offset, length, prefix, b)
      ensures ReadFrame(c, Some(file), offset, length, prefix) == Ok(c.decode(b.payload).value)
    {
      ReadsBack(c, file, offset, b);
    }
    if ReadFrame(c, Some(file), offset, length, prefix).Ok? {
      var b := Block(Read(file, offset + 8, length), Read(file, offset + 8 + length, 32));
      FrameRead(c, file, offset, length, prefix, b);
    }
  }

  /** What a failed read calls the damage. In a segment with the frame's bytes in place it is a wrong length
      in the reference, a wrong checksum, a reference to another frame, or a payload that is no object. */
  lemma DamageIsNamed<T>(c: Codec<T>, file: Bytes, offset: nat, length: nat, prefix: string, b: Block)
    requires HEADER <= file && Framed(b)
    requires offset + BlockSize(b) <= |file| && file[offset..offset + BlockSize(b)] == BlockBytes(b)
    ensures var r := ReadFrame(c, Some(file), offset, length, prefix);
      if length != |b.payload| then r == Err(LengthMismatch)
      else if c.sha(Pack(length) + b.payload) != b.checksum then r == Err(ChecksumMismatch)
      else if HexText(b.checksum[..16]) != prefix then r == Err(ReferenceMismatch)
      else if c.decode(b.payload).Undecodable? then r == Err(UndecodableFrame)
      else if c.decode(b.payload).NotObject? then r == Err(NotAnObject)
      else r.Ok?
  {
    BlockReads(file, offset, b);
  }

  /** A segment that is missing, is none, or ends within the frame. */
  lemma AbsenceIsNamed<T>(c: Codec<T>, file: Option<Bytes>, offset: nat, length: nat, prefix: string)
    ensures var r := ReadFrame(c, file, offset, length, prefix);
      && (r == Err(MissingSegment) <==> file.None?)
      && (r == Err(InvalidHeader) <==> file.Some? && |file.value| >= |HEADER| && !(HEADER <= file.value))
      && (file.Some? && HEADER <= file.value && |file.value| < offset + 48 + length ==>
            r == Err(ShortRead) || r == Err(LengthMismatch))
      && (file.Some? && (|file.value| < |HEADER| || (HEADER <= file.value && |file.value| < offset + 8)) ==>
            r == Err(ShortRead))
  {
  }

  lemma FrameRead<T>(c: Codec<T>, file: Bytes, offset: nat, length: nat, prefix: string, b: Block)
    requires ReadFrame(c, Some(file), offset, length, prefix).Ok?
    requires b == Block(Read(file, offset + 8, length), Read(file, offset + 8 + length, 32))
    ensures HoldsFrame(c, file, offset, length, prefix, b)
  {
    var size := Read(file, offset, 8);
    UnsignedInWord(size);
    WholeRead(file, offset, length);
    assert file[offset..offset + BlockSize(b)] == BlockBytes(b);
  }

  /** Four full reads in a row are one. */
  lemma WholeRead(file: Bytes, offset: nat, n: nat)
    requires |Read(file, offset, 8)| == 8 && |Read(file, offset + 8, n)| == n && |Read(file, offset + 8 + n, 32)| == 32
    requires |Read(file, offset + 40 + n, 8)| == 8
    ensures offset + 48 + n <= |file|
    ensures file[offset..offset + 48 + n] == Read(file, offset, 8) + Read(file, offset + 8, n)
      + Read(file, offset + 8 + n, 32) + Read(file, offset + 40 + n, 8)
  {
    assert file[offset..offset + 8] == Read(file, offset, 8);
    ReadOn(file, offset, 8, n);
    ReadOn(file, offset, 8 + n, 32);
    ReadOn(file, offset, 40 + n, 8);
  }

  lemma ReadOn(file: Bytes, offset: nat, m: nat, n: nat)
    requires offset + m <= |file| && |Read(file, offset + m, n)| == n
    ensures offset + m + n <= |file|
    ensures file[offset..offset + (m + n)] == file[offset..offset + m] + Read(file, offset + m, n)
  {
  }

  /** So does every intact frame of a segment that lies before the point where the file was cut. */
  lemma WholeReadsBack<T>(c: Codec<T>, blocks: seq<Block>, k: nat, cut: nat)
    requires k < |blocks| && Framed(blocks[k]) && (forall b :: b in blocks ==> Framed(b)) && Intact(c, blocks[k])
    requires |HEADER| <= cut <= |Laid(blocks)| && Offset(blocks, k + 1) <= cut
    ensures ReadFrame(c, Some(Laid(blocks)[..cut]), Offset(blocks, k), |blocks[k].payload|,
      HexText(blocks[k].checksum[..16]))
      == Ok(c.decode(blocks[k].payload).value)
  {
    LaidHeader(blocks);
    BlockAt(blocks, k);
    var here, next := Offset(blocks, k), Offset(blocks, k + 1);
    assert next == here + BlockSize(blocks[k]);
    StillThere(Laid(blocks), cut, here, next);
    ReadsBack(c, Laid(blocks)[..cut], here, blocks[k]);
  }

  lemma SegmentReadsBack<T>(c: Codec<T>, blocks: seq<Block>, k: nat)
    requires k < |blocks| && Framed(blocks[k]) && (forall b :: b in blocks ==> Framed(b)) && Intact(c, blocks[k])
    ensures ReadFrame(c, Some(Laid(blocks)), Offset(blocks, k), |blocks[k].payload|, HexText(blocks[k].checksum[..16]))
      == Ok(c.decode(blocks[k].payload).value)
  {
    LaidHeader(blocks);
    BlockAt(blocks, k);
    WholeReadsBack(c, blocks, k, |Laid(blocks)|);
    assert Laid(blocks)[..|Laid(blocks)|] == Laid(blocks);
  }

  // ---------- the forward walk ----------

  datatype Found<+T> = Found(ref: R.Ref, value: T)

  /** What the walk makes of one position: the end, or a frame it may or may not yield. */
  datatype Probe<+T> = Stop | Next(found: seq<Found<T>>, offset: nat)

  function ProbeAt<T>(c: Codec<T>, writer: string, segment: nat, file: Bytes, offset: nat): (p: Probe<T>)
    ensures p.Next? ==> offset < p.offset <= |file|
  {
    var size := Read(file, offset, 8);
    if |size| != 8 || Unsigned(size) > MAXIMUM_FRAME_BYTES then Stop
    else
      var n := Unsigned(size);
      var payload := Read(file, offset + 8, n);
      var checksum := Read(file, offset + 8 + n, 32);
      var trailer := Read(file, offset + 40 + n, 8);
      if |payload| != n || |checksum| != 32 || trailer != size then Stop
      else if c.sha(size + payload) != checksum || !c.decode(payload).Object? then Next([], offset + 48 + n)
      else Next([Found(R.Ref(writer, segment, offset, n, HexText(checksum[..16])), c.decode(payload).value)],
        offset + 48 + n)
  }

  function Walk<T>(c: Codec<T>, writer: string, segment: nat, file: Bytes, offset: nat): seq<Found<T>>
    decreases |file| - offset
  {
    match ProbeAt(c, writer, segment, file, offset)
    case Stop => []
    case Next(found, next) => found + Walk(c, writer, segment, file, next)
  }

  function WalkSegment<T>(c: Codec<T>, writer: string, segment: nat, file: Option<Bytes>): seq<Found<T>> {
    if file.None? || Read(file.value, 0, |HEADER|) != HEADER then []
    else Walk(c, writer, segment, file.value, |HEADER|)
  }

  /** `iter_segment_frames`, run one position after the other. */
  method IterSegmentFrames<T>(c: Codec<T>, writer: string, segment: nat, file: Option<Bytes>)
    returns (frames: seq<Found<T>>)
    ensures frames == WalkSegment(c, writer, segment, file)
  {
    frames := [];
    if file.None? || Read(file.value, 0, |HEADER|) != HEADER { return; }
    var offset := |HEADER|;
    while true
      invariant frames + Walk(c, writer, segment, file.value, offset) == WalkSegment(c, writer, segment, file)
      decreases |file.value| - offset
    {
      var probe := ProbeAt(c, writer, segment, file.value, offset);
      if probe.Stop? { return; }
      frames := frames + probe.found;
      offset := probe.offset;
    }
  }

  // ---------- what the walk finds in a damaged segment ----------

  function Yield<T>(c: Codec<T>, writer: string, segment: nat, offset: nat, b: Block): seq<Found<T>>
    requires Framed(b)
  {
    if Intact(c, b) then [Found(RefTo(writer, segment, offset, b), c.decode(b.payload).value)] else []
  }

  predicate Oversized(b: Block) { |b.payload| > MAXIMUM_FRAME_BYTES }

  /** The intact ones among blocks k and later that lie before byte `cut`, in order, up to the first
      block that is longer than the walk believes a frame can be. */
  function Surviving<T>(c: Codec<T>, writer: string, segment: nat, blocks: seq<Block>, k: nat, cut: nat): seq<Found<T>>
    requires k <= |blocks| && forall b :: b in blocks ==> Framed(b)
    decreases |blocks| - k
  {
    if k == |blocks| || Offset(blocks, k + 1) > cut || Oversized(blocks[k]) then []
    else Yield(c, writer, segment, Offset(blocks, k), blocks[k]) + Surviving(c, writer, segment, blocks, k + 1, cut)
  }

  lemma ProbeOversized<T>(c: Codec<T>, writer: string, segment: nat, file: Bytes, offset: nat, b: Block)
    requires Framed(b) && Oversized(b)
    requires offset + BlockSize(b) <= |file| && file[offset..offset + BlockSize(b)] == BlockBytes(b)
    ensures ProbeAt(c, writer, segment, file, offset) == Stop
  {
    BlockReads(file, offset, b);
  }

  lemma ProbeWhole<T>(c: Codec<T>, writer: string, segment: nat, file: Bytes, offset: nat, b: Block)
    requires Framed(b) && |b.payload| <= MAXIMUM_FRAME_BYTES
    requires offset + BlockSize(b) <= |file| && file[offset..offset + BlockSize(b)] == BlockBytes(b)
    ensures ProbeAt(c, writer, segment, file, offset) ==
      Next(Yield(c, writer, segment, offset, b), offset + BlockSize(b))
  {
    BlockReads(file, offset, b);
  }

  lemma ProbeTorn<T>(c: Codec<T>, writer: string, segment: nat, file: Bytes, offset: nat, b: Block)
    requires Framed(b) && offset <= |file| < offset + BlockSize(b) && file[offset..] <= BlockBytes(b)
    ensures ProbeAt(c, writer, segment, file, offset) == Stop
  {
    var size := Read(file, offset, 8);
    if |size| == 8 {
      BlockParts(b);
      assert size == file[offset..][..8] == BlockBytes(b)[0..8];
      PackInverts(|b.payload|);
    }
  }

  lemma WalkWhole<T>(c: Codec<T>, writer: string, segment: nat, file: Bytes, offset: nat, next: nat, b: Block)
    requires Framed(b) && |b.payload| <= MAXIMUM_FRAME_BYTES && next == offset + BlockSize(b)
    requires next <= |file| && file[offset..next] == BlockBytes(b)
    ensures Walk(c, writer, segment, file, offset) ==
      Yield(c, writer, segment, offset, b) + Walk(c, writer, segment, file, next)
  {
    ProbeWhole(c, writer, segment, file, offset, b);
    var p: Probe<T> := Next(Yield(c, writer, segment, offset, b), next);
    WalkNext(c, writer, segment, file, offset, p);
  }

  lemma WalkNext<T>(c: Codec<T>, writer: string, segment: nat, file: Bytes, offset: nat, p: Probe<T>)
    requires p == ProbeAt(c, writer, segment, file, offset) && p.Next?
    ensures Walk(c, writer, segment, file, offset) == p.found + Walk(c, writer, segment, file, p.offset)
  {
  }

  lemma WalkOne<T>(c: Codec<T>, writer: string, segment: nat, blocks: seq<Block>, k: nat, cut: nat)
    requires k < |blocks| && cut <= |Laid(blocks)| && (forall b :: b in blocks ==> Framed(b))
    requires |blocks[k].payload| <= MAXIMUM_FRAME_BYTES && Offset(blocks, k + 1) <= cut
    ensures var file := Laid(blocks)[..cut];
      Walk(c, writer, segment, file, Offset(blocks, k)) ==
      Yield(c, writer, segment, Offset(blocks, k), blocks[k]) + Walk(c, writer, segment, file, Offset(blocks, k + 1))
  {
    BlockAt(blocks, k);
    var here, next := Offset(blocks, k), Offset(blocks, k + 1);
    StillThere(Laid(blocks), cut, here, next);
    WalkWhole(c, writer, segment, Laid(blocks)[..cut], here, next, blocks[k]);
  }

  lemma StillThere(file: Bytes, cut: nat, i: nat, j: nat)
    requires i <= j <= cut <= |file|
    ensures file[..cut][i..j] == file[i..j]
  {
  }

  lemma WalkOversized<T>(c: Codec<T>, writer: string, segment: nat, blocks: seq<Block>, k: nat, cut: nat)
    requires k < |blocks| && cut <= |Laid(blocks)| && (forall b :: b in blocks ==> Framed(b))
    requires Oversized(blocks[k]) && Offset(blocks, k + 1) <= cut
    ensures Walk(c, writer, segment, Laid(blocks)[..cut], Offset(blocks, k)) == []
  {
    BlockAt(blocks, k);
    var here, next := Offset(blocks, k), Offset(blocks, k + 1);
    assert next == here + BlockSize(blocks[k]);
    StillThere(Laid(blocks), cut, here, next);
    ProbeOversized(c, writer, segment, Laid(blocks)[..cut], here, blocks[k]);
  }

  lemma WalkTorn<T>(c: Codec<T>, writer: string, segment: nat, blocks: seq<Block>, k: nat, cut: nat)
    requires k < |blocks| && cut <= |Laid(blocks)| && (forall b :: b in blocks ==> Framed(b))
    requires Offset(blocks, k) <= cut < Offset(blocks, k + 1)
    ensures Walk(c, writer, segment, Laid(blocks)[..cut], Offset(blocks, k)) == []
  {
    var file, offset := Laid(blocks)[..cut], Offset(blocks, k);
    BlockAt(blocks, k);
    assert file[offset..] == Laid(blocks)[offset..Offset(blocks, k + 1)][..cut - offset];
    ProbeTorn(c, writer, segment, file, offset, blocks[k]);
  }

  lemma {:induction false} WalkSurvives<T>(c: Codec<T>, writer: string, segment: nat, blocks: seq<Block>, k: nat,
      cut: nat)
    requires k <= |blocks| && cut <= |Laid(blocks)| && (forall b :: b in blocks ==> Framed(b))
    requires Offset(blocks, k) <= cut
    ensures Walk(c, writer, segment, Laid(blocks)[..cut], Offset(blocks, k)) ==
      Surviving(c, writer, segment, blocks, k, cut)
    decreases |blocks| - k
  {
    if k == |blocks| {
      LaidSize(blocks);
    } else if Offset(blocks, k + 1) > cut {
      WalkTorn(c, writer, segment, blocks, k, cut);
    } else if Oversized(blocks[k]) {
      WalkOversized(c, writer, segment, blocks, k, cut);
    } else {
      WalkOne(c, writer, segment, blocks, k, cut);
      WalkSurvives(c, writer, segment, blocks, k + 1, cut);
    }
  }

  /** For every segment whose length fields are intact, every truncation of it and every choice of
      damaged frames, the walk yields exactly the intact whole frames that remain, in order, up to
      the first oversized one. */
  lemma WalkFindsWhatRemains<T>(c: Codec<T>, writer: string, segment: nat, blocks: seq<Block>, cut: nat)
    requires cut <= |Laid(blocks)| && forall b :: b in blocks ==> Framed(b)
    ensures WalkSegment(c, writer, segment, Some(Laid(blocks)[..cut])) ==
      if cut < |HEADER| then [] else Surviving(c, writer, segment, blocks, 0, cut)
  {
    LaidHeader(blocks);
    if cut >= |HEADER| {
      assert Read(Laid(blocks)[..cut], 0, |HEADER|) == HEADER;
      WalkSurvives(c, writer, segment, blocks, 0, cut);
    }
  }

  /** All intact whole frames from block k on, oversized or not. */
  function AllIntact<T>(c: Codec<T>, writer: string, segment: nat, blocks: seq<Block>, k: nat, cut: nat): seq<Found<T>>
    requires k <= |blocks| && forall b :: b in blocks ==> Framed(b)
    decreases |blocks| - k
  {
    if k == |blocks| || Offset(blocks, k + 1) > cut then []
    else Yield(c, writer, segment, Offset(blocks, k), blocks[k]) + AllIntact(c, writer, segment, blocks, k + 1, cut)
  }

  ghost predicate Readable<T>(c: Codec<T>, blocks: seq<Block>, i: nat, cut: nat)
    requires i < |blocks|
  {
    Offset(blocks, i + 1) <= cut && Intact(c, blocks[i])
  }

  ghost predicate NoneReadable<T>(c: Codec<T>, blocks: seq<Block>, k: nat, cut: nat) {
    forall i {:trigger Readable(c, blocks, i, cut)} :: k <= i < |blocks| ==> !Readable(c, blocks, i, cut)
  }

  /** No oversized frame stands at or before an intact whole one. */
  ghost predicate Unobstructed<T>(c: Codec<T>, blocks: seq<Block>, k: nat, cut: nat) {
    forall j, i {:trigger Oversized(blocks[j]), Readable(c, blocks, i, cut)} ::
      k <= j <= i < |blocks| && Readable(c, blocks, i, cut) ==> !Oversized(blocks[j])
  }

  lemma {:induction false} NoneIntactIff<T>(c: Codec<T>, writer: string, segment: nat, blocks: seq<Block>, k: nat,
      cut: nat)
    requires k <= |blocks| && forall b :: b in blocks ==> Framed(b)
    ensures NoneIntact(c, writer, segment, blocks, k, cut) <==> NoneReadable(c, blocks, k, cut)
    decreases |blocks| - k
  {
    if k == |blocks| || Offset(blocks, k + 1) > cut {
      NoneBeyond(c, blocks, k, cut);
      NoneIntactBeyond(c, writer, segment, blocks, k, cut);
    } else {
      NoneIntactIff(c, writer, segment, blocks, k + 1, cut);
      NoneReadableStep(c, blocks, k, cut);
      NoneIntactStep(c, writer, segment, blocks, k, cut);
    }
  }

  ghost predicate NoneIntact<T>(c: Codec<T>, writer: string, segment: nat, blocks: seq<Block>, k: nat, cut: nat)
    requires k <= |blocks| && forall b :: b in blocks ==> Framed(b)
  {
    AllIntact(c, writer, segment, blocks, k, cut) == []
  }

  lemma NoneIntactBeyond<T>(c: Codec<T>, writer: string, segment: nat, blocks: seq<Block>, k: nat, cut: nat)
    requires k <= |blocks| && (forall b :: b in blocks ==> Framed(b)) && (k < |blocks| ==> Offset(blocks, k + 1) > cut)
    ensures NoneIntact(c, writer, segment, blocks, k, cut)
  {
  }

  lemma NoneBeyond<T>(c: Codec<T>, blocks: seq<Block>, k: nat, cut: nat)
    requires k < |blocks| ==> Offset(blocks, k + 1) > cut
    ensures NoneReadable(c, blocks, k, cut)
  {
    forall i: nat | k <= i < |blocks| ensures !Readable(c, blocks, i, cut) {
      OffsetsGrow(blocks, k + 1, i + 1);
    }
  }

  lemma NoneReadableStep<T>(c: Codec<T>, blocks: seq<Block>, k: nat, cut: nat)
    requires k < |blocks|
    ensures NoneReadable(c, blocks, k, cut) <==> !Readable(c, blocks, k, cut) && NoneReadable(c, blocks, k + 1, cut)
  {
  }

  lemma NoneIntactStep<T>(c: Codec<T>, writer: string, segment: nat, blocks: seq<Block>, k: nat, cut: nat)
    requires k < |blocks| && (forall b :: b in blocks ==> Framed(b)) && Offset(blocks, k + 1) <= cut
    ensures NoneIntact(c, writer, segment, blocks, k, cut) <==>
      !Readable(c, blocks, k, cut) && NoneIntact(c, writer, segment, blocks, k + 1, cut)
  {
    EmptySum(Yield(c, writer, segment, Offset(blocks, k), blocks[k]),
      AllIntact(c, writer, segment, blocks, k + 1, cut));
  }

  lemma EmptySum<T>(a: seq<T>, b: seq<T>)
    ensures a + b == [] <==> a == [] && b == []
  {
    assert |a + b| == |a| + |b|;
  }

  /** The walk from block k on finds every intact whole frame. */
  ghost predicate Complete<T>(c: Codec<T>, writer: string, segment: nat, blocks: seq<Block>, k: nat, cut: nat)
    requires k <= |blocks| && forall b :: b in blocks ==> Framed(b)
  {
    Surviving(c, writer, segment, blocks, k, cut) == AllIntact(c, writer, segment, blocks, k, cut)
  }

  /** It does if and only if no oversized one stands at or before an intact one. */
  lemma {:induction false} WalkIsCompleteIff<T>(c: Codec<T>, writer: string, segment: nat, blocks: seq<Block>, k: nat,
      cut: nat)
    requires k <= |blocks| && forall b :: b in blocks ==> Framed(b)
    ensures Complete(c, writer, segment, blocks, k, cut) <==> Unobstructed(c, blocks, k, cut)
    decreases |blocks| - k
  {
    if k == |blocks| || Offset(blocks, k + 1) > cut {
      CompleteBeyond(c, writer, segment, blocks, k, cut);
    } else if Oversized(blocks[k]) {
      CompleteAtOversized(c, writer, segment, blocks, k, cut);
    } else {
      WalkIsCompleteIff(c, writer, segment, blocks, k + 1, cut);
      SameStep(c, writer, segment, blocks, k, cut);
      PassedAt(c, blocks, k, cut);
    }
  }

  lemma CompleteBeyond<T>(c: Codec<T>, writer: string, segment: nat, blocks: seq<Block>, k: nat, cut: nat)
    requires k <= |blocks| && (forall b :: b in blocks ==> Framed(b)) && (k < |blocks| ==> Offset(blocks, k + 1) > cut)
    ensures Complete(c, writer, segment, blocks, k, cut) && Unobstructed(c, blocks, k, cut)
  {
    NoneBeyond(c, blocks, k, cut);
  }

  lemma CompleteAtOversized<T>(c: Codec<T>, writer: string, segment: nat, blocks: seq<Block>, k: nat, cut: nat)
    requires k < |blocks| && (forall b :: b in blocks ==> Framed(b)) && Offset(blocks, k + 1) <= cut
    requires Oversized(blocks[k])
    ensures Complete(c, writer, segment, blocks, k, cut) <==> Unobstructed(c, blocks, k, cut)
  {
    NoneIntactIff(c, writer, segment, blocks, k, cut);
    ObstructedAt(c, blocks, k, cut);
  }

  lemma SameStep<T>(c: Codec<T>, writer: string, segment: nat, blocks: seq<Block>, k: nat, cut: nat)
    requires k < |blocks| && (forall b :: b in blocks ==> Framed(b)) && Offset(blocks, k + 1) <= cut
    requires !Oversized(blocks[k])
    ensures Complete(c, writer, segment, blocks, k, cut) <==> Complete(c, writer, segment, blocks, k + 1, cut)
  {
    SameRest(Yield(c, writer, segment, Offset(blocks, k), blocks[k]), Surviving(c, writer, segment, blocks, k + 1, cut),
      AllIntact(c, writer, segment, blocks, k + 1, cut));
  }

  lemma ObstructedAt<T>(c: Codec<T>, blocks: seq<Block>, k: nat, cut: nat)
    requires k < |blocks| && Oversized(blocks[k])
    ensures Unobstructed(c, blocks, k, cut) <==> NoneReadable(c, blocks, k, cut)
  {
    if i: nat :| k <= i < |blocks| && Readable(c, blocks, i, cut) {
      assert Oversized(blocks[k]);
    }
  }

  lemma PassedAt<T>(c: Codec<T>, blocks: seq<Block>, k: nat, cut: nat)
    requires k < |blocks| && !Oversized(blocks[k])
    ensures Unobstructed(c, blocks, k, cut) <==> Unobstructed(c, blocks, k + 1, cut)
  {
  }

  lemma SameRest<T>(a: seq<T>, b: seq<T>, c: seq<T>)
    ensures a + b == a + c <==> b == c
  {
    if a + b == a + c {
      assert b == (a + b)[|a|..] && c == (a + c)[|a|..];
    }
  }

  /** Every frame the walk finds there reads back as the same record through its own reference. */
  lemma {:induction false} FoundReadsBack<T>(c: Codec<T>, writer: string, segment: nat, blocks: seq<Block>, k: nat,
      cut: nat, i: nat)
    requires k <= |blocks| && |HEADER| <= cut <= |Laid(blocks)| && forall b :: b in blocks ==> Framed(b)
    requires i < |Surviving(c, writer, segment, blocks, k, cut)|
    ensures var f := Surviving(c, writer, segment, blocks, k, cut)[i];
      ReadFrame(c, Some(Laid(blocks)[..cut]), f.ref.offset, f.ref.length, f.ref.prefix) == Ok(f.value)
    decreases |blocks| - k
  {
    SurvivingAt(c, writer, segment, blocks, k, cut, i);
    var here := Yield(c, writer, segment, Offset(blocks, k), blocks[k]);
    if i < |here| {
      YieldReadsBack(c, writer, segment, blocks, k, cut, here[i]);
    } else {
      FoundReadsBack(c, writer, segment, blocks, k + 1, cut, i - |here|);
    }
  }

  lemma SurvivingAt<T>(c: Codec<T>, writer: string, segment: nat, blocks: seq<Block>, k: nat, cut: nat, i: nat)
    requires k <= |blocks| && forall b :: b in blocks ==> Framed(b)
    requires i < |Surviving(c, writer, segment, blocks, k, cut)|
    ensures k < |blocks| && Offset(blocks, k + 1) <= cut
    ensures var here, rest := Yield(c, writer, segment, Offset(blocks, k), blocks[k]),
        Surviving(c, writer, segment, blocks, k + 1, cut);
      && (i >= |here| ==> i - |here| < |rest|)
      && Surviving(c, writer, segment, blocks, k, cut)[i] == if i < |here| then here[i] else rest[i - |here|]
  {
    var here, rest := Yield(c, writer, segment, Offset(blocks, k), blocks[k]),
      Surviving(c, writer, segment, blocks, k + 1, cut);
    SumAt(here, rest, i);
  }

  lemma YieldReadsBack<T>(c: Codec<T>, writer: string, segment: nat, blocks: seq<Block>, k: nat, cut: nat, f: Found<T>)
    requires k < |blocks| && |HEADER| <= cut <= |Laid(blocks)| && forall b :: b in blocks ==> Framed(b)
    requires Offset(blocks, k + 1) <= cut && f in Yield(c, writer, segment, Offset(blocks, k), blocks[k])
    ensures ReadFrame(c, Some(Laid(blocks)[..cut]), f.ref.offset, f.ref.length, f.ref.prefix) == Ok(f.value)
  {
    WholeReadsBack(c, blocks, k, cut);
  }

  lemma SumAt<T>(a: seq<T>, b: seq<T>, i: nat)
    requires i < |a + b|
    ensures (a + b)[i] == if i < |a| then a[i] else b[i - |a|]
  {
  }
}
