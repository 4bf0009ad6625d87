/** The forgiving walk over what a writer wrote: it finds, in order, exactly the records that remain,
    under the references their appends returned. */
module JournalWalk {
  import opened Common
  import opened Journal
  import opened JournalWriter
  import R = RecordRef

  /** How many frames lie in the segments before s. */
  function First(layout: Layout, s: nat): nat
    requires s <= |layout|
  {
    if s == 0 then 0 else First(layout, s - 1) + |layout[s - 1]|
  }

  lemma {:induction false} FirstOfSame(a: Layout, b: Layout, s: nat)
    requires s <= |a| && s <= |b| && forall t :: 0 <= t < s ==> a[t] == b[t]
    ensures First(a, s) == First(b, s)
  {
    if s > 0 { FirstOfSame(a, b, s - 1); }
  }

  /** Segments before the open one are not touched by an append. */
  lemma PlacedKeeps(layout: Layout, b: Block, limit: nat, s: nat)
    requires layout != [] && s < |layout|
    ensures s < |Placed(layout, b, limit)| && First(Placed(layout, b, limit), s) == First(layout, s)
    ensures layout[s] <= Placed(layout, b, limit)[s]
  {
    FirstOfSame(Placed(layout, b, limit), layout, s);
  }

  /** An append adds one frame, at the end. */
  lemma PlacedEnd(before: Layout, b: Block, limit: nat)
    requires before != []
    ensures var after := Placed(before, b, limit); var s := |after| - 1;
      && s >= 0 && |after[s]| >= 1
      && First(after, s) + |after[s]| - 1 == First(before, |before|)
      && First(after, |after|) == First(before, |before|) + 1
  {
    var after := Placed(before, b, limit);
    PlacedKeeps(before, b, limit, |before| - 1);
    PlacedLast(before, b, limit);
    if |after| == |before| + 1 {
      FirstOfSame(after, before, |before|);
    }
  }

  lemma {:induction false} AllPlaced(blocks: seq<Block>, limit: nat)
    ensures First(PlacedAll(blocks, limit), |PlacedAll(blocks, limit)|) == |blocks|
  {
    if blocks == [] {
      var layout: Layout := [[]];
      assert First(layout, 1) == First(layout, 0) + |layout[0]|;
    } else {
      var n := |blocks| - 1;
      AllPlaced(blocks[..n], limit);
      PlacedEnd(PlacedAll(blocks[..n], limit), blocks[n], limit);
    }
  }

  /** Append number i used place k of segment s. */
  ghost predicate UsedBy(blocks: seq<Block>, limit: nat, s: nat, k: nat, i: nat) {
    i < |blocks| && SegmentOf(blocks, i, limit) == s && IndexIn(blocks, i, limit) == k
  }

  lemma EndUsed(blocks: seq<Block>, limit: nat, layout: Layout, s: nat, k: nat)
    requires blocks != [] && layout == PlacedAll(blocks, limit) && s == |layout| - 1 && k == |layout[s]| - 1
    ensures UsedBy(blocks, limit, s, k, |blocks| - 1)
  {
    assert blocks[..|blocks|] == blocks;
  }

  lemma UsedBefore(blocks: seq<Block>, limit: nat, s: nat, k: nat, i: nat)
    requires blocks != [] && UsedBy(blocks[..|blocks| - 1], limit, s, k, i)
    ensures UsedBy(blocks, limit, s, k, i)
  {
    assert blocks[..|blocks| - 1][..i + 1] == blocks[..i + 1];
  }

  /** Every place is used by an append: place k of segment s by number First(s) + k. */
  lemma {:induction false} AppendAt(blocks: seq<Block>, limit: nat, layout: Layout, s: nat, k: nat, i: nat)
    requires layout == PlacedAll(blocks, limit) && s < |layout| && k < |layout[s]| && i == First(layout, s) + k
    ensures UsedBy(blocks, limit, s, k, i)
    decreases |blocks|
  {
    SomeAppend(blocks, limit, s);
    var n := |blocks| - 1;
    var before := PlacedAll(blocks[..n], limit);
    if s < |before| && k < |before[s]| {
      SameNumber(blocks, limit, layout, before, s, k, i);
      AppendAt(blocks[..n], limit, before, s, k, i);
      UsedBefore(blocks, limit, s, k, i);
    } else {
      EndIsUsed(blocks, limit, layout, before, s, k, i);
    }
  }

  lemma EndIsUsed(blocks: seq<Block>, limit: nat, layout: Layout, before: Layout, s: nat, k: nat, i: nat)
    requires blocks != [] && layout == PlacedAll(blocks, limit) && before == PlacedAll(blocks[..|blocks| - 1], limit)
    requires s < |layout| && k < |layout[s]| && i == First(layout, s) + k && !(s < |before| && k < |before[s]|)
    ensures UsedBy(blocks, limit, s, k, i)
  {
    EndAt(blocks, limit, layout, before, s, k, i);
    EndUsed(blocks, limit, layout, s, k);
  }

  lemma SameNumber(blocks: seq<Block>, limit: nat, layout: Layout, before: Layout, s: nat, k: nat, i: nat)
    requires blocks != [] && layout == PlacedAll(blocks, limit) && before == PlacedAll(blocks[..|blocks| - 1], limit)
    requires s < |before| && s < |layout| && i == First(layout, s) + k
    ensures i == First(before, s) + k
  {
    assert layout == Placed(before, blocks[|blocks| - 1], limit);
    PlacedKeeps(before, blocks[|blocks| - 1], limit, s);
  }

  lemma SomeAppend(blocks: seq<Block>, limit: nat, s: nat)
    requires s < |PlacedAll(blocks, limit)| && PlacedAll(blocks, limit)[s] != []
    ensures blocks != []
  {
  }

  lemma EndAt(blocks: seq<Block>, limit: nat, layout: Layout, before: Layout, s: nat, k: nat, i: nat)
    requires blocks != [] && layout == PlacedAll(blocks, limit) && before == PlacedAll(blocks[..|blocks| - 1], limit)
    requires s < |layout| && k < |layout[s]| && i == First(layout, s) + k && !(s < |before| && k < |before[s]|)
    ensures s == |layout| - 1 && k == |layout[s]| - 1 && i == |blocks| - 1
  {
    var n := |blocks| - 1;
    assert layout == Placed(before, blocks[n], limit);
    EndOnly(before, blocks[n], limit, s, k);
    AllPlaced(blocks[..n], limit);
    PlacedEnd(before, blocks[n], limit);
  }

  /** The only place an append adds is at the end. */
  lemma EndOnly(layout: Layout, b: Block, limit: nat, s: nat, k: nat)
    requires layout != [] && s < |Placed(layout, b, limit)| && k < |Placed(layout, b, limit)[s]|
    requires !(s < |layout| && k < |layout[s]|)
    ensures var after := Placed(layout, b, limit); s == |after| - 1 && k == |after[s]| - 1
  {
  }

  // ---------- damage ----------

  /** The frames in `lost` no longer pass their checksum or no longer decode; all others are as they
      were written, and every length field is. */
  ghost predicate Damaged<T>(c: Codec<T>, segment: seq<Block>, damaged: seq<Block>, lost: set<nat>) {
    && SameLengths(segment, damaged)
    && forall k :: 0 <= k < |segment| ==>
         Framed(damaged[k]) && (if k in lost then !Intact(c, damaged[k]) else damaged[k] == segment[k])
  }

  lemma {:induction false} SameOffsets(a: seq<Block>, b: seq<Block>, k: nat)
    requires SameLengths(a, b) && k <= |a|
    ensures Offset(a, k) == Offset(b, k)
  {
    if k > 0 {
      assert SameLength(a, b, k - 1);
      SameOffsets(a, b, k - 1);
    }
  }

  ghost predicate SameLengths(a: seq<Block>, b: seq<Block>) {
    |a| == |b| && forall j {:trigger SameLength(a, b, j)} :: 0 <= j < |a| ==> SameLength(a, b, j)
  }

  ghost predicate SameLength(a: seq<Block>, b: seq<Block>, j: nat)
    requires j < |a| && j < |b|
  {
    |a[j].payload| == |b[j].payload|
  }

  lemma {:induction false} FirstGrows(layout: Layout, s: nat, t: nat)
    requires s <= t <= |layout|
    ensures First(layout, s) <= First(layout, t)
  {
    if s < t { FirstGrows(layout, s, t - 1); }
  }

  lemma {:induction false} PartOfAll(layout: Layout, s: nat)
    requires s < |layout|
    ensures First(layout, s) + |layout[s]| <= First(layout, |layout|)
  {
    assert First(layout, s + 1) == First(layout, s) + |layout[s]|;
    FirstGrows(layout, s + 1, |layout|);
  }

  lemma {:induction false} NumbersFit(blocks: seq<Block>, limit: nat, layout: Layout, s: nat)
    requires layout == PlacedAll(blocks, limit) && s < |layout|
    ensures First(layout, s) + |layout[s]| <= |blocks|
  {
    AllPlaced(blocks, limit);
    PartOfAll(layout, s);
  }

  /** For each place of segment s, the reference its append returned and the record appended. */
  ghost function Entries<T>(refs: seq<R.Ref>, records: seq<T>, layout: Layout, s: nat): (r: seq<Found<T>>)
    requires s < |layout| && First(layout, s) + |layout[s]| <= |refs| == |records|
    ensures |r| == |layout[s]|
  {
    seq(|layout[s]|, k requires 0 <= k < |layout[s]| => Found(refs[First(layout, s) + k],
      records[First(layout, s) + k]))
  }

  /** Those of the entries from place k on that are not lost and lie before byte `cut`, in order, up to
      the first oversized frame. */
  ghost function Remaining<T>(segment: seq<Block>, entries: seq<Found<T>>, lost: set<nat>, k: nat,
      cut: nat): seq<Found<T>>
    requires |entries| == |segment| && k <= |segment|
    decreases |segment| - k
  {
    if k == |segment| || Offset(segment, k + 1) > cut || Oversized(segment[k]) then []
    else
      Unless(k in lost, entries[k]) + Remaining(segment, entries, lost, k + 1, cut)
  }

  // ---------- what the walk yields, place by place ----------

  function Unless<T>(lost: bool, entry: T): seq<T> { if lost then [] else [entry] }

  /** Each place yields its entry, unless it is lost. */
  ghost predicate PlacesYield<T>(c: Codec<T>, writer: string, s: nat, blocks: seq<Block>, entries: seq<Found<T>>,
      lost: set<nat>) {
    |entries| == |blocks| && forall k {:trigger entries[k]} :: 0 <= k < |blocks| ==>
      Framed(blocks[k]) && Yield(c, writer, s, Offset(blocks, k), blocks[k]) == Unless(k in lost, entries[k])
  }

  lemma {:induction false} SurvivingIsRemaining<T>(c: Codec<T>, writer: string, s: nat, segment: seq<Block>,
      blocks: seq<Block>, entries: seq<Found<T>>, lost: set<nat>, k: nat, cut: nat)
    requires (forall b :: b in blocks ==> Framed(b)) && PlacesYield(c, writer, s, blocks, entries, lost)
    requires k <= |blocks| == |segment|
    requires SameLengths(segment, blocks)
    ensures Surviving(c, writer, s, blocks, k, cut) == Remaining(segment, entries, lost, k, cut)
    decreases |blocks| - k
  {
    if k < |blocks| {
      SurvivingIsRemaining(c, writer, s, segment, blocks, entries, lost, k + 1, cut);
      SameOffsets(segment, blocks, k + 1);
      assert entries[k] in entries && SameLength(segment, blocks, k);
      OnePlaceMore(c, writer, s, segment, blocks, entries, lost, k, cut);
    }
  }

  lemma OnePlaceMore<T>(c: Codec<T>, writer: string, s: nat, segment: seq<Block>, blocks: seq<Block>,
      entries: seq<Found<T>>, lost: set<nat>, k: nat, cut: nat)
    requires (forall b :: b in blocks ==> Framed(b)) && |entries| == |blocks| == |segment| && k < |blocks|
    requires Framed(blocks[k])
    requires Offset(segment, k + 1) == Offset(blocks, k + 1) && |segment[k].payload| == |blocks[k].payload|
    requires Yield(c, writer, s, Offset(blocks, k), blocks[k]) == Unless(k in lost, entries[k])
    requires Surviving(c, writer, s, blocks, k + 1, cut) == Remaining(segment, entries, lost, k + 1, cut)
    ensures Surviving(c, writer, s, blocks, k, cut) == Remaining(segment, entries, lost, k, cut)
  {
    if Offset(segment, k + 1) <= cut && !Oversized(segment[k]) {
      var here := Unless(k in lost, entries[k]);
      SurvivingStep(c, writer, s, blocks, k, cut, here);
      RemainingStep(segment, entries, lost, k, cut, here);
    }
  }

  lemma RemainingStep<T>(segment: seq<Block>, entries: seq<Found<T>>, lost: set<nat>, k: nat, cut: nat,
      here: seq<Found<T>>)
    requires |entries| == |segment| && k < |segment| && Offset(segment, k + 1) <= cut && !Oversized(segment[k])
    requires here == Unless(k in lost, entries[k])
    ensures Remaining(segment, entries, lost, k, cut) == here + Remaining(segment, entries, lost, k + 1, cut)
  {
  }

  lemma SurvivingStep<T>(c: Codec<T>, writer: string, s: nat, blocks: seq<Block>, k: nat, cut: nat, here: seq<Found<T>>)
    requires k < |blocks| && (forall b :: b in blocks ==> Framed(b)) && Offset(blocks, k + 1) <= cut
    requires !Oversized(blocks[k])
    requires Framed(blocks[k]) && here == Yield(c, writer, s, Offset(blocks, k), blocks[k])
    ensures Surviving(c, writer, s, blocks, k, cut) == here + Surviving(c, writer, s, blocks, k + 1, cut)
  {
  }

  lemma StoredYields<T(!new)>(c: Codec<T>, writer: string, s: nat, offset: nat, record: T, ref: R.Ref, b: Block)
    requires ValidCodec(c) && Framed(b) && b == Stored(c, record) && ref == RefTo(writer, s, offset, b)
    ensures Yield(c, writer, s, offset, b) == [Found(ref, record)]
  {
  }

  /** The reference returned by the append that used a place names that place. */
  lemma ReturnedAtPlace<T(!new)>(c: Codec<T>, writer: string, records: seq<T>, limit: nat, refs: seq<R.Ref>,
      layout: Layout, s: nat, k: nat, i: nat)
    requires Storable(c, records) && layout == PlacedAll(StoredAll(c, records), limit)
    requires refs == AllReturned(c, writer, records, limit, |records|)
    requires s < |layout| && k < |layout[s]| && i == First(layout, s) + k && i < |records|
    ensures |refs| == |records| && layout[s][k] == Stored(c, records[i]) && Framed(layout[s][k])
    ensures refs[i] == RefTo(writer, s, Offset(layout[s], k), layout[s][k])
  {
    AppendAt(StoredAll(c, records), limit, layout, s, k, i);
    assert records[..|records|] == records;
    ReturnedIsReference(c, writer, records, limit, |records|, i);
    ReferenceAt(c, writer, records, limit, layout, s, k, i);
  }

  lemma ReferenceAt<T(!new)>(c: Codec<T>, writer: string, records: seq<T>, limit: nat, layout: Layout, s: nat, k: nat,
      i: nat)
    requires Storable(c, records) && layout == PlacedAll(StoredAll(c, records), limit)
    requires UsedBy(StoredAll(c, records), limit, s, k, i)
    ensures s < |layout| && k < |layout[s]| && layout[s][k] == Stored(c, records[i]) && Framed(layout[s][k])
    ensures Reference(c, writer, records, i, limit) == RefTo(writer, s, Offset(layout[s], k), layout[s][k])
  {
    PlaceOf(StoredAll(c, records), i, limit);
    assert StoredAll(c, records)[i] == Stored(c, records[i]);
  }

  /** A writer's records, the references its appends returned and the segments it wrote. */
  ghost predicate Life<T(!new)>(c: Codec<T>, writer: string, records: seq<T>, limit: nat, refs: seq<R.Ref>,
      layout: Layout) {
    && Storable(c, records) && layout == PlacedAll(StoredAll(c, records), limit)
    && refs == AllReturned(c, writer, records, limit, |records|)
  }

  /** Place k of a damaged segment yields its entry, unless it is lost. */
  lemma PlaceYields<T(!new)>(c: Codec<T>, writer: string, records: seq<T>, limit: nat, refs: seq<R.Ref>, layout: Layout,
      s: nat, damaged: seq<Block>, lost: set<nat>, k: nat)
    requires Life(c, writer, records, limit, refs, layout) && s < |layout| && Damaged(c, layout[s], damaged, lost)
    requires k < |damaged|
    ensures |refs| == |records| && First(layout, s) + |layout[s]| <= |records|
    ensures Framed(damaged[k])
    ensures Yield(c, writer, s, Offset(damaged, k), damaged[k]) ==
      Unless(k in lost, Entries(refs, records, layout, s)[k])
  {
    EntryNamesPlace(c, writer, records, limit, refs, layout, s, k);
    DamagedYields(c, writer, s, layout[s], damaged, lost, k, Entries(refs, records, layout, s)[k]);
  }

  /** The entry `e` is the record written to a place and the reference to that place. */
  ghost predicate Names<T>(c: Codec<T>, writer: string, s: nat, segment: seq<Block>, k: nat, e: Found<T>)
    requires k < |segment|
  {
    && Framed(segment[k]) && segment[k] == Stored(c, e.value)
    && e.ref == RefTo(writer, s, Offset(segment, k), segment[k])
  }

  lemma EntryNamesPlace<T(!new)>(c: Codec<T>, writer: string, records: seq<T>, limit: nat, refs: seq<R.Ref>,
      layout: Layout, s: nat, k: nat)
    requires Life(c, writer, records, limit, refs, layout) && s < |layout| && k < |layout[s]|
    ensures |refs| == |records| && First(layout, s) + |layout[s]| <= |records|
    ensures Names(c, writer, s, layout[s], k, Entries(refs, records, layout, s)[k])
  {
    var i := First(layout, s) + k;
    NumbersFit(StoredAll(c, records), limit, layout, s);
    ReturnedNamesPlace(c, writer, records, limit, refs, layout, s, k, i);
    EntriesAt(refs, records, layout, s, k);
    assert Entries(refs, records, layout, s)[k] == Found(refs[i], records[i]);
  }

  lemma ReturnedNamesPlace<T(!new)>(c: Codec<T>, writer: string, records: seq<T>, limit: nat, refs: seq<R.Ref>,
      layout: Layout, s: nat, k: nat, i: nat)
    requires Life(c, writer, records, limit, refs, layout) && s < |layout| && k < |layout[s]|
    requires i == First(layout, s) + k && i < |records|
    ensures |refs| == |records| && Names(c, writer, s, layout[s], k, Found(refs[i], records[i]))
  {
    ReturnedAtPlace(c, writer, records, limit, refs, layout, s, k, i);
  }

  lemma DamagedYields<T(!new)>(c: Codec<T>, writer: string, s: nat, segment: seq<Block>, damaged: seq<Block>,
      lost: set<nat>, k: nat, e: Found<T>)
    requires ValidCodec(c) && Damaged(c, segment, damaged, lost) && k < |damaged|
    requires Names(c, writer, s, segment, k, e)
    ensures Framed(damaged[k]) && Yield(c, writer, s, Offset(damaged, k), damaged[k]) == Unless(k in lost, e)
  {
    SameOffsets(segment, damaged, k);
    if k in lost {
      LostYields(c, writer, s, Offset(damaged, k), damaged[k]);
    } else {
      StoredYields(c, writer, s, Offset(damaged, k), e.value, e.ref, damaged[k]);
    }
  }

  lemma LostYields<T>(c: Codec<T>, writer: string, s: nat, offset: nat, b: Block)
    requires Framed(b) && !Intact(c, b)
    ensures Yield(c, writer, s, offset, b) == []
  {
  }

  lemma EntriesAt<T>(refs: seq<R.Ref>, records: seq<T>, layout: Layout, s: nat, k: nat)
    requires s < |layout| && First(layout, s) + |layout[s]| <= |refs| == |records| && k < |layout[s]|
    ensures Entries(refs, records, layout, s)[k] == Found(refs[First(layout, s) + k], records[First(layout, s) + k])
  {
  }

  /** For every list of appended records, every segment limit, every segment, every set of lost frames
      and every truncation, the walk yields exactly the records that remain, in the order they were
      appended and under the references append returned, up to the first oversized frame. */
  lemma WalkYieldsWhatAppendReturned<T(!new)>(c: Codec<T>, writer: string, records: seq<T>, limit: nat,
      refs: seq<R.Ref>, layout: Layout, s: nat, damaged: seq<Block>, lost: set<nat>, cut: nat)
    requires Life(c, writer, records, limit, refs, layout) && s < |layout|
    requires Damaged(c, layout[s], damaged, lost) && cut <= |Laid(damaged)|
    ensures |refs| == |records| && First(layout, s) + |layout[s]| <= |records|
    ensures WalkSegment(c, writer, s, Some(Laid(damaged)[..cut])) ==
      if cut < |HEADER| then [] else Remaining(layout[s], Entries(refs, records, layout, s), lost, 0, cut)
  {
    NumbersFit(StoredAll(c, records), limit, layout, s);
    var entries := Entries(refs, records, layout, s);
    AllPlacesYield(c, writer, records, limit, refs, layout, s, damaged, lost);
    WalkFindsWhatRemains(c, writer, s, damaged, cut);
    SurvivingIsRemaining(c, writer, s, layout[s], damaged, entries, lost, 0, cut);
  }

  lemma AllPlacesYield<T(!new)>(c: Codec<T>, writer: string, records: seq<T>, limit: nat, refs: seq<R.Ref>,
      layout: Layout, s: nat, damaged: seq<Block>, lost: set<nat>)
    requires Life(c, writer, records, limit, refs, layout) && s < |layout| && Damaged(c, layout[s], damaged, lost)
    ensures |refs| == |records| && First(layout, s) + |layout[s]| <= |records|
    ensures forall b :: b in damaged ==> Framed(b)
    ensures PlacesYield(c, writer, s, damaged, Entries(refs, records, layout, s), lost)
  {
    NumbersFit(StoredAll(c, records), limit, layout, s);
    var entries := Entries(refs, records, layout, s);
    forall k | 0 <= k < |damaged|
      ensures Framed(damaged[k])
      ensures Yield(c, writer, s, Offset(damaged, k), damaged[k]) == Unless(k in lost, entries[k])
    {
      PlaceYields(c, writer, records, limit, refs, layout, s, damaged, lost, k);
    }
  }
}
