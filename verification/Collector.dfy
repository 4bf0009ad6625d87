/** Journal garbage collection: which segments history still needs, and the shared scan of a
    batch of retirements. */
module Collector {
  import opened Common
  import J = Journal
  import R = RecordRef

  // ---------- reading history backwards ----------

  datatype Segment = Segment(writer: string, number: nat)

  /** A state frame; `previous` is None when the field is missing or is not a string. */
  datatype Frame = Frame(previous: Option<string>, state: string)

  type Files = map<Segment, J.Bytes>

  type Codec = J.Codec<Frame>

  function SegmentOf(reference: string): Option<Segment> {
    match R.Parse(reference)
    case None => None
    case Some(r) => Some(Segment(r.writer, r.segment))
  }

  /** A frame that cannot be read for whatever reason is None. */
  function ReadRecord(c: Codec, files: Files, reference: string): Option<Frame> {
    match R.Parse(reference)
    case None => None
    case Some(r) =>
      var s := Segment(r.writer, r.segment);
      var file := if s in files then Some(files[s]) else None;
      match J.ReadFrame(c, file, r.offset, r.length, r.prefix)
      case Ok(frame) => Some(frame)
      case Err(_) => None
  }

  /** Every reference some stored frame could name as its predecessor. */
  ghost function NamedIn(c: Codec, file: J.Bytes): set<string> {
    set offset, length | 0 <= offset <= |file| && 0 <= length <= |file| && Names(c, J.Read(file, offset, length)).Some?
      :: Names(c, J.Read(file, offset, length)).value
  }

  ghost function Names(c: Codec, payload: J.Bytes): Option<string> {
    match c.decode(payload)
    case Object(frame) => frame.previous
    case _ => None
  }

  ghost function Named(c: Codec, files: Files): set<string> {
    set s, name | s in files && name in NamedIn(c, files[s]) :: name
  }

  lemma PreviousIsNamed(c: Codec, files: Files, reference: string)
    requires ReadRecord(c, files, reference).Some? && ReadRecord(c, files, reference).value.previous.Some?
    ensures ReadRecord(c, files, reference).value.previous.value in Named(c, files)
  {
    var r := R.Parse(reference).value;
    var s := Segment(r.writer, r.segment);
    var payload := J.Read(files[s], r.offset + 8, r.length);
    assert Names(c, payload) == ReadRecord(c, files, reference).value.previous;
    assert Names(c, payload).value in NamedIn(c, files[s]);
  }

  ghost function Unvisited(c: Codec, files: Files, current: string, visited: set<string>): nat {
    |Named(c, files) + {current} - visited|
  }

  lemma StepShrinks(c: Codec, files: Files, current: string, next: string, visited: set<string>)
    requires current !in visited && next in Named(c, files)
    ensures Unvisited(c, files, next, visited + {current}) < Unvisited(c, files, current, visited)
  {
    var before, after := Named(c, files) + {current} - visited, Named(c, files) + {next} - (visited + {current});
    assert after <= before - {current};
    SubsetSize(after, before - {current});
  }

  datatype Entry = Entry(reference: string, frame: Option<Frame>)

  /** What the backward walk yields from `current` on, for any journal: chains may be broken or
      run in a circle. */
  ghost function Chain(c: Codec, files: Files, current: string, visited: set<string>): seq<Entry>
    decreases Unvisited(c, files, current, visited)
  {
    if current == "init" || current in visited then []
    else match ReadRecord(c, files, current)
      case None => [Entry(current, None)]
      case Some(frame) =>
        if frame.previous.None? then [Entry(current, Some(frame))]
        else
          PreviousIsNamed(c, files, current);
          StepShrinks(c, files, current, frame.previous.value, visited);
          [Entry(current, Some(frame))] + Chain(c, files, frame.previous.value, visited + {current})
  }

  ghost function History(c: Codec, files: Files, reference: string): seq<Entry> {
    Chain(c, files, reference, {})
  }

  /** Where the walk goes after a frame. */
  function Successor(frame: Option<Frame>): Option<string> {
    if frame.None? || frame.value.previous == Some("init") then None else frame.value.previous
  }

  /** One turn of the walk. */
  lemma ChainUnfolds(c: Codec, files: Files, current: string, visited: set<string>, frame: Option<Frame>)
    requires current != "init" && current !in visited && frame == ReadRecord(c, files, current)
    ensures Successor(frame).None? ==> Chain(c, files, current, visited) == [Entry(current, frame)]
    ensures Successor(frame).Some? ==>
      && Unvisited(c, files, Successor(frame).value, visited + {current}) < Unvisited(c, files, current, visited)
      && Chain(c, files, current, visited) ==
        [Entry(current, frame)] + Chain(c, files, Successor(frame).value, visited + {current})
  {
    if frame.Some? && frame.value.previous.Some? {
      PreviousIsNamed(c, files, current);
      StepShrinks(c, files, current, frame.value.previous.value, visited);
    }
  }

  lemma Regroup<T>(a: seq<T>, x: T, b: seq<T>)
    ensures (a + [x]) + b == a + ([x] + b)
  {
  }

  method IterRecordChain(c: Codec, files: Files, reference: string) returns (entries: seq<Entry>)
    ensures entries == History(c, files, reference)
  {
    entries := [];
    var visited: set<string>, current := {}, reference;
    ghost var whole := History(c, files, reference);
    while current != "init" && current !in visited
      invariant entries + Chain(c, files, current, visited) == whole
      decreases Unvisited(c, files, current, visited)
    {
      var frame := ReadRecord(c, files, current);
      ChainUnfolds(c, files, current, visited, frame);
      var entry, next := Entry(current, frame), Successor(frame);
      if next.None? { return entries + [entry]; }
      Regroup(entries, entry, Chain(c, files, next.value, visited + {current}));
      entries, visited, current := entries + [entry], visited + {current}, next.value;
    }
  }

  /** A record that a segment still holds is read through its reference, unless the reference is too long
      for its printed fields. */
  lemma StoredIsRead(c: Codec, files: Files, writer: string, s: nat, blocks: seq<J.Block>, k: nat, cut: nat)
    requires CanonicalUuid(writer) && s < R.Power36(7)
    requires k < |blocks| && J.Offset(blocks, k) < R.Power36(13) && |blocks[k].payload| < R.Power36(13)
    requires (forall b :: b in blocks ==> J.Framed(b)) && J.Framed(blocks[k]) && J.Intact(c, blocks[k])
    requires |J.HEADER| <= cut <= |J.Laid(blocks)| && J.Offset(blocks, k + 1) <= cut
    requires Segment(writer, s) in files && files[Segment(writer, s)] == J.Laid(blocks)[..cut]
    ensures ReadRecord(c, files, R.Encode(J.RefTo(writer, s, J.Offset(blocks, k), blocks[k]))) ==
      Some(c.decode(blocks[k].payload).value)
  {
    var ref := J.RefTo(writer, s, J.Offset(blocks, k), blocks[k]);
    R.ParseInvertsEncode(ref);
    J.WholeReadsBack(c, blocks, k, cut);
  }

  /** An entry is what reading its reference gives, and is met for the first time. */
  ghost predicate Known(c: Codec, files: Files, visited: set<string>, e: Entry) {
    e.frame == ReadRecord(c, files, e.reference) && e.reference != "init" && e.reference !in visited
  }

  ghost predicate LeadsTo(e: Entry, reference: string) {
    e.frame.Some? && e.frame.value.previous == Some(reference)
  }

  ghost function References(entries: seq<Entry>): set<string> { set e | e in entries :: e.reference }

  ghost predicate Linked(entries: seq<Entry>, i: nat)
    requires i + 1 < |entries|
  {
    LeadsTo(entries[i], entries[i + 1].reference)
  }

  ghost predicate AllLinked(entries: seq<Entry>) {
    forall i: nat {:trigger Linked(entries, i)} :: i + 1 < |entries| ==> Linked(entries, i)
  }

  ghost predicate Distinct(entries: seq<Entry>) {
    forall i, j :: 0 <= i < j < |entries| ==> entries[i].reference != entries[j].reference
  }

  /** The entry leads to nothing new. */
  ghost predicate LeadsNowhere(e: Entry, seen: set<string>) {
    forall p :: LeadsTo(e, p) ==> p == "init" || p in seen
  }

  /** The entries follow the references back from `current`, each once, as far as they lead. */
  ghost predicate IsChain(c: Codec, files: Files, current: string, visited: set<string>, entries: seq<Entry>) {
    if current == "init" || current in visited then entries == []
    else
      && entries != [] && entries[0].reference == current
      && (forall e :: e in entries ==> Known(c, files, visited, e))
      && Distinct(entries) && AllLinked(entries)
      && LeadsNowhere(entries[|entries| - 1], visited + References(entries))
  }

  /** There is one such sequence, and the backward walk yields it. */
  lemma {:induction false} OnlyChain(c: Codec, files: Files, current: string, visited: set<string>, entries: seq<Entry>)
    ensures IsChain(c, files, current, visited, entries) <==> entries == Chain(c, files, current, visited)
    decreases Unvisited(c, files, current, visited)
  {
    if current != "init" && current !in visited {
      var frame := ReadRecord(c, files, current);
      ChainUnfolds(c, files, current, visited, frame);
      var first := Entry(current, frame);
      if Successor(frame).Some? {
        var next, more := Successor(frame).value, visited + {current};
        var rest := Chain(c, files, next, more);
        OnlyChain(c, files, next, more, rest);
        LongerChain(c, files, current, visited, next, first, rest);
        if IsChain(c, files, current, visited, entries) {
          StartsWith(c, files, current, visited, entries);
          ShorterChain(c, files, current, visited, next, entries[0], entries[1..]);
          OnlyChain(c, files, next, more, entries[1..]);
        }
      } else {
        SingleChain(c, files, current, visited, first, entries);
      }
    }
  }

  lemma StartsWith(c: Codec, files: Files, current: string, visited: set<string>, entries: seq<Entry>)
    requires current != "init" && current !in visited && IsChain(c, files, current, visited, entries)
    ensures entries[0] == Entry(current, ReadRecord(c, files, current)) && entries == [entries[0]] + entries[1..]
  {
    assert Known(c, files, visited, entries[0]);
  }

  lemma SingleChain(c: Codec, files: Files, current: string, visited: set<string>, first: Entry, entries: seq<Entry>)
    requires current != "init" && current !in visited && first == Entry(current, ReadRecord(c, files, current))
    requires Successor(first.frame).None?
    ensures IsChain(c, files, current, visited, entries) <==> entries == [first]
  {
    if IsChain(c, files, current, visited, entries) {
      StartsWith(c, files, current, visited, entries);
      if |entries| > 1 { SecondIsNew(c, files, current, visited, entries); }
    }
  }

  lemma SecondIsNew(c: Codec, files: Files, current: string, visited: set<string>, entries: seq<Entry>)
    requires current != "init" && current !in visited && IsChain(c, files, current, visited, entries)
    requires |entries| > 1
    ensures Successor(entries[0].frame).Some?
  {
    assert Linked(entries, 0) && Known(c, files, visited, entries[1]);
  }

  lemma LongerChain(c: Codec, files: Files, current: string, visited: set<string>, next: string, first: Entry,
      rest: seq<Entry>)
    requires current != "init" && current !in visited && first == Entry(current, ReadRecord(c, files, current))
    requires LeadsTo(first, next) && next != "init" && IsChain(c, files, next, visited + {current}, rest)
    ensures IsChain(c, files, current, visited, [first] + rest)
  {
    var entries := [first] + rest;
    forall e | e in entries ensures Known(c, files, visited, e) {
      if e in rest { assert Known(c, files, visited + {current}, e); }
    }
    AddedFirst(first, rest, visited + {current});
    if rest != [] { LinkedFirst(first, rest, visited); }
  }

  lemma AddedFirst(first: Entry, rest: seq<Entry>, visited: set<string>)
    requires first.reference in visited && Distinct(rest) && forall e :: e in rest ==> e.reference !in visited
    ensures Distinct([first] + rest)
    ensures References([first] + rest) == {first.reference} + References(rest)
  {
  }

  lemma LinkedFirst(first: Entry, rest: seq<Entry>, visited: set<string>)
    requires rest != []
    ensures AllLinked([first] + rest) <==> AllLinked(rest) && LeadsTo(first, rest[0].reference)
    ensures ([first] + rest)[|rest|] == rest[|rest| - 1]
  {
    var entries := [first] + rest;
    forall i: nat | i + 1 < |rest| ensures Linked(entries, i + 1) <==> Linked(rest, i) {
    }
    assert Linked(entries, 0) <==> LeadsTo(first, rest[0].reference);
    if AllLinked(rest) && LeadsTo(first, rest[0].reference) {
      forall i: nat | i + 1 < |entries| ensures Linked(entries, i) {
        if i > 0 { assert Linked(rest, i - 1); }
      }
    }
  }

  lemma ShorterChain(c: Codec, files: Files, current: string, visited: set<string>, next: string, first: Entry,
      rest: seq<Entry>)
    requires current != "init" && current !in visited && IsChain(c, files, current, visited, [first] + rest)
    requires first.reference == current && LeadsTo(first, next) && next != "init"
    ensures IsChain(c, files, next, visited + {current}, rest)
  {
    var entries := [first] + rest;
    assert forall e :: e in rest ==> e in entries;
    assert References(entries) == {current} + References(rest);
    if rest == [] {
      assert LeadsTo(entries[|entries| - 1], next);
    } else {
      LinkedFirst(first, rest, visited);
      RestDistinct(first, rest);
      assert Known(c, files, visited, rest[0]);
    }
  }

  lemma RestDistinct(first: Entry, rest: seq<Entry>)
    requires Distinct([first] + rest)
    ensures Distinct(rest) && forall e :: e in rest ==> e.reference != first.reference
  {
    var entries := [first] + rest;
    assert forall i :: 0 <= i < |rest| ==> entries[i + 1] == rest[i];
    forall e | e in rest ensures e.reference != first.reference {
      var i :| 0 <= i < |rest| && rest[i] == e;
      assert entries[0].reference != entries[i + 1].reference;
    }
  }

  // ---------- what history protects ----------

  ghost function SegmentsOf(entries: seq<Entry>): set<Segment> {
    set e | e in entries && SegmentOf(e.reference).Some? :: SegmentOf(e.reference).value
  }

  ghost function Protected(c: Codec, files: Files, reference: string, walk: bool): set<Segment> {
    match SegmentOf(reference)
    case None => {}
    case Some(s) => {s} + if walk then SegmentsOf(History(c, files, reference)) else {}
  }

  /** `reference` is the last part of the marker name, "init" before the first frame. */
  datatype Marker = Marker(kind: Kind, reference: string)

  ghost function MarkersProtect(c: Codec, files: Files, markers: seq<Marker>): set<Segment> {
    set m, s | m in markers && s in MarkerProtects(c, files, m) :: s
  }

  ghost function MarkerProtects(c: Codec, files: Files, m: Marker): set<Segment> {
    if m.reference == "init" then {} else Protected(c, files, m.reference, !Terminal(m.kind))
  }

  /** The record references of sealed transfers, by transfer identifier. */
  type Seals = map<string, string>

  ghost function SealsProtect(c: Codec, files: Files, seals: Seals): set<Segment> {
    set t, s | t in seals && s in Protected(c, files, seals[t], true) :: s
  }

  /** What a fresh scan protects. */
  ghost function Referenced(c: Codec, files: Files, markers: seq<Marker>, seals: Seals): set<Segment> {
    MarkersProtect(c, files, markers) + SealsProtect(c, files, seals)
  }

  /** The segments `kept` are the same in both journals. */
  ghost predicate Keeps(before: Files, after: Files, kept: set<Segment>) {
    forall s :: s in kept ==> (s in before <==> s in after) && (s in before ==> before[s] == after[s])
  }

  lemma ReadKept(c: Codec, before: Files, after: Files, reference: string)
    requires SegmentOf(reference).Some? ==> Keeps(before, after, {SegmentOf(reference).value})
    ensures ReadRecord(c, after, reference) == ReadRecord(c, before, reference)
  {
    if SegmentOf(reference).Some? {
      assert SegmentOf(reference).value in {SegmentOf(reference).value};
    }
  }

  lemma {:induction false} ChainKept(c: Codec, before: Files, after: Files, current: string, visited: set<string>)
    requires Keeps(before, after, SegmentsOf(Chain(c, before, current, visited)))
    ensures Chain(c, after, current, visited) == Chain(c, before, current, visited)
    decreases Unvisited(c, before, current, visited)
  {
    if current != "init" && current !in visited {
      var chain := Chain(c, before, current, visited);
      assert chain[0].reference == current && chain[0] in chain;
      ReadKept(c, before, after, current);
      var frame := ReadRecord(c, before, current);
      if frame.Some? && frame.value.previous.Some? {
        var next := frame.value.previous.value;
        PreviousIsNamed(c, before, current);
        StepShrinks(c, before, current, next, visited);
        var rest := Chain(c, before, next, visited + {current});
        assert forall e :: e in rest ==> e in chain;
        ChainKept(c, before, after, next, visited + {current});
      }
    }
  }

  lemma ProtectedKept(c: Codec, before: Files, after: Files, reference: string, walk: bool)
    requires Keeps(before, after, Protected(c, before, reference, walk))
    ensures Protected(c, after, reference, walk) == Protected(c, before, reference, walk)
    ensures walk ==> History(c, after, reference) == History(c, before, reference)
    ensures ReadRecord(c, after, reference) == ReadRecord(c, before, reference)
  {
    ReadKept(c, before, after, reference);
    if walk {
      if SegmentOf(reference).None? {
        assert ReadRecord(c, before, reference).None?;
        assert SegmentsOf(History(c, before, reference)) == {};
      }
      ChainKept(c, before, after, reference, {});
    }
  }

  /** A pass keeps every history that is still needed and every current frame. */
  ghost predicate HistoryKept(c: Codec, before: Files, after: Files, markers: seq<Marker>, seals: Seals) {
    && (forall m :: m in markers ==> ReadRecord(c, after, m.reference) == ReadRecord(c, before, m.reference))
    && (forall m :: m in markers && !Terminal(m.kind) ==>
      History(c, after, m.reference) == History(c, before, m.reference))
    && (forall t :: t in seals ==> History(c, after, seals[t]) == History(c, before, seals[t]))
  }

  lemma InitNamesNothing()
    ensures R.Parse("init").None?
  {
    R.FieldAlone("init");
  }

  /** Leaving the referenced segments alone is enough, and the next scan finds the same ones. */
  lemma ReferencedSuffices(c: Codec, before: Files, after: Files, markers: seq<Marker>, seals: Seals)
    requires Keeps(before, after, Referenced(c, before, markers, seals))
    ensures HistoryKept(c, before, after, markers, seals)
    ensures MarkersProtect(c, after, markers) == MarkersProtect(c, before, markers)
    ensures forall t :: t in seals ==> Protected(c, after, seals[t], true) == Protected(c, before, seals[t], true)
    ensures Referenced(c, after, markers, seals) == Referenced(c, before, markers, seals)
  {
    InitNamesNothing();
    forall m | m in markers
      ensures MarkerProtects(c, after, m) == MarkerProtects(c, before, m)
      ensures ReadRecord(c, after, m.reference) == ReadRecord(c, before, m.reference)
      ensures !Terminal(m.kind) ==> History(c, after, m.reference) == History(c, before, m.reference)
    {
      assert MarkerProtects(c, before, m) <= MarkersProtect(c, before, markers);
      if m.reference != "init" {
        ProtectedKept(c, before, after, m.reference, !Terminal(m.kind));
      }
    }
    forall t | t in seals
      ensures Protected(c, after, seals[t], true) == Protected(c, before, seals[t], true)
      ensures History(c, after, seals[t]) == History(c, before, seals[t])
    {
      assert Protected(c, before, seals[t], true) <= SealsProtect(c, before, seals);
      ProtectedKept(c, before, after, seals[t], true);
    }
  }

  /** Only the last entry of a history can be unreadable, or name no segment. */
  lemma {:induction false} OnlyTheLastIsUnreadable(c: Codec, files: Files, current: string, visited: set<string>,
      i: nat)
    requires i + 1 < |Chain(c, files, current, visited)|
    ensures Chain(c, files, current, visited)[i].frame.Some?
    ensures SegmentOf(Chain(c, files, current, visited)[i].reference).Some?
    decreases Unvisited(c, files, current, visited)
  {
    var frame := ReadRecord(c, files, current);
    PreviousIsNamed(c, files, current);
    StepShrinks(c, files, current, frame.value.previous.value, visited);
    if i > 0 {
      OnlyTheLastIsUnreadable(c, files, frame.value.previous.value, visited + {current}, i - 1);
    }
  }
}
