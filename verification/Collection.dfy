/** One collection pass over a workspace, and the shared scan of a batch of retirements. */
module Collection {
  import opened Common
  import opened Collector

  /** A transfer ledger; `marker` is None when its sealed marker is missing or malformed. */
  datatype Ledger = Ledger(isSealed: bool, marker: Option<string>)

  type Ledgers = map<string, Ledger>

  predicate Protects(l: Ledger) { l.isSealed && l.marker.Some? && l.marker != Some("init") }

  function SealsOf(ledgers: Ledgers): Seals {
    map t | t in ledgers && Protects(ledgers[t]) :: ledgers[t].marker.value
  }

  /** The reference of a sealed ledger is readable back to its first frame as it was, and no segment of
      that history has gone. */
  ghost predicate SealedKept(c: Codec, before: Files, after: Files, ledgers: Ledgers) {
    forall t, r :: t in ledgers && ledgers[t] == Ledger(true, Some(r)) ==>
      History(c, after, r) == History(c, before, r) && Keeps(before, after, SegmentsOf(History(c, before, r)))
  }

  /** A terminal marker names the segment of its current frame, any other those of its history. */
  ghost predicate NamedBy(c: Codec, files: Files, m: Marker, s: Segment) {
    if m.kind in {Succeeded, Failed, Cancelled} then SegmentOf(m.reference) == Some(s)
    else s in SegmentsOf(History(c, files, m.reference))
  }

  /** A sealed ledger names the segments of its history. */
  ghost predicate SealedBy(c: Codec, files: Files, l: Ledger, s: Segment) {
    l.isSealed && l.marker.Some? && s in SegmentsOf(History(c, files, l.marker.value))
  }

  ghost predicate Demanded(c: Codec, files: Files, markers: seq<Marker>, ledgers: Ledgers, s: Segment) {
    || (exists m :: m in markers && NamedBy(c, files, m, s))
    || (exists t :: t in ledgers && SealedBy(c, files, ledgers[t], s))
  }

  /** A fresh scan protects what is demanded and nothing else. */
  lemma ReferencedIffDemanded(c: Codec, files: Files, markers: seq<Marker>, ledgers: Ledgers, s: Segment)
    ensures s in Referenced(c, files, markers, SealsOf(ledgers)) <==> Demanded(c, files, markers, ledgers, s)
  {
    forall m | m in markers
      ensures s in MarkerProtects(c, files, m) <==> NamedBy(c, files, m, s)
    {
      MarkerNames(c, files, m, s);
    }
    forall t | t in ledgers
      ensures SealedBy(c, files, ledgers[t], s) <==>
        t in SealsOf(ledgers) && s in Protected(c, files, SealsOf(ledgers)[t], true)
    {
      LedgerNames(c, files, ledgers[t], s);
    }
  }

  lemma MarkerNames(c: Codec, files: Files, m: Marker, s: Segment)
    ensures s in MarkerProtects(c, files, m) <==> NamedBy(c, files, m, s)
  {
    InitNamesNothing();
    ProtectedIsNamed(c, files, m.reference);
  }

  lemma LedgerNames(c: Codec, files: Files, l: Ledger, s: Segment)
    ensures SealedBy(c, files, l, s) <==> Protects(l) && s in Protected(c, files, l.marker.value, true)
  {
    if l.marker.Some? { ProtectedIsNamed(c, files, l.marker.value); }
  }

  /** What walking protects are the segments its history names. */
  lemma ProtectedIsNamed(c: Codec, files: Files, reference: string)
    ensures reference != "init" ==> Protected(c, files, reference, true) == SegmentsOf(History(c, files, reference))
    ensures reference == "init" ==> History(c, files, reference) == []
  {
    if reference != "init" {
      var history := History(c, files, reference);
      assert history[0].reference == reference && history[0] in history;
      if SegmentOf(reference).None? { assert ReadRecord(c, files, reference).None?; }
    }
  }

  lemma SealedAreKept(c: Codec, before: Files, after: Files, ledgers: Ledgers, seals: Seals, kept: set<Segment>)
    requires forall t :: t in SealsOf(ledgers) ==> t in seals && seals[t] == SealsOf(ledgers)[t]
    requires SealsProtect(c, before, seals) <= kept && Keeps(before, after, kept)
    ensures SealedKept(c, before, after, ledgers)
  {
    forall t, r | t in ledgers && ledgers[t] == Ledger(true, Some(r))
      ensures History(c, after, r) == History(c, before, r) && Keeps(before, after, SegmentsOf(History(c, before, r)))
    {
      ProtectedIsNamed(c, before, r);
      if r != "init" {
        assert SealsOf(ledgers)[t] == r && seals[t] == r;
        assert Protected(c, before, r, true) <= SealsProtect(c, before, seals);
        ChainKept(c, before, after, r, {});
      }
    }
  }

  /** A manager directory: the writer it names, if that can be read, and whether it still beats. */
  datatype ManagerDir = ManagerDir(writer: Option<string>, beating: bool)

  ghost function LiveWriters(managers: seq<ManagerDir>, own: Option<string>): set<string> {
    (set m | m in managers && m.beating && m.writer.Some? :: m.writer.value) + (if own.Some? then {own.value} else {})
  }

  ghost predicate OpaqueManager(managers: seq<ManagerDir>) {
    exists m :: m in managers && m.beating && m.writer.None?
  }

  // ---------- reference counting ----------

  type Owners = map<string, set<Segment>>

  ghost function Holders(owners: Owners, s: Segment): set<string> {
    set t | t in owners && s in owners[t]
  }

  /** Each segment is counted once for the markers and once for each transfer that holds it. */
  ghost predicate Counted(counts: multiset<Segment>, base: set<Segment>, owners: Owners) {
    forall s :: counts[s] == (if s in base then 1 else 0) + |Holders(owners, s)|
  }

  ghost function Held(owners: Owners): set<Segment> {
    set t, s | t in owners && s in owners[t] :: s
  }

  lemma PositiveIffHeld(counts: multiset<Segment>, base: set<Segment>, owners: Owners, s: Segment)
    requires Counted(counts, base, owners)
    ensures counts[s] > 0 <==> s in base || s in Held(owners)
  {
    if s in Held(owners) {
      var t :| t in owners && s in owners[t];
      assert t in Holders(owners, s);
    }
    if |Holders(owners, s)| > 0 {
      var t :| t in Holders(owners, s);
      assert s in owners[t];
    }
  }

  lemma CountAdded(counts: multiset<Segment>, base: set<Segment>, owners: Owners, t: string, held: set<Segment>)
    requires Counted(counts, base, owners) && t !in owners
    ensures Counted(counts + multiset(held), base, owners[t := held])
  {
    forall s
      ensures (counts + multiset(held))[s] == (if s in base then 1 else 0) + |Holders(owners[t := held], s)|
    {
      assert Holders(owners[t := held], s) == Holders(owners, s) + if s in held then {t} else {};
    }
  }

  lemma CountRemoved(before: multiset<Segment>, after: multiset<Segment>, base: set<Segment>, owners: Owners, t: string)
    requires Counted(before, base, owners) && t in owners && before == after + multiset(owners[t])
    ensures Counted(after, base, owners - {t})
  {
    forall s
      ensures after[s] == (if s in base then 1 else 0) + |Holders(owners - {t}, s)|
    {
      assert Holders(owners, s) == Holders(owners - {t}, s) + if s in owners[t] then {t} else {};
    }
  }

  lemma HoldersCounted(counts: multiset<Segment>, base: set<Segment>, owners: Owners, t: string)
    requires Counted(counts, base, owners) && t in owners
    ensures multiset(owners[t]) <= counts
  {
    forall s | s in owners[t]
      ensures counts[s] >= 1
    {
      assert t in Holders(owners, s);
    }
  }

  /** What each sealed transfer protects. */
  ghost function SharesOf(c: Codec, files: Files, seals: Seals): Owners {
    map t | t in seals :: Protected(c, files, seals[t], true)
  }

  lemma ShareAdded(c: Codec, files: Files, all: Seals, todo: set<string>, t: string)
    requires t in todo && t in all
    ensures t !in SharesOf(c, files, all - todo)
    ensures SharesOf(c, files, all - (todo - {t})) ==
      SharesOf(c, files, all - todo)[t := Protected(c, files, all[t], true)]
  {
    assert (all - (todo - {t})).Keys == (all - todo).Keys + {t};
  }

  lemma ShareRemoved(c: Codec, files: Files, seals: Seals, t: string)
    ensures SharesOf(c, files, seals - {t}) == SharesOf(c, files, seals) - {t}
  {
  }

  lemma SharesHeld(c: Codec, files: Files, seals: Seals)
    ensures Held(SharesOf(c, files, seals)) == SealsProtect(c, files, seals)
  {
    var shares := SharesOf(c, files, seals);
    forall s | s in SealsProtect(c, files, seals)
      ensures s in Held(shares)
    {
      var t :| t in seals && s in Protected(c, files, seals[t], true);
      assert s in shares[t];
    }
  }

  /** One reference less for each segment held; no count goes below zero. */
  method Discount(counts: multiset<Segment>, held: set<Segment>) returns (fewer: multiset<Segment>)
    requires multiset(held) <= counts
    ensures counts == fewer + multiset(held)
  {
    fewer := counts;
    var todo := held;
    while todo != {}
      invariant todo <= held && multiset(todo) <= fewer && counts == fewer + multiset(held - todo)
    {
      var s :| s in todo;
      assert fewer[s] >= multiset(todo)[s] == 1;
      fewer := fewer[s := fewer[s] - 1];
      todo := todo - {s};
    }
    assert held - todo == held;
  }

  /** Stopping at the first entry that cannot be followed leaves nothing out: it is the last. */
  method AddSegments(entries: seq<Entry>, start: set<Segment>) returns (referenced: set<Segment>)
    requires forall i :: 0 <= i < |entries| - 1 ==> entries[i].frame.Some? && SegmentOf(entries[i].reference).Some?
    ensures referenced == start + SegmentsOf(entries)
  {
    referenced := start;
    for i := 0 to |entries|
      invariant referenced == start + SegmentsOf(entries[..i])
    {
      var s := SegmentOf(entries[i].reference);
      ProtectStep(entries, i);
      if s.None? { break; }
      referenced := referenced + {s.value};
      if entries[i].frame.None? { break; }
    }
    assert entries[..|entries|] == entries;
  }

  // ---------- the pass ----------

  class Pass {
    const codec: Codec
    const dryRun: bool
    const journalDays: bool
    const trashDays: bool
    const ownWriter: Option<string>
    const managers: seq<ManagerDir>
    const markers: seq<Marker>
    const aged: set<Segment>
    const stuck: set<Segment>
    const batch: bool

    var journal: Files
    var ledgers: Ledgers
    var owners: Owners
    var counts: multiset<Segment>
    var scanned: bool
    ghost var seals: Seals
    ghost var base: set<Segment>

    ghost predicate StandsDown() { !journalDays || OpaqueManager(managers) }

    /** Once scanned, the counts are those of the markers and of the transfers in `seals`, as the
        journal protects them now; every transfer still sealed on disk is among those. */
    ghost predicate Valid() reads this {
      if scanned then
        && batch && base == MarkersProtect(codec, journal, markers) && owners == SharesOf(codec, journal, seals)
        && Counted(counts, base, owners) && SealedAreCounted()
      else owners == map[] && counts == multiset{}
    }

    ghost predicate SealedAreCounted() reads this {
      forall t :: t in SealsOf(ledgers) ==> t in seals && seals[t] == SealsOf(ledgers)[t]
    }

    /** The transfers the pass protects: all sealed ones, or those its earlier scan still counts. */
    ghost function Current(): Seals reads this { if scanned then seals else SealsOf(ledgers) }

    ghost function Needed(): set<Segment> reads this { Referenced(codec, journal, markers, Current()) }

    ghost predicate Condemned(s: Segment, retired: Option<set<Segment>>) reads this {
      !StandsDown() && Removable(s, LiveWriters(managers, ownWriter), Needed(), retired)
    }

    /** Not of a live writer, not needed, and old enough or given up by a retired transfer. */
    ghost predicate Removable(s: Segment, live: set<string>, needed: set<Segment>, retired: Option<set<Segment>>) {
      && CanonicalUuid(s.writer) && s.writer !in live && s !in needed
      && (if retired.Some? then s in retired.value else s in aged)
      && !dryRun && s !in stuck
    }

    constructor (codec: Codec, dryRun: bool, journalDays: bool, trashDays: bool, ownWriter: Option<string>,
                 managers: seq<ManagerDir>, markers: seq<Marker>, aged: set<Segment>, stuck: set<Segment>, batch: bool,
                 journal: Files, ledgers: Ledgers)
      ensures Valid() && !scanned && this.journal == journal && this.ledgers == ledgers
      ensures this.codec == codec && this.markers == markers && this.managers == managers && this.batch == batch
      ensures this.dryRun == dryRun && this.journalDays == journalDays && this.trashDays == trashDays
      ensures this.ownWriter == ownWriter && this.aged == aged && this.stuck == stuck
    {
      this.codec, this.dryRun, this.journalDays, this.trashDays := codec, dryRun, journalDays, trashDays;
      this.ownWriter, this.managers, this.markers, this.aged, this.stuck := ownWriter, managers, markers, aged, stuck;
      this.batch, this.journal, this.ledgers := batch, journal, ledgers;
      owners, counts, scanned, seals, base := map[], multiset{}, false, map[], {};
    }

    method LiveManagers() returns (writers: set<string>, unnamed: bool)
      ensures writers == LiveWriters(managers, ownWriter)
      ensures unnamed == OpaqueManager(managers)
    {
      writers, unnamed := if ownWriter.Some? then {ownWriter.value} else {}, false;
      for i := 0 to |managers|
        invariant writers == LiveWriters(managers[..i], ownWriter)
        invariant unnamed == OpaqueManager(managers[..i])
      {
        var m := managers[i];
        assert managers[..i + 1] == managers[..i] + [m];
        var isCaller := m.writer.Some? && m.writer == ownWriter;
        if isCaller || m.beating {
          if m.writer.Some? { writers := writers + {m.writer.value}; } else { unnamed := true; }
        }
      }
      assert managers[..|managers|] == managers;
    }

    method Protect(reference: string, walk: bool, already: set<Segment>) returns (referenced: set<Segment>)
      ensures referenced == already + Protected(codec, journal, reference, walk)
    {
      var first := SegmentOf(reference);
      if first.None? { return already; }
      referenced := already + {first.value};
      if !walk { return; }
      var entries := IterRecordChain(codec, journal, reference);
      forall i | 0 <= i < |entries| - 1
        ensures entries[i].frame.Some? && SegmentOf(entries[i].reference).Some?
      {
        OnlyTheLastIsUnreadable(codec, journal, reference, {}, i);
      }
      referenced := AddSegments(entries, referenced);
    }

    method ScanMarkers() returns (referenced: set<Segment>)
      ensures referenced == MarkersProtect(codec, journal, markers)
    {
      referenced := {};
      for i := 0 to |markers|
        invariant referenced == MarkersProtect(codec, journal, markers[..i])
      {
        MarkerStep(codec, journal, markers, i);
        if markers[i].reference != "init" {
          referenced := Protect(markers[i].reference, !Terminal(markers[i].kind), referenced);
        }
      }
      assert markers[..|markers|] == markers;
    }

    /** The union of what the sealed transfers protect, and each one's share with the counts. */
    method ScanLedgers(fromMarkers: set<Segment>)
        returns (referenced: set<Segment>, shares: Owners, tally: multiset<Segment>)
      ensures ScanInvariant(referenced, fromMarkers, shares, tally, SealsOf(ledgers))
    {
      referenced, shares, tally := fromMarkers, map[], multiset(fromMarkers);
      assert forall s :: Holders(shares, s) == {};
      var todo := ledgers.Keys;
      ghost var all := SealsOf(ledgers);
      assert all - todo == map[];
      while todo != {}
        invariant todo <= ledgers.Keys && ScanInvariant(referenced, fromMarkers, shares, tally, all - todo)
      {
        var t :| t in todo;
        if Protects(ledgers[t]) {
          var held := Protect(ledgers[t].marker.value, true, {});
          ScanStep(referenced, fromMarkers, shares, tally, all, todo, t, held);
          referenced, shares, tally := referenced + held, shares[t := held], tally + multiset(held);
        } else {
          SkipUnsealed(all, todo, t);
        }
        todo := todo - {t};
      }
      assert all - todo == all;
    }

    ghost predicate ScanInvariant(referenced: set<Segment>, base: set<Segment>, shares: Owners,
        tally: multiset<Segment>, done: Seals)
      reads this`journal
    {
      && referenced == base + SealsProtect(codec, journal, done)
      && shares == SharesOf(codec, journal, done) && Counted(tally, base, shares)
    }

    lemma ScanStep(referenced: set<Segment>, base: set<Segment>, shares: Owners, tally: multiset<Segment>,
                   all: Seals, todo: set<string>, t: string, held: set<Segment>)
      requires ScanInvariant(referenced, base, shares, tally, all - todo)
      requires t in todo && t in all && held == Protected(codec, journal, all[t], true)
      ensures ScanInvariant(referenced + held, base, shares[t := held], tally + multiset(held), all - (todo - {t}))
    {
      SealStep(codec, journal, all, todo, t);
      ShareAdded(codec, journal, all, todo, t);
      CountAdded(tally, base, shares, t, held);
    }

    /** The first scan reads everything; a later one in a batch answers from the counts. */
    method ReferencedSegments(candidates: Option<set<Segment>>) returns (referenced: set<Segment>)
      requires Valid()
      modifies this`owners, this`counts, this`scanned, this`seals, this`base
      ensures Valid() && scanned == batch && Current() == old(Current())
      ensures forall s :: candidates.None? || s in candidates.value ==> (s in referenced <==> s in Needed())
    {
      if batch && scanned {
        referenced := FromCounts(candidates);
      } else {
        referenced := FreshScan();
      }
    }

    method FromCounts(candidates: Option<set<Segment>>) returns (referenced: set<Segment>)
      requires Valid() && scanned
      ensures forall s :: candidates.None? || s in candidates.value ==> (s in referenced <==> s in Needed())
    {
      CountsAnswer();
      if candidates.None? { return set s | s in counts; }
      return set s | s in candidates.value && counts[s] > 0;
    }

    method FreshScan() returns (referenced: set<Segment>)
      requires Valid() && !scanned
      modifies this`owners, this`counts, this`scanned, this`seals, this`base
      ensures Valid() && scanned == batch && (batch ==> seals == SealsOf(ledgers))
      ensures referenced == Referenced(codec, journal, markers, SealsOf(ledgers))
      ensures forall s :: s in referenced <==> Demanded(codec, journal, markers, ledgers, s)
    {
      var fromMarkers := ScanMarkers();
      var shares, tally;
      referenced, shares, tally := ScanLedgers(fromMarkers);
      forall s ensures s in referenced <==> Demanded(codec, journal, markers, ledgers, s) {
        ReferencedIffDemanded(codec, journal, markers, ledgers, s);
      }
      if batch { Adopt(shares, tally, fromMarkers); }
    }

    method Adopt(shares: Owners, tally: multiset<Segment>, fromMarkers: set<Segment>)
      modifies this`owners, this`counts, this`scanned, this`seals, this`base
      ensures owners == shares && counts == tally && scanned && seals == SealsOf(ledgers) && base == fromMarkers
    {
      owners, counts, scanned, seals, base := shares, tally, true, SealsOf(ledgers), fromMarkers;
    }

    /** The segments with a positive count are exactly those a fresh scan of the journal as it is
        now would protect, for the transfers still counted. */
    lemma CountsAnswer()
      requires Valid() && scanned
      ensures forall s :: counts[s] > 0 <==> s in Referenced(codec, journal, markers, seals)
    {
      SharesHeld(codec, journal, seals);
      forall s
        ensures counts[s] > 0 <==> s in Referenced(codec, journal, markers, seals)
      {
        PositiveIffHeld(counts, base, owners, s);
      }
    }

    // ---------- removal ----------

    ghost function Swept(files: Files, live: set<string>, needed: set<Segment>, retired: Option<set<Segment>>): Files {
      map s | s in files && !Removable(s, live, needed, retired) :: files[s]
    }

    lemma SweptKeeps(files: Files, live: set<string>, referenced: set<Segment>, needed: set<Segment>,
        retired: Option<set<Segment>>)
      requires forall s :: retired.None? || s in retired.value ==> (s in referenced <==> s in needed)
      ensures Swept(files, live, referenced, retired) == Swept(files, live, needed, retired)
      ensures Keeps(files, Swept(files, live, referenced, retired), needed)
    {
      assert forall s :: Removable(s, live, referenced, retired) <==> Removable(s, live, needed, retired);
    }

    method Sweep(live: set<string>, referenced: set<Segment>, retired: Option<set<Segment>>)
      modifies this`journal
      ensures journal == Swept(old(journal), live, referenced, retired)
    {
      var writers := if retired.None? then set s | s in journal :: s.writer else set s | s in retired.value :: s.writer;
      while writers != {}
        invariant journal == map s | s in old(journal)
          && (s.writer in writers || !Removable(s, live, referenced, retired)) :: old(journal)[s]
      {
        var w :| w in writers;
        if CanonicalUuid(w) && w !in live { SweepWriter(w, live, referenced, retired); }
        writers := writers - {w};
      }
    }

    method SweepWriter(w: string, live: set<string>, referenced: set<Segment>, retired: Option<set<Segment>>)
      requires CanonicalUuid(w) && w !in live
      modifies this`journal
      ensures journal == map s | s in old(journal)
        && !(s.writer == w && Removable(s, live, referenced, retired)) :: old(journal)[s]
    {
      var segments := set s | s in journal && s.writer == w;
      while segments != {}
        invariant forall s :: s in segments ==> s.writer == w
        invariant journal ==
          map s | s in old(journal) && !(s.writer == w && s !in segments && Removable(s, live, referenced, retired)) ::
            old(journal)[s]
      {
        var s :| s in segments;
        segments := segments - {s};
        if s in referenced || (retired.None? && s !in aged) || (retired.Some? && s !in retired.value) { continue; }
        if !dryRun && s !in stuck { journal := journal - {s}; }
      }
    }

    /** A pass removes exactly the condemned segments. Everything needed reads as before, so every
        needed history is the same sequence of entries, and the counts stay right. */
    method CollectJournalSegments(retired: Option<set<Segment>>)
      requires Valid()
      modifies this`journal, this`owners, this`counts, this`scanned, this`seals, this`base
      ensures Valid()
      ensures journal == map s | s in old(journal) && !old(Condemned(s, retired)) :: old(journal)[s]
      ensures HistoryKept(codec, old(journal), journal, markers, Current())
      ensures SealedKept(codec, old(journal), journal, ledgers)
      ensures forall s :: s in old(journal) && s.writer in LiveWriters(managers, ownWriter) ==> s in journal
      ensures scanned == if StandsDown() then old(scanned) else batch
      ensures Current() == old(Current())
    {
      if !journalDays { return; }
      var live, unnamed := LiveManagers();
      if unnamed { return; }
      Prune(live, retired);
    }

    method Prune(live: set<string>, retired: Option<set<Segment>>)
      requires Valid() && !StandsDown() && live == LiveWriters(managers, ownWriter)
      modifies this`journal, this`owners, this`counts, this`scanned, this`seals, this`base
      ensures Valid() && scanned == batch && Current() == old(Current())
      ensures journal == Swept(old(journal), live, old(Needed()), retired)
      ensures HistoryKept(codec, old(journal), journal, markers, Current())
      ensures SealedKept(codec, old(journal), journal, ledgers)
    {
      var referenced := ReferencedSegments(retired);
      ghost var before, needed := journal, Needed();
      Sweep(live, referenced, retired);
      SweptIsSafe(before, live, referenced, needed, retired, Current());
    }

    /** What sweeping keeps, for the transfers in `seals`. */
    lemma SweptIsSafe(before: Files, live: set<string>, referenced: set<Segment>, needed: set<Segment>,
        retired: Option<set<Segment>>, seals: Seals)
      requires needed == Referenced(codec, before, markers, seals)
      requires forall s :: retired.None? || s in retired.value ==> (s in referenced <==> s in needed)
      requires forall t :: t in SealsOf(ledgers) ==> t in seals && seals[t] == SealsOf(ledgers)[t]
      ensures var after := Swept(before, live, referenced, retired);
        && after == Swept(before, live, needed, retired)
        && HistoryKept(codec, before, after, markers, seals) && SealedKept(codec, before, after, ledgers)
        && MarkersProtect(codec, after, markers) == MarkersProtect(codec, before, markers)
        && SharesOf(codec, after, seals) == SharesOf(codec, before, seals)
    {
      var after := Swept(before, live, referenced, retired);
      SweptKeeps(before, live, referenced, needed, retired);
      ReferencedSuffices(codec, before, after, markers, seals);
      SealedAreKept(codec, before, after, ledgers, seals, needed);
    }

    // ---------- retirement ----------

    /** A retired transfer gives up its share of the counts. */
    method PopOwner(t: string)
      requires Valid() && t !in SealsOf(ledgers)
      modifies this`owners, this`counts, this`seals
      ensures Valid() && seals == old(seals) - {t}
    {
      ShareRemoved(codec, journal, seals, t);
      seals := seals - {t};
      if t !in owners {
        assert owners - {t} == owners;
        return;
      }
      HoldersCounted(counts, base, owners, t);
      var fewer := Discount(counts, owners[t]);
      CountRemoved(counts, fewer, base, owners, t);
      owners, counts := owners - {t}, fewer;
    }

    /** False when a reference is malformed. The named transfer is no longer sealed on disk. */
    method CollectRetired(references: seq<string>, transfer: Option<string>) returns (ok: bool)
      requires Valid() && (transfer.Some? ==> transfer.value !in SealsOf(ledgers))
      modifies this`journal, this`owners, this`counts, this`scanned, this`seals, this`base
      ensures Valid()
      ensures ok <==> !trashDays || !journalDays || forall r :: r in references ==> SegmentOf(r).Some?
      ensures HistoryKept(codec, old(journal), journal, markers, Current())
      ensures SealedKept(codec, old(journal), journal, ledgers)
      ensures forall s :: s in old(journal) && s !in journal ==>
        && (exists r :: r in references && SegmentOf(r) == Some(s))
        && s.writer !in LiveWriters(managers, ownWriter)
        && s !in Referenced(codec, old(journal), markers, Current())
      ensures forall s :: s in journal ==> s in old(journal) && journal[s] == old(journal)[s]
      ensures Current() == if old(scanned) && Counts(references) && transfer.Some? then old(seals) - {transfer.value}
        else old(Current())
    {
      if !trashDays || !journalDays || references == [] { return true; }
      var segments: set<Segment>;
      ok, segments := Candidates(references);
      if !ok { return; }
      if transfer.Some? && batch { PopOwner(transfer.value); }
      CollectJournalSegments(Some(segments));
    }

    ghost predicate Counts(references: seq<string>) {
      trashDays && journalDays && references != [] && forall r :: r in references ==> SegmentOf(r).Some?
    }

    /** The counted transfers are exactly those sealed on disk. */
    ghost predicate Exact() reads this { scanned ==> seals == SealsOf(ledgers) }

    /** The ledger is published as retired before its segments are given up. A retirement that
        reaches the counts keeps them exact; one that does not only leaves too much protected. */
    method RetireSource(t: string, references: seq<string>) returns (ok: bool)
      requires Valid()
      modifies this
      ensures Valid()
      ensures ledgers == if t in old(ledgers) then old(ledgers)[t := old(ledgers)[t].(isSealed := false)]
        else old(ledgers)
      ensures HistoryKept(codec, old(journal), journal, markers, SealsOf(ledgers))
      ensures SealedKept(codec, old(journal), journal, ledgers)
      ensures old(Exact()) && (Counts(references) || t !in old(SealsOf(ledgers))) ==> Exact()
    {
      if t !in ledgers { return true; }
      ghost var before, was, counted := journal, SealsOf(ledgers), seals;
      MarkRetired(t);
      ghost var now := SealsOf(ledgers);
      ok := CollectRetired(references, Some(t));
      assert SealsOf(ledgers) == now;
      ghost var current := Current();
      FewerKept(codec, before, journal, markers, current, now);
      assert t !in was ==> was - {t} == was;
    }

    method MarkRetired(t: string)
      requires Valid() && t in ledgers
      modifies this`ledgers
      ensures Valid() && t !in SealsOf(ledgers) && SealsOf(ledgers) == old(SealsOf(ledgers)) - {t}
      ensures ledgers == old(ledgers)[t := old(ledgers)[t].(isSealed := false)]
    {
      ledgers := ledgers[t := ledgers[t].(isSealed := false)];
      assert SealsOf(ledgers) == old(SealsOf(ledgers)) - {t};
    }

    /** After any sequence of retirements that carry references, the segments with a positive count
        are exactly those a fresh scan of the pruned journal would protect. */
    method RetireBatch(sources: seq<(string, seq<string>)>)
      requires Valid() && Exact()
      requires forall i :: 0 <= i < |sources| ==> Counts(sources[i].1)
      modifies this
      ensures Valid() && Exact()
      ensures scanned ==> forall s :: counts[s] > 0 <==> s in Referenced(codec, journal, markers, SealsOf(ledgers))
    {
      for i := 0 to |sources|
        invariant Valid() && Exact()
      {
        var _ := RetireSource(sources[i].0, sources[i].1);
      }
      if scanned { CountsAnswer(); }
    }
  }

  lemma ProtectStep(entries: seq<Entry>, i: nat)
    requires i < |entries|
    ensures SegmentsOf(entries[..i + 1]) == SegmentsOf(entries[..i]) +
      match SegmentOf(entries[i].reference) { case None => {} case Some(s) => {s} }
  {
    assert entries[..i + 1] == entries[..i] + [entries[i]];
  }

  lemma SkipUnsealed(all: Seals, todo: set<string>, t: string)
    requires t !in all
    ensures all - (todo - {t}) == all - todo
  {
  }

  lemma FewerKept(c: Codec, before: Files, after: Files, markers: seq<Marker>, seals: Seals, fewer: Seals)
    requires HistoryKept(c, before, after, markers, seals) && forall t :: t in fewer ==>
      t in seals && seals[t] == fewer[t]
    ensures HistoryKept(c, before, after, markers, fewer)
  {
  }

  lemma MarkerStep(c: Codec, files: Files, markers: seq<Marker>, i: nat)
    requires i < |markers|
    ensures MarkersProtect(c, files, markers[..i + 1]) ==
      MarkersProtect(c, files, markers[..i]) + MarkerProtects(c, files, markers[i])
  {
    assert markers[..i + 1] == markers[..i] + [markers[i]];
  }

  lemma SealStep(c: Codec, files: Files, all: Seals, todo: set<string>, t: string)
    requires t in todo
    ensures SealsProtect(c, files, all - (todo - {t})) ==
      SealsProtect(c, files, all - todo) + if t in all then Protected(c, files, all[t], true) else {}
  {
    var more, fewer := all - (todo - {t}), all - todo;
    assert forall u :: u in more <==> u in fewer || (u == t && t in all);
    assert forall u :: u in fewer ==> more[u] == fewer[u];
    forall s | s in SealsProtect(c, files, fewer)
      ensures s in SealsProtect(c, files, more)
    {
      var u :| u in fewer && s in Protected(c, files, fewer[u], true);
      assert u in more && s in Protected(c, files, more[u], true);
    }
    if t in all {
      assert t in more && more[t] == all[t];
      assert Protected(c, files, all[t], true) <= SealsProtect(c, files, more);
    }
    forall s | s in SealsProtect(c, files, more)
      ensures s in SealsProtect(c, files, fewer) || (t in all && s in Protected(c, files, all[t], true))
    {
      var u :| u in more && s in Protected(c, files, more[u], true);
      if u != t {
        assert u in fewer && s in Protected(c, files, fewer[u], true);
      }
    }
  }

  method Candidates(references: seq<string>) returns (ok: bool, segments: set<Segment>)
    ensures ok <==> forall r :: r in references ==> SegmentOf(r).Some?
    ensures ok ==> segments == set r | r in references :: SegmentOf(r).value
  {
    segments := {};
    for i := 0 to |references|
      invariant forall r :: r in references[..i] ==> SegmentOf(r).Some?
      invariant segments == set r | r in references[..i] :: SegmentOf(r).value
    {
      var s := SegmentOf(references[i]);
      if s.None? { return false, {}; }
      assert references[..i + 1] == references[..i] + [references[i]];
      segments := segments + {s.value};
    }
    assert references[..|references|] == references;
    ok := true;
  }
}
