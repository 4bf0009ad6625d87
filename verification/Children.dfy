/** Registering the children of a committing outcome: publish each bundle, then its marker, so that
    a run interrupted anywhere can simply be repeated. */
module Children {
  import opened Common

  datatype Place = Place(placement: string, key: string)

  /** A job bundle: the identity and priority its job.json states, and everything else in it. */
  datatype Bundle = Bundle(key: string, priority: nat, content: string)

  datatype Marker = Marker(kind: Kind, at: Place, priority: nat, generation: nat, reference: string)

  /** `sources` are the bundles still inside the outcome; `bundles` and `markers` the workspace. */
  datatype World = World(sources: map<string, Bundle>, bundles: map<Place, Bundle>, markers: set<Marker>)

  /** One spawn entry; `foreign` when it names another workspace. */
  datatype Entry = Entry(at: Place, foreign: bool)

  /** The digest function, and the digests recorded when the commit began. */
  datatype Digests = Digests(digest: Bundle -> string, expected: map<string, string>)

  /** Marker lookup at a placement does not look at jobs that are being moved. */
  predicate Core(k: Kind) { k != Relocating && k != Transferring }

  function Found(markers: set<Marker>, at: Place): set<Marker> {
    set m | m in markers && m.at == at && Core(m.kind)
  }

  datatype Error =
    | CrossWorkspace | KeyDisagrees | ChangedAfterPublication | AlreadyExists | NoBundle
    | MultipleMarkers | BundleMismatch

  datatype Due = Settled | Publish | Mark | Refuse(error: Error)

  predicate Matches(d: Digests, key: string, b: Bundle) {
    d.digest(b) == if key in d.expected then d.expected[key] else ""
  }

  /** The next effect one entry calls for. */
  function DueOf(d: Digests, w: World, e: Entry): Due {
    var key := e.at.key;
    if e.foreign then Refuse(CrossWorkspace)
    else if key in w.sources then
      if w.sources[key].key != key then Refuse(KeyDisagrees)
      else if !Matches(d, key, w.sources[key]) then Refuse(ChangedAfterPublication)
      else if e.at in w.bundles then Refuse(AlreadyExists)
      else Publish
    else if e.at !in w.bundles then Refuse(NoBundle)
    else if |Found(w.markers, e.at)| > 1 then Refuse(MultipleMarkers)
    else if |Found(w.markers, e.at)| == 1 then Settled
    else if !Matches(d, key, w.bundles[e.at]) then Refuse(BundleMismatch)
    else Mark
  }

  function FirstMarker(at: Place, b: Bundle): Marker { Marker(Submitted, at, b.priority, 0, "init") }

  /** Each effect is one atomic rename. */
  function Applied(d: Digests, w: World, e: Entry): World
    requires DueOf(d, w, e).Publish? || DueOf(d, w, e).Mark?
  {
    if DueOf(d, w, e).Publish? then w.(sources := w.sources - {e.at.key},
      bundles := w.bundles[e.at := w.sources[e.at.key]])
    else w.(markers := w.markers + {FirstMarker(e.at, w.bundles[e.at])})
  }

  datatype Ending = Completed | Crashed | Refused(error: Error)

  datatype Ran = Ran(world: World, ending: Ending)

  /** A run that is cut short before effect number `effects`. */
  function Run(d: Digests, w: World, entries: seq<Entry>, effects: nat): Ran
    decreases |entries|, effects
  {
    if entries == [] then Ran(w, Completed)
    else match DueOf(d, w, entries[0])
      case Settled => Run(d, w, entries[1..], effects)
      case Refuse(error) => Ran(w, Refused(error))
      case _ =>
        if effects == 0 then Ran(w, Crashed) else Run(d, Applied(d, w, entries[0]), entries, effects - 1)
  }

  // ---------- the loop ----------

  class Workspace {
    const digests: Digests
    var sources: map<string, Bundle>
    var bundles: map<Place, Bundle>
    var markers: set<Marker>

    function Now(): World reads this { World(sources, bundles, markers) }

    constructor (digests: Digests, w: World)
      ensures Now() == w && this.digests == digests
    {
      this.digests, sources, bundles, markers := digests, w.sources, w.bundles, w.markers;
    }

    method RegisterChildren(entries: seq<Entry>, effects: nat) returns (ending: Ending)
      modifies this
      ensures Ran(Now(), ending) == Run(digests, old(Now()), entries, effects)
    {
      var left := effects;
      for i := 0 to |entries|
        invariant Run(digests, Now(), entries[i..], left) == Run(digests, old(Now()), entries, effects)
      {
        assert entries[i..] == [entries[i]] + entries[i + 1..];
        var stop;
        stop, left := RegisterOne(entries[i], left, entries[i + 1..]);
        if stop.Some? { return stop.value; }
      }
      ending := Completed;
    }

    /** One entry, before the entries `rest`: either the run ends here or it goes on with them. */
    method RegisterOne(e: Entry, effects: nat, ghost rest: seq<Entry>) returns (stop: Option<Ending>, left: nat)
      modifies this
      ensures Run(digests, old(Now()), [e] + rest, effects) ==
        if stop.Some? then Ran(Now(), stop.value) else Run(digests, Now(), rest, left)
    {
      var publishedHere;
      stop, left, publishedHere := PublishBundle(e, effects, rest);
      if stop.Some? { return; }
      stop, left := PublishMarker(e, left, publishedHere, rest);
    }

    /** The bundle still inside the outcome is checked and moved into place. */
    method PublishBundle(e: Entry, effects: nat, ghost rest: seq<Entry>)
        returns (stop: Option<Ending>, left: nat, publishedHere: bool)
      modifies this`sources, this`bundles
      ensures Run(digests, old(Now()), [e] + rest, effects) ==
        if stop.Some? then Ran(Now(), stop.value) else Run(digests, Now(), [e] + rest, left)
      ensures stop.None? ==> !e.foreign && e.at.key !in sources
      ensures stop.None? && publishedHere ==> e.at in bundles && Matches(digests, e.at.key, bundles[e.at])
    {
      left, publishedHere := effects, false;
      ghost var before := Now();
      RunOne(digests, before, e, rest, effects);
      if e.foreign { return Some(Refused(CrossWorkspace)), left, false; }
      var key := e.at.key;
      if key !in sources { return None, left, false; }
      var source := sources[key];
      if source.key != key { return Some(Refused(KeyDisagrees)), left, false; }
      if !Matches(digests, key, source) { return Some(Refused(ChangedAfterPublication)), left, false; }
      if e.at in bundles { return Some(Refused(AlreadyExists)), left, false; }
      if left == 0 { return Some(Crashed), left, false; }
      sources, bundles := sources - {key}, bundles[e.at := source];
      assert Now() == Applied(digests, before, e);
      return None, left - 1, true;
    }

    /** The bundle is in place: find its marker, or publish one. */
    method PublishMarker(e: Entry, effects: nat, publishedHere: bool, ghost rest: seq<Entry>)
        returns (stop: Option<Ending>, left: nat)
      requires !e.foreign && e.at.key !in sources
      requires publishedHere ==> e.at in bundles && Matches(digests, e.at.key, bundles[e.at])
      modifies this`markers
      ensures Run(digests, old(Now()), [e] + rest, effects) ==
        if stop.Some? then Ran(Now(), stop.value) else Run(digests, Now(), rest, left)
    {
      left := effects;
      ghost var before := Now();
      RunOne(digests, before, e, rest, effects);
      if e.at !in bundles { return Some(Refused(NoBundle)), left; }
      var found := Found(markers, e.at);
      if |found| > 1 { return Some(Refused(MultipleMarkers)), left; }
      if |found| == 1 { return None, left; }
      if !publishedHere && !Matches(digests, e.at.key, bundles[e.at]) { return Some(Refused(BundleMismatch)), left; }
      if left == 0 { return Some(Crashed), left; }
      markers := markers + {FirstMarker(e.at, bundles[e.at])};
      assert Now() == Applied(digests, before, e);
      return None, left - 1;
    }
  }

  /** How a run goes on at its first entry. */
  lemma RunOne(d: Digests, w: World, e: Entry, rest: seq<Entry>, effects: nat)
    ensures var due, r := DueOf(d, w, e), Run(d, w, [e] + rest, effects);
      && (due.Refuse? ==> r == Ran(w, Refused(due.error)))
      && (due.Settled? ==> r == Run(d, w, rest, effects))
      && (Acts(due) && effects == 0 ==> r == Ran(w, Crashed))
      && (due.Publish? && effects > 0 ==> r == Run(d, Applied(d, w, e), [e] + rest, effects - 1))
      && (due.Mark? && effects > 0 ==> r == Run(d, Applied(d, w, e), rest, effects - 1))
  {
    var all := [e] + rest;
    assert all[0] == e && all[1..] == rest;
    if DueOf(d, w, e).Mark? && effects > 0 { MarkThenRest(d, w, e, rest, effects); }
  }

  lemma MarkThenRest(d: Digests, w: World, e: Entry, rest: seq<Entry>, effects: nat)
    requires DueOf(d, w, e).Mark? && effects > 0
    ensures Run(d, w, [e] + rest, effects) == Run(d, Applied(d, w, e), rest, effects - 1)
  {
    var all := [e] + rest;
    assert all[0] == e && all[1..] == rest;
    Marked(d, w, e);
    assert Run(d, Applied(d, w, e), all, effects - 1) == Run(d, Applied(d, w, e), rest, effects - 1);
  }

  lemma Marked(d: Digests, w: World, e: Entry)
    requires DueOf(d, w, e).Mark?
    ensures Found(Applied(d, w, e).markers, e.at) == {FirstMarker(e.at, w.bundles[e.at])}
    ensures DueOf(d, Applied(d, w, e), e).Settled?
  {
    assert Found(w.markers, e.at) == {};
  }

  // ---------- what a run leaves alone ----------

  ghost predicate AllSettled(d: Digests, w: World, entries: seq<Entry>) {
    forall e :: e in entries ==> DueOf(d, w, e).Settled?
  }

  predicate Acts(due: Due) { due.Publish? || due.Mark? }

  lemma SettledStays(d: Digests, w: World, e: Entry, f: Entry)
    requires DueOf(d, w, e).Settled? && Acts(DueOf(d, w, f))
    ensures DueOf(d, Applied(d, w, f), e).Settled?
  {
    if DueOf(d, w, f).Mark? {
      assert Found(w.markers, f.at) == {};
      assert Found(Applied(d, w, f).markers, e.at) == Found(w.markers, e.at);
    }
  }

  /** Bundles in place and markers are never changed or removed. Every new bundle is the unchanged
      one the outcome held for it. A place that has a marker gets no other; every new marker is a
      submitted one of generation zero, with the priority its unchanged bundle states. */
  ghost predicate Keeps(d: Digests, before: World, after: World) {
    && (forall p :: p in before.bundles ==> p in after.bundles && after.bundles[p] == before.bundles[p])
    && (forall p :: p in after.bundles && p !in before.bundles ==>
          && p.key in before.sources && after.bundles[p] == before.sources[p.key] && after.bundles[p].key == p.key
          && Unchanged(d, p, after.bundles[p]))
    && (forall key :: key in after.sources ==> key in before.sources && after.sources[key] == before.sources[key])
    && before.markers <= after.markers
    && (forall p :: Found(before.markers, p) != {} ==> Found(after.markers, p) == Found(before.markers, p))
    && (forall m :: m in after.markers - before.markers ==>
          && m.at in after.bundles && Unchanged(d, m.at, after.bundles[m.at])
          && m.kind == Submitted && m.priority == after.bundles[m.at].priority && m.generation == 0
          && m.reference == "init")
  }

  /** The bundle has the digest recorded for its key; a key without one is given the empty text. */
  ghost predicate Unchanged(d: Digests, at: Place, b: Bundle) {
    (at.key in d.expected && d.digest(b) == d.expected[at.key]) || (at.key !in d.expected && d.digest(b) == "")
  }

  lemma AppliedKeeps(d: Digests, w: World, e: Entry)
    requires Acts(DueOf(d, w, e))
    ensures Keeps(d, w, Applied(d, w, e))
  {
    if DueOf(d, w, e).Mark? {
      assert Found(w.markers, e.at) == {};
      forall p | Found(w.markers, p) != {}
        ensures Found(Applied(d, w, e).markers, p) == Found(w.markers, p)
      {
        assert p != e.at;
      }
    }
  }

  lemma KeepsTransitive(d: Digests, a: World, b: World, c: World)
    requires Keeps(d, a, b) && Keeps(d, b, c)
    ensures Keeps(d, a, c)
  {
    forall m | m in c.markers - a.markers
      ensures m.at in c.bundles && Unchanged(d, m.at, c.bundles[m.at])
      ensures m.kind == Submitted && m.priority == c.bundles[m.at].priority && m.generation == 0
      ensures m.reference == "init"
    {
      assert m in c.markers - b.markers || m in b.markers - a.markers;
    }
  }

  /** No run, however it ends, resets a child that has a marker or touches a bundle in place. */
  lemma {:induction false} RunKeeps(d: Digests, w: World, entries: seq<Entry>, effects: nat)
    ensures Keeps(d, w, Run(d, w, entries, effects).world)
    decreases |entries|, effects
  {
    if entries != [] {
      var due := DueOf(d, w, entries[0]);
      if due.Settled? {
        RunKeeps(d, w, entries[1..], effects);
      } else if Acts(due) && effects > 0 {
        var next := Applied(d, w, entries[0]);
        AppliedKeeps(d, w, entries[0]);
        RunKeeps(d, next, entries, effects - 1);
        KeepsTransitive(d, w, next, Run(d, w, entries, effects).world);
      }
    }
  }

  // ---------- crash and rerun ----------

  lemma {:induction false} SkipsSettled(d: Digests, w: World, done: seq<Entry>, entries: seq<Entry>, effects: nat)
    requires AllSettled(d, w, done)
    ensures Run(d, w, done + entries, effects) == Run(d, w, entries, effects)
  {
    if done == [] {
      assert done + entries == entries;
    } else {
      assert DueOf(d, w, done[0]).Settled?;
      assert (done + entries)[1..] == done[1..] + entries;
      SkipsSettled(d, w, done[1..], entries, effects);
    }
  }

  lemma {:induction false} CrashedThenAgain(d: Digests, w: World, done: seq<Entry>, entries: seq<Entry>, n: nat, m: nat)
    requires AllSettled(d, w, done) && Run(d, w, entries, n).ending.Crashed?
    ensures Run(d, Run(d, w, entries, n).world, done + entries, m) == Run(d, w, entries, n + m)
    decreases |entries|, n
  {
    var e := entries[0];
    if DueOf(d, w, e).Settled? {
      assert done + entries == (done + [e]) + entries[1..];
      CrashedThenAgain(d, w, done + [e], entries[1..], n, m);
    } else if n == 0 {
      SkipsSettled(d, w, done, entries, m);
    } else {
      forall f | f in done ensures DueOf(d, Applied(d, w, e), f).Settled? {
        SettledStays(d, w, f, e);
      }
      CrashedThenAgain(d, Applied(d, w, e), done, entries, n - 1, m);
    }
  }

  /** A run that starts over after a crash goes on exactly where the crashed one stopped. */
  lemma RerunContinues(d: Digests, w: World, entries: seq<Entry>, n: nat, m: nat)
    requires Run(d, w, entries, n).ending.Crashed?
    ensures Run(d, Run(d, w, entries, n).world, entries, m) == Run(d, w, entries, n + m)
  {
    CrashedThenAgain(d, w, [], entries, n, m);
    assert [] + entries == entries;
  }

  function Uninterrupted(d: Digests, w: World, entries: seq<Entry>): Ran {
    Run(d, w, entries, 2 * |entries|)
  }

  lemma {:induction false} TwoEffectsEach(d: Digests, w: World, entries: seq<Entry>, effects: nat)
    requires entries != [] ==>
      effects >= 2 * |entries| - if DueOf(d, w, entries[0]).Publish? then 0 else if DueOf(d, w, entries[0]).Mark? then 1
        else 2
    ensures !Run(d, w, entries, effects).ending.Crashed?
    decreases |entries|, effects
  {
    if entries != [] {
      var due := DueOf(d, w, entries[0]);
      if due.Settled? {
        TwoEffectsEach(d, w, entries[1..], effects);
      } else if Acts(due) {
        if due.Mark? { Marked(d, w, entries[0]); }
        TwoEffectsEach(d, Applied(d, w, entries[0]), entries, effects - 1);
      }
    }
  }

  lemma {:induction false} MoreEffects(d: Digests, w: World, entries: seq<Entry>, n: nat, m: nat)
    requires !Run(d, w, entries, n).ending.Crashed? && n <= m
    ensures Run(d, w, entries, m) == Run(d, w, entries, n)
    decreases |entries|, n
  {
    if entries != [] {
      var due := DueOf(d, w, entries[0]);
      if due.Settled? {
        MoreEffects(d, w, entries[1..], n, m);
      } else if Acts(due) {
        MoreEffects(d, Applied(d, w, entries[0]), entries, n - 1, m - 1);
      }
    }
  }

  lemma EndsUninterrupted(d: Digests, w: World, entries: seq<Entry>, n: nat)
    requires !Run(d, w, entries, n).ending.Crashed?
    ensures Run(d, w, entries, n) == Uninterrupted(d, w, entries)
  {
    TwoEffectsEach(d, w, entries, 2 * |entries|);
    if n <= 2 * |entries| { MoreEffects(d, w, entries, n, 2 * |entries|); }
      else { MoreEffects(d, w, entries, 2 * |entries|, n); }
  }

  lemma CrashChangesNothing(d: Digests, w: World, entries: seq<Entry>, n: nat)
    requires Run(d, w, entries, n).ending.Crashed?
    ensures Uninterrupted(d, Run(d, w, entries, n).world, entries) == Uninterrupted(d, w, entries)
  {
    var crashed := Run(d, w, entries, n).world;
    RerunContinues(d, w, entries, n, 2 * |entries|);
    TwoEffectsEach(d, crashed, entries, 2 * |entries|);
    EndsUninterrupted(d, w, entries, n + 2 * |entries|);
  }

  // ---------- children that run meanwhile ----------

  /** Between two runs other managers may work on the children that have their marker: it may be
      any other, and the bundle may change, but both stay. */
  ghost predicate Progress(before: World, after: World) {
    && after.sources == before.sources && after.bundles.Keys == before.bundles.Keys
    && (forall p :: |Found(after.markers, p)| == |Found(before.markers, p)|)
    && (forall p :: p in before.bundles && Found(before.markers, p) == {} ==> after.bundles[p] == before.bundles[p])
  }

  lemma EmptyIffNone(s: set<Marker>)
    ensures |s| == 0 <==> s == {}
  {
  }

  lemma ProgressTransitive(a: World, b: World, c: World)
    requires Progress(a, b) && Progress(b, c)
    ensures Progress(a, c)
  {
    forall p | p in a.bundles && Found(a.markers, p) == {}
      ensures c.bundles[p] == a.bundles[p]
    {
      assert |Found(b.markers, p)| == 0;
    }
  }

  lemma SameDue(d: Digests, a: World, b: World, e: Entry)
    requires Progress(a, b)
    ensures DueOf(d, a, e) == DueOf(d, b, e)
  {
    EmptyIffNone(Found(a.markers, e.at));
  }

  lemma AppliedProgress(d: Digests, a: World, b: World, e: Entry)
    requires Progress(a, b) && Acts(DueOf(d, a, e))
    ensures Acts(DueOf(d, b, e)) && Progress(Applied(d, a, e), Applied(d, b, e))
  {
    SameDue(d, a, b, e);
    if DueOf(d, a, e).Mark? {
      Marked(d, a, e);
      Marked(d, b, e);
      forall p
        ensures |Found(Applied(d, a, e).markers, p)| == |Found(Applied(d, b, e).markers, p)|
        ensures Found(Applied(d, a, e).markers, p) == {} ==> Found(a.markers, p) == {}
      {
        if p != e.at {
          assert Found(Applied(d, a, e).markers, p) == Found(a.markers, p);
          assert Found(Applied(d, b, e).markers, p) == Found(b.markers, p);
        }
      }
    }
  }

  lemma {:induction false} RunsAlike(d: Digests, a: World, b: World, entries: seq<Entry>, effects: nat)
    requires Progress(a, b)
    ensures Run(d, a, entries, effects).ending == Run(d, b, entries, effects).ending
    ensures Progress(Run(d, a, entries, effects).world, Run(d, b, entries, effects).world)
    decreases |entries|, effects
  {
    if entries != [] {
      SameDue(d, a, b, entries[0]);
      var due := DueOf(d, a, entries[0]);
      if due.Settled? {
        RunsAlike(d, a, b, entries[1..], effects);
      } else if Acts(due) && effects > 0 {
        AppliedProgress(d, a, b, entries[0]);
        RunsAlike(d, Applied(d, a, entries[0]), Applied(d, b, entries[0]), entries, effects - 1);
      }
    }
  }

  lemma UninterruptedAlike(d: Digests, a: World, b: World, entries: seq<Entry>)
    requires Progress(a, b)
    ensures Uninterrupted(d, a, entries).ending == Uninterrupted(d, b, entries).ending
    ensures Progress(Uninterrupted(d, a, entries).world, Uninterrupted(d, b, entries).world)
  {
    RunsAlike(d, a, b, entries, 2 * |entries|);
  }

  /** A run that crashes after `effects` effects, and the world the next run finds. */
  datatype Round = Round(effects: nat, world: World)

  ghost predicate Interrupted(d: Digests, w: World, entries: seq<Entry>, rounds: seq<Round>)
    decreases |rounds|
  {
    rounds != [] ==>
      var r := Run(d, w, entries, rounds[0].effects);
      r.ending.Crashed? && Progress(r.world, rounds[0].world) && Interrupted(d, rounds[0].world, entries, rounds[1..])
  }

  function Last(w: World, rounds: seq<Round>): World {
    if rounds == [] then w else rounds[|rounds| - 1].world
  }

  /** After any number of crashes, each at any point and with children at work in between, the run
      that is not cut short ends as one uninterrupted run would have ended, and leaves the world
      that run would have left, but for what the children did themselves. */
  lemma {:induction false} RepeatedRunsAgree(d: Digests, w: World, entries: seq<Entry>, rounds: seq<Round>, n: nat)
    requires Interrupted(d, w, entries, rounds) && !Run(d, Last(w, rounds), entries, n).ending.Crashed?
    ensures var final, whole := Run(d, Last(w, rounds), entries, n), Uninterrupted(d, w, entries);
      final.ending == whole.ending && Progress(whole.world, final.world) && (rounds == [] ==> final == whole)
    decreases |rounds|
  {
    if rounds == [] {
      EndsUninterrupted(d, w, entries, n);
    } else {
      var k, next := rounds[0].effects, rounds[0].world;
      var crashed := Run(d, w, entries, k).world;
      assert Last(next, rounds[1..]) == Last(w, rounds);
      RepeatedRunsAgree(d, next, entries, rounds[1..], n);
      CrashChangesNothing(d, w, entries, k);
      var whole, middle := Uninterrupted(d, w, entries), Uninterrupted(d, next, entries);
      UninterruptedAlike(d, crashed, next, entries);
      ProgressTransitive(whole.world, middle.world, Run(d, Last(w, rounds), entries, n).world);
    }
  }

  /** With nobody else at work the worlds are the same. */
  lemma {:induction false} CrashesLeaveNoTrace(d: Digests, w: World, entries: seq<Entry>, rounds: seq<Round>, n: nat)
    requires Interrupted(d, w, entries, rounds) && !Run(d, Last(w, rounds), entries, n).ending.Crashed?
    requires Quiet(d, w, entries, rounds)
    ensures Run(d, Last(w, rounds), entries, n) == Uninterrupted(d, w, entries)
    decreases |rounds|
  {
    if rounds == [] {
      EndsUninterrupted(d, w, entries, n);
    } else {
      var k, next := rounds[0].effects, rounds[0].world;
      assert Last(next, rounds[1..]) == Last(w, rounds);
      CrashesLeaveNoTrace(d, next, entries, rounds[1..], n);
      CrashChangesNothing(d, w, entries, k);
    }
  }

  ghost predicate Quiet(d: Digests, w: World, entries: seq<Entry>, rounds: seq<Round>)
    decreases |rounds|
  {
    rounds != [] ==>
      rounds[0].world == Run(d, w, entries, rounds[0].effects).world && Quiet(d, rounds[0].world, entries, rounds[1..])
  }

  // ---------- what completion means ----------

  lemma {:induction false} CompletedSettles(d: Digests, w: World, done: seq<Entry>, entries: seq<Entry>, effects: nat)
    requires AllSettled(d, w, done) && Run(d, w, entries, effects).ending.Completed?
    ensures AllSettled(d, Run(d, w, entries, effects).world, done + entries)
    decreases |entries|, effects
  {
    if entries != [] {
      var e := entries[0];
      if DueOf(d, w, e).Settled? {
        assert done + entries == (done + [e]) + entries[1..];
        CompletedSettles(d, w, done + [e], entries[1..], effects);
      } else {
        forall f | f in done ensures DueOf(d, Applied(d, w, e), f).Settled? {
          SettledStays(d, w, f, e);
        }
        CompletedSettles(d, Applied(d, w, e), done, entries, effects - 1);
      }
    }
  }

  /** The markers of a place, other than those of jobs that are being moved. */
  ghost function Resting(w: World, at: Place): set<Marker> {
    set m | m in w.markers && m.at == at && m.kind !in {Relocating, Transferring}
  }

  /** A completed run leaves every child with its bundle in place and exactly one marker: the one it
      had, or else a new submitted one. */
  lemma CompletedMeans(d: Digests, w: World, entries: seq<Entry>, effects: nat, e: Entry)
    requires Run(d, w, entries, effects).ending.Completed? && e in entries
    ensures var after := Run(d, w, entries, effects).world;
      && !e.foreign && e.at.key !in after.sources && e.at in after.bundles
      && |Resting(after, e.at)| == 1
      && (Resting(w, e.at) != {} ==> Resting(after, e.at) == Resting(w, e.at))
      && (Resting(w, e.at) == {} ==>
            Resting(after, e.at) == {Marker(Submitted, e.at, after.bundles[e.at].priority, 0, "init")})
  {
    CompletedSettles(d, w, [], entries, effects);
    assert e in [] + entries;
    RunKeeps(d, w, entries, effects);
    var after := Run(d, w, entries, effects).world;
    assert Found(w.markers, e.at) == Resting(w, e.at) && Found(after.markers, e.at) == Resting(after, e.at);
    if Resting(w, e.at) == {} {
      var m :| m in Resting(after, e.at);
      TheOnly(Resting(after, e.at), m);
      assert m in after.markers - w.markers;
    }
  }

  lemma TheOnly(s: set<Marker>, m: Marker)
    requires |s| == 1 && m in s
    ensures s == {m}
  {
    SubsetSize({m}, s);
    assert |s - {m}| == 0;
  }

  /** What stops a run is still there to be seen. */
  ghost predicate Explains(d: Digests, w: World, e: Entry, error: Error) {
    var key := e.at.key;
    match error
    case CrossWorkspace => e.foreign
    case KeyDisagrees => key in w.sources && w.sources[key].key != key
    case ChangedAfterPublication =>
      key in w.sources && w.sources[key].key == key && !Unchanged(d, e.at, w.sources[key])
    case AlreadyExists => key in w.sources && Unchanged(d, e.at, w.sources[key]) && e.at in w.bundles
    case NoBundle => key !in w.sources && e.at !in w.bundles
    case MultipleMarkers => key !in w.sources && e.at in w.bundles && |Resting(w, e.at)| >= 2
    case BundleMismatch =>
      key !in w.sources && e.at in w.bundles && Resting(w, e.at) == {} && !Unchanged(d, e.at, w.bundles[e.at])
  }

  lemma {:induction false} RefusedMeans(d: Digests, w: World, entries: seq<Entry>, effects: nat)
    requires Run(d, w, entries, effects).ending.Refused?
    ensures var Ran(after, ending) := Run(d, w, entries, effects);
      exists e :: e in entries && Explains(d, after, e, ending.error)
    decreases |entries|, effects
  {
    var due := DueOf(d, w, entries[0]);
    if due.Settled? {
      RefusedMeans(d, w, entries[1..], effects);
    } else if due.Refuse? {
      assert Found(w.markers, entries[0].at) == Resting(w, entries[0].at);
      assert Explains(d, w, entries[0], due.error);
    } else {
      RefusedMeans(d, Applied(d, w, entries[0]), entries, effects - 1);
    }
  }

  /** Each child is spawned once: entries with the same key name the same place. */
  ghost predicate OnePlaceEach(entries: seq<Entry>) {
    forall e, f :: e in entries && f in entries && e.at.key == f.at.key ==> e.at == f.at
  }

  /** The bundle a child ends up with is the one the outcome published for it. */
  lemma {:induction false} CompletedDelivers(d: Digests, w: World, entries: seq<Entry>, effects: nat, e: Entry)
    requires Run(d, w, entries, effects).ending.Completed? && e in entries && OnePlaceEach(entries)
    requires e.at.key in w.sources
    ensures var after := Run(d, w, entries, effects).world;
      e.at in after.bundles && after.bundles[e.at] == w.sources[e.at.key]
    decreases |entries|, effects
  {
    var f := entries[0];
    if DueOf(d, w, f).Settled? {
      assert f.at.key !in w.sources;
      CompletedDelivers(d, w, entries[1..], effects, e);
    } else if f.at.key == e.at.key {
      assert f in entries && f.at == e.at;
      RunKeeps(d, Applied(d, w, f), entries, effects - 1);
    } else {
      CompletedDelivers(d, Applied(d, w, f), entries, effects - 1, e);
    }
  }

  // ---------- children that are being moved ----------

  function At(markers: set<Marker>, at: Place): set<Marker> { set m | m in markers && m.at == at }

  /** A child that a transfer has fenced is not found by the lookup. Rerunning the registration
      then gives it a second marker exactly when its bundle is still in place and unchanged. */
  lemma FencedChildMarkedAgain(d: Digests, w: World, e: Entry, fence: Marker)
    requires fence in w.markers && fence.at == e.at && fence.kind in {Relocating, Transferring}
    requires Resting(w, e.at) == {}
    requires !e.foreign && e.at.key !in w.sources
    ensures DueOf(d, w, e).Mark? <==> e.at in w.bundles && Unchanged(d, e.at, w.bundles[e.at])
    ensures DueOf(d, w, e).Mark? ==> |At(Applied(d, w, e).markers, e.at)| == |At(w.markers, e.at)| + 1 >= 2
  {
    assert Found(w.markers, e.at) == Resting(w, e.at);
    if DueOf(d, w, e).Mark? {
      var second := FirstMarker(e.at, w.bundles[e.at]);
      assert second !in Found(w.markers, e.at);
      assert At(Applied(d, w, e).markers, e.at) == At(w.markers, e.at) + {second};
      assert fence in At(w.markers, e.at);
    }
  }

  /** A run that gets there. The child is registered and then fenced by a transfer that has not moved
      its bundle yet; repeating the registration gives it a second marker. */
  lemma RegisteredFencedAndMarkedAgain(d: Digests, at: Place, b: Bundle)
    requires b.key == at.key && Unchanged(d, at, b)
    ensures var entries := [Entry(at, false)];
      var first := Marker(Submitted, at, b.priority, 0, "init");
      var registered := World(map[], map[at := b], {first});
      var fence := first.(kind := Transferring, generation := 2);
      && Run(d, World(map[at.key := b], map[], {}), entries, 2) == Ran(registered, Completed)
      && Run(d, registered.(markers := {fence}), entries, 1) == Ran(registered.(markers := {fence, first}), Completed)
  {
    var e := Entry(at, false);
    var start := World(map[at.key := b], map[], {});
    var first := FirstMarker(at, b);
    var fence := first.(kind := Transferring, generation := 2);
    var published := World(map[], map[at := b], {});
    assert Applied(d, start, e) == published;
    OneMarkLeft(d, published, e);
    OneMarkLeft(d, published.(markers := {fence}), e);
    assert {fence} + {first} == {fence, first} && {} + {first} == {first};
  }

  /** An entry that only lacks its marker is completed by one effect. */
  lemma OneMarkLeft(d: Digests, w: World, e: Entry)
    requires DueOf(d, w, e).Mark?
    ensures Run(d, w, [e], 1) == Ran(Applied(d, w, e), Completed)
  {
    Marked(d, w, e);
    assert [e][1..] == [];
    assert Run(d, Applied(d, w, e), [e], 0) == Ran(Applied(d, w, e), Completed);
  }
}
