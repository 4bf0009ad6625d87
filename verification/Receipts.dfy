/** The receiver's half of sequenced-transfer replay protection: per source stream, a list of
    closed sequence-number ranges, merged again every time one more number is remembered. */
module Receipts {
  import opened Common

  datatype Range = Range(low: int, high: int)

  /** What a bundle manifest says about its place in a source stream. A manifest without a
      sequence predates compact receipts; one without an epoch predates epochs. */
  datatype Manifest = Manifest(source: string, epoch: Option<string>, sequence: Option<int>)

  // ---------- what a list of ranges means ----------

  ghost predicate Covers(ranges: seq<Range>, n: int) {
    exists i :: 0 <= i < |ranges| && ranges[i].low <= n <= ranges[i].high
  }

  ghost predicate WellFormed(ranges: seq<Range>) {
    forall i :: 0 <= i < |ranges| ==> ranges[i].low <= ranges[i].high
  }

  /** Sorted, disjoint and non-adjacent: the form in which receipts are stored. */
  ghost predicate Canonical(ranges: seq<Range>) {
    && WellFormed(ranges)
    && forall i, j :: 0 <= i < j < |ranges| ==> ranges[i].high + 1 < ranges[j].low
  }

  // ---------- sorting ----------

  predicate Before(a: Range, b: Range) {
    a.low < b.low || (a.low == b.low && a.high <= b.high)
  }

  ghost predicate Sorted(ranges: seq<Range>) {
    forall i, j :: 0 <= i < j < |ranges| ==> Before(ranges[i], ranges[j])
  }

  function Insert(r: Range, sorted: seq<Range>): (out: seq<Range>)
    requires Sorted(sorted)
    ensures Sorted(out) && |out| == |sorted| + 1
    ensures forall x :: x in out <==> x in sorted || x == r
  {
    if sorted == [] || Before(r, sorted[0]) then
      [r] + sorted
    else
      var first, rest := sorted[0], Insert(r, sorted[1..]);
      assert sorted == [first] + sorted[1..];
      assert forall x :: x in rest ==> Before(first, x);
      [first] + rest
  }

  /** The ordering that the built-in `sorted` gives two-element lists. */
  function Sort(ranges: seq<Range>): (out: seq<Range>)
    ensures Sorted(out) && |out| == |ranges|
    ensures forall x :: x in out <==> x in ranges
  {
    if ranges == [] then [] else
      assert ranges == [ranges[0]] + ranges[1..];
      Insert(ranges[0], Sort(ranges[1..]))
  }

  lemma SameElements(a: seq<Range>, b: seq<Range>)
    requires forall x :: x in a <==> x in b
    ensures WellFormed(a) ==> WellFormed(b)
    ensures forall n :: Covers(a, n) <==> Covers(b, n)
  {
    assert forall i :: 0 <= i < |a| ==> a[i] in b;
    assert forall i :: 0 <= i < |b| ==> b[i] in a;
  }

  // ---------- the merge ----------

  /** Merge sorted ranges left to right, extending the last output range while the next input
      overlaps or touches it. */
  method Merge(ranges: seq<Range>) returns (merged: seq<Range>)
    requires WellFormed(ranges) && Sorted(ranges)
    ensures Canonical(merged)
    ensures forall n :: Covers(merged, n) <==> Covers(ranges, n)
  {
    merged := [];
    for i := 0 to |ranges|
      invariant Canonical(merged)
      invariant forall n :: Covers(merged, n) <==> Covers(ranges[..i], n)
      invariant merged == [] <==> i == 0
      invariant i > 0 ==> merged[|merged| - 1].low <= ranges[i - 1].low
    {
      var next := ranges[i];
      ghost var was := merged;
      if merged != [] && next.low <= merged[|merged| - 1].high + 1 {
        var last := merged[|merged| - 1];
        assert Before(ranges[i - 1], next);
        merged := merged[..|merged| - 1] + [Range(last.low, if next.high > last.high then next.high else last.high)];
        CoverWidened(was, next, merged);
      } else {
        merged := merged + [next];
        CoverAppended(was, next);
      }
      assert ranges[..i + 1] == ranges[..i] + [next];
      CoverAppended(ranges[..i], next);
    }
    assert ranges[..|ranges|] == ranges;
  }

  lemma CoverAppended(ranges: seq<Range>, r: Range)
    ensures forall n :: Covers(ranges + [r], n) <==> Covers(ranges, n) || r.low <= n <= r.high
  {
    forall n
      ensures Covers(ranges + [r], n) <==> Covers(ranges, n) || r.low <= n <= r.high
    {
      if Covers(ranges, n) {
        var i :| 0 <= i < |ranges| && ranges[i].low <= n <= ranges[i].high;
        assert (ranges + [r])[i] == ranges[i];
      }
      assert (ranges + [r])[|ranges|] == r;
    }
  }

  lemma CoverWidened(was: seq<Range>, next: Range, now: seq<Range>)
    requires was != [] && next.low <= next.high
    requires was[|was| - 1].low <= next.low <= was[|was| - 1].high + 1
    requires was[|was| - 1].low <= was[|was| - 1].high
    requires var last := was[|was| - 1];
             now == was[..|was| - 1] + [Range(last.low, if next.high > last.high then next.high else last.high)]
    ensures forall n :: Covers(now, n) <==> Covers(was, n) || next.low <= n <= next.high
  {
    var front, last := was[..|was| - 1], was[|was| - 1];
    assert was == front + [last];
    CoverAppended(front, last);
    CoverAppended(front, now[|now| - 1]);
  }

  // ---------- canonical lists are determined by the numbers they cover ----------

  lemma {:induction false} CanonicalUnique(a: seq<Range>, b: seq<Range>)
    requires Canonical(a) && Canonical(b)
    requires forall n :: Covers(a, n) <==> Covers(b, n)
    ensures a == b
    decreases |a|
  {
    EmptyIffNothingCovered(a);
    EmptyIffNothingCovered(b);
    if a != [] {
      SameFirst(a, b);
      CanonicalUnique(a[1..], b[1..]);
      assert a == [a[0]] + a[1..] && b == [b[0]] + b[1..];
    }
  }

  lemma SameFirst(a: seq<Range>, b: seq<Range>)
    requires Canonical(a) && Canonical(b) && a != [] && b != []
    requires forall n :: Covers(a, n) <==> Covers(b, n)
    ensures a[0] == b[0] && Canonical(a[1..]) && Canonical(b[1..])
    ensures forall n :: Covers(a[1..], n) <==> Covers(b[1..], n)
  {
    FirstRangeWithin(a, b);
    FirstRangeWithin(b, a);
    TailCover(a);
    TailCover(b);
  }

  lemma EmptyIffNothingCovered(a: seq<Range>)
    requires WellFormed(a)
    ensures a == [] <==> forall n :: !Covers(a, n)
  {
    assert a != [] ==> Covers(a, a[0].low);
  }

  lemma FirstRangeWithin(a: seq<Range>, b: seq<Range>)
    requires Canonical(a) && Canonical(b) && a != [] && b != []
    requires forall n :: Covers(a, n) <==> Covers(b, n)
    ensures b[0].low <= a[0].low && b[0].high <= a[0].high
  {
    assert Covers(a, a[0].low);
    var i :| 0 <= i < |b| && b[i].low <= a[0].low <= b[i].high;
    assert b[0].low <= b[i].low;
    var gap := a[0].high + 1;
    assert !Covers(a, gap);
    assert b[0].low <= gap <= b[0].high ==> Covers(b, gap);
  }

  lemma TailCover(a: seq<Range>)
    requires Canonical(a) && a != []
    ensures Canonical(a[1..])
    ensures forall n :: Covers(a[1..], n) <==> Covers(a, n) && n > a[0].high
  {
    forall n
      ensures Covers(a[1..], n) <==> Covers(a, n) && n > a[0].high
    {
      if Covers(a[1..], n) {
        var i :| 0 <= i < |a[1..]| && a[1..][i].low <= n <= a[1..][i].high;
        assert a[i + 1] == a[1..][i];
      }
      if Covers(a, n) && n > a[0].high {
        var i :| 0 <= i < |a| && a[i].low <= n <= a[i].high;
        assert a[1..][i - 1] == a[i];
      }
    }
  }

  /** Gap-free reception collapses to one range, however the numbers arrived. */
  lemma GapFreeCollapses(ranges: seq<Range>, n: int)
    requires Canonical(ranges) && n >= 1
    requires forall k :: Covers(ranges, k) <==> 1 <= k <= n
    ensures ranges == [Range(1, n)]
  {
    var whole := [Range(1, n)];
    assert whole[0] == Range(1, n);
    assert forall k :: Covers(whole, k) <==> 1 <= k <= n;
    CanonicalUnique(ranges, whole);
  }

  // ---------- stream keys ----------

  function StreamKey(source: string, epoch: Option<string>): (key: string) {
    if epoch.None? then source else source + "/" + epoch.value
  }

  /** With slash-free workspace identifiers no two streams share a key. */
  lemma StreamKeysDistinct(s: string, e: Option<string>, s': string, e': Option<string>)
    requires '/' !in s && '/' !in s'
    requires e.Some? ==> CanonicalUuid(e.value)
    requires e'.Some? ==> CanonicalUuid(e'.value)
    ensures StreamKey(s, e) == StreamKey(s', e') <==> s == s' && e == e'
  {
    var k, k' := StreamKey(s, e), StreamKey(s', e');
    assert e.Some? ==> k[|s|] == '/' && s == k[..|s|] && e.value == k[|s| + 1..];
    assert e'.Some? ==> k'[|s'|] == '/' && s' == k'[..|s'|] && e'.value == k'[|s'| + 1..];
    assert '/' in k <==> e.Some?;
    assert '/' in k' <==> e'.Some?;
  }

  /** A workspace identifier that contains a slash can impersonate another workspace's epoch. */
  lemma SlashImpersonates(s: string, e: string)
    ensures StreamKey(s, Some(e)) == StreamKey(s + "/" + e, None)
  {
  }

  // ---------- the receiver ----------

  datatype Verdict = Known(received: bool) | Malformed

  /** `sequence_of` and `epoch_of` accept the manifest. */
  predicate Readable(m: Manifest) {
    m.sequence.None? || (m.sequence.value >= 1 && (m.epoch.None? || CanonicalUuid(m.epoch.value)))
  }

  /** `after` is the stored form of everything `before` covers and `n` besides. */
  ghost predicate Adds(before: seq<Range>, n: int, after: seq<Range>) {
    Canonical(after) && forall k :: Covers(after, k) <==> Covers(before, k) || k == n
  }

  ghost predicate StoredRanges(store: map<string, seq<Range>>) {
    forall key :: key in store ==> Canonical(store[key])
  }

  ghost function RangesOf(store: map<string, seq<Range>>, key: string): seq<Range> {
    if key in store then store[key] else []
  }

  /** The store already covers the manifest's place in its stream. */
  ghost predicate Replayed(store: map<string, seq<Range>>, m: Manifest) {
    m.sequence.Some? && Covers(RangesOf(store, StreamKey(m.source, m.epoch)), m.sequence.value)
  }

  /** Exactly one number joins exactly one stream. */
  ghost predicate Recorded(before: map<string, seq<Range>>, m: Manifest, after: map<string, seq<Range>>) {
    if m.sequence.None? then after == before else
      var key := StreamKey(m.source, m.epoch);
      && after.Keys == before.Keys + {key}
      && (forall other :: other in before && other != key ==> after[other] == before[other])
      && Adds(RangesOf(before, key), m.sequence.value, RangesOf(after, key))
  }

  method Add(kept: seq<Range>, n: int) returns (merged: seq<Range>)
    requires WellFormed(kept)
    ensures Adds(kept, n, merged)
  {
    var ranges := Sort(kept + [Range(n, n)]);
    CoverAppended(kept, Range(n, n));
    SameElements(kept + [Range(n, n)], ranges);
    merged := Merge(ranges);
  }

  class Receiver {
    var store: map<string, seq<Range>>

    ghost predicate Valid() reads this { StoredRanges(store) }

    constructor ()
      ensures Valid() && store == map[]
    {
      store := map[];
    }

    method Received(m: Manifest) returns (v: Verdict)
      requires Valid()
      ensures v.Malformed? <==> !Readable(m)
      ensures v.Known? ==>
        (v.received <==> Replayed(store, m))
    {
      if m.sequence.None? { return Known(false); }
      var n := m.sequence.value;
      if n < 1 { return Malformed; }
      if m.epoch.Some? && !CanonicalUuid(m.epoch.value) { return Malformed; }
      var key := StreamKey(m.source, m.epoch);
      var ranges := if key in store then store[key] else [];
      var found := false;
      for i := 0 to |ranges|
        invariant found <==> Covers(ranges[..i], n)
      {
        assert ranges[..i + 1] == ranges[..i] + [ranges[i]];
        CoverAppended(ranges[..i], ranges[i]);
        found := found || ranges[i].low <= n <= ranges[i].high;
      }
      assert ranges[..|ranges|] == ranges;
      v := Known(found);
    }

    /** Remembering adds exactly one number to exactly one stream, and the stored form stays canonical. */
    method Remember(m: Manifest) returns (ok: bool)
      requires Valid()
      modifies this
      ensures Valid()
      ensures ok == Readable(m)
      ensures if ok then Recorded(old(store), m, store) else store == old(store)
    {
      if m.sequence.None? { return true; }
      var n := m.sequence.value;
      if n < 1 { return false; }
      if m.epoch.Some? && !CanonicalUuid(m.epoch.value) { return false; }
      var key := StreamKey(m.source, m.epoch);
      var merged := Add(if key in store then store[key] else [], n);
      store := store[key := merged];
      return true;
    }
  }

  /** A run of `Remember` on one stream, as a relation on the stored ranges. */
  ghost predicate RememberedRun(numbers: seq<int>, states: seq<seq<Range>>) {
    && |states| == |numbers| + 1 && states[0] == []
    && forall i :: 0 <= i < |numbers| ==> Adds(states[i], numbers[i], states[i + 1])
  }

  lemma {:induction false} RunCovers(numbers: seq<int>, states: seq<seq<Range>>, k: nat)
    requires RememberedRun(numbers, states) && k <= |numbers|
    ensures Canonical(states[k])
    ensures forall n :: Covers(states[k], n) <==> n in numbers[..k]
  {
    if k > 0 {
      RunCovers(numbers, states, k - 1);
      assert Adds(states[k - 1], numbers[k - 1], states[k]);
      assert numbers[..k] == numbers[..k - 1] + [numbers[k - 1]];
    }
  }

  /** The stored ranges depend only on the set of numbers remembered: any two runs over the same
      numbers, in any order and with any repetition, end in the same list. */
  lemma OrderIrrelevant(a: seq<int>, sa: seq<seq<Range>>, b: seq<int>, sb: seq<seq<Range>>)
    requires RememberedRun(a, sa) && RememberedRun(b, sb)
    requires forall n :: n in a <==> n in b
    ensures sa[|a|] == sb[|b|]
  {
    RunCovers(a, sa, |a|);
    RunCovers(b, sb, |b|);
    assert a[..|a|] == a && b[..|b|] == b;
    CanonicalUnique(sa[|a|], sb[|b|]);
  }

  /** Receiving exactly 1..n, in any order, leaves the single range [1, n]. */
  lemma CompleteRunCollapses(a: seq<int>, sa: seq<seq<Range>>, n: int)
    requires RememberedRun(a, sa) && n >= 1
    requires forall k :: k in a <==> 1 <= k <= n
    ensures sa[|a|] == [Range(1, n)]
  {
    RunCovers(a, sa, |a|);
    assert a[..|a|] == a;
    GapFreeCollapses(sa[|a|], n);
  }
}
