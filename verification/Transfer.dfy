/** Both halves together: one receiver, any number of sending workspaces, bundles arriving in any
    order, any number of times and interleaved in any way. */
module Transfer {
  import opened Common
  import opened Allocator
  import R = Receipts

  type Store = map<string, seq<R.Range>>

  // ---------- what the receiver does with a list of manifests ----------

  /** A bundle that is not a replay is imported and then remembered; a replay changes nothing. */
  ghost predicate HandledOne(m: R.Manifest, before: Store, imported: bool, after: Store) {
    && imported == !R.Replayed(before, m)
    && if imported then R.Recorded(before, m, after) else after == before
  }

  ghost predicate Handled(manifests: seq<R.Manifest>, stores: seq<Store>, imported: seq<bool>) {
    && |stores| == |manifests| + 1 && |imported| == |manifests|
    && (forall k :: 0 <= k < |manifests| ==> R.Readable(manifests[k]))
    && (forall k :: 0 <= k < |manifests| ==> HandledOne(manifests[k], stores[k], imported[k], stores[k + 1]))
  }

  ghost predicate SlashFree(manifests: seq<R.Manifest>) {
    forall k :: 0 <= k < |manifests| ==> '/' !in manifests[k].source
  }

  function KeyOf(m: R.Manifest): string { R.StreamKey(m.source, m.epoch) }

  /** Manifest j takes number n of the stream stored under this key. */
  ghost predicate Takes(m: R.Manifest, key: string, n: int) {
    m.sequence == Some(n) && KeyOf(m) == key
  }

  /** A stored stream covers what it covered at the start and the numbers delivered under its key. */
  lemma {:induction false} StoreIsWhatWasDelivered(
      manifests: seq<R.Manifest>, stores: seq<Store>, imported: seq<bool>, k: nat, key: string, n: int)
    requires Handled(manifests, stores, imported) && k <= |manifests|
    ensures R.Covers(R.RangesOf(stores[k], key), n) <==>
      R.Covers(R.RangesOf(stores[0], key), n) || exists j :: 0 <= j < k && Takes(manifests[j], key, n)
  {
    if k > 0 {
      StoreIsWhatWasDelivered(manifests, stores, imported, k - 1, key, n);
      var m := manifests[k - 1];
      assert HandledOne(m, stores[k - 1], imported[k - 1], stores[k]);
      assert R.Covers(R.RangesOf(stores[k], key), n) <==>
        R.Covers(R.RangesOf(stores[k - 1], key), n) || Takes(m, key, n);
    }
  }

  /** Two manifests claim the same place of the same stream of the same workspace. */
  predicate SamePlace(a: R.Manifest, b: R.Manifest) {
    a.source == b.source && a.epoch == b.epoch && a.sequence == b.sequence
  }

  /** With slash-free workspace identifiers a bundle is imported exactly when it has no sequence
      number, or when its place was neither covered at the start nor delivered before. Bundles of
      other workspaces, and those without an epoch, never count. */
  lemma ImportedIffPlaceIsNew(manifests: seq<R.Manifest>, stores: seq<Store>, imported: seq<bool>, k: nat)
    requires Handled(manifests, stores, imported) && SlashFree(manifests) && k < |manifests|
    ensures imported[k] <==>
      || manifests[k].sequence.None?
      || (!R.Replayed(stores[0], manifests[k]) && forall j :: 0 <= j < k ==> !SamePlace(manifests[j], manifests[k]))
  {
    var m := manifests[k];
    assert HandledOne(m, stores[k], imported[k], stores[k + 1]);
    if m.sequence.Some? {
      StoreIsWhatWasDelivered(manifests, stores, imported, k, KeyOf(m), m.sequence.value);
      forall j | 0 <= j < k
        ensures Takes(manifests[j], KeyOf(m), m.sequence.value) <==> SamePlace(manifests[j], m)
      {
        assert R.Readable(manifests[j]) && R.Readable(m);
        if manifests[j].sequence.Some? {
          R.StreamKeysDistinct(manifests[j].source, manifests[j].epoch, m.source, m.epoch);
        }
      }
    }
  }

  // ---------- with an allocator at every sender ----------

  /** A bundle sealed under an allocator's ticket, or one of a workspace that predates epochs. */
  datatype Delivery = Issued(source: string, issue: Issue) | Older(source: string, sequence: Option<int>)

  function ManifestOf(d: Delivery): R.Manifest {
    match d
    case Issued(source, i) => R.Manifest(source, Some(i.ticket.epoch), Some(i.ticket.sequence))
    case Older(source, sequence) => R.Manifest(source, None, sequence)
  }

  function Manifests(deliveries: seq<Delivery>): seq<R.Manifest> {
    seq(|deliveries|, k requires 0 <= k < |deliveries| => ManifestOf(deliveries[k]))
  }

  /** Every issued delivery comes from the run of its own workspace's allocator. */
  ghost predicate FromRuns(runs: map<string, seq<Event>>, deliveries: seq<Delivery>) {
    && (forall s :: s in runs ==> Run(runs[s]))
    && (forall d :: d in deliveries && d.Issued? ==> d.source in runs && d.issue in Replay(runs[d.source]).issues)
  }

  ghost predicate SameTransfer(a: Delivery, b: Delivery) {
    a.Issued? && b.Issued? && a.source == b.source && a.issue.ticket.transfer == b.issue.ticket.transfer
  }

  /** A transfer travels under one ticket: it is sealed at most once. */
  ghost predicate OneTicketEach(deliveries: seq<Delivery>) {
    forall a, b :: a in deliveries && b in deliveries && SameTransfer(a, b) ==> a.issue.ticket == b.issue.ticket
  }

  /** Proposing a new identifier for each transfer is one way to have that. */
  lemma FreshProposalsGiveOneTicket(runs: map<string, seq<Event>>, deliveries: seq<Delivery>)
    requires FromRuns(runs, deliveries) && forall s :: s in runs ==> DistinctProposals(runs[s])
    ensures OneTicketEach(deliveries)
  {
    forall a, b | a in deliveries && b in deliveries && SameTransfer(a, b)
      ensures a.issue.ticket == b.issue.ticket
    {
      TransferNamesOnePair(runs[a.source]);
    }
  }

  /** A new transfer is never taken for a replay: whatever is dropped was covered when the receiver
      began, or the same transfer of the same job and workspace came before. */
  lemma NewIsNeverDropped(runs: map<string, seq<Event>>, deliveries: seq<Delivery>, stores: seq<Store>,
      imported: seq<bool>, k: nat)
    requires FromRuns(runs, deliveries) && Handled(Manifests(deliveries), stores, imported)
    requires SlashFree(Manifests(deliveries)) && k < |deliveries| && deliveries[k].Issued? && !imported[k]
    ensures
      || R.Replayed(stores[0], ManifestOf(deliveries[k]))
      || exists j ::
        && 0 <= j < k && SameTransfer(deliveries[j], deliveries[k])
        && deliveries[j].issue.job == deliveries[k].issue.job
  {
    ImportedIffPlaceIsNew(Manifests(deliveries), stores, imported, k);
    if !R.Replayed(stores[0], ManifestOf(deliveries[k])) {
      var ms := Manifests(deliveries);
      var j :| 0 <= j < k && SamePlace(ms[j], ms[k]);
      assert ms[j] == ManifestOf(deliveries[j]) && deliveries[j].Issued?;
      assert deliveries[j] in deliveries && deliveries[k] in deliveries;
      PairNamesOneTransfer(runs[deliveries[k].source], deliveries[j].issue, deliveries[k].issue);
    }
  }

  /** The law of the protocol, for any number of sending workspaces: a delivery is imported if and
      only if its transfer has not been delivered before. */
  lemma EachTransferImportedOnce(runs: map<string, seq<Event>>, deliveries: seq<Delivery>, stores: seq<Store>,
      imported: seq<bool>, k: nat)
    requires FromRuns(runs, deliveries) && OneTicketEach(deliveries)
    requires Handled(Manifests(deliveries), stores, imported) && SlashFree(Manifests(deliveries))
    requires k < |deliveries| && deliveries[k].Issued?
    ensures imported[k] <==>
      && !R.Replayed(stores[0], ManifestOf(deliveries[k]))
      && forall j :: 0 <= j < k ==> !SameTransfer(deliveries[j], deliveries[k])
  {
    ImportedIffPlaceIsNew(Manifests(deliveries), stores, imported, k);
    if !imported[k] {
      NewIsNeverDropped(runs, deliveries, stores, imported, k);
    } else {
      forall j | 0 <= j < k
        ensures !SameTransfer(deliveries[j], deliveries[k])
      {
        assert !SamePlace(Manifests(deliveries)[j], Manifests(deliveries)[k]);
        assert deliveries[j] in deliveries && deliveries[k] in deliveries;
      }
    }
  }

  // ---------- why identifiers must be slash-free ----------

  /** Whatever else is delivered, a bundle without epoch from a workspace that spells another
      workspace and its epoch makes the receiver drop that workspace's bundle of the same number. */
  lemma ImpersonatorSuppresses(manifests: seq<R.Manifest>, stores: seq<Store>, imported: seq<bool>, j: nat, k: nat)
    requires Handled(manifests, stores, imported) && j < k < |manifests|
    requires manifests[k].epoch.Some? && manifests[k].sequence.Some?
    requires manifests[j] == R.Manifest(manifests[k].source + "/" + manifests[k].epoch.value, None,
      manifests[k].sequence)
    ensures !imported[k] && !SamePlace(manifests[j], manifests[k])
  {
    var m := manifests[k];
    R.SlashImpersonates(m.source, m.epoch.value);
    assert HandledOne(m, stores[k], imported[k], stores[k + 1]);
    StoreIsWhatWasDelivered(manifests, stores, imported, k, KeyOf(m), m.sequence.value);
    assert Takes(manifests[j], KeyOf(m), m.sequence.value);
  }

  /** And such a run exists: the very first bundle of workspace `s` is dropped. */
  lemma FirstBundleDropped(s: string, epoch: string)
    requires CanonicalUuid(epoch)
    ensures var manifests := [R.Manifest(s + "/" + epoch, None, Some(1)), R.Manifest(s, Some(epoch), Some(1))];
      var full: Store := map[R.StreamKey(s, Some(epoch)) := [R.Range(1, 1)]];
      Handled(manifests, [map[], full, full], [true, false])
  {
    R.SlashImpersonates(s, epoch);
    var key := R.StreamKey(s, Some(epoch));
    var one := [R.Range(1, 1)];
    assert one[0].low <= 1 <= one[0].high;
    assert R.Covers(one, 1);
    assert R.Adds([], 1, one);
  }
}
