/** The consistency check: which markers do not resolve, and how a damaged one is re-pointed. */
module Fsck {
  import opened Common

  const FORMAT := "httk-workflow-state"
  const VERSION := 2

  /** A state frame. `kind` and `generation` are None when the field is missing or malformed;
      `rest` stands for the members a repair carries forward untouched. */
  datatype Frame = Frame(
    format: string, version: int, workspace: string, jobId: string, jobKey: string, kind: Option<Kind>,
    generation: Option<nat>, placement: string, priority: nat, previous: Option<string>, reason: string, rest: string)

  datatype Marker = Marker(
    kind: Kind, placement: string, jobKey: string, jobId: string, priority: nat, generation: nat, reference: string)

  /** The readable frames of the journal by reference. */
  type Journal = map<string, Frame>

  // ---------- inspection ----------

  datatype Problem = Unreadable | IdentityMismatch | PayloadMissing

  predicate Identifies(workspace: string, m: Marker, f: Frame) {
    && f.format == FORMAT && f.version == VERSION && f.workspace == workspace
    && f.jobId == m.jobId && f.jobKey == m.jobKey && f.kind == Some(m.kind) && f.generation == Some(m.generation)
  }

  function JournalProblem(workspace: string, journal: Journal, m: Marker): Option<Problem> {
    if m.reference == "init" then if m.kind == Submitted && m.generation == 0 then None else Some(IdentityMismatch)
    else if m.reference !in journal then Some(Unreadable)
    else if !Identifies(workspace, m, journal[m.reference]) then Some(IdentityMismatch)
    else None
  }

  /** Kinds whose payload need not be in place: removal may be deleting it, or a transfer moving it. */
  predicate PayloadOptional(k: Kind) {
    Terminal(k) || k == Submitted || k == Ready || k == Relocating || k == Transferring
  }

  function Inspect(workspace: string, journal: Journal, payloads: set<string>, m: Marker): Option<Problem> {
    var problem := JournalProblem(workspace, journal, m);
    if problem.Some? then problem
    else if !PayloadOptional(m.kind) && m.jobKey !in payloads then Some(PayloadMissing)
    else None
  }

  /** The frame says what the marker says, and of this workspace. */
  ghost predicate SaysTheSame(workspace: string, m: Marker, f: Frame) {
    f == f.(format := "httk-workflow-state", version := 2, workspace := workspace, jobId := m.jobId, jobKey := m.jobKey,
            kind := Some(m.kind), generation := Some(m.generation))
  }

  /** What each finding means. A marker is in order if it is a new submission without a frame, or names
      a readable frame that says the same, and its payload is there while a job may still need it. */
  lemma FindingMeans(workspace: string, journal: Journal, payloads: set<string>, m: Marker)
    ensures
      var found := Inspect(workspace, journal, payloads, m);
      var named := m.reference in journal && SaysTheSame(workspace, m, journal[m.reference]);
      var sound := if m.reference == "init" then m.kind == Submitted && m.generation == 0 else named;
      var needed := m.kind in {Claimed, Running, Committing, Cancelling, Waiting, Paused};
      && (found == None <==> sound && (needed ==> m.jobKey in payloads))
      && (found == Some(Unreadable) <==> m.reference != "init" && m.reference !in journal)
      && (found == Some(IdentityMismatch) <==> !sound && (m.reference == "init" || m.reference in journal))
      && (found == Some(PayloadMissing) <==> sound && needed && m.jobKey !in payloads)
      && (JournalProblem(workspace, journal, m) == None <==> sound)
  {
  }

  // ---------- the last good frame ----------

  datatype Listed = Listed(reference: string, frame: Frame)

  predicate Indexed(workspace: string, jobId: string, f: Frame) {
    f.format == FORMAT && f.version == VERSION && f.workspace == workspace && f.jobId == jobId
  }

  /** The frames a repair of `m` may fall back to. */
  predicate Candidate(workspace: string, m: Marker, f: Frame) {
    && Indexed(workspace, m.jobId, f) && f.jobKey == m.jobKey && f.kind.Some?
    && f.generation.Some? && f.generation.value < m.generation
  }

  method FramesFor(workspace: string, jobId: string, listing: seq<Listed>) returns (frames: seq<Listed>)
    ensures frames == Filtered(workspace, jobId, listing)
  {
    frames := [];
    for i := 0 to |listing|
      invariant frames == Filtered(workspace, jobId, listing[..i])
    {
      assert listing[..i + 1][..i] == listing[..i];
      if Indexed(workspace, jobId, listing[i].frame) { frames := frames + [listing[i]]; }
    }
    assert listing[..|listing|] == listing;
  }

  function Filtered(workspace: string, jobId: string, listing: seq<Listed>): seq<Listed> {
    if listing == [] then []
    else
      var last := listing[|listing| - 1];
      Filtered(workspace, jobId, listing[..|listing| - 1]) + if Indexed(workspace, jobId, last.frame) then [last]
        else []
  }

  lemma {:induction false} FilteredMembers(workspace: string, jobId: string, listing: seq<Listed>, e: Listed)
    ensures e in Filtered(workspace, jobId, listing) <==> e in listing && Indexed(workspace, jobId, e.frame)
  {
    if listing != [] {
      FilteredMembers(workspace, jobId, listing[..|listing| - 1], e);
      assert listing == listing[..|listing| - 1] + [listing[|listing| - 1]];
    }
  }

  /** `e` is a candidate and no candidate is newer. */
  ghost predicate Newest(workspace: string, m: Marker, listing: seq<Listed>, e: Listed) {
    && e in listing && Candidate(workspace, m, e.frame)
    && forall o :: o in listing && Candidate(workspace, m, o.frame) ==>
      o.frame.generation.value <= e.frame.generation.value
  }

  /** The newest strictly older frame of the job, the one listed last where several are as new; None
      exactly when the listing has no candidate. */
  method LastGoodFrame(workspace: string, m: Marker, listing: seq<Listed>) returns (best: Option<Listed>)
    ensures best.None? <==> forall e :: e in listing ==> !Candidate(workspace, m, e.frame)
    ensures best.Some? ==> Recovered(workspace, m, listing, best.value)
  {
    var frames := FramesFor(workspace, m.jobId, listing);
    forall e ensures e in frames <==> e in listing && Indexed(workspace, m.jobId, e.frame) {
      FilteredMembers(workspace, m.jobId, listing, e);
    }
    var at := NewestOf(workspace, m, frames);
    if at.None? { return None; }
    best := Some(frames[at.value]);
    FilteredOrder(workspace, m, listing, best.value);
  }

  /** The place of the newest candidate among the frames of one job, the last one of those. */
  method NewestOf(workspace: string, m: Marker, frames: seq<Listed>) returns (at: Option<nat>)
    requires forall e :: e in frames ==> Indexed(workspace, m.jobId, e.frame)
    ensures at.None? <==> forall k :: 0 <= k < |frames| ==> !Candidate(workspace, m, frames[k].frame)
    ensures at.Some? ==>
      && at.value < |frames| && Newest(workspace, m, frames, frames[at.value])
      && NoneAfter(workspace, m, frames, at.value)
  {
    at := None;
    var newest: int := -1;
    for i := 0 to |frames|
      invariant at.None? ==> newest == -1 && forall k :: 0 <= k < i ==> !Candidate(workspace, m, frames[k].frame)
      invariant at.Some? ==> at.value < i && Candidate(workspace, m, frames[at.value].frame)
      invariant at.Some? ==> newest == frames[at.value].frame.generation.value
      invariant forall k :: 0 <= k < i && Candidate(workspace, m, frames[k].frame) ==>
        at.Some? && frames[k].frame.generation.value <= newest
          && (k > at.value ==> frames[k].frame.generation.value < newest)
    {
      var f := frames[i].frame;
      assert frames[i] in frames;
      if f.jobKey != m.jobKey || f.kind.None? { continue; }
      if f.generation.None? || f.generation.value >= m.generation { continue; }
      if f.generation.value >= newest {
        at, newest := Some(i), f.generation.value;
      }
    }
  }

  /** No candidate after `e` is of its generation. */
  ghost predicate LastOfItsGeneration(workspace: string, m: Marker, frames: seq<Listed>, e: Listed) {
    exists j :: 0 <= j < |frames| && frames[j] == e && NoneAfter(workspace, m, frames, j)
  }

  ghost predicate NoneAfter(workspace: string, m: Marker, frames: seq<Listed>, j: nat)
    requires j < |frames|
  {
    forall k :: j < k < |frames| && Candidate(workspace, m, frames[k].frame) ==>
      frames[k].frame.generation != frames[j].frame.generation
  }

  /** The frame a repair falls back to: the newest candidate, and the last listed one of these. */
  ghost predicate Recovered(workspace: string, m: Marker, listing: seq<Listed>, e: Listed) {
    Newest(workspace, m, listing, e) && LastOfItsGeneration(workspace, m, listing, e)
  }

  lemma {:induction false} FilteredOrder(workspace: string, m: Marker, listing: seq<Listed>, e: Listed)
    requires Candidate(workspace, m, e.frame)
    requires LastOfItsGeneration(workspace, m, Filtered(workspace, m.jobId, listing), e)
    ensures LastOfItsGeneration(workspace, m, listing, e)
  {
    var front, last := listing[..|listing| - 1], listing[|listing| - 1];
    if last == e {
      assert NoneAfter(workspace, m, listing, |listing| - 1);
    } else {
      LastWithout(workspace, m, Filtered(workspace, m.jobId, front), Filtered(workspace, m.jobId, listing), e);
      FilteredOrder(workspace, m, front, e);
      var j :| 0 <= j < |front| && front[j] == e && NoneAfter(workspace, m, front, j);
      assert NoneAfter(workspace, m, listing, j);
    }
  }

  /** Dropping a last frame that is not `e`; such a frame is not a candidate of its generation. */
  lemma LastWithout(workspace: string, m: Marker, front: seq<Listed>, frames: seq<Listed>, e: Listed)
    requires Candidate(workspace, m, e.frame) && LastOfItsGeneration(workspace, m, frames, e)
    requires frames == front || (frames == front + [frames[|frames| - 1]] && frames[|frames| - 1] != e)
    ensures LastOfItsGeneration(workspace, m, front, e)
    ensures frames != front && Candidate(workspace, m, frames[|frames| - 1].frame) ==>
      frames[|frames| - 1].frame.generation != e.frame.generation
  {
    var j :| 0 <= j < |frames| && frames[j] == e && NoneAfter(workspace, m, frames, j);
    if frames != front {
      assert j < |front| && front[j] == e;
      assert forall k :: j < k < |front| ==> front[k] == frames[k];
      assert NoneAfter(workspace, m, front, j);
    }
  }

  // ---------- the repair ----------

  function RepairFrame(workspace: string, m: Marker, recovered: Listed): Frame {
    recovered.frame.(
      format := FORMAT, version := VERSION, workspace := workspace, jobId := m.jobId, jobKey := m.jobKey,
      placement := m.placement, generation := Some(m.generation + 1), kind := Some(m.kind),
      previous := Some(recovered.reference), priority := m.priority, reason := "fsck_repair")
  }

  function Repointed(m: Marker, reference: string): Marker {
    m.(generation := m.generation + 1, reference := reference)
  }

  /** Every readable frame is newer than the readable frame of the same job it points back to. */
  ghost predicate Descending(journal: Journal) {
    forall r :: r in journal && journal[r].previous.Some? && journal[r].previous.value in journal ==>
      Older(journal[journal[r].previous.value], journal[r])
  }

  predicate Older(p: Frame, f: Frame) {
    p.jobId == f.jobId && p.jobKey == f.jobKey && p.generation.Some? && f.generation.Some?
      && p.generation.value < f.generation.value
  }

  /** No readable frame points to the reference: references are handed out after the frames exist. */
  ghost predicate Unused(journal: Journal, reference: string) {
    reference != "init" && reference !in journal && forall r :: r in journal ==> journal[r].previous != Some(reference)
  }

  lemma UnusedStays(journal: Journal, added: string, f: Frame, other: string)
    requires Unused(journal, other) && other != added && f.previous.Some? && f.previous.value in journal
    ensures Unused(journal[added := f], other)
  {
  }

  /** Generations along the readable chain from a frame. */
  function Lineage(journal: Journal, reference: string): seq<nat>
    requires Descending(journal) && reference in journal && journal[reference].generation.Some?
    decreases journal[reference].generation.value
  {
    var f := journal[reference];
    [f.generation.value] +
    if f.previous.Some? && f.previous.value in journal then Lineage(journal, f.previous.value) else []
  }

  lemma {:induction false} LineageDescends(journal: Journal, reference: string, i: nat, j: nat)
    requires Descending(journal) && reference in journal && journal[reference].generation.Some?
    requires i < j < |Lineage(journal, reference)|
    ensures Lineage(journal, reference)[i] > Lineage(journal, reference)[j]
    decreases journal[reference].generation.value
  {
    var rest := journal[reference].previous.value;
    if i > 0 {
      LineageDescends(journal, rest, i - 1, j - 1);
    } else if j > 1 {
      LineageDescends(journal, rest, 0, j - 1);
    }
  }

  /** What one repair achieves. The frame it adds resolves on the next check, and the chain from it
      continues the chain of the recovered frame. */
  lemma RepairResolves(workspace: string, journal: Journal, m: Marker, recovered: Listed, reference: string)
    requires Descending(journal) && Unused(journal, reference)
    requires recovered.reference in journal && journal[recovered.reference] == recovered.frame
    requires Candidate(workspace, m, recovered.frame)
    ensures var after := journal[reference := RepairFrame(workspace, m, recovered)];
      && Descending(after)
      && JournalProblem(workspace, after, Repointed(m, reference)) == None
      && Lineage(after, reference) == [m.generation + 1] + Lineage(journal, recovered.reference)
  {
    var after := journal[reference := RepairFrame(workspace, m, recovered)];
    LineageKept(journal, after, recovered.reference);
  }

  /** Frames were added, to none of which an earlier frame points back. */
  ghost predicate Extends(journal: Journal, after: Journal) {
    && (forall r :: r in journal ==> r in after && after[r] == journal[r])
    && (forall r :: r in journal && PointsInto(journal[r], after) ==> PointsInto(journal[r], journal))
  }

  predicate PointsInto(f: Frame, journal: Journal) { f.previous.Some? && f.previous.value in journal }

  lemma ExtendsMore(a: Journal, b: Journal, c: Journal)
    requires Extends(a, b) && Extends(b, c)
    ensures Extends(a, c)
  {
  }

  lemma {:induction false} LineageKept(journal: Journal, after: Journal, reference: string)
    requires Descending(journal) && Descending(after) && reference in journal && journal[reference].generation.Some?
    requires Extends(journal, after)
    ensures Lineage(after, reference) == Lineage(journal, reference)
    decreases journal[reference].generation.value
  {
    var f := journal[reference];
    if f.previous.Some? && f.previous.value in journal { LineageKept(journal, after, f.previous.value); }
  }

  // ---------- the check ----------

  datatype Action = Resolves | Reported | SkippedLive | Repaired | Quarantined

  predicate LiveKind(k: Kind) { k == Claimed || k == Running || k == Committing || k == Cancelling }

  method LiveOwner(workspace: string, m: Marker, listing: seq<Listed>, beating: set<string>) returns (live: bool)
    ensures live <==> m.kind in {Claimed, Running, Committing, Cancelling} && exists e ::
      e in listing && Indexed(workspace, m.jobId, e.frame) && e.reference in beating
  {
    if !LiveKind(m.kind) { return false; }
    var frames := FramesFor(workspace, m.jobId, listing);
    forall e ensures e in frames <==> e in listing && Indexed(workspace, m.jobId, e.frame) {
      FilteredMembers(workspace, m.jobId, listing, e);
    }
    var i := |frames|;
    while i > 0
      invariant 0 <= i <= |frames|
      invariant forall k :: i <= k < |frames| ==> frames[k].reference !in beating
    {
      i := i - 1;
      if frames[i].reference in beating {
        assert frames[i] in frames;
        return true;
      }
    }
    return false;
  }

  class Checker {
    const workspace: string
    /** Every readable frame as the journal walk listed it when the check began. */
    const listing: seq<Listed>
    /** Frames naming a manager that beats within the lease the frame states. */
    const beating: set<string>
    const payloads: set<string>
    const repair: bool
    const quarantine: bool
    var journal: Journal

    ghost predicate Valid() reads this {
      && Descending(journal)
      && forall e :: e in listing ==> e.reference in journal && journal[e.reference] == e.frame
    }

    constructor (workspace: string, journal: Journal, listing: seq<Listed>, beating: set<string>, payloads: set<string>,
                 repair: bool, quarantine: bool)
      requires Descending(journal) && forall e :: e in listing ==>
        e.reference in journal && journal[e.reference] == e.frame
      ensures Valid() && this.workspace == workspace && this.journal == journal && this.listing == listing
      ensures this.beating == beating && this.payloads == payloads && this.repair == repair
      ensures this.quarantine == quarantine
    {
      this.workspace, this.journal, this.listing, this.beating := workspace, journal, listing, beating;
      this.payloads, this.repair, this.quarantine := payloads, repair, quarantine;
    }

    /** A manager that still beats is named by some frame of the job. */
    ghost predicate Owned(m: Marker) {
      m.kind in {Claimed, Running, Committing, Cancelling}
        && exists e :: e in listing && Indexed(workspace, m.jobId, e.frame) && e.reference in beating
    }

    ghost predicate Repairable(m: Marker) {
      exists e :: e in listing && Candidate(workspace, m, e.frame)
    }

    /** Which action each marker gets, as a function of what the check found. */
    ghost predicate Called(before: Journal, m: Marker, action: Action) {
      var damaged := repair && JournalProblem(workspace, before, m).Some?;
      && (action == Resolves <==> Inspect(workspace, before, payloads, m).None?)
      && (action == SkippedLive <==> damaged && Owned(m))
      && (action == Repaired <==> damaged && !Owned(m) && Repairable(m))
      && (action == Quarantined <==> damaged && !Owned(m) && !Repairable(m) && quarantine)
    }

    /** What a check does about one marker: the action that is called for; and if that is a repair,
        the recovered frame is taken and the chain goes on from it. */
    ghost predicate Settled(before: Journal, m: Marker, after: Journal, r: Marker, action: Action) {
      && Called(before, m, action)
      && (if action == Repaired then exists e :: Continues(before, m, after, r, e) else r == m)
    }

    /** The marker keeps everything but generation and reference, resolves in the new journal, and
        its chain is the old chain of the recovered frame `e` with the repair in front. */
    ghost predicate Continues(before: Journal, m: Marker, after: Journal, r: Marker, e: Listed) {
      && Recovered(workspace, m, listing, e)
      && r == m.(generation := m.generation + 1, reference := r.reference)
      && JournalProblem(workspace, after, r) == None
      && Descending(before) && e.reference in before && before[e.reference].generation.Some?
      && Descending(after) && r.reference in after && after[r.reference].generation.Some?
      && Lineage(after, r.reference) == [m.generation + 1] + Lineage(before, e.reference)
      && CarriesOn(m, e, after[r.reference])
    }

    /** The frame `f` keeps what the recovered frame `e` holds and what the marker says. */
    ghost predicate CarriesOn(m: Marker, e: Listed, f: Frame) {
      && f.rest == e.frame.rest && f.previous == Some(e.reference) && f.reason == "fsck_repair"
      && f.kind == Some(m.kind) && f.placement == m.placement && f.priority == m.priority
      && f.generation == Some(m.generation + 1)
    }

    /** `reference` is what the check's own journal writer returns if a frame has to be written. */
    method CheckMarker(m: Marker, reference: string) returns (r: Marker, action: Action)
      requires Valid() && Unused(journal, reference)
      modifies this`journal
      ensures Valid() && Settled(old(journal), m, journal, r, action)
      ensures Added(old(journal), journal, {reference}) && (action != Repaired ==> journal == old(journal))
      ensures forall other :: other != reference && Unused(old(journal), other) ==> Unused(journal, other)
    {
      var recovered;
      action, recovered := Decide(m);
      r := m;
      if recovered.Some? { r := Repoint(m, recovered.value, reference); }
    }

    /** What is called for, and the frame to fall back to where that is a repair. */
    method Decide(m: Marker) returns (action: Action, recovered: Option<Listed>)
      ensures Called(journal, m, action) && (recovered.Some? <==> action == Repaired)
      ensures recovered.Some? ==> Recovered(workspace, m, listing, recovered.value)
    {
      var problem := Inspect(workspace, journal, payloads, m);
      if problem.None? { return Resolves, None; }
      if problem == Some(PayloadMissing) || !repair { return Reported, None; }
      var live := LiveOwner(workspace, m, listing, beating);
      if live { return SkippedLive, None; }
      recovered := LastGoodFrame(workspace, m, listing);
      if recovered.None? { return if quarantine then Quarantined else Reported, None; }
      return Repaired, recovered;
    }

    /** A frame that carries on from the recovered one is written, and the marker moved onto it. */
    method Repoint(m: Marker, recovered: Listed, reference: string) returns (r: Marker)
      requires Valid() && Unused(journal, reference) && Recovered(workspace, m, listing, recovered)
      modifies this`journal
      ensures Valid() && Continues(old(journal), m, journal, r, recovered)
      ensures Added(old(journal), journal, {reference})
      ensures forall other :: other != reference && Unused(old(journal), other) ==> Unused(journal, other)
    {
      RepairResolves(workspace, journal, m, recovered, reference);
      RepairAdds(workspace, journal, m, recovered, reference);
      journal := journal[reference := RepairFrame(workspace, m, recovered)];
      r := Repointed(m, reference);
    }

    /** A run gives each marker the action its state at the start calls for; every repaired one has
        taken the recovered frame and resolves at the end of the run, whatever was repaired after
        it; and nothing is written unless repair is asked for. Asking for quarantine without repair
        is refused. */
    method CheckWorkspace(markers: seq<Marker>, references: seq<string>)
        returns (refused: bool, results: seq<Marker>, actions: seq<Action>)
      requires Valid() && |references| == |markers|
      requires forall i, j :: 0 <= i < j < |references| ==> references[i] != references[j]
      requires AllUnused(journal, references, 0)
      requires forall i :: 0 <= i < |markers| ==> markers[i].reference !in references
      modifies this`journal
      ensures Valid() && Added(old(journal), journal, set r | r in references) && (!repair ==> journal == old(journal))
      ensures refused <==> quarantine && !repair
      ensures !refused ==> AllSettled(old(journal), journal, markers, results, actions, |markers|)
    {
      refused, results, actions := quarantine && !repair, [], [];
      if refused { return; }
      for n := 0 to |markers|
        invariant Valid() && Progressed(old(journal), journal, markers, references, results, actions, n)
      {
        var r, action := CheckNext(old(journal), markers, references, results, actions, n);
        results, actions := results + [r], actions + [action];
      }
    }

    /** What holds when n markers have been checked. */
    ghost predicate Progressed(start: Journal, now: Journal, markers: seq<Marker>, references: seq<string>,
        results: seq<Marker>, actions: seq<Action>, n: nat)
      requires n <= |markers|
    {
      && Added(start, now, set r | r in references) && (!repair ==> now == start)
      && AllUnused(now, references, n) && AllSettled(start, now, markers, results, actions, n)
    }

    method CheckNext(ghost start: Journal, markers: seq<Marker>, references: seq<string>,
        ghost results: seq<Marker>, ghost actions: seq<Action>, n: nat) returns (r: Marker, action: Action)
      requires Valid() && n < |markers| == |references|
      requires Progressed(start, journal, markers, references, results, actions, n)
      requires forall i, j :: 0 <= i < j < |references| ==> references[i] != references[j]
      requires markers[n].reference !in references && Descending(start)
      requires forall e :: e in listing ==> e.reference in start && start[e.reference] == e.frame
      modifies this`journal
      ensures Valid() && Progressed(start, journal, markers, references, results + [r], actions + [action], n + 1)
    {
      ghost var before, allowed := journal, set x | x in references;
      assert Unused(journal, references[n]);
      r, action := CheckMarker(markers[n], references[n]);
      FewerUnused(before, journal, references, n);
      AddedMore(start, before, journal, allowed, {references[n]});
      OneMoreSettled(start, before, journal, markers, results, actions, allowed, n, r, action);
    }

    /** The first n markers are settled. */
    ghost predicate AllSettled(start: Journal, now: Journal, markers: seq<Marker>, results: seq<Marker>,
        actions: seq<Action>, n: nat)
      requires n <= |markers|
    {
      |results| == |actions| == n && forall i :: 0 <= i < n ==> Settled(start, markers[i], now, results[i], actions[i])
    }

    lemma OneMoreSettled(start: Journal, before: Journal, after: Journal, markers: seq<Marker>, results: seq<Marker>,
        actions: seq<Action>, allowed: set<string>, n: nat, r: Marker, action: Action)
      requires n < |markers| && AllSettled(start, before, markers, results, actions, n)
      requires Descending(start) && Descending(before) && Descending(after) && Added(start, before, allowed)
      requires Extends(before, after)
      requires Settled(before, markers[n], after, r, action) && markers[n].reference !in allowed
      requires forall e :: e in listing ==> e.reference in start && start[e.reference] == e.frame
      ensures AllSettled(start, after, markers, results + [r], actions + [action], n + 1)
    {
      NowSettled(start, before, after, markers[n], r, action, allowed);
      AllStaySettled(start, before, after, markers, results, actions, n);
      AppendSettled(start, after, markers, results, actions, n, r, action);
    }

    lemma AllStaySettled(start: Journal, before: Journal, after: Journal, markers: seq<Marker>, results: seq<Marker>,
        actions: seq<Action>, n: nat)
      requires n <= |markers| && AllSettled(start, before, markers, results, actions, n)
      requires Extends(before, after) && Descending(after)
      ensures AllSettled(start, after, markers, results, actions, n)
    {
      forall i | 0 <= i < n ensures Settled(start, markers[i], after, results[i], actions[i]) {
        StaysSettled(start, before, after, markers[i], results[i], actions[i]);
      }
    }

    lemma AppendSettled(start: Journal, now: Journal, markers: seq<Marker>, results: seq<Marker>, actions: seq<Action>,
        n: nat, r: Marker, action: Action)
      requires n < |markers| && AllSettled(start, now, markers, results, actions, n)
      requires Settled(start, markers[n], now, r, action)
      ensures AllSettled(start, now, markers, results + [r], actions + [action], n + 1)
    {
      var rs, as' := results + [r], actions + [action];
      forall i | 0 <= i < n + 1 ensures Settled(start, markers[i], now, rs[i], as'[i]) {
        if i < n { assert rs[i] == results[i] && as'[i] == actions[i]; }
      }
    }

    lemma StaysSettled(start: Journal, before: Journal, after: Journal, m: Marker, r: Marker, action: Action)
      requires Settled(start, m, before, r, action) && Extends(before, after) && Descending(after)
      ensures Settled(start, m, after, r, action)
    {
      if action == Repaired {
        var e :| Continues(start, m, before, r, e);
        LineageKept(before, after, r.reference);
        assert Continues(start, m, after, r, e);
      }
    }

    lemma NowSettled(start: Journal, before: Journal, after: Journal, m: Marker, r: Marker, action: Action,
        allowed: set<string>)
      requires Settled(before, m, after, r, action) && Descending(start) && Added(start, before, allowed)
      requires m.reference !in allowed
      requires forall e :: e in listing ==> e.reference in start && start[e.reference] == e.frame
      ensures Settled(start, m, after, r, action)
    {
      assert JournalProblem(workspace, start, m) == JournalProblem(workspace, before, m);
      if action == Repaired {
        var e :| Continues(before, m, after, r, e);
        LineageKept(start, before, e.reference);
        assert Continues(start, m, after, r, e);
      }
    }
  }

  lemma RepairAdds(workspace: string, journal: Journal, m: Marker, recovered: Listed, reference: string)
    requires Unused(journal, reference) && recovered.reference in journal
    ensures var after := journal[reference := RepairFrame(workspace, m, recovered)];
      && Added(journal, after, {reference})
      && forall other :: other != reference && Unused(journal, other) ==> Unused(after, other)
  {
    var frame := RepairFrame(workspace, m, recovered);
    forall other | other != reference && Unused(journal, other) ensures Unused(journal[reference := frame], other) {
      UnusedStays(journal, reference, frame, other);
    }
  }

  ghost predicate AllUnused(journal: Journal, references: seq<string>, from: nat) {
    forall i :: from <= i < |references| ==> Unused(journal, references[i])
  }

  lemma FewerUnused(before: Journal, after: Journal, references: seq<string>, n: nat)
    requires AllUnused(before, references, n) && n < |references|
    requires forall i, j :: 0 <= i < j < |references| ==> references[i] != references[j]
    requires forall other :: other != references[n] && Unused(before, other) ==> Unused(after, other)
    ensures AllUnused(after, references, n + 1)
  {
  }

  /** Frames were added only under these references, and no earlier frame points back to one. */
  ghost predicate Added(before: Journal, after: Journal, references: set<string>) {
    Extends(before, after) && forall r :: r in after && r !in before ==> r in references
  }

  lemma AddedMore(a: Journal, b: Journal, c: Journal, references: set<string>, more: set<string>)
    requires Added(a, b, references) && Added(b, c, more) && more <= references
    ensures Added(a, c, references)
  {
    ExtendsMore(a, b, c);
  }

  // ---------- which frame is recovered ----------

  /** The references along the chain from a frame. */
  ghost function ChainOf(journal: Journal, reference: string): seq<string>
    requires Descending(journal) && reference in journal && journal[reference].generation.Some?
    decreases journal[reference].generation.value
  {
    var f := journal[reference];
    [reference] + if f.previous.Some? && f.previous.value in journal then ChainOf(journal, f.previous.value) else []
  }

  lemma {:induction false} ChainDescends(journal: Journal, reference: string, r: string)
    requires Descending(journal) && reference in journal && journal[reference].generation.Some?
    requires r in ChainOf(journal, reference)
    ensures r in journal && journal[r].generation.Some?
    ensures journal[r].generation.value <= journal[reference].generation.value
    ensures r != reference ==> journal[r].generation.value < journal[reference].generation.value
    decreases journal[reference].generation.value
  {
    if r != reference { ChainDescends(journal, journal[reference].previous.value, r); }
  }

  /** A chain holds one frame of a generation. */
  lemma {:induction false} ChainHoldsOne(journal: Journal, reference: string, a: string, b: string)
    requires Descending(journal) && reference in journal && journal[reference].generation.Some?
    requires a in ChainOf(journal, reference) && b in ChainOf(journal, reference)
    requires a in journal && b in journal && journal[a].generation == journal[b].generation
    ensures a == b
    decreases journal[reference].generation.value
  {
    ChainDescends(journal, reference, a);
    ChainDescends(journal, reference, b);
    if a != reference && b != reference { ChainHoldsOne(journal, journal[reference].previous.value, a, b); }
  }

  /** Everything ever written, before the damage: the marker's own frame is there, and whatever the
      check lists is as it was written. */
  ghost predicate Undamaged(written: Journal, m: Marker, listing: seq<Listed>) {
    && Descending(written) && m.reference in written && written[m.reference].generation == Some(m.generation)
    && forall e :: e in listing ==> e.reference in written && written[e.reference] == e.frame
  }

  /** The markers of the job committed exactly the frames on the chain of its last marker. */
  ghost predicate Committed(written: Journal, m: Marker, listing: seq<Listed>, reference: string) {
    Undamaged(written, m, listing) && reference in ChainOf(written, m.reference)
  }

  ghost predicate DistinctReferences(listing: seq<Listed>) {
    forall i, j :: 0 <= i < j < |listing| ==> listing[i].reference != listing[j].reference
  }

  /** Where the committed frame of the recovered generation is still listed, at place w, the recovered
      frame is a committed one if and only if no candidate of that generation is listed after w.
      The check claims it without that condition; but a frame that lost its race stays in the
      journal at a generation the marker has left behind. */
  lemma RecoversCommittedIffNoneAfter(workspace: string, written: Journal, m: Marker, listing: seq<Listed>, e: Listed,
      w: nat)
    requires Undamaged(written, m, listing) && DistinctReferences(listing) && Recovered(workspace, m, listing, e)
    requires w < |listing| && Committed(written, m, listing, listing[w].reference)
    requires Candidate(workspace, m, listing[w].frame) && listing[w].frame.generation == e.frame.generation
    ensures Committed(written, m, listing, e.reference) <==> NoneAfter(workspace, m, listing, w)
  {
    var j :| 0 <= j < |listing| && listing[j] == e && NoneAfter(workspace, m, listing, j);
    assert e in listing && listing[w] in listing;
    if Committed(written, m, listing, e.reference) {
      ChainHoldsOne(written, m.reference, e.reference, listing[w].reference);
      assert j == w;
    }
  }

  /** A listed candidate of the recovered generation was committed. */
  ghost predicate WinnerListed(workspace: string, written: Journal, m: Marker, listing: seq<Listed>, e: Listed) {
    exists o :: o in listing && Candidate(workspace, m, o.frame) && o.frame.generation == e.frame.generation
      && Committed(written, m, listing, o.reference)
  }

  ghost predicate OnlyCandidate(workspace: string, m: Marker, listing: seq<Listed>, e: Listed) {
    forall o :: o in listing && Candidate(workspace, m, o.frame) && o.frame.generation == e.frame.generation ==> o == e
  }

  function Readable(listing: seq<Listed>): Journal
    requires DistinctReferences(listing)
  {
    map i | 0 <= i < |listing| :: listing[i].reference := listing[i].frame
  }

  /** Whatever was written before the damage, if the winner is listed then `e` was committed. */
  ghost predicate Sure(workspace: string, m: Marker, listing: seq<Listed>, e: Listed) {
    forall written :: Undamaged(written, m, listing) && WinnerListed(workspace, written, m, listing, e) ==>
      Committed(written, m, listing, e.reference)
  }

  /** What an operator can see before repairing: the recovered frame is sure to be a committed one,
      provided the winner of its generation is readable at all, if and only if the listing holds
      no other candidate of that generation. */
  lemma RecoveryIsSureIffOnlyCandidate(workspace: string, m: Marker, listing: seq<Listed>, e: Listed)
    requires DistinctReferences(listing) && Recovered(workspace, m, listing, e)
    requires Descending(Readable(listing)) && Unused(Readable(listing), m.reference)
    ensures Sure(workspace, m, listing, e) <==> OnlyCandidate(workspace, m, listing, e)
  {
    if OnlyCandidate(workspace, m, listing, e) {
      OnlyIsSure(workspace, m, listing, e);
    } else {
      var o :| o in listing && Candidate(workspace, m, o.frame) && o.frame.generation == e.frame.generation && o != e;
      NotSure(workspace, m, listing, e, o);
    }
  }

  /** Without that proviso nothing in a listing makes it certain: for every recovered frame the lost
      frame may have pointed back to nothing that is listed. */
  lemma RecoveryIsNeverSureOtherwise(workspace: string, m: Marker, listing: seq<Listed>, e: Listed)
    requires DistinctReferences(listing) && Recovered(workspace, m, listing, e)
    requires Descending(Readable(listing)) && Unused(Readable(listing), m.reference)
    ensures exists written :: Undamaged(written, m, listing) && !Committed(written, m, listing, e.reference)
  {
    var written := Readable(listing)[m.reference := e.frame.(generation := Some(m.generation), previous := None)];
    forall x | x in listing ensures x.reference in written && written[x.reference] == x.frame {
      ReadableHolds(listing, x);
    }
    assert ChainOf(written, m.reference) == [m.reference];
    assert Undamaged(written, m, listing) && !Committed(written, m, listing, e.reference);
  }

  lemma NotSure(workspace: string, m: Marker, listing: seq<Listed>, e: Listed, o: Listed)
    requires DistinctReferences(listing) && e in listing && o in listing && o != e
    requires Candidate(workspace, m, e.frame) && Candidate(workspace, m, o.frame)
    requires o.frame.generation == e.frame.generation
    requires Descending(Readable(listing)) && Unused(Readable(listing), m.reference)
    ensures !Sure(workspace, m, listing, e)
  {
    OtherWinner(workspace, m, listing, e, o);
    var written := Readable(listing)[m.reference :=
      o.frame.(generation := Some(m.generation), previous := Some(o.reference))];
    assert Undamaged(written, m, listing) && WinnerListed(workspace, written, m, listing, e);
    assert !Committed(written, m, listing, e.reference);
  }

  lemma OnlyIsSure(workspace: string, m: Marker, listing: seq<Listed>, e: Listed)
    requires OnlyCandidate(workspace, m, listing, e)
    ensures Sure(workspace, m, listing, e)
  {
    forall written | Undamaged(written, m, listing) && WinnerListed(workspace, written, m, listing, e)
      ensures Committed(written, m, listing, e.reference)
    {
      var o :| o in listing && Candidate(workspace, m, o.frame) && o.frame.generation == e.frame.generation
        && Committed(written, m, listing, o.reference);
      assert o == e;
    }
  }

  /** Any other candidate of the generation may be the one the lost frame pointed back to. */
  lemma OtherWinner(workspace: string, m: Marker, listing: seq<Listed>, e: Listed, o: Listed)
    requires DistinctReferences(listing) && e in listing && o in listing && o != e
    requires Candidate(workspace, m, e.frame) && Candidate(workspace, m, o.frame)
    requires o.frame.generation == e.frame.generation
    requires Descending(Readable(listing)) && Unused(Readable(listing), m.reference)
    ensures var written := Readable(listing)[m.reference :=
      o.frame.(generation := Some(m.generation), previous := Some(o.reference))];
      && Undamaged(written, m, listing) && WinnerListed(workspace, written, m, listing, e)
      && !Committed(written, m, listing, e.reference)
  {
    var written := Readable(listing)[m.reference :=
      o.frame.(generation := Some(m.generation), previous := Some(o.reference))];
    ReadableHolds(listing, e);
    ReadableHolds(listing, o);
    forall x | x in listing ensures x.reference in written && written[x.reference] == x.frame {
      ReadableHolds(listing, x);
    }
    assert Descending(written);
    assert ChainOf(written, m.reference) == [m.reference] + ChainOf(written, o.reference);
    assert ChainOf(written, o.reference)[0] == o.reference;
    assert Committed(written, m, listing, o.reference);
    if Committed(written, m, listing, e.reference) {
      ChainHoldsOne(written, m.reference, e.reference, o.reference);
      SameReference(listing, e, o);
    }
  }

  lemma ReadableHolds(listing: seq<Listed>, e: Listed)
    requires DistinctReferences(listing) && e in listing
    ensures e.reference in Readable(listing) && Readable(listing)[e.reference] == e.frame
  {
    var i :| 0 <= i < |listing| && listing[i] == e;
    assert listing[i].reference in Readable(listing);
  }

  lemma SameReference(listing: seq<Listed>, a: Listed, b: Listed)
    requires DistinctReferences(listing) && a in listing && b in listing && a.reference == b.reference
    ensures a == b
  {
    var i :| 0 <= i < |listing| && listing[i] == a;
    var j :| 0 <= j < |listing| && listing[j] == b;
    assert i == j;
  }

  function Sample(workspace: string, generation: nat, previous: Option<string>, rest: string): Frame {
    Frame(FORMAT, VERSION, workspace, "id", "key", Some(Running), Some(generation), "p", 0, previous, "r", rest)
  }

  /** Two managers race for generation 5; the marker of the winner moves on to generation 6, whose
      frame is then lost. The frame listed last is recovered, here the one never committed. */
  lemma LoserIsRecovered(workspace: string)
    ensures var winner, loser := Listed("winner", Sample(workspace, 5, None, "w")),
      Listed("loser", Sample(workspace, 5, None, "l"));
      var written := map["winner" := winner.frame, "loser" := loser.frame,
        "lost" := Sample(workspace, 6, Some("winner"), "w")];
      var m, listing := Marker(Running, "p", "key", "id", 0, 6, "lost"), [winner, loser];
      && Committed(written, m, listing, "winner") && !Committed(written, m, listing, "loser")
      && Recovered(workspace, m, listing, loser)
  {
    var winner, loser := Listed("winner", Sample(workspace, 5, None, "w")),
      Listed("loser", Sample(workspace, 5, None, "l"));
    var written := map["winner" := winner.frame, "loser" := loser.frame,
      "lost" := Sample(workspace, 6, Some("winner"), "w")];
    var m, listing := Marker(Running, "p", "key", "id", 0, 6, "lost"), [winner, loser];
    assert Undamaged(written, m, listing);
    assert ChainOf(written, "winner") == ["winner"];
    assert ChainOf(written, "lost") == ["lost", "winner"];
    assert listing[1] == loser && NoneAfter(workspace, m, listing, 1);
  }
}
