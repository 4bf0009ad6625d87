/** What goes on in other streams of the same allocator files: it costs a stream neither its epoch
    nor its place. */
module AllocatorPeers {
  import opened Common
  import opened Allocator

  /** The files are trusted where the process runs, and hold its stream as it remembers it or the epoch
      of another process. */
  ghost predicate Consistent(h: History, key: Key) {
    && Owned(h, key) && h.disk.checkpoint == Checkpoint(key.origin, h.disk.issued) && key.peer in h.disk.issued
    && (h.disk.issued[key.peer].epoch == StreamOf(h, key).epoch ==> h.disk.issued[key.peer] == StreamOf(h, key))
  }

  /** What a reservation returns, for every content of memory and files. A stream that is not
      consistent with the files is given up for a new epoch. Otherwise the epoch is kept; a
      reservation pending for the job is returned if the files vouch for it, that is if they hold
      this very stream; and in all other cases the stream's next number is taken. */
  lemma ReturnsExactly(h: History, e: Event)
    requires Sound(h) && e.Reserve? && Admissible(h, e)
    ensures !Consistent(h, e.key) ==> TicketFor(h, e) == Ticket(e.transfer, 1, e.uuid)
    ensures Consistent(h, e.key) ==>
      var s, t := StreamOf(h, e.key), TicketFor(h, e);
      && t.epoch == s.epoch
      && (forall p :: InStep(h, e.key) && p in s.pending && s.pending[p].job == e.job ==>
            t == Ticket(p, s.pending[p].sequence, s.epoch))
      && (!InStep(h, e.key) || (forall p :: p in s.pending ==> s.pending[p].job != e.job) ==>
            t == Ticket(e.transfer, s.last + 1, s.epoch))
  {
    if Owned(h, e.key) {
      var s := StreamOf(h, e.key);
      assert CopySound(h.issues, s);
      forall p | p in s.pending && s.pending[p].job == e.job
        ensures Held(s.pending, e.job) == Some(p)
      {
        HeldIs(s.pending, e.job, p);
      }
    }
  }

  /** What a reservation writes: nothing if it returns a pending one; otherwise its own stream as it is
      in memory now, every other stream that trusted files hold as it was, and nothing else. */
  lemma WritesExactly(h: History, e: Event)
    requires e.Reserve?
    ensures var before, after := h.disk, Next(h, e).disk;
      || (after == before && InStep(h, e.key))
      || (&& after.checkpoint == Checkpoint(e.key.origin, after.issued)
          && InStep(Next(h, e), e.key)
          && forall q :: q != e.key.peer ==>
               && (q in after.issued <==>
                     before.checkpoint == Checkpoint(e.key.origin, before.issued) && q in before.issued)
               && (q in after.issued ==> after.issued[q] == before.issued[q]))
  {
    ReserveLeavesInStep(h, e);
  }

  /** What the process remembers then: the reservation it returned, what was pending in the stream before
      if the files vouched for it, and nothing else. */
  lemma RemembersExactly(h: History, e: Event)
    requires Sound(h) && e.Reserve? && Admissible(h, e)
    ensures Owned(Next(h, e), e.key)
    ensures var t, s := TicketFor(h, e), StreamOf(Next(h, e), e.key);
      && s.epoch == t.epoch && t.transfer in s.pending && s.pending[t.transfer] == Reservation(e.job, t.sequence)
      && s.last == (if t.transfer in PendingBefore(h, e.key) && StreamOf(h, e.key).pending[t.transfer].job == e.job
           then StreamOf(h, e.key).last else t.sequence)
      && s.pending.Keys == PendingBefore(h, e.key) + {t.transfer}
      && forall p :: p in PendingBefore(h, e.key) && p != t.transfer ==> s.pending[p] == StreamOf(h, e.key).pending[p]
  {
    ReserveLeavesInStep(h, e);
    ReturnsExactly(h, e);
    if Owned(h, e.key) {
      var s := StreamOf(h, e.key);
      assert CopySound(h.issues, s);
      forall p | p in s.pending && s.pending[p].job == e.job ensures Held(s.pending, e.job) == Some(p) {
        HeldIs(s.pending, e.job, p);
      }
    }
  }

  /** The transfers pending in a stream that the files vouch for. */
  ghost function PendingBefore(h: History, key: Key): (pending: set<string>)
    ensures pending != {} ==> Owned(h, key) && pending == StreamOf(h, key).pending.Keys
  {
    if InStep(h, key) then StreamOf(h, key).pending.Keys else {}
  }

  /** A restarted process begins a new epoch in every stream, whatever the files have been made to say. */
  lemma RestartMints(h: History, disk: Disk, e: Event)
    requires e.Reserve?
    ensures TicketFor(Next(Next(h, Exit(e.key.pid)), Tamper(disk)), e) == Ticket(e.transfer, 1, e.uuid)
  {
  }

  /** What sealing writes: nothing, unless trusted files hold the transfer pending for this peer; then
      the files without it and otherwise as they were. */
  lemma SealWritesExactly(h: History, e: Event)
    requires e.Seal?
    ensures var before, after, peer := h.disk, Next(h, e).disk, e.key.peer;
      if before.checkpoint == Checkpoint(e.key.origin, before.issued) && peer in before.issued
        && e.transfer in before.issued[peer].pending
      then
        && after.checkpoint == Checkpoint(e.key.origin, after.issued) && after.issued.Keys == before.issued.Keys
        && (forall q :: q in before.issued && q != peer ==> after.issued[q] == before.issued[q])
        && after.issued[peer].epoch == before.issued[peer].epoch && after.issued[peer].last == before.issued[peer].last
        && e.transfer !in after.issued[peer].pending
        && (forall t :: t in before.issued[peer].pending && t != e.transfer ==>
              t in after.issued[peer].pending && after.issued[peer].pending[t] == before.issued[peer].pending[t])
        && after.issued[peer].pending.Keys <= before.issued[peer].pending.Keys
      else after == before
  {
  }

  /** Streams in memory are changed by their own process under their own key only. */
  lemma OtherStreamsStay(h: History, e: Event, key: Key)
    requires (e.Reserve? || e.Fence? || e.Seal?) && e.key != key && Owned(h, key)
    ensures Owned(Next(h, e), key) && StreamOf(Next(h, e), key) == StreamOf(h, key)
  {
  }

  // ---------- other peers ----------

  /** A call for another peer of the same workspace, by whatever process. */
  ghost predicate ForOtherPeer(e: Event, key: Key) {
    (e.Reserve? || e.Fence? || e.Seal?) && e.key.peer != key.peer && e.key.origin == key.origin
  }

  lemma OtherPeerLeavesInStep(h: History, e: Event, key: Key)
    requires InStep(h, key) && ForOtherPeer(e, key)
    ensures InStep(Next(h, e), key) && StreamOf(Next(h, e), key) == StreamOf(h, key)
  {
    OtherStreamsStay(h, e, key);
  }

  /** After any calls for other peers the next reservation goes on where the stream stood: it returns
      what is pending for its job, or takes the next number of the same epoch. */
  lemma {:induction false} OtherPeersDoNotDisturb(past: seq<Event>, after: seq<Event>, key: Key)
    requires InStep(Replay(past), key) && forall e :: e in after ==> ForOtherPeer(e, key)
    ensures InStep(Replay(past + after), key) && StreamOf(Replay(past + after), key) == StreamOf(Replay(past), key)
    decreases |after|
  {
    if after == [] {
      assert past + after == past;
    } else {
      var n := |after| - 1;
      var shorter := past + after[..n];
      OtherPeersDoNotDisturb(past, after[..n], key);
      assert past + after == shorter + [after[n]];
      Extended(shorter, after[n]);
      OtherPeerLeavesInStep(Replay(shorter), after[n], key);
    }
  }

  lemma NextNumberAfterOtherPeers(past: seq<Event>, first: Event, after: seq<Event>, e: Event)
    requires Run(past + [first] + after + [e]) && first.Reserve? && e.Reserve? && e.key == first.key
    requires forall x :: x in after ==> ForOtherPeer(x, first.key)
    ensures GoesOn(Replay(past), first, Replay(past + [first] + after), e)
  {
    var before := past + [first];
    Extended(past, first);
    ReserveLeavesInStep(Replay(past), first);
    OtherPeersDoNotDisturb(before, after, first.key);
    Extended(before + after, e);
    RunSound(before + after);
    PrefixRuns(before, after);
    RunSound(past);
    GoesOnInStep(Replay(past), first, Replay(before + after), e);
  }

  /** The reservation `e` in the later state `h'` goes on from the reservation `first` in `h`: in the same
      epoch it returns the same ticket for the same job, and the stream's next number for a job with
      nothing pending. */
  ghost predicate GoesOn(h: History, first: Event, h': History, e: Event)
    requires first.Reserve? && e.Reserve?
  {
    var t, again := TicketFor(h, first), TicketFor(h', e);
    Owned(Next(h, first), first.key) &&
    var s := StreamOf(Next(h, first), first.key);
    && again.epoch == t.epoch
    && (e.job == first.job ==> again == t)
    && ((forall p :: p in s.pending ==> s.pending[p].job != e.job) ==>
          again == Ticket(e.transfer, s.last + 1, t.epoch) && again.sequence > t.sequence)
  }

  lemma GoesOnInStep(h: History, first: Event, h': History, e: Event)
    requires Sound(h) && first.Reserve? && Admissible(h, first)
    requires Sound(h') && e.Reserve? && Admissible(h', e) && e.key == first.key
    requires InStep(h', e.key) && Owned(Next(h, first), e.key) && StreamOf(h', e.key) == StreamOf(Next(h, first), e.key)
    ensures GoesOn(h, first, h', e)
  {
    ReserveLeavesInStep(h, first);
    ReserveMine(h, first);
    ReturnsExactly(h', e);
    ForgottenJob(Next(h, first).issues, StreamOf(h', e.key), TicketFor(h, first).transfer, first.job);
  }

  lemma {:induction false} PrefixRuns(events: seq<Event>, more: seq<Event>)
    requires Run(events + more)
    ensures Run(events)
    decreases |more|
  {
    if more == [] {
      assert events + more == events;
    } else {
      assert (events + more)[..|events + more| - 1] == events + more[..|more| - 1];
      PrefixRuns(events, more[..|more| - 1]);
    }
  }

  // ---------- other processes ----------

  /** An event that leaves the stream and what vouches for it alone: not a call under its key, not a
      replacement of the files or of the process's memory, not a call from another place, and no
      other process sealing what this one has pending. */
  ghost predicate Peaceful(h: History, e: Event, key: Key)
    requires Owned(h, key)
  {
    match e
    case Reserve(k, _, _, _) => k != key && k.origin == key.origin
    case Fence(k, _) => k != key
    case Seal(k, transfer) => k != key && (k.peer == key.peer ==> transfer !in StreamOf(h, key).pending)
    case Tamper(_) => false
    case Exit(pid) => pid != key.pid
    case Fork(_, child) => child != key.pid
  }

  /** Other processes that use the same peer publish epochs of their own, and the stream goes on. */
  lemma PeacefulStep(h: History, e: Event, key: Key)
    requires Sound(h) && Admissible(h, e) && Consistent(h, key) && Peaceful(h, e, key)
    ensures Consistent(Next(h, e), key) && StreamOf(Next(h, e), key) == StreamOf(h, key)
  {
    var h' := Next(h, e);
    if e.Reserve? || e.Fence? || e.Seal? { OtherStreamsStay(h, e, key); }
    if e.Reserve? && e.key.peer == key.peer {
      SelectSound(h, e.key, e.uuid);
      ReserveLeavesInStep(h, e);
      WritesExactly(h, e);
      assert Entry(h, key.pid, key);
      if h'.disk != h.disk { assert StreamOf(h', e.key).epoch == Selected(h, e.key, e.uuid).epoch; }
    }
  }

  ghost predicate AllPeaceful(past: seq<Event>, after: seq<Event>, key: Key)
    decreases |after|
  {
    after == [] || (
      var n := |after| - 1;
      && AllPeaceful(past, after[..n], key)
      && Owned(Replay(past + after[..n]), key) && Peaceful(Replay(past + after[..n]), after[n], key))
  }

  /** Over every run: whatever other processes do in between, short of replacing the files, the next
      reservation keeps the epoch of the stream and, for a job with nothing pending, takes the
      number after its last. */
  lemma {:induction false} StreamGoesOn(past: seq<Event>, after: seq<Event>, key: Key)
    requires Run(past + after) && Consistent(Replay(past), key) && AllPeaceful(past, after, key)
    ensures Consistent(Replay(past + after), key) && StreamOf(Replay(past + after), key) == StreamOf(Replay(past), key)
    decreases |after|
  {
    if after == [] {
      assert past + after == past;
    } else {
      var n := |after| - 1;
      var shorter := past + after[..n];
      assert past + after == shorter + [after[n]];
      PrefixRuns(shorter, [after[n]]);
      StreamGoesOn(past, after[..n], key);
      PeacefulEvent(shorter, after[n], key);
    }
  }

  lemma PeacefulEvent(events: seq<Event>, e: Event, key: Key)
    requires Run(events + [e]) && Consistent(Replay(events), key) && Peaceful(Replay(events), e, key)
    ensures Consistent(Replay(events + [e]), key)
    ensures StreamOf(Replay(events + [e]), key) == StreamOf(Replay(events), key)
  {
    Extended(events, e);
    RunSound(events);
    PeacefulStep(Replay(events), e, key);
  }

  lemma NextNumberWhileOthersWork(past: seq<Event>, after: seq<Event>, e: Event)
    requires e.Reserve? && Run(past + after + [e]) && Consistent(Replay(past), e.key) && AllPeaceful(past, after, e.key)
    ensures
      var s, t := StreamOf(Replay(past), e.key), TicketFor(Replay(past + after), e);
      && t.epoch == s.epoch
      && ((forall p :: p in s.pending ==> s.pending[p].job != e.job) ==> t == Ticket(e.transfer, s.last + 1, s.epoch))
  {
    Extended(past + after, e);
    StreamGoesOn(past, after, e.key);
    RunSound(past + after);
    ReturnsExactly(Replay(past + after), e);
  }
}
