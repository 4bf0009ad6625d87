/** The sender's half of sequenced-transfer replay protection. Many processes allocate
    (epoch, sequence) pairs under one lock. The allocator files may be rolled back, restored or
    half-written between any two calls; only a process's own volatile memory authorises reuse. */
module Allocator {
  import opened Common

  datatype Origin = Origin(host: string, root: string, device: nat, inode: nat)
  datatype Key = Key(pid: nat, origin: Origin, peer: string)
  datatype Reservation = Reservation(job: string, sequence: int)
  datatype Stream = Stream(epoch: string, last: int, pending: map<string, Reservation>)
  datatype Checkpoint = Missing | Checkpoint(origin: Origin, streams: map<string, Stream>)
  datatype Disk = Disk(issued: map<string, Stream>, checkpoint: Checkpoint)
  datatype Ticket = Ticket(transfer: string, sequence: int, epoch: string)

  /** `_session_streams`: the module dictionary of one process. */
  type Memory = map<Key, Stream>

  // ---------- what one call decides ----------

  /** The issued streams, or nothing when the checkpoint does not vouch for them here. */
  function Trusted(disk: Disk, origin: Origin): map<string, Stream> {
    if disk.checkpoint == Checkpoint(origin, disk.issued) then disk.issued else map[]
  }

  function Published(streams: map<string, Stream>, origin: Origin): Disk {
    Disk(streams, Checkpoint(origin, streams))
  }

  /** The volatile stream this call allocates from: a new epoch when memory holds none, when the
      disk lost this peer, or when the disk holds another version of our own epoch. */
  function Select(streams: map<string, Stream>, current: Option<Stream>, peer: string, uuid: string): Stream {
    if current.None? || peer !in streams
       || (streams[peer].epoch == current.value.epoch && streams[peer] != current.value)
    then Stream(uuid, 0, map[])
    else if streams[peer].epoch != current.value.epoch then current.value.(pending := map[])
    else current.value
  }

  function Lookup(memory: Memory, key: Key): Option<Stream> {
    if key in memory then Some(memory[key]) else None
  }

  ghost predicate Holds(pending: map<string, Reservation>, job: string, transfer: string) {
    transfer in pending && pending[transfer].job == job
  }

  ghost function Held(pending: map<string, Reservation>, job: string): Option<string> {
    if exists t :: Holds(pending, job, t) then Some(var t :| Holds(pending, job, t); t) else None
  }

  /** At most one pending reservation for each job, so the one found does not depend on order. */
  ghost predicate OnePerJob(pending: map<string, Reservation>) {
    forall t, t' :: t in pending && t' in pending && pending[t].job == pending[t'].job ==> t == t'
  }

  datatype Outcome = Outcome(memory: Memory, disk: Disk, ticket: Ticket)

  ghost function Reserved(memory: Memory, disk: Disk, key: Key, job: string, transfer: string, uuid: string): Outcome {
    var streams := Trusted(disk, key.origin);
    var stream := Select(streams, Lookup(memory, key), key.peer, uuid);
    match Held(stream.pending, job)
    case Some(t) =>
      Outcome(memory[key := stream], disk, Ticket(t, stream.pending[t].sequence, stream.epoch))
    case None =>
      var next := stream.last + 1;
      var grown := Stream(stream.epoch, next, stream.pending[transfer := Reservation(job, next)]);
      Outcome(memory[key := grown], Published(streams[key.peer := grown], key.origin),
        Ticket(transfer, next, stream.epoch))
  }

  function Forget(stream: Stream, transfer: string): Stream {
    stream.(pending := stream.pending - {transfer})
  }

  function Fenced(memory: Memory, key: Key, transfer: string): Memory {
    if key in memory then memory[key := Forget(memory[key], transfer)] else memory
  }

  function SealedDisk(disk: Disk, key: Key, transfer: string): Disk {
    var streams := Trusted(disk, key.origin);
    if key.peer in streams && transfer in streams[key.peer].pending
    then Published(streams[key.peer := Forget(streams[key.peer], transfer)], key.origin)
    else disk
  }

  // ---------- the calls, as the process makes them ----------

  /** The search for a reservation of the same job. */
  method FindHeld(pending: map<string, Reservation>, job: string) returns (held: Option<string>)
    requires OnePerJob(pending)
    ensures held == Held(pending, job)
    ensures held.Some? ==> Holds(pending, job, held.value)
  {
    var waiting := pending.Keys;
    while waiting != {}
      invariant waiting <= pending.Keys
      invariant forall t :: t in pending && t !in waiting ==> pending[t].job != job
    {
      var t :| t in waiting;
      if pending[t].job == job {
        HeldIs(pending, job, t);
        return Some(t);
      }
      waiting := waiting - {t};
    }
    return None;
  }

  lemma HeldIs(pending: map<string, Reservation>, job: string, transfer: string)
    requires OnePerJob(pending) && Holds(pending, job, transfer)
    ensures Held(pending, job) == Some(transfer)
  {
    assert Holds(pending, job, Held(pending, job).value);
  }

  lemma StillOnePerJob(pending: map<string, Reservation>, job: string, transfer: string, n: int)
    requires OnePerJob(pending) && Held(pending, job).None?
    ensures OnePerJob(pending[transfer := Reservation(job, n)])
  {
    assert forall t :: t in pending ==> !Holds(pending, job, t);
  }

  class AllocatorFiles {
    var disk: Disk

    constructor (disk: Disk)
      ensures this.disk == disk
    {
      this.disk := disk;
    }
  }

  class Process {
    const pid: nat
    var sessions: Memory

    ghost predicate Valid() reads this {
      forall key :: key in sessions ==> OnePerJob(sessions[key].pending)
    }

    constructor (pid: nat)
      ensures Valid() && this.pid == pid && sessions == map[]
    {
      this.pid := pid;
      sessions := map[];
    }

    method Reserve(files: AllocatorFiles, origin: Origin, peer: string, job: string, transfer: string, uuid: string)
      returns (ticket: Ticket)
      requires Valid()
      modifies this`sessions, files
      ensures Valid()
      ensures Outcome(sessions, files.disk, ticket) ==
              Reserved(old(sessions), old(files.disk), Key(pid, origin, peer), job, transfer, uuid)
    {
      var key := Key(pid, origin, peer);
      var streams := Trusted(files.disk, origin);
      var stream := Select(streams, Lookup(sessions, key), peer, uuid);
      assert OnePerJob(stream.pending);
      sessions := sessions[key := stream];
      var held := FindHeld(stream.pending, job);
      if held.Some? { return Ticket(held.value, stream.pending[held.value].sequence, stream.epoch); }
      var next := stream.last + 1;
      StillOnePerJob(stream.pending, job, transfer, next);
      stream := Stream(stream.epoch, next, stream.pending[transfer := Reservation(job, next)]);
      sessions := sessions[key := stream];
      files.disk := Published(streams[peer := stream], origin);
      return Ticket(transfer, next, stream.epoch);
    }

    method Fencing(origin: Origin, peer: string, transfer: string)
      requires Valid()
      modifies this`sessions
      ensures Valid() && sessions == Fenced(old(sessions), Key(pid, origin, peer), transfer)
    {
      var key := Key(pid, origin, peer);
      if key in sessions {
        sessions := sessions[key := Forget(sessions[key], transfer)];
      }
    }

    method Sealed(files: AllocatorFiles, origin: Origin, peer: string, transfer: string)
      requires Valid()
      modifies this`sessions, files
      ensures Valid() && sessions == Fenced(old(sessions), Key(pid, origin, peer), transfer)
      ensures files.disk == SealedDisk(old(files.disk), Key(pid, origin, peer), transfer)
    {
      var streams := files.disk.issued;
      var checkpoint := files.disk.checkpoint;
      Fencing(origin, peer, transfer);
      if checkpoint != Checkpoint(origin, streams) { return; }
      if peer in streams && transfer in streams[peer].pending {
        streams := streams[peer := Forget(streams[peer], transfer)];
        files.disk := Published(streams, origin);
      }
    }
  }

  // ---------- every interleaving ----------

  /** One step of the whole system. `Tamper` replaces both allocator files by anything at all;
      `Exit` loses a process's memory; `Fork` copies it. A pid may be reused after `Exit`. */
  datatype Event =
    | Reserve(key: Key, job: string, transfer: string, uuid: string)
    | Fence(key: Key, transfer: string)
    | Seal(key: Key, transfer: string)
    | Tamper(disk: Disk)
    | Exit(pid: nat)
    | Fork(parent: nat, child: nat)

  datatype Issue = Issue(ticket: Ticket, job: string, key: Key)

  /** The system and, for the statement of its properties, everything it has handed out. */
  datatype History = History(disk: Disk, memory: map<nat, Memory>, issues: set<Issue>, minted: set<string>)

  function MemoryOf(h: History, pid: nat): Memory {
    if pid in h.memory then h.memory[pid] else map[]
  }

  ghost function Next(h: History, e: Event): History {
    match e
    case Reserve(key, job, transfer, uuid) =>
      var o := Reserved(MemoryOf(h, key.pid), h.disk, key, job, transfer, uuid);
      History(o.disk, h.memory[key.pid := o.memory], h.issues + {Issue(o.ticket, job, key)}, h.minted + {uuid})
    case Fence(key, transfer) =>
      h.(memory := h.memory[key.pid := Fenced(MemoryOf(h, key.pid), key, transfer)])
    case Seal(key, transfer) =>
      h.(disk := SealedDisk(h.disk, key, transfer),
         memory := h.memory[key.pid := Fenced(MemoryOf(h, key.pid), key, transfer)])
    case Tamper(disk) => h.(disk := disk)
    case Exit(pid) => h.(memory := h.memory - {pid})
    case Fork(parent, child) => h.(memory := h.memory[child := MemoryOf(h, parent)])
  }

  /** What a forked child finds under its own id bounds everything issued in that epoch: no stream
      it can reach has been allocated from since it was copied. */
  ghost predicate ForkSafe(h: History, parent: nat, child: nat) {
    forall key :: key in MemoryOf(h, parent) && key.pid == child ==> Bounded(h.issues, MemoryOf(h, parent)[key])
  }

  /** The environment's promises: `uuid4` never repeats, and forks are safe. */
  ghost predicate Admissible(h: History, e: Event) {
    match e
    case Reserve(_, _, _, uuid) => uuid !in h.minted
    case Fork(parent, child) => ForkSafe(h, parent, child)
    case _ => true
  }

  const FRESH := History(Disk(map[], Missing), map[], {}, {})

  ghost function Replay(events: seq<Event>): History {
    if events == [] then FRESH else Next(Replay(events[..|events| - 1]), events[|events| - 1])
  }

  ghost predicate Run(events: seq<Event>) {
    events == [] ||
    (Run(events[..|events| - 1]) && Admissible(Replay(events[..|events| - 1]), events[|events| - 1]))
  }

  // ---------- the invariant ----------

  /** An entry in the dictionary of process `pid`, which also holds inherited keys of other ids. */
  ghost predicate Entry(h: History, pid: nat, key: Key) { pid in h.memory && key in h.memory[pid] }

  /** The entries a process can reach: those under its own id. */
  ghost predicate Owned(h: History, key: Key) { Entry(h, key.pid, key) }

  ghost function Copy(h: History, pid: nat, key: Key): Stream
    requires Entry(h, pid, key)
  {
    h.memory[pid][key]
  }

  ghost function StreamOf(h: History, key: Key): Stream
    requires Owned(h, key)
  {
    Copy(h, key.pid, key)
  }

  /** One (epoch, sequence) pair names one transfer of one job. */
  ghost predicate Agree(issues: set<Issue>) {
    forall i, j :: i in issues && j in issues && i.ticket.epoch == j.ticket.epoch
      && i.ticket.sequence == j.ticket.sequence
      ==> i.ticket == j.ticket && i.job == j.job
  }

  ghost predicate Issued(issues: set<Issue>, epoch: string, n: int) {
    exists i :: i in issues && i.ticket.epoch == epoch && i.ticket.sequence == n
  }

  /** The numbers of an epoch are handed out without gaps. */
  ghost predicate Dense(issues: set<Issue>) {
    forall i {:trigger Preceded(issues, i)} :: i in issues ==> Preceded(issues, i)
  }

  ghost predicate Preceded(issues: set<Issue>, i: Issue) {
    i.ticket.sequence > 1 ==> Issued(issues, i.ticket.epoch, i.ticket.sequence - 1)
  }

  /** A stream's counter bounds everything issued in its epoch. */
  ghost predicate Bounded(issues: set<Issue>, s: Stream) {
    forall i :: i in issues && i.ticket.epoch == s.epoch ==> i.ticket.sequence <= s.last
  }

  /** The counter and the pending reservations of a stream, or of an outdated copy of one, were
      issued in its epoch. */
  ghost predicate CopySound(issues: set<Issue>, s: Stream) {
    && OnePerJob(s.pending) && s.last >= 0 && (s.last > 0 ==> Issued(issues, s.epoch, s.last))
    && (forall t :: t in s.pending ==> Backed(issues, s, t))
  }

  ghost predicate StreamSound(issues: set<Issue>, s: Stream) { CopySound(issues, s) && Bounded(issues, s) }

  ghost predicate Backed(issues: set<Issue>, s: Stream, t: string)
    requires t in s.pending
  {
    exists i :: i in issues && i.ticket == Ticket(t, s.pending[t].sequence, s.epoch) && i.job == s.pending[t].job
  }

  /** Copies of one epoch are copies of one stream. */
  ghost predicate OneKey(h: History) {
    forall pid, key, pid', key' ::
      Entry(h, pid, key) && Entry(h, pid', key') && Copy(h, pid, key).epoch == Copy(h, pid', key').epoch ==> key == key'
  }

  ghost predicate Sound(h: History) {
    && Agree(h.issues) && Dense(h.issues)
    && (forall i :: i in h.issues ==> i.ticket.epoch in h.minted && i.ticket.sequence >= 1)
    && (forall pid, key :: Entry(h, pid, key) ==> Copy(h, pid, key).epoch in h.minted)
    && (forall pid, key :: Entry(h, pid, key) ==> CopySound(h.issues, Copy(h, pid, key)))
    && OneKey(h)
    && (forall key :: Owned(h, key) ==> Bounded(h.issues, StreamOf(h, key)))
  }

  /** The stream a reservation selects, before it allocates. */
  ghost function Selected(h: History, key: Key, uuid: string): Stream {
    Select(Trusted(h.disk, key.origin), Lookup(MemoryOf(h, key.pid), key), key.peer, uuid)
  }

  lemma SelectSound(h: History, key: Key, uuid: string)
    requires Sound(h) && uuid !in h.minted
    ensures var s := Selected(h, key, uuid);
            && StreamSound(h.issues, s)
            && (s.epoch == uuid || (Owned(h, key) && s.epoch == StreamOf(h, key).epoch))
  {
    if key in MemoryOf(h, key.pid) {
      assert Owned(h, key);
      assert CopySound(h.issues, StreamOf(h, key));
    }
  }

  /** What the selected stream becomes, and what is handed out, when a sound stream allocates. */
  lemma AllocationSound(issues: set<Issue>, s: Stream, transfer: string, i: Issue)
    requires Agree(issues) && Dense(issues) && StreamSound(issues, s)
    requires Held(s.pending, i.job).None? && i.ticket == Ticket(transfer, s.last + 1, s.epoch)
    ensures Agree(issues + {i}) && Dense(issues + {i})
    ensures StreamSound(issues + {i}, Stream(s.epoch, s.last + 1,
      s.pending[transfer := Reservation(i.job, s.last + 1)]))
  {
    var grown := Stream(s.epoch, s.last + 1, s.pending[transfer := Reservation(i.job, s.last + 1)]);
    assert forall t :: t in s.pending ==> !Holds(s.pending, i.job, t);
    assert i in issues + {i};
    StillDense(issues, i);
    forall t | t in grown.pending
      ensures Backed(issues + {i}, grown, t)
    {
      if t != transfer {
        assert Backed(issues, s, t);
      }
    }
  }

  lemma StillDense(issues: set<Issue>, i: Issue)
    requires Dense(issues) && Preceded(issues, i)
    ensures Dense(issues + {i})
  {
    forall j | j in issues + {i}
      ensures Preceded(issues + {i}, j)
    {
      assert Preceded(issues, j);
      if j.ticket.sequence > 1 {
        var k :| k in issues && k.ticket.epoch == j.ticket.epoch && k.ticket.sequence == j.ticket.sequence - 1;
        assert k in issues + {i};
      }
    }
  }

  lemma ReuseSound(issues: set<Issue>, s: Stream, i: Issue)
    requires Agree(issues) && Dense(issues) && StreamSound(issues, s)
    requires Held(s.pending, i.job).Some?
    requires var t := Held(s.pending, i.job).value; i.ticket == Ticket(t, s.pending[t].sequence, s.epoch)
    ensures Agree(issues + {i}) && Dense(issues + {i}) && StreamSound(issues + {i}, s)
  {
    var t := Held(s.pending, i.job).value;
    assert Holds(s.pending, i.job, t) && Backed(issues, s, t);
    var j :| j in issues && j.ticket == i.ticket && j.job == i.job;
    assert Preceded(issues, j);
    StillDense(issues, i);
    CopyStays(issues, s, i);
  }

  lemma CopyStays(issues: set<Issue>, s: Stream, i: Issue)
    requires CopySound(issues, s)
    ensures CopySound(issues + {i}, s)
  {
    if s.last > 0 {
      var j :| j in issues && j.ticket.epoch == s.epoch && j.ticket.sequence == s.last;
      assert j in issues + {i};
    }
    forall t | t in s.pending
      ensures Backed(issues + {i}, s, t)
    {
      assert Backed(issues, s, t);
    }
  }

  /** Only the entry of the reserving stream changes. */
  lemma ReserveEntries(h: History, e: Event, pid: nat, key: Key)
    requires e.Reserve? && Entry(Next(h, e), pid, key) && !(pid == e.key.pid && key == e.key)
    ensures Entry(h, pid, key) && Copy(Next(h, e), pid, key) == Copy(h, pid, key)
  {
  }

  lemma ReserveSound(h: History, e: Event)
    requires Sound(h) && e.Reserve? && Admissible(h, e)
    ensures Sound(Next(h, e))
  {
    var h' := Next(h, e);
    ReserveMine(h, e);
    forall pid, key | Entry(h', pid, key)
      ensures Copy(h', pid, key).epoch in h'.minted && CopySound(h'.issues, Copy(h', pid, key))
      ensures key != e.key ==> Copy(h', pid, key).epoch != StreamOf(h', e.key).epoch
    {
      if !(pid == e.key.pid && key == e.key) {
        ReserveEntries(h, e, pid, key);
        ReserveOthers(h, e, pid, key);
      }
    }
    ReserveKeys(h, e);
    forall key | Owned(h', key)
      ensures Bounded(h'.issues, StreamOf(h', key))
    {
      if key != e.key {
        ReserveEntries(h, e, key.pid, key);
        ReserveOthers(h, e, key.pid, key);
        assert Bounded(h.issues, StreamOf(h, key));
      }
    }
  }

  ghost function IssueOf(h: History, e: Event): Issue
    requires e.Reserve?
  {
    Issue(TicketFor(h, e), e.job, e.key)
  }

  /** The reserving stream and the issue itself. */
  lemma ReserveMine(h: History, e: Event)
    requires Sound(h) && e.Reserve? && Admissible(h, e)
    ensures var h' := Next(h, e);
      && h'.issues == h.issues + {IssueOf(h, e)} && h'.minted == h.minted + {e.uuid}
      && Agree(h'.issues) && Dense(h'.issues) && Owned(h', e.key) && StreamSound(h'.issues, StreamOf(h', e.key))
      && StreamOf(h', e.key).epoch == IssueOf(h, e).ticket.epoch == Selected(h, e.key, e.uuid).epoch
      && IssueOf(h, e).ticket.sequence >= 1 && StreamOf(h', e.key).epoch in h'.minted
  {
    var s := Selected(h, e.key, e.uuid);
    SelectSound(h, e.key, e.uuid);
    var i := IssueOf(h, e);
    if Held(s.pending, e.job).Some? {
      var t := Held(s.pending, e.job).value;
      assert Holds(s.pending, e.job, t) && Backed(h.issues, s, t);
      ReuseSound(h.issues, s, i);
    } else {
      AllocationSound(h.issues, s, e.transfer, i);
    }
  }

  /** What other entries keep when one stream issues. */
  lemma ReserveOthers(h: History, e: Event, pid: nat, key: Key)
    requires Sound(h) && e.Reserve? && Admissible(h, e) && Entry(h, pid, key)
    ensures CopySound(h.issues + {IssueOf(h, e)}, Copy(h, pid, key)) && Copy(h, pid, key).epoch in h.minted
    ensures key != e.key ==> Copy(h, pid, key).epoch != Selected(h, e.key, e.uuid).epoch
  {
    SelectSound(h, e.key, e.uuid);
    CopyStays(h.issues, Copy(h, pid, key), IssueOf(h, e));
  }

  lemma ReserveKeys(h: History, e: Event)
    requires Sound(h) && e.Reserve? && Admissible(h, e) && Owned(Next(h, e), e.key)
    requires forall pid, key :: Entry(Next(h, e), pid, key) && key != e.key ==>
      Copy(Next(h, e), pid, key).epoch != StreamOf(Next(h, e), e.key).epoch
    requires forall pid, key :: Entry(Next(h, e), pid, key) && !(pid == e.key.pid && key == e.key) ==>
      Entry(h, pid, key) && Copy(Next(h, e), pid, key) == Copy(h, pid, key)
    ensures OneKey(Next(h, e))
  {
  }

  lemma ForgetSound(issues: set<Issue>, s: Stream, transfer: string)
    requires CopySound(issues, s)
    ensures CopySound(issues, Forget(s, transfer))
  {
    forall t | t in Forget(s, transfer).pending
      ensures Backed(issues, Forget(s, transfer), t)
    {
      assert Backed(issues, s, t);
    }
  }

  lemma FenceSound(h: History, e: Event)
    requires Sound(h) && (e.Fence? || e.Seal?)
    ensures Sound(Next(h, e))
  {
    var h' := Next(h, e);
    forall pid, key | Entry(h', pid, key)
      ensures Entry(h, pid, key) && Copy(h', pid, key).epoch == Copy(h, pid, key).epoch
      ensures Copy(h', pid, key).last == Copy(h, pid, key).last && CopySound(h'.issues, Copy(h', pid, key))
    {
      assert Entry(h, pid, key);
      ForgetSound(h.issues, Copy(h, pid, key), e.transfer);
    }
    forall key | Owned(h', key)
      ensures Bounded(h'.issues, StreamOf(h', key))
    {
      assert Bounded(h.issues, StreamOf(h, key));
    }
  }

  /** A fork keeps the invariant if and only if it is safe. */
  lemma ForkSoundIff(h: History, parent: nat, child: nat)
    requires Sound(h)
    ensures Sound(Next(h, Fork(parent, child))) <==> ForkSafe(h, parent, child)
  {
    var h' := Next(h, Fork(parent, child));
    forall pid, key | Entry(h', pid, key)
      ensures var from := if pid == child then parent else pid;
        Entry(h, from, key) && Copy(h', pid, key) == Copy(h, from, key)
    {
    }
    if ForkSafe(h, parent, child) {
      forall key | Owned(h', key)
        ensures Bounded(h'.issues, StreamOf(h', key))
      {
        if key.pid != child { assert Owned(h, key); }
      }
    } else {
      var key :| key in MemoryOf(h, parent) && key.pid == child && !Bounded(h.issues, MemoryOf(h, parent)[key]);
      assert Owned(h', key) && !Bounded(h'.issues, StreamOf(h', key));
    }
  }

  lemma StepSound(h: History, e: Event)
    requires Sound(h) && Admissible(h, e)
    ensures Sound(Next(h, e))
  {
    match e
    case Reserve(_, _, _, _) => ReserveSound(h, e);
    case Fence(_, _) => FenceSound(h, e);
    case Seal(_, _) => FenceSound(h, e);
    case Fork(parent, child) => ForkSoundIff(h, parent, child);
    case _ =>
      var h' := Next(h, e);
      assert forall pid, key :: Entry(h', pid, key) ==> Entry(h, pid, key) && Copy(h', pid, key) == Copy(h, pid, key);
      assert forall key :: Owned(h', key) ==> Owned(h, key) && StreamOf(h', key) == StreamOf(h, key);
  }

  lemma {:induction false} RunSound(events: seq<Event>)
    requires Run(events)
    ensures Sound(Replay(events))
  {
    if events != [] {
      RunSound(events[..|events| - 1]);
      StepSound(Replay(events[..|events| - 1]), events[|events| - 1]);
    }
  }

  // ---------- what the allocator promises ----------

  /** Over every interleaving of processes, restarts, forks and arbitrary replacement of the
      allocator files, a pair handed out twice was handed out for the same transfer of the same job. */
  lemma PairNamesOneTransfer(events: seq<Event>, i: Issue, j: Issue)
    requires Run(events) && i in Replay(events).issues && j in Replay(events).issues
    requires i.ticket.epoch == j.ticket.epoch && i.ticket.sequence == j.ticket.sequence
    ensures i.ticket.transfer == j.ticket.transfer && i.job == j.job
  {
    RunSound(events);
  }

  ghost function TicketFor(h: History, e: Event): Ticket
    requires e.Reserve?
  {
    Reserved(MemoryOf(h, e.key.pid), h.disk, e.key, e.job, e.transfer, e.uuid).ticket
  }

  /** Some process could still be given this transfer by a later reservation. */
  ghost predicate Reusable(h: History, transfer: string) {
    exists key :: Owned(h, key) && transfer in StreamOf(h, key).pending
  }

  /** The child of this fork finds the transfer pending under its own id. */
  ghost predicate Revives(h: History, parent: nat, child: nat, transfer: string) {
    exists key :: key in MemoryOf(h, parent) && key.pid == child && transfer in MemoryOf(h, parent)[key].pending
  }

  /** Neither proposes the transfer nor hands an outdated copy of it to a process that can reach it. */
  ghost predicate LeavesAlone(h: History, e: Event, transfer: string) {
    match e
    case Reserve(_, _, proposed, _) => proposed != transfer
    case Fork(parent, child) => !Revives(h, parent, child, transfer)
    case _ => true
  }

  lemma UnusableStays(h: History, e: Event, transfer: string)
    requires !Reusable(h, transfer) && LeavesAlone(h, e, transfer)
    ensures !Reusable(Next(h, e), transfer)
    ensures e.Reserve? ==> TicketFor(h, e).transfer != transfer
  {
    var h' := Next(h, e);
    if e.Reserve? {
      var s := Selected(h, e.key, e.uuid);
      assert transfer !in s.pending by {
        if Lookup(MemoryOf(h, e.key.pid), e.key).Some? {
          assert Owned(h, e.key);
        }
      }
      if Held(s.pending, e.job).Some? {
        assert Holds(s.pending, e.job, Held(s.pending, e.job).value);
      }
    }
    forall key | Owned(h', key)
      ensures transfer !in StreamOf(h', key).pending
    {
      if key in MemoryOf(h, key.pid) {
        assert Owned(h, key);
      }
    }
  }

  /** Some content of the files makes some reservation that does not propose the transfer return it. */
  ghost predicate Returnable(h: History, transfer: string) {
    exists disk, e: Event :: e.Reserve? && e.transfer != transfer
      && TicketFor(Next(h, Tamper(disk)), e).transfer == transfer
  }

  /** A transfer is reusable exactly when it is returnable. */
  lemma ReusableIffReturnable(h: History, transfer: string)
    requires Sound(h)
    ensures Reusable(h, transfer) <==> Returnable(h, transfer)
  {
    if Reusable(h, transfer) {
      var key :| Owned(h, key) && transfer in StreamOf(h, key).pending;
      RestoredReturns(h, key, transfer);
    } else if Returnable(h, transfer) {
      var disk, e: Event :| e.Reserve? && e.transfer != transfer
        && TicketFor(Next(h, Tamper(disk)), e).transfer == transfer;
      TamperedStays(h, disk, transfer);
      UnusableStays(Next(h, Tamper(disk)), e, transfer);
    }
  }

  lemma TamperedStays(h: History, disk: Disk, transfer: string)
    requires !Reusable(h, transfer)
    ensures !Reusable(Next(h, Tamper(disk)), transfer)
  {
    UnusableStays(h, Tamper(disk), transfer);
  }

  lemma RestoredReturns(h: History, key: Key, transfer: string)
    requires Sound(h) && Owned(h, key) && transfer in StreamOf(h, key).pending
    ensures Returnable(h, transfer)
  {
    var s := StreamOf(h, key);
    var disk := Published(map[key.peer := s], key.origin);
    var e := Reserve(key, s.pending[transfer].job, transfer + "x", "");
    assert CopySound(h.issues, s);
    HeldIs(s.pending, e.job, transfer);
    RestoredTicket(h, key, e);
    assert e.transfer != transfer;
  }

  /** With the files restored to its own stream, a process goes on with it. */
  lemma RestoredTicket(h: History, key: Key, e: Event)
    requires Owned(h, key) && e.Reserve? && e.key == key
    ensures
      var s := StreamOf(h, key);
      var t := TicketFor(Next(h, Tamper(Published(map[key.peer := s], key.origin))), e);
      && t.epoch == s.epoch
      && (Held(s.pending, e.job).Some? ==> t.transfer == Held(s.pending, e.job).value)
      && (Held(s.pending, e.job).None? ==> t == Ticket(e.transfer, s.last + 1, s.epoch))
  {
    var s := StreamOf(h, key);
    var h' := Next(h, Tamper(Published(map[key.peer := s], key.origin)));
    assert InStep(h', key) && StreamOf(h', key) == s;
    InStepReserve(h', e);
  }

  /** A fork makes a transfer reusable again exactly when it revives it. */
  lemma ForkRevivesIff(h: History, parent: nat, child: nat, transfer: string)
    requires !Reusable(h, transfer)
    ensures Reusable(Next(h, Fork(parent, child)), transfer) <==> Revives(h, parent, child, transfer)
  {
    var h' := Next(h, Fork(parent, child));
    if Revives(h, parent, child, transfer) {
      var key :| key in MemoryOf(h, parent) && key.pid == child && transfer in MemoryOf(h, parent)[key].pending;
      assert Owned(h', key) && transfer in StreamOf(h', key).pending;
    } else {
      UnusableStays(h, Fork(parent, child), transfer);
    }
  }

  ghost predicate ProposedFor(events: seq<Event>, key: Key, transfer: string) {
    exists n :: 0 <= n < |events| && events[n].Reserve? && events[n].key == key && events[n].transfer == transfer
  }

  /** A reservation pending in any process's memory was proposed for exactly the stream that holds it. */
  lemma {:induction false} PendingWasProposed(events: seq<Event>, pid: nat, key: Key, transfer: string)
    requires Entry(Replay(events), pid, key) && transfer in Copy(Replay(events), pid, key).pending
    ensures ProposedFor(events, key, transfer)
  {
    var before, e := events[..|events| - 1], events[|events| - 1];
    var h := Replay(before);
    var from := if e.Fork? && pid == e.child then e.parent else pid;
    if Entry(h, from, key) && transfer in Copy(h, from, key).pending {
      PendingWasProposed(before, from, key, transfer);
      var n :| 0 <= n < |before| && before[n].Reserve? && before[n].key == key && before[n].transfer == transfer;
      assert events[n] == before[n];
    } else {
      NewlyPending(h, e, pid, key, transfer);
    }
  }

  lemma NewlyPending(h: History, e: Event, pid: nat, key: Key, transfer: string)
    requires Entry(Next(h, e), pid, key) && transfer in Copy(Next(h, e), pid, key).pending
    requires var from := if e.Fork? && pid == e.child then e.parent else pid;
      !(Entry(h, from, key) && transfer in Copy(h, from, key).pending)
    ensures e.Reserve? && e.key == key && e.transfer == transfer
  {
  }

  /** Another stream than `key` could hand out the transfer. */
  ghost predicate HeldElsewhere(h: History, key: Key, transfer: string) {
    exists other :: other != key && Owned(h, other) && transfer in StreamOf(h, other).pending
  }

  /** Announcing a fence puts the transfer out of reach exactly when no other stream holds it, as none
      does if it was proposed for this stream only. */
  lemma FenceForgetsIff(h: History, key: Key, transfer: string)
    ensures Reusable(Next(h, Fence(key, transfer)), transfer) <==> HeldElsewhere(h, key, transfer)
  {
    var h' := Next(h, Fence(key, transfer));
    forall other | Owned(h', other)
      ensures Owned(h, other)
      ensures if other == key then transfer !in StreamOf(h', other).pending
        else StreamOf(h', other) == StreamOf(h, other)
    {
    }
    if HeldElsewhere(h, key, transfer) {
      var other :| other != key && Owned(h, other) && transfer in StreamOf(h, other).pending;
      assert Owned(h', other) && StreamOf(h', other) == StreamOf(h, other);
    }
  }

  lemma ProposedOnceIsHeldOnce(events: seq<Event>, key: Key, transfer: string)
    requires forall e :: e in events && e.Reserve? && e.transfer == transfer ==> e.key == key
    ensures !HeldElsewhere(Replay(events), key, transfer)
  {
    if other :| other != key && Owned(Replay(events), other) && transfer in StreamOf(Replay(events), other).pending {
      PendingWasProposed(events, other.pid, other, transfer);
    }
  }

  /** No event after `past` touches the transfer. */
  ghost predicate Quiet(past: seq<Event>, after: seq<Event>, transfer: string) {
    forall n {:trigger QuietAt(past, after, n, transfer)} :: 0 <= n < |after| ==> QuietAt(past, after, n, transfer)
  }

  ghost predicate QuietAt(past: seq<Event>, after: seq<Event>, n: nat, transfer: string)
    requires n < |after|
  {
    LeavesAlone(Replay(past + after[..n]), after[n], transfer)
  }

  /** Once the process that reserved a transfer has announced fencing, no process holds it any more,
      whatever the disk then contains, until somebody proposes the identifier anew or a fork revives
      an outdated copy of it. */
  lemma {:induction false} FencedIsHeldNowhere(before: seq<Event>, key: Key, transfer: string, after: seq<Event>)
    requires !HeldElsewhere(Replay(before), key, transfer) && Quiet(before + [Fence(key, transfer)], after, transfer)
    ensures !Reusable(Replay(before + [Fence(key, transfer)] + after), transfer)
    decreases |after|
  {
    var past := before + [Fence(key, transfer)];
    if after == [] {
      Extended(before, Fence(key, transfer));
      assert past + after == past;
      FenceForgetsIff(Replay(before), key, transfer);
    } else {
      var n := |after| - 1;
      QuietPrefix(past, after, transfer);
      FencedIsHeldNowhere(before, key, transfer, after[..n]);
      assert past + after == (past + after[..n]) + [after[n]];
      Extended(past + after[..n], after[n]);
      UnusableStays(Replay(past + after[..n]), after[n], transfer);
    }
  }

  lemma QuietPrefix(past: seq<Event>, after: seq<Event>, transfer: string)
    requires after != [] && Quiet(past, after, transfer)
    ensures Quiet(past, after[..|after| - 1], transfer)
    ensures LeavesAlone(Replay(past + after[..|after| - 1]), after[|after| - 1], transfer)
  {
    var shorter := after[..|after| - 1];
    assert QuietAt(past, after, |after| - 1, transfer);
    forall n: nat | n < |shorter|
      ensures QuietAt(past, shorter, n, transfer)
    {
      assert shorter[..n] == after[..n];
      assert QuietAt(past, after, n, transfer);
    }
  }

  /** Hence any reservation that follows, in any process and for any job, returns the fenced transfer
      if and only if it proposes that identifier itself for a job with nothing pending; and then
      the pair it returns was never handed out before. */
  lemma FencedIsNeverReissued(before: seq<Event>, key: Key, transfer: string, after: seq<Event>, e: Event)
    requires Run(before + [Fence(key, transfer)] + after + [e]) && e.Reserve?
    requires !HeldElsewhere(Replay(before), key, transfer) && Quiet(before + [Fence(key, transfer)], after, transfer)
    ensures var h := Replay(before + [Fence(key, transfer)] + after);
      && (TicketFor(h, e).transfer == transfer <==>
            e.transfer == transfer && Held(Selected(h, e.key, e.uuid).pending, e.job).None?)
      && (TicketFor(h, e).transfer == transfer ==> NeverIssued(h.issues, TicketFor(h, e)))
  {
    var most := before + [Fence(key, transfer)] + after;
    Extended(most, e);
    FencedIsHeldNowhere(before, key, transfer, after);
    RunSound(most);
    ReturnedIffProposed(Replay(most), e, transfer);
  }

  ghost predicate NeverIssued(issues: set<Issue>, t: Ticket) {
    forall i :: i in issues ==> i.ticket.epoch != t.epoch || i.ticket.sequence != t.sequence
  }

  lemma ReturnedIffProposed(h: History, e: Event, transfer: string)
    requires Sound(h) && e.Reserve? && Admissible(h, e) && !Reusable(h, transfer)
    ensures TicketFor(h, e).transfer == transfer <==>
      e.transfer == transfer && Held(Selected(h, e.key, e.uuid).pending, e.job).None?
    ensures TicketFor(h, e).transfer == transfer ==> NeverIssued(h.issues, TicketFor(h, e))
  {
    var s := Selected(h, e.key, e.uuid);
    SelectSound(h, e.key, e.uuid);
    if Lookup(MemoryOf(h, e.key.pid), e.key).Some? {
      assert Owned(h, e.key);
    }
    if Held(s.pending, e.job).Some? {
      assert Holds(s.pending, e.job, Held(s.pending, e.job).value);
    }
  }

  /** After any reservation the allocator files and the process agree on its stream. */
  ghost predicate InStep(h: History, key: Key) {
    && Owned(h, key) && h.disk.checkpoint == Checkpoint(key.origin, h.disk.issued)
    && key.peer in h.disk.issued && h.disk.issued[key.peer] == StreamOf(h, key)
  }

  lemma ReserveLeavesInStep(h: History, e: Event)
    requires e.Reserve?
    ensures InStep(Next(h, e), e.key)
    ensures var s := StreamOf(Next(h, e), e.key); var t := TicketFor(h, e);
            t.epoch == s.epoch && t.transfer in s.pending && s.pending[t.transfer] == Reservation(e.job, t.sequence)
  {
    var s := Selected(h, e.key, e.uuid);
    if Held(s.pending, e.job).Some? {
      assert Holds(s.pending, e.job, Held(s.pending, e.job).value);
    }
  }

  lemma InStepReserve(h: History, e: Event)
    requires e.Reserve? && InStep(h, e.key)
    ensures TicketFor(h, e).epoch == StreamOf(h, e.key).epoch
    ensures Held(StreamOf(h, e.key).pending, e.job).Some? ==>
      TicketFor(h, e).transfer == Held(StreamOf(h, e.key).pending, e.job).value
    ensures Held(StreamOf(h, e.key).pending, e.job).None? ==>
      TicketFor(h, e) == Ticket(e.transfer, StreamOf(h, e.key).last + 1, StreamOf(h, e.key).epoch)
  {
  }

  /** The undisturbed cycle: reserve, fence, seal, reserve again. The second reservation keeps the
      epoch; for a job with nothing pending it takes the next number of the stream, and the job of
      the sealed transfer is such a job. */
  lemma UndisturbedCycleKeepsEpoch(h: History, first: Event, second: Event)
    requires Sound(h) && first.Reserve? && Admissible(h, first) && second.Reserve? && second.key == first.key
    ensures
      var t := TicketFor(h, first);
      var h1 := Next(h, first);
      var h3 := Next(Next(h1, Fence(first.key, t.transfer)), Seal(first.key, t.transfer));
      var again := TicketFor(h3, second);
      && again.epoch == t.epoch
      && (first.job == second.job || Held(StreamOf(h1, first.key).pending, second.job).None? ==>
            again == Ticket(second.transfer, StreamOf(h1, first.key).last + 1, t.epoch) && again.sequence > t.sequence)
  {
    var t := TicketFor(h, first);
    var h1 := Next(h, first);
    ReserveLeavesInStep(h, first);
    ReserveMine(h, first);
    FenceAndSeal(h1, first.key, t.transfer);
    InStepReserve(Next(Next(h1, Fence(first.key, t.transfer)), Seal(first.key, t.transfer)), second);
    ForgottenJob(h1.issues, StreamOf(h1, first.key), t.transfer, second.job);
  }

  lemma FenceAndSeal(h: History, key: Key, transfer: string)
    requires InStep(h, key) && transfer in StreamOf(h, key).pending
    ensures var h' := Next(Next(h, Fence(key, transfer)), Seal(key, transfer));
      InStep(h', key) && StreamOf(h', key) == Forget(StreamOf(h, key), transfer)
  {
  }

  lemma ForgottenJob(issues: set<Issue>, s: Stream, transfer: string, job: string)
    requires StreamSound(issues, s) && transfer in s.pending
    ensures s.pending[transfer].sequence <= s.last
    ensures s.pending[transfer].job == job || Held(s.pending, job).None? ==>
      Held(Forget(s, transfer).pending, job).None?
  {
    assert Backed(issues, s, transfer);
    assert forall x :: Holds(Forget(s, transfer).pending, job, x) ==> Holds(s.pending, job, x);
  }

  /** A fence that never reaches sealing costs the epoch, and only that: the next reservation in
      the same stream starts a new one. */
  lemma InterruptedFenceRotates(h: History, first: Event, second: Event)
    requires Sound(h) && first.Reserve? && Admissible(h, first) && second.Reserve? && second.key == first.key
    ensures TicketFor(Next(Next(h, first), Fence(first.key, TicketFor(h, first).transfer)), second)
            == Ticket(second.transfer, 1, second.uuid)
  {
    ReserveLeavesInStep(h, first);
    var t := TicketFor(h, first).transfer;
    var h1 := Next(h, first);
    var h2 := Next(h1, Fence(first.key, t));
    assert t in h2.disk.issued[first.key.peer].pending && t !in StreamOf(h2, first.key).pending;
  }

  ghost predicate DistinctProposals(events: seq<Event>) {
    forall m, n :: 0 <= m < n < |events| && events[m].Reserve? && events[n].Reserve?
      ==> events[m].transfer != events[n].transfer
  }

  ghost predicate OneTicketPerTransfer(issues: set<Issue>) {
    forall i, j :: i in issues && j in issues && i.ticket.transfer == j.ticket.transfer ==> i.ticket == j.ticket
  }

  ghost predicate Proposed(events: seq<Event>, transfer: string) {
    exists n :: 0 <= n < |events| && events[n].Reserve? && events[n].transfer == transfer
  }

  /** Callers that propose a new transfer identifier each time never see one under two pairs. */
  lemma {:induction false} TransferNamesOnePair(events: seq<Event>)
    requires Run(events) && DistinctProposals(events)
    ensures forall i :: i in Replay(events).issues ==> Proposed(events, i.ticket.transfer)
    ensures OneTicketPerTransfer(Replay(events).issues)
  {
    if events != [] {
      var before, e := events[..|events| - 1], events[|events| - 1];
      TransferNamesOnePair(before);
      var h := Replay(before);
      forall t | Proposed(before, t)
        ensures Proposed(events, t) && (e.Reserve? ==> t != e.transfer)
      {
        var n :| 0 <= n < |before| && before[n].Reserve? && before[n].transfer == t;
        assert events[n] == before[n];
      }
      if e.Reserve? {
        assert Proposed(events, e.transfer);
        RunSound(before);
        TicketOldOrProposed(h, e);
      }
    }
  }

  lemma TicketOldOrProposed(h: History, e: Event)
    requires Sound(h) && e.Reserve? && Admissible(h, e)
    ensures TicketFor(h, e).transfer == e.transfer || exists i :: i in h.issues && i.ticket == TicketFor(h, e)
  {
    var s := Selected(h, e.key, e.uuid);
    SelectSound(h, e.key, e.uuid);
    if Held(s.pending, e.job).Some? {
      assert Holds(s.pending, e.job, Held(s.pending, e.job).value);
      assert Backed(h.issues, s, Held(s.pending, e.job).value);
    }
  }

  // ---------- when a fork keeps the promise ----------

  /** Every reservation the child makes first in a stream of its own starts a new epoch, whatever the
      files hold, if and only if the memory it inherits has no entry under its own id. */
  lemma ForkMintsIff(h: History, parent: nat, child: nat, key: Key)
    requires key.pid == child
    ensures MintsFirst(h, parent, child, key) <==> key !in MemoryOf(h, parent)
  {
    if key in MemoryOf(h, parent) {
      var forked, s := Next(h, Fork(parent, child)), MemoryOf(h, parent)[key];
      assert Owned(forked, key) && StreamOf(forked, key) == s;
      var e := Reserve(key, "", "", s.epoch + "x");
      RestoredTicket(forked, key, e);
      assert e.uuid != s.epoch;
    }
  }

  ghost predicate MintsFirst(h: History, parent: nat, child: nat, key: Key) {
    forall disk, e: Event :: e.Reserve? && e.key == key ==>
      TicketFor(Next(Next(h, Fork(parent, child)), Tamper(disk)), e).epoch == e.uuid
  }

  /** After the fork no content of the files makes any reservation name a pair twice. */
  ghost predicate ForkKeepsPairs(h: History, parent: nat, child: nat) {
    forall disk, e: Event :: e.Reserve? && e.uuid !in h.minted ==>
      Agree(Next(Next(Next(h, Fork(parent, child)), Tamper(disk)), e).issues)
  }

  /** The pairs stay unambiguous if and only if the fork is safe: a safe fork keeps the invariant, and
      with it every later run; after an unsafe one a single reservation hands a pair out again. */
  lemma ForkKeepsPairsIff(h: History, parent: nat, child: nat)
    requires Sound(h)
    ensures ForkKeepsPairs(h, parent, child) <==> ForkSafe(h, parent, child)
  {
    if ForkSafe(h, parent, child) {
      forall disk, e: Event | e.Reserve? && e.uuid !in h.minted
        ensures Agree(Next(Next(Next(h, Fork(parent, child)), Tamper(disk)), e).issues)
      {
        SafeForkAgrees(h, parent, child, disk, e);
      }
    } else {
      UnsafeForkReissues(h, parent, child);
    }
  }

  lemma SafeForkAgrees(h: History, parent: nat, child: nat, disk: Disk, e: Event)
    requires Sound(h) && ForkSafe(h, parent, child) && e.Reserve? && e.uuid !in h.minted
    ensures Agree(Next(Next(Next(h, Fork(parent, child)), Tamper(disk)), e).issues)
  {
    StepSound(h, Fork(parent, child));
    StepSound(Next(h, Fork(parent, child)), Tamper(disk));
    ReserveMine(Next(Next(h, Fork(parent, child)), Tamper(disk)), e);
  }

  lemma {:induction false} NextIsIssued(issues: set<Issue>, epoch: string, last: int, n: int)
    requires Dense(issues) && Issued(issues, epoch, n) && 0 <= last < n
    ensures Issued(issues, epoch, last + 1)
    decreases n
  {
    if n > last + 1 {
      var i :| i in issues && i.ticket.epoch == epoch && i.ticket.sequence == n;
      assert Preceded(issues, i);
      NextIsIssued(issues, epoch, last, n - 1);
    }
  }

  /** A text longer than all of these. */
  ghost function Longer(texts: set<string>): (t: string)
    ensures t !in texts && forall x :: x in texts ==> |x| < |t|
  {
    if texts == {} then "x"
    else
      var x :| x in texts;
      var t := Longer(texts - {x});
      assert texts == (texts - {x}) + {x};
      t + x + "x"
  }

  lemma UnsafeForkReissues(h: History, parent: nat, child: nat)
    requires Sound(h) && !ForkSafe(h, parent, child)
    ensures !ForkKeepsPairs(h, parent, child)
  {
    var key :| key in MemoryOf(h, parent) && key.pid == child && !Bounded(h.issues, MemoryOf(h, parent)[key]);
    var s := MemoryOf(h, parent)[key];
    var i :| i in h.issues && i.ticket.epoch == s.epoch && i.ticket.sequence > s.last;
    assert Entry(h, parent, key) && CopySound(h.issues, Copy(h, parent, key));
    NextIsIssued(h.issues, s.epoch, s.last, i.ticket.sequence);
    var taken :| taken in h.issues && taken.ticket.epoch == s.epoch && taken.ticket.sequence == s.last + 1;
    var job := Longer((set t | t in s.pending :: s.pending[t].job) + {taken.job});
    assert forall t :: t in s.pending ==> !Holds(s.pending, job, t);
    InheritedPidReissuesPair(h, parent, key, Reserve(key, job, "", Longer(h.minted)), taken);
  }

  /** How it happens: the child goes on with the stream it inherited, from files restored to match. */
  lemma InheritedPidReissuesPair(h: History, parent: nat, key: Key, e: Event, taken: Issue)
    requires key in MemoryOf(h, parent) && e.Reserve? && e.key == key
    requires var s := MemoryOf(h, parent)[key];
             && Held(s.pending, e.job).None?
             && taken in h.issues && taken.job != e.job
             && taken.ticket.epoch == s.epoch && taken.ticket.sequence == s.last + 1
    ensures !ForkSafe(h, parent, key.pid)
    ensures
      var restored := Published(map[key.peer := MemoryOf(h, parent)[key]], key.origin);
      !Agree(Next(Next(Next(h, Fork(parent, key.pid)), Tamper(restored)), e).issues)
  {
    var s := MemoryOf(h, parent)[key];
    var forked := Next(h, Fork(parent, key.pid));
    assert Owned(forked, key) && StreamOf(forked, key) == s;
    RestoredTicket(forked, key, e);
    var tampered := Next(forked, Tamper(Published(map[key.peer := s], key.origin)));
    var again := IssueOf(tampered, e);
    assert again in Next(tampered, e).issues && taken in Next(tampered, e).issues;
  }

  /** A run in which that happens. Process 1 reserves and forks process 2, which inherits its stream;
      process 1 reserves again and exits; process 2 forks a child that is given the id 1, and the
      files of the first reservation are restored. The child's first reservation returns the pair
      of the second reservation, for another job. */
  lemma ReissuingRun(origin: Origin, peer: string)
    ensures var key := Key(1, origin, peer); var events := Inherited(key) + [Exit(1)];
      var restored := Tamper(Published(map[peer := FIRST], origin));
      && Run(events) && !ForkSafe(Replay(events), 2, 1)
      && !Agree(Next(Next(Next(Replay(events), Fork(2, 1)), restored), Reserve(key, "c", "t3", "u3")).issues)
  {
    var key := Key(1, origin, peer);
    var events := Inherited(key) + [Exit(1)];
    AfterExit(key);
    assert forall t :: t in FIRST.pending ==> !Holds(FIRST.pending, "c", t);
    InheritedPidReissuesPair(Replay(events), 2, key, Reserve(key, "c", "t3", "u3"),
      Issue(Ticket("t2", 2, "u1"), "b", key));
  }

  const FIRST := Stream("u1", 1, map["t1" := Reservation("a", 1)])

  ghost function Inherited(key: Key): seq<Event> {
    [Reserve(key, "a", "t1", "u1"), Fork(1, 2), Reserve(key, "b", "t2", "u2")]
  }

  /** A safe fork can still undo a fence. Process 1 reserves, forks process 2, announces the fence and
      exits; nobody holds the transfer then, until process 2 forks a child that is given the id 1. */
  lemma RevivingRun(origin: Origin, peer: string)
    ensures var key := Key(1, origin, peer);
      var h := Replay([Reserve(key, "a", "t1", "u1"), Fork(1, 2), Fence(key, "t1"), Exit(1)]);
      && Run([Reserve(key, "a", "t1", "u1"), Fork(1, 2), Fence(key, "t1"), Exit(1)])
      && !Reusable(h, "t1") && ForkSafe(h, 2, 1) && Revives(h, 2, 1, "t1")
  {
    var key := Key(1, origin, peer);
    var events := [Reserve(key, "a", "t1", "u1"), Fork(1, 2), Fence(key, "t1")];
    FencedReservation(key);
    Extended(events, Exit(1));
    assert events + [Exit(1)] == [Reserve(key, "a", "t1", "u1"), Fork(1, 2), Fence(key, "t1"), Exit(1)];
  }

  lemma FencedReservation(key: Key)
    requires key.pid == 1
    ensures var events := [Reserve(key, "a", "t1", "u1"), Fork(1, 2), Fence(key, "t1")]; var h := Replay(events);
      && Run(events) && h.memory == map[1 := map[key := Forget(FIRST, "t1")], 2 := map[key := FIRST]]
      && h.issues == {Issue(Ticket("t1", 1, "u1"), "a", key)}
  {
    var forked := [Reserve(key, "a", "t1", "u1"), Fork(1, 2)];
    ForkedReservation(key);
    Extended(forked, Fence(key, "t1"));
    assert Fenced(MemoryOf(Replay(forked), 1), key, "t1") == map[key := Forget(FIRST, "t1")];
    assert forked + [Fence(key, "t1")] == [Reserve(key, "a", "t1", "u1"), Fork(1, 2), Fence(key, "t1")];
  }

  lemma AfterExit(key: Key)
    requires key.pid == 1
    ensures var h := Replay(Inherited(key) + [Exit(1)]);
      && Run(Inherited(key) + [Exit(1)]) && key in MemoryOf(h, 2) && MemoryOf(h, 2)[key] == FIRST
      && Issue(Ticket("t2", 2, "u1"), "b", key) in h.issues
  {
    SecondReservation(key);
    Extended(Inherited(key), Exit(1));
  }

  lemma SecondReservation(key: Key)
    requires key.pid == 1
    ensures Run(Inherited(key)) && key in MemoryOf(Replay(Inherited(key)), 2)
    ensures MemoryOf(Replay(Inherited(key)), 2)[key] == FIRST
    ensures Issue(Ticket("t2", 2, "u1"), "b", key) in Replay(Inherited(key)).issues
  {
    var forked, r2 := [Reserve(key, "a", "t1", "u1"), Fork(1, 2)], Reserve(key, "b", "t2", "u2");
    ForkedReservation(key);
    var h := Replay(forked);
    Extended(forked, r2);
    assert forked + [r2] == Inherited(key);
    assert forall t :: t in FIRST.pending ==> !Holds(FIRST.pending, "b", t);
    InStepReserve(h, r2);
  }

  lemma ForkedReservation(key: Key)
    requires key.pid == 1
    ensures var events := [Reserve(key, "a", "t1", "u1"), Fork(1, 2)]; var h := Replay(events);
      && Run(events) && h.minted == {"u1"} && InStep(h, key) && StreamOf(h, key) == FIRST
      && key in MemoryOf(h, 2) && MemoryOf(h, 2)[key] == FIRST
      && h.memory == map[1 := map[key := FIRST], 2 := map[key := FIRST]]
        && h.issues == {Issue(Ticket("t1", 1, "u1"), "a", key)}
  {
    var r1 := Reserve(key, "a", "t1", "u1");
    FirstReservation(key);
    Extended([], r1);
    assert [] + [r1] == [r1];
    Extended([r1], Fork(1, 2));
    assert [r1] + [Fork(1, 2)] == [r1, Fork(1, 2)];
  }

  lemma Extended(events: seq<Event>, e: Event)
    ensures Replay(events + [e]) == Next(Replay(events), e)
    ensures Run(events + [e]) <==> Run(events) && Admissible(Replay(events), e)
  {
    assert (events + [e])[..|events|] == events;
  }

  lemma FirstReservation(key: Key)
    ensures Next(FRESH, Reserve(key, "a", "t1", "u1")) ==
      History(Published(map[key.peer := FIRST], key.origin), map[key.pid := map[key := FIRST]],
              {Issue(Ticket("t1", 1, "u1"), "a", key)}, {"u1"})
  {
    var none: map<string, Reservation> := map[];
    assert Held(none, "a").None?;
  }
}
