/** The manager's passes over one job: several steps of the job machine each, decided by what the
    manager observes, with anything other actors do in between. */
module JobManager {
  import opened Common
  import opened Job
  import L = JobLaunch

  ghost predicate NoneBy(events: seq<Event>, m: nat) {
    forall i :: 0 <= i < |events| ==> !Acts(events[i], m)
  }

  lemma RunExtends(begin: World, events: seq<Event>, e: Event)
    ensures Run(begin, events + [e]) == Step(Run(begin, events), e)
  {
    assert (events + [e])[..|events|] == events;
  }

  lemma SomeOther(s: set<nat>)
    ensures exists n: nat :: n !in s
  {
    var bound := Above(s);
    assert bound !in s;
  }

  ghost function Above(s: set<nat>): (bound: nat)
    ensures forall n :: n in s ==> n < bound
  {
    if s == {} then 0
    else
      var n :| n in s;
      var rest := Above(s - {n});
      assert s == (s - {n}) + {n};
      if n < rest then rest else n + 1
  }

  /** An expired lease with this is taken over: the rule of the machine, and for a workdir that is not
      persistent also a dead process or a lease `silent` for long enough. */
  ghost predicate Evidence(w: World, m: nat, f: Frame, silent: bool)
    requires m in w.managers
  {
    MayTakeOver(w, m, f) && (w.persistent || silent || DeadOn(w, w.managers[m].host, f.process))
  }

  /** A manager whose launcher waits, having claimed with the marker at `seen`. */
  ghost predicate LaunchesUnder(w: World, n: nat, seen: nat)
    requires n in w.managers
  {
    w.managers[n].activity.Spawned? && w.managers[n].activity.seen == seen
  }

  lemma StaleLosesRace(w: World, n: nat)
    requires n in w.managers && w.managers[n].activity.Spawned? && w.managers[n].activity.seen < |w.log| - 1
    ensures L.Doomed(w, CommitRunning(n))
  {
  }

  /** The process of a traced attempt is gone, or goes when it is signalled. */
  ghost predicate Goes(w: World, m: nat, a: nat, obeys: set<nat>)
    requires m in w.managers && a in w.managers[m].tracked
  {
    Exited(w, m, Some(a)) || w.managers[m].tracked[a] in obeys
  }

  /** What a manager observes of a running attempt: whether the first look finds the outcome, which may
      be published afterwards too; whether a found one may be committed now, or waits for its
      environment log; whether it is accepted; whether a failure is retried; whether the owner's
      lease has not run out; and whether it has been silent for the whole takeover grace. */
  datatype Observed = Observed(looked: bool, logReady: bool, accepted: bool, retry: bool, alive: bool, silent: bool)

  ghost predicate Traced(w: World, m: nat, attempt: Option<nat>)
    requires m in w.managers
  {
    attempt.Some? && attempt.value in w.managers[m].tracked
  }

  /** A found outcome that is ready, the exit of an own process, or an expired lease with evidence. */
  ghost predicate CallsForAction(w: World, m: nat, seen: nat, o: Observed)
    requires m in w.managers && seen < |w.log|
  {
    var f := w.log[seen].frame;
    if o.looked then o.logReady
    else if Traced(w, m, f.attempt) then Exited(w, m, f.attempt)
    else !o.alive && Evidence(w, m, f, o.silent)
  }

  /** The last marker is a running one. */
  ghost predicate Listed(w: World) { |w.log| > 0 && Last(w).kind == Running }

  /** The marker at `seen` was acted on exactly if it was to be polled and something called for it. */
  ghost predicate Polled(w: World, m: nat, seen: int, polls: bool, o: Observed, changed: bool) {
    if !polls then !changed
    else
      && 0 <= seen && Sees(w, m, seen, Running)
      && (changed <==> CallsForAction(w, m, seen, o.(looked := o.looked && Outcome(w, w.log[seen].frame.attempt))))
  }

  /** What is missing from the later table is dead; nothing was added. */
  ghost predicate ForgotDead(before: map<nat, nat>, after: map<nat, nat>, w: World) {
    && (forall a :: a in after ==> a in before && after[a] == before[a])
    && (forall a :: a in before && a !in after ==> before[a] in w.processes && w.processes[before[a]].phase == Dead)
  }

  lemma ForgotTwice(a: map<nat, nat>, b: map<nat, nat>, c: map<nat, nat>, w: World, later: World)
    requires ForgotDead(a, b, w) && DeadStay(w, later) && ForgotDead(b, c, later)
    ensures ForgotDead(a, c, later)
  {
  }

  ghost predicate DeadStay(before: World, after: World) {
    forall p :: p in before.processes && before.processes[p].phase == Dead ==>
      p in after.processes && after.processes[p].phase == Dead
  }

  lemma StepKeepsDead(w: World, e: Event)
    ensures DeadStay(w, Step(w, e))
  {
    forall p | p in w.processes && w.processes[p].phase == Dead
      ensures p in Step(w, e).processes && Step(w, e).processes[p].phase == Dead
    {
      ProcessesStay(w, e, p);
      ProcessStep(w, e, p);
    }
  }

  /** A sweep that still has the attempts `todo` to look at. */
  ghost predicate Sweeping(start: World, w: World, m: nat, current: set<nat>, spared: set<nat>, obeys: set<nat>,
      todo: set<nat>) {
    && m in start.managers && m in w.managers && DeadStay(start, w) && todo <= w.managers[m].tracked.Keys
    && var before, now := start.managers[m].tracked, w.managers[m].tracked;
    && ForgotDead(before, now, w)
    && (forall a :: a in before && (a in current || a in spared) ==> a in now)
    && (forall a :: a in before && a !in todo && a !in current && a !in spared && Goes(start, m, a, obeys) ==>
      a !in now)
  }

  /** One attempt that is neither named nor spared: forgotten if its process is gone by then. */
  lemma SweptOne(start: World, before: World, w: World, m: nat, current: set<nat>, spared: set<nat>, obeys: set<nat>,
      todo: set<nat>, a: nat)
    requires Sweeping(start, before, m, current, spared, obeys, todo) && a in todo && a !in current && a !in spared
    requires DeadStay(before, w) && m in w.managers
    requires var mgr := before.managers[m]; var gone := mgr.tracked[a] in obeys || Exited(before, m, Some(a));
      && w.managers[m] == mgr.(tracked := if gone then mgr.tracked - {a} else mgr.tracked)
      && (gone ==> mgr.tracked[a] in w.processes && w.processes[mgr.tracked[a]].phase == Dead)
    ensures Sweeping(start, w, m, current, spared, obeys, todo - {a})
  {
    assert DeadStay(start, w);
  }

  lemma TokenOnRecord(w: World, m: nat)
    requires L.Sound(w) && m in w.managers && w.managers[m].activity.Committed?
    ensures var a, after := w.managers[m].activity, Step(w, OpenGate(m));
      a.pid in after.processes && after.processes[a.pid].attempt == a.attempt && L.Recorded(after, a.pid)
  {
    var pid := w.managers[m].activity.pid;
    assert L.Linked(w, m);
    assert L.Recorded(w, pid);
    L.RecordedStays(w, OpenGate(m), pid);
    ProcessStep(w, OpenGate(m), pid);
  }

  /** How an attempt to claim and launch can end. */
  datatype Ending = NotTaken | GivenBack | NotPrepared | Lost | Refused | Started

  class Site {
    const policy: Policy
    const persistent: bool
    const unsafe: bool
    var world: World
    ghost var history: seq<Event>

    /** Everything that has happened here is a run of the machine. */
    ghost predicate Valid() reads this { |world.log| > 0 && world == Run(Begin(policy, persistent, unsafe), history) }

    constructor (policy: Policy, persistent: bool, unsafe: bool)
      ensures Valid() && history == [] && this.policy == policy && this.persistent == persistent
      ensures this.unsafe == unsafe
    {
      this.policy, this.persistent, this.unsafe := policy, persistent, unsafe;
      world, history := Begin(policy, persistent, unsafe), [];
    }

    method Do(e: Event)
      requires Valid()
      modifies this
      ensures Valid() && world == Step(old(world), e) && history == old(history) + [e]
    {
      RunExtends(Begin(policy, persistent, unsafe), history, e);
      LogStep(world, e);
      world, history := Step(world, e), history + [e];
    }

    lemma Sound()
      requires Valid()
      ensures L.Sound(world)
    {
      L.RunSound(policy, persistent, unsafe, history);
    }

    /** Whatever other managers, runners and the machines do meanwhile. */
    method Interfere(m: nat, events: seq<Event>)
      requires Valid() && m in world.managers && NoneBy(events, m)
      modifies this
      ensures Valid() && old(history) <= history && DeadStay(old(world), world) && |old(world).log| <= |world.log|
      ensures m in world.managers && world.managers[m] == old(world).managers[m]
      ensures forall i :: 0 <= i < |old(world).log| ==> world.log[i] == old(world).log[i]
    {
      for i := 0 to |events|
        invariant Valid() && old(history) <= history && DeadStay(old(world), world)
        invariant m in world.managers && world.managers[m] == old(world).managers[m]
        invariant old(world).log <= world.log
      {
        OthersLeave(world, events[i], m);
        StepKeepsDead(world, events[i]);
        LogStep(world, events[i]);
        Do(events[i]);
      }
    }

    // ---------- claim and launch ----------

    /** `uuid4` names the attempt. The claim is not taken when the snapshot is stale, a pause was
        requested or a budget is used up. */
    method ClaimReady(m: nat, seen: nat) returns (attempt: nat, taken: bool)
      requires Valid() && Sees(world, m, seen, Ready) && world.managers[m].activity.Idle?
      modifies this
      ensures Valid() && old(history) <= history && m in world.managers
      ensures attempt !in old(world).attempts && L.Unspawned(world, attempt)
      ensures taken <==> Claims(old(world), Claim(m, seen, attempt))
      ensures world.managers[m] ==
        if taken then old(world).managers[m].(activity := Preparing(|old(world).log|, attempt))
        else old(world).managers[m]
    {
      SomeOther(world.attempts);
      attempt :| attempt !in world.attempts;
      Sound();
      L.UnspawnedStays(world, Claim(m, seen, attempt), attempt);
      OwnStep(world, Claim(m, seen, attempt), m);
      Do(Claim(m, seen, attempt));
      taken := world.managers[m].activity.Preparing?;
    }

    /** A claim that is given back, or fails before its launcher exists, never had a process. */
    method GiveUpClaim(m: nat, e: Event)
      requires Valid() && m in world.managers && world.managers[m].activity.Preparing?
      requires (e == ReleaseOwn(m) || (e.PrepareFails? && e.m == m))
      modifies this
      ensures Valid() && history == old(history) + [e] && m in world.managers
      ensures world.managers[m] == old(world).managers[m].(activity := Idle)
      ensures L.Unspawned(world, old(world).managers[m].activity.attempt)
    {
      Sound();
      assert L.Linked(world, m);
      L.UnspawnedStays(world, e, world.managers[m].activity.attempt);
      OwnStep(world, e, m);
      Do(e);
    }

    method SpawnLauncher(m: nat) returns (pid: nat)
      requires Valid() && m in world.managers && world.managers[m].activity.Preparing?
      modifies this
      ensures Valid() && history == old(history) + [Spawn(m, pid)] && m in world.managers
      ensures var a := old(world).managers[m].activity;
        world.managers[m] == old(world).managers[m].(activity := Spawned(a.seen, a.attempt, pid))
    {
      SomeOther(world.processes.Keys);
      pid :| pid !in world.processes;
      OwnStep(world, Spawn(m, pid), m);
      Do(Spawn(m, pid));
    }

    /** The move to running: either the running frame is installed, or the gate is shut for good. */
    method CommitLaunch(m: nat) returns (won: bool)
      requires Valid() && m in world.managers && world.managers[m].activity.Spawned?
      modifies this
      ensures Valid() && history == old(history) + [CommitRunning(m)] && m in world.managers
      ensures var a := old(world).managers[m].activity;
        && world.managers[m] == old(world).managers[m].(activity := if won
          then Committed(|old(world).log|, a.attempt, a.pid) else Idle)
        && (!won ==> L.Shut(world, a.pid))
    {
      Sound();
      OwnStep(world, CommitRunning(m), m);
      if !Wins(world, CommitRunning(m)) { L.DoomedLaunchNeverRuns(world, CommitRunning(m), []); }
      Do(CommitRunning(m));
      won := world.managers[m].activity.Committed?;
    }

    /** A launch that fails with its launcher waiting: the gate is shut for good. */
    method AbandonLaunch(m: nat, e: Event)
      requires Valid() && m in world.managers && (e.PrepareFails? || e.GateFails?) && e.m == m
      requires if e.PrepareFails? then world.managers[m].activity.Spawned? else world.managers[m].activity.Committed?
      modifies this
      ensures Valid() && history == old(history) + [e] && m in world.managers
      ensures world.managers[m] == old(world).managers[m].(activity := Idle)
      ensures L.Shut(world, old(world).managers[m].activity.pid)
    {
      Sound();
      OwnStep(world, e, m);
      L.DoomedLaunchNeverRuns(world, e, []);
      Do(e);
    }

    /** The token is written only with the running frame of this very launch on record. */
    method WriteToken(m: nat)
      requires Valid() && m in world.managers && world.managers[m].activity.Committed?
      modifies this
      ensures Valid() && history == old(history) + [OpenGate(m)] && m in world.managers
      ensures var mgr := old(world).managers[m];
        && world.managers[m] == mgr.(activity := Idle, tracked := mgr.tracked[mgr.activity.attempt := mgr.activity.pid])
        && mgr.activity.pid in world.processes && world.processes[mgr.activity.pid].attempt == mgr.activity.attempt
        && L.Recorded(world, mgr.activity.pid)
    {
      Sound();
      TokenOnRecord(world, m);
      OwnStep(world, OpenGate(m), m);
      Do(OpenGate(m));
    }

    /** What a manager can rely on when `_claim_and_launch` is over. */
    ghost predicate Concluded(before: Manager, m: nat, attempt: nat, pid: nat, end: Ending) reads this {
      && m in world.managers
      && world.managers[m] == before.(tracked := if end.Started? then before.tracked[attempt := pid]
        else before.tracked)
      && (end.NotTaken? || end.GivenBack? || end.NotPrepared? ==> L.Unspawned(world, attempt))
      && (end.Lost? || end.Refused? ==> L.Shut(world, pid))
      && (end.Started? ==> pid in world.processes && world.processes[pid].attempt == attempt && L.Recorded(world, pid))
    }

    /** `_claim_and_launch`, with anything happening between its steps. It always leaves the manager
        idle, tracking the attempt exactly when it was started. A claim that is not taken, given
        back to a maintenance pause or not prepared never had a process; a launch that is lost or
        fails leaves a launcher that can never become a runner; and one that is started has its
        running frame on record. */
    method ClaimAndLaunch(m: nat, seen: nat, gaps: seq<seq<Event>>, maintenance: bool, prepared: bool, committed: bool,
        written: bool, retry: bool)
        returns (end: Ending, attempt: nat, pid: nat)
      requires Valid() && Sees(world, m, seen, Ready) && world.managers[m].activity.Idle?
      requires |gaps| == 4 && NoneBy(gaps[0], m) && NoneBy(gaps[1], m) && NoneBy(gaps[2], m) && NoneBy(gaps[3], m)
      modifies this
      ensures Valid() && old(history) <= history
      ensures attempt !in old(world).attempts && Concluded(old(world).managers[m], m, attempt, pid, end)
      ensures end.NotTaken? <==> !Claims(old(world), Claim(m, seen, attempt))
    {
      var taken;
      attempt, taken := ClaimReady(m, seen);
      if !taken { return NotTaken, attempt, 0; }
      end, pid := FollowClaim(m, gaps, maintenance, prepared, committed, written, retry);
    }

    /** What follows a claim that was taken. */
    method FollowClaim(m: nat, gaps: seq<seq<Event>>, maintenance: bool, prepared: bool, committed: bool, written: bool,
        retry: bool)
        returns (end: Ending, pid: nat)
      requires Valid() && m in world.managers && world.managers[m].activity.Preparing?
      requires |gaps| == 4 && NoneBy(gaps[0], m) && NoneBy(gaps[1], m) && NoneBy(gaps[2], m) && NoneBy(gaps[3], m)
      modifies this
      ensures Valid() && old(history) <= history
      ensures var before := old(world).managers[m];
        !end.NotTaken? && Concluded(before.(activity := Idle), m, before.activity.attempt, pid, end)
    {
      Interfere(m, gaps[0]);
      if maintenance {
        GiveUpClaim(m, ReleaseOwn(m));
        return GivenBack, 0;
      }
      Interfere(m, gaps[1]);
      end, pid := PrepareAndLaunch(m, gaps[2], gaps[3], prepared, committed, written, retry);
    }

    method PrepareAndLaunch(m: nat, first: seq<Event>, second: seq<Event>, prepared: bool, committed: bool,
        written: bool, retry: bool)
        returns (end: Ending, pid: nat)
      requires Valid() && m in world.managers && world.managers[m].activity.Preparing?
      requires NoneBy(first, m) && NoneBy(second, m)
      modifies this
      ensures Valid() && old(history) <= history
      ensures var before := old(world).managers[m];
        !end.NotTaken? && Concluded(before.(activity := Idle), m, before.activity.attempt, pid, end)
    {
      if !prepared {
        GiveUpClaim(m, PrepareFails(m, retry));
        return NotPrepared, 0;
      }
      end, pid := LaunchClaimed(m, first, second, committed, written, retry);
    }

    /** `_launch_claimed` from the start of the launcher on. */
    method LaunchClaimed(m: nat, first: seq<Event>, second: seq<Event>, committed: bool, written: bool, retry: bool)
        returns (end: Ending, pid: nat)
      requires Valid() && m in world.managers && world.managers[m].activity.Preparing?
      requires NoneBy(first, m) && NoneBy(second, m)
      modifies this
      ensures Valid() && old(history) <= history
      ensures var before := old(world).managers[m];
        (end.Lost? || end.Refused? || end.Started?)
          && Concluded(before.(activity := Idle), m, before.activity.attempt, pid, end)
    {
      pid := SpawnLauncher(m);
      Interfere(m, first);
      if !committed {
        AbandonLaunch(m, PrepareFails(m, retry));
        return Refused, pid;
      }
      var won := CommitLaunch(m);
      if !won { return Lost, pid; }
      Interfere(m, second);
      if !written {
        AbandonLaunch(m, GateFails(m, retry));
        return Refused, pid;
      }
      WriteToken(m);
      return Started, pid;
    }

    // ---------- polling ----------

    method AttemptWriterDead(host: nat, state: Frame) returns (dead: bool)
      ensures dead <==> DeadOn(world, host, state.process)
    {
      if state.process.None? { return false; }
      var Identity(where, pid) := state.process.value;
      if where != host { return false; }
      return pid in world.processes && world.processes[pid].phase == Dead;
    }

    /** Why the attempt may be replaced: its process is gone from this host; or, where the workdir is
        persistent, only the unsafe override; or, where it is not, a lease `silent` long enough. */
    method TakeoverEvidence(m: nat, state: Frame, silent: bool) returns (admitted: bool)
      requires m in world.managers
      ensures admitted <==> Evidence(world, m, state, silent)
    {
      var dead := AttemptWriterDead(world.managers[m].host, state);
      if dead { return true; }
      if world.persistent { return world.unsafe; }
      return silent;
    }

    /** An attempt leaves a manager's table only with its process gone. */
    ghost predicate OnlyDeadForgotten(before: map<nat, nat>, m: nat) reads this {
      m in world.managers && ForgotDead(before, world.managers[m].tracked, world)
    }

    /** `_poll_one_running` on the snapshot `seen`. It acts exactly when something calls for it, and
        forgets an attempt only with its process gone. */
    method PollOneRunning(m: nat, seen: nat, o: Observed) returns (changed: bool)
      requires Valid() && Sees(world, m, seen, Running) && (o.looked ==> Outcome(world, world.log[seen].frame.attempt))
      modifies this
      ensures Valid() && old(history) <= history && (changed <==> history != old(history))
      ensures OnlyDeadForgotten(old(world).managers[m].tracked, m)
      ensures changed <==> CallsForAction(old(world), m, seen, o)
    {
      if o.looked {
        if o.logReady { CommitPublished(m, seen, o.accepted, o.retry); }
        return o.logReady;
      }
      var attempt := world.log[seen].frame.attempt;
      if attempt.Some? && attempt.value in world.managers[m].tracked {
        changed := PollTraced(m, seen, attempt.value, o);
      } else {
        changed := PollForeign(m, seen, o);
      }
    }

    /** An attempt this manager started itself: its exit decides. */
    method PollTraced(m: nat, seen: nat, attempt: nat, o: Observed) returns (changed: bool)
      requires Valid() && Sees(world, m, seen, Running) && world.log[seen].frame.attempt == Some(attempt)
      requires attempt in world.managers[m].tracked
      modifies this
      ensures Valid() && old(history) <= history && (changed <==> history != old(history))
      ensures OnlyDeadForgotten(old(world).managers[m].tracked, m)
      ensures changed <==> Exited(old(world), m, Some(attempt))
    {
      var pid := world.managers[m].tracked[attempt];
      if pid !in world.processes || world.processes[pid].phase != Dead { return false; }
      ReapExited(m, seen, attempt, o.accepted, o.retry);
      return true;
    }

    /** An attempt of another manager: only an expired lease with evidence ends it. */
    method PollForeign(m: nat, seen: nat, o: Observed) returns (changed: bool)
      requires Valid() && Sees(world, m, seen, Running) && !Traced(world, m, world.log[seen].frame.attempt)
      modifies this
      ensures Valid() && history == if changed then old(history) + [Takeover(m, seen, o.retry)] else old(history)
      ensures OnlyDeadForgotten(old(world).managers[m].tracked, m)
      ensures changed <==> !o.alive && Evidence(old(world), m, old(world).log[seen].frame, o.silent)
    {
      if o.alive { return false; }
      changed := TakeoverEvidence(m, world.log[seen].frame, o.silent);
      if changed {
        OwnStep(world, Takeover(m, seen, o.retry), m);
        Do(Takeover(m, seen, o.retry));
      }
    }

    method CommitPublished(m: nat, seen: nat, accepted: bool, retry: bool)
      requires Valid() && Sees(world, m, seen, Running) && Outcome(world, world.log[seen].frame.attempt)
      modifies this
      ensures Valid()
      ensures history == old(history) + [if accepted then CommitOutcome(m, seen) else RejectOutcome(m, seen, retry)]
      ensures m in world.managers && world.managers[m] == old(world).managers[m]
      ensures world.processes == old(world).processes
    {
      var e := if accepted then CommitOutcome(m, seen) else RejectOutcome(m, seen, retry);
      OwnStep(world, e, m);
      Do(e);
    }

    /** The process of a traced attempt has exited: commit what it published, or fail the attempt. */
    method ReapExited(m: nat, seen: nat, attempt: nat, accepted: bool, retry: bool)
      requires Valid() && Sees(world, m, seen, Running) && world.log[seen].frame.attempt == Some(attempt)
      requires Exited(world, m, Some(attempt))
      modifies this
      ensures Valid() && old(history) < history && m in world.managers && world.processes == old(world).processes
      ensures world.managers[m] == old(world).managers[m].(tracked := old(world).managers[m].tracked - {attempt})
    {
      if attempt in world.published {
        CommitPublished(m, seen, accepted, retry);
        Forget(m, attempt);
      } else {
        OwnStep(world, PollExit(m, seen, retry), m);
        Do(PollExit(m, seen, retry));
      }
    }

    // ---------- whole passes ----------

    /** Attempts no running marker names are signalled, and forgotten once their process is gone.
        `spared` are those under cancellation, of another user, or of a job that could not be read;
        `obeys` the processes that exit at the signal. */
    method SweepUntracked(m: nat, current: set<nat>, spared: set<nat>, obeys: set<nat>)
      requires Valid() && m in world.managers
      modifies this
      ensures Valid() && old(history) <= history && DeadStay(old(world), world)
      ensures OnlyDeadForgotten(old(world).managers[m].tracked, m)
      ensures forall a :: a in old(world).managers[m].tracked && (a in current || a in spared) ==>
        a in world.managers[m].tracked
      ensures forall a ::
        a in old(world).managers[m].tracked && a !in current && a !in spared && Goes(old(world), m, a, obeys) ==>
          a !in world.managers[m].tracked
    {
      var todo := world.managers[m].tracked.Keys;
      ghost var start := world;
      while todo != {}
        invariant Valid() && old(history) <= history && Sweeping(start, world, m, current, spared, obeys, todo)
      {
        var a :| a in todo;
        if a !in current && a !in spared {
          ghost var before := world;
          SweepOne(m, a, world.managers[m].tracked[a] in obeys);
          SweptOne(start, before, world, m, current, spared, obeys, todo, a);
        }
        todo := todo - {a};
      }
    }

    method SweepOne(m: nat, a: nat, obeys: bool)
      requires Valid() && m in world.managers && a in world.managers[m].tracked
      modifies this
      ensures Valid() && old(history) <= history && DeadStay(old(world), world) && m in world.managers
      ensures var mgr := old(world).managers[m]; var gone := obeys || Exited(old(world), m, Some(a));
        && world.managers[m] == mgr.(tracked := if gone then mgr.tracked - {a} else mgr.tracked)
        && (gone ==> mgr.tracked[a] in world.processes && world.processes[mgr.tracked[a]].phase == Dead)
    {
      if obeys { Signal(m, a); }
      TracedExists(m, a);
      if world.processes[world.managers[m].tracked[a]].phase == Dead { Forget(m, a); }
    }

    lemma TracedExists(m: nat, a: nat)
      requires Valid() && m in world.managers && a in world.managers[m].tracked
      ensures world.managers[m].tracked[a] in world.processes
    {
      Sound();
      assert L.Linked(world, m);
    }

    method Signal(m: nat, a: nat)
      requires Valid() && m in world.managers && a in world.managers[m].tracked
      modifies this
      ensures Valid() && old(history) <= history && DeadStay(old(world), world)
      ensures m in world.managers && world.managers[m] == old(world).managers[m] && Exited(world, m, Some(a))
    {
      TracedExists(m, a);
      var pid := world.managers[m].tracked[a];
      OthersLeave(world, Dies(pid), m);
      StepKeepsDead(world, Dies(pid));
      Do(Dies(pid));
    }

    method Forget(m: nat, a: nat)
      requires Valid() && m in world.managers && Exited(world, m, Some(a))
      modifies this
      ensures Valid() && old(history) <= history && m in world.managers && world.processes == old(world).processes
      ensures world.managers[m] == old(world).managers[m].(tracked := old(world).managers[m].tracked - {a})
    {
      OwnStep(world, Sweep(m, a), m);
      Do(Sweep(m, a));
    }

    /** `_poll_running`: the running marker as it was scanned, whatever happened since, and then the
        sweep; `at` is the world in which the marker is polled. It is acted on exactly when the
        world then calls for it, only attempts whose process is gone are forgotten, and a job that
        could not be read costs none. */
    method PollRunning(m: nat, first: seq<Event>, second: seq<Event>, readable: bool, o: Observed, spared: set<nat>,
        obeys: set<nat>)
        returns (changed: bool, ghost at: World)
      requires Valid() && m in world.managers && NoneBy(first, m) && NoneBy(second, m)
      modifies this
      ensures Valid() && old(history) <= history && OnlyDeadForgotten(old(world).managers[m].tracked, m)
      ensures Listed(old(world)) && !readable ==> world.managers[m].tracked == old(world).managers[m].tracked
      ensures Polled(at, m, |old(world).log| - 1, Listed(old(world)) && readable, o, changed)
    {
      var seen := |world.log| - 1;
      var current, kept;
      changed, current, kept, at := PollScanned(m, seen, world.log[seen].kind == Running, first, readable, o, spared);
      SweepLater(m, second, current, kept, obeys, old(world).managers[m].tracked);
    }

    /** The first half of the pass, and what the sweep is to keep. */
    method PollScanned(m: nat, seen: nat, listed: bool, first: seq<Event>, readable: bool, o: Observed,
        spared: set<nat>)
        returns (changed: bool, current: set<nat>, kept: set<nat>, ghost at: World)
      requires Valid() && m in world.managers && NoneBy(first, m) && seen == |world.log| - 1
      requires listed <==> world.log[seen].kind == Running
      modifies this
      ensures Valid() && old(history) <= history && OnlyDeadForgotten(old(world).managers[m].tracked, m)
      ensures Polled(at, m, seen, listed && readable, o, changed)
      ensures listed && !readable ==>
        && world.managers[m].tracked == old(world).managers[m].tracked
        && kept == old(world).managers[m].tracked.Keys
    {
      Interfere(m, first);
      at := world;
      changed, current, kept := false, {}, spared;
      if listed && !readable { kept := world.managers[m].tracked.Keys; }
      if listed && readable { changed, current := PollListed(m, seen, o); }
    }

    /** The second half; `before` is the table at the start of the pass. */
    method SweepLater(m: nat, second: seq<Event>, current: set<nat>, kept: set<nat>, obeys: set<nat>,
        ghost before: map<nat, nat>)
      requires Valid() && m in world.managers && NoneBy(second, m) && OnlyDeadForgotten(before, m)
      modifies this
      ensures Valid() && old(history) <= history && OnlyDeadForgotten(before, m)
      ensures kept == old(world).managers[m].tracked.Keys ==>
        world.managers[m].tracked == old(world).managers[m].tracked
    {
      ghost var polled := world;
      Interfere(m, second);
      ghost var middle := world;
      SweepUntracked(m, current, kept, obeys);
      Swept(m, before, polled, middle);
    }

    lemma Swept(m: nat, before: map<nat, nat>, polled: World, middle: World)
      requires m in polled.managers && m in middle.managers && middle.managers[m] == polled.managers[m]
      requires ForgotDead(before, polled.managers[m].tracked, polled) && DeadStay(polled, middle)
      requires DeadStay(middle, world)
      requires OnlyDeadForgotten(middle.managers[m].tracked, m)
      ensures OnlyDeadForgotten(before, m)
    {
      assert DeadStay(polled, world);
      ForgotTwice(before, polled.managers[m].tracked, world.managers[m].tracked, polled, world);
    }

    /** A readable running marker: poll it, and tell which attempt it names. */
    method PollListed(m: nat, seen: nat, o: Observed) returns (changed: bool, current: set<nat>)
      requires Valid() && Sees(world, m, seen, Running)
      modifies this
      ensures Valid() && old(history) <= history && OnlyDeadForgotten(old(world).managers[m].tracked, m)
      ensures Polled(old(world), m, seen, true, o, changed)
    {
      var attempt := world.log[seen].frame.attempt;
      current := if attempt.Some? then {attempt.value} else {};
      changed := PollOneRunning(m, seen, o.(looked := o.looked && Outcome(world, attempt)));
    }

    /** `recover_abandoned_claims` on the claim as it was scanned: a claim is taken back exactly when a
        pause waits on it or its owner's lease has run out, and from then on no launch under that
        claim, by its slow owner or anybody else, can start a runner. */
    method RecoverAbandonedClaim(m: nat, between: seq<Event>, alive: bool) returns (recovered: bool)
      requires Valid() && m in world.managers && NoneBy(between, m)
      modifies this
      ensures Valid() && old(history) <= history
      ensures recovered <==> Last(old(world)).kind == Claimed && (Last(old(world)).frame.pause.Some? || !alive)
      ensures recovered ==> forall n :: n in world.managers && LaunchesUnder(world, n, |old(world).log| - 1) ==>
        L.Doomed(world, CommitRunning(n))
    {
      var seen := |world.log| - 1;
      if world.log[seen].kind != Claimed || (world.log[seen].frame.pause.None? && alive) { return false; }
      Interfere(m, between);
      TakeBack(m, seen);
      return true;
    }

    /** Whether or not the release itself wins, the claim is no longer the last marker. */
    method TakeBack(m: nat, seen: nat)
      requires Valid() && Sees(world, m, seen, Claimed)
      modifies this
      ensures Valid() && history == old(history) + [Recover(m, seen)] && seen < |world.log| - 1
      ensures forall n :: n in world.managers && LaunchesUnder(world, n, seen) ==> L.Doomed(world, CommitRunning(n))
    {
      LogStep(world, Recover(m, seen));
      Do(Recover(m, seen));
      forall n | n in world.managers && LaunchesUnder(world, n, seen)
        ensures L.Doomed(world, CommitRunning(n))
      {
        StaleLosesRace(world, n);
      }
    }

    method CancellationEvidence(m: nat, state: Frame) returns (proof: bool)
      requires m in world.managers
      ensures proof <==> CancelProof(world, m, state)
    {
      if state.process.None? { return false; }
      if state.attempt.Some? && state.attempt.value in world.managers[m].tracked {
        var pid := world.managers[m].tracked[state.attempt.value];
        return pid in world.processes && world.processes[pid].phase == Dead;
      }
      proof := AttemptWriterDead(world.managers[m].host, state);
    }

    /** `finish` on the cancelling marker as it was scanned; `at` is the world in which the manager
        decides. The cancelled frame is tried exactly on proof that the fenced attempt has stopped. */
    method FinishCancelling(m: nat, between: seq<Event>) returns (done: bool, ghost at: World)
      requires Valid() && m in world.managers && Last(world).kind == Cancelling && NoneBy(between, m)
      modifies this
      ensures Valid() && old(history) <= history && OnlyDeadForgotten(old(world).managers[m].tracked, m)
      ensures var seen := |old(world).log| - 1;
        && Sees(at, m, seen, Cancelling)
        && (done <==> CancelProof(at, m, at.log[seen].frame))
        && world == if done then Step(at, FinishCancel(m, seen)) else at
    {
      var seen := |world.log| - 1;
      Interfere(m, between);
      at := world;
      done := CancellationEvidence(m, world.log[seen].frame);
      if done { RecordCancelled(m, seen); }
    }

    method RecordCancelled(m: nat, seen: nat)
      requires Valid() && Sees(world, m, seen, Cancelling) && CancelProof(world, m, world.log[seen].frame)
      modifies this
      ensures Valid() && history == old(history) + [FinishCancel(m, seen)]
      ensures world == Step(old(world), FinishCancel(m, seen))
      ensures OnlyDeadForgotten(old(world).managers[m].tracked, m)
    {
      OwnStep(world, FinishCancel(m, seen), m);
      Do(FinishCancel(m, seen));
    }

    // ---------- what holds here ----------

    /** Whatever sequence of passes led here, with any interference, a persistent job has at most one
        live runner that has not published, and the marker names it. */
    lemma OneRunnerHere(p: nat, q: nat)
      requires Valid() && persistent && !unsafe
      requires p in world.processes && world.processes[p].phase == Runner
      requires world.processes[p].attempt !in world.published
      requires q in world.processes && world.processes[q].phase == Runner
      requires world.processes[q].attempt !in world.published
      ensures p == q && |world.log| > 0 && L.Holds(Last(world), world.processes[p].host, world.processes[p].attempt, p)
    {
      L.LiveRunnerHoldsTheMarker(policy, history, p);
      L.OneLiveRunner(policy, history, p, q);
    }
  }
}
