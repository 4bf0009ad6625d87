/** The exec gate and the exclusion of a second live attempt. */
module JobLaunch {
  import opened Common
  import opened Job

  // ---------- what holds of every reachable world ----------

  ghost predicate Names(w: World, i: nat, kind: Kind, attempt: nat) {
    i < |w.log| && w.log[i].kind == kind && w.log[i].frame.attempt == Some(attempt)
  }

  /** A running frame that names exactly this process and its attempt has been committed. */
  ghost predicate Recorded(w: World, p: nat)
    requires p in w.processes
  {
    exists i: nat :: Names(w, i, Running, w.processes[p].attempt)
      && w.log[i].frame.process == Some(Identity(w.processes[p].host, p))
  }

  ghost predicate Gated(w: World, p: nat, host: nat, attempt: nat) {
    p in w.processes && w.processes[p].host == host && w.processes[p].attempt == attempt && w.processes[p].gate == Held
  }

  ghost predicate Unspawned(w: World, attempt: nat) {
    forall p :: p in w.processes ==> w.processes[p].attempt != attempt
  }

  /** A manager inside a launch has the facts its next step relies on. */
  ghost predicate ActivityLinked(w: World, host: nat, activity: Activity) {
    match activity
    case Idle => true
    case Preparing(s, a) => Names(w, s, Claimed, a) && a in w.attempts && Unspawned(w, a)
    case Spawned(s, a, p) => Names(w, s, Claimed, a) && Gated(w, p, host, a)
    case Committed(s, a, p) =>
      Names(w, s, Running, a) && Gated(w, p, host, a) && w.log[s].frame.process == Some(Identity(host, p))
  }

  ghost predicate Linked(w: World, m: nat)
    requires m in w.managers
  {
    var mgr := w.managers[m];
    && ActivityLinked(w, mgr.host, mgr.activity)
    && forall a :: a in mgr.tracked ==> mgr.tracked[a] in w.processes && w.processes[mgr.tracked[a]].attempt == a
  }

  ghost predicate DistinctLaunches(w: World) {
    forall m, n :: m in w.managers && n in w.managers && m != n
      && !w.managers[m].activity.Idle? && !w.managers[n].activity.Idle?
      ==> w.managers[m].activity.attempt != w.managers[n].activity.attempt
  }

  ghost predicate OneProcessPerAttempt(w: World) {
    forall p, q :: p in w.processes && q in w.processes && w.processes[p].attempt == w.processes[q].attempt ==> p == q
  }

  ghost predicate GateSound(w: World) {
    forall p :: p in w.processes ==>
      && (w.processes[p].gate == Granted ==> Recorded(w, p))
      && (w.processes[p].phase == Runner ==> w.processes[p].gate == Granted)
  }

  ghost predicate Sound(w: World) {
    && |w.log| > 0
    && (forall m :: m in w.managers ==> Linked(w, m))
    && DistinctLaunches(w)
    && OneProcessPerAttempt(w)
    && (forall p :: p in w.processes ==> w.processes[p].attempt in w.attempts)
    && GateSound(w)
  }

  lemma NamesStays(w: World, e: Event, i: nat, kind: Kind, attempt: nat)
    requires |w.log| > 0 && Names(w, i, kind, attempt)
    ensures Names(Step(w, e), i, kind, attempt) && Step(w, e).log[i] == w.log[i]
  {
    LogStep(w, e);
  }

  lemma RecordedStays(w: World, e: Event, p: nat)
    requires |w.log| > 0 && p in w.processes && Recorded(w, p)
    ensures p in Step(w, e).processes && Recorded(Step(w, e), p)
  {
    ProcessesStay(w, e, p);
    ProcessStep(w, e, p);
    var i: nat :| Names(w, i, Running, w.processes[p].attempt)
      && w.log[i].frame.process == Some(Identity(w.processes[p].host, p));
    NamesStays(w, e, i, Running, w.processes[p].attempt);
  }

  lemma StepGateSound(w: World, e: Event)
    requires Sound(w)
    ensures GateSound(Step(w, e))
  {
    forall p | p in Step(w, e).processes
      ensures Step(w, e).processes[p].gate == Granted ==> Recorded(Step(w, e), p)
      ensures Step(w, e).processes[p].phase == Runner ==> Step(w, e).processes[p].gate == Granted
    {
      ProcessStep(w, e, p);
      if Step(w, e).processes[p].gate == Granted { GrantedIsRecorded(w, e, p); }
    }
  }

  lemma GrantedIsRecorded(w: World, e: Event, p: nat)
    requires Sound(w) && p in Step(w, e).processes && Step(w, e).processes[p].gate == Granted
    ensures Recorded(Step(w, e), p)
  {
    ProcessStep(w, e, p);
    assert Opens(w, e) ==> Linked(w, e.m);
    assert Recorded(w, p);
    RecordedStays(w, e, p);
  }

  lemma StepProcesses(w: World, e: Event)
    requires Sound(w)
    ensures OneProcessPerAttempt(Step(w, e))
    ensures forall p :: p in Step(w, e).processes ==> Step(w, e).processes[p].attempt in Step(w, e).attempts
  {
    var w' := Step(w, e);
    forall p | p in w'.processes
      ensures p in w.processes ==> w'.processes[p].attempt == w.processes[p].attempt
      ensures p !in w.processes ==>
        && Spawns(w, e) && p == e.pid
        && w'.processes[p].attempt == w.managers[e.m].activity.attempt
    {
      ProcessStep(w, e, p);
    }
    if Spawns(w, e) {
      assert Linked(w, e.m);
    }
  }

  lemma RunningInstalls(w: World, e: Event)
    requires |w.log| > 0 && e.CommitRunning? && Wins(w, e)
    ensures var a := w.managers[e.m].activity; var i := Installed(w, e);
            && i.kind == Running && i.frame.attempt == Some(a.attempt)
            && i.frame.process == Some(Identity(w.managers[e.m].host, a.pid))
  {
  }

  lemma GatedStays(w: World, e: Event, m: nat)
    requires Sound(w) && Launching(w, m) && m in Step(w, e).managers && !Step(w, e).managers[m].activity.Idle?
    ensures var a := w.managers[m].activity; Gated(Step(w, e), a.pid, w.managers[m].host, a.attempt)
  {
    var a := w.managers[m].activity;
    assert Linked(w, m);
    ProcessesStay(w, e, a.pid);
    ProcessStep(w, e, a.pid);
    if GateMovedBy(w, e, a.pid) { SameLaunch(w, e.m, m); }
  }

  /** A launcher has one manager holding its gate. */
  lemma SameLaunch(w: World, m: nat, n: nat)
    requires Sound(w) && Launching(w, m) && Launching(w, n) && w.managers[m].activity.pid == w.managers[n].activity.pid
    ensures m == n
  {
    assert Linked(w, m) && Linked(w, n);
  }

  lemma TrackedLinked(w: World, e: Event, m: nat, a: nat)
    requires Sound(w) && m in Step(w, e).managers && a in Step(w, e).managers[m].tracked
    ensures var w' := Step(w, e); var p := w'.managers[m].tracked[a]; p in w'.processes && w'.processes[p].attempt == a
  {
    var p := Step(w, e).managers[m].tracked[a];
    TrackedStep(w, e, m, a);
    assert Linked(w, m);
    ProcessesStay(w, e, p);
    ProcessStep(w, e, p);
  }

  lemma UnspawnedStays(w: World, e: Event, attempt: nat)
    requires Sound(w) && Unspawned(w, attempt)
    requires Spawns(w, e) ==> w.managers[e.m].activity.attempt != attempt
    ensures Unspawned(Step(w, e), attempt)
  {
    forall p | p in Step(w, e).processes
      ensures Step(w, e).processes[p].attempt != attempt
    {
      ProcessStep(w, e, p);
    }
  }

  lemma HostStays(w: World, e: Event, m: nat)
    requires m in w.managers && m in Step(w, e).managers
    ensures Step(w, e).managers[m].host == w.managers[m].host
  {
  }

  lemma StepActivityLinked(w: World, e: Event, m: nat)
    requires Sound(w) && m in w.managers && m in Step(w, e).managers
    ensures ActivityLinked(Step(w, e), w.managers[m].host, Step(w, e).managers[m].activity)
  {
    var w' := Step(w, e);
    var a, b := w.managers[m].activity, w'.managers[m].activity;
    ActivityStep(w, e, m);
    LogStep(w, e);
    assert Linked(w, m);
    if b.Idle? {
    } else if a.Idle? {
      ClaimInstalls(w, e);
      UnspawnedStays(w, e, e.attempt);
    } else {
      NamesStays(w, e, a.seen, if a.Committed? then Running else Claimed, a.attempt);
      if Launching(w, m) {
        GatedStays(w, e, m);
        if b != a { RunningInstalls(w, e); }
      } else if b == a {
        PreparingStays(w, e, m);
      } else {
        ProcessesStep(w, e);
      }
    }
  }

  lemma ProcessesStep(w: World, e: Event)
    requires Spawns(w, e)
    ensures Step(w, e).processes ==
      w.processes[e.pid := Process(w.managers[e.m].host, w.managers[e.m].activity.attempt, Held, Launcher)]
  {
  }

  lemma PreparingStays(w: World, e: Event, m: nat)
    requires Sound(w) && m in w.managers && m in Step(w, e).managers
    requires w.managers[m].activity.Preparing? && Step(w, e).managers[m].activity == w.managers[m].activity
    ensures Unspawned(Step(w, e), w.managers[m].activity.attempt)
  {
    assert Linked(w, m);
    UnspawnedStays(w, e, w.managers[m].activity.attempt);
  }

  lemma StepLinked(w: World, e: Event, m: nat)
    requires Sound(w) && m in Step(w, e).managers
    ensures Linked(Step(w, e), m)
  {
    var w' := Step(w, e);
    ActivityStep(w, e, m);
    if m in w.managers {
      HostStays(w, e, m);
      StepActivityLinked(w, e, m);
    }
    forall a | a in w'.managers[m].tracked
      ensures w'.managers[m].tracked[a] in w'.processes && w'.processes[w'.managers[m].tracked[a]].attempt == a
    {
      TrackedLinked(w, e, m, a);
    }
  }

  lemma StepDistinct(w: World, e: Event)
    requires Sound(w)
    ensures DistinctLaunches(Step(w, e))
  {
    var w' := Step(w, e);
    forall m | m in w'.managers && !w'.managers[m].activity.Idle?
      ensures m in w.managers
      ensures (!w.managers[m].activity.Idle? && w'.managers[m].activity.attempt == w.managers[m].activity.attempt)
              || (Claims(w, e) && e.m == m && w'.managers[m].activity.attempt == e.attempt)
    {
      ActivityStep(w, e, m);
    }
    forall m | m in w.managers && !w.managers[m].activity.Idle?
      ensures w.managers[m].activity.attempt in w.attempts
    {
      assert Linked(w, m);
    }
    if Claims(w, e) { ClaimInstalls(w, e); }
  }

  lemma StepSound(w: World, e: Event)
    requires Sound(w)
    ensures Sound(Step(w, e))
  {
    LogStep(w, e);
    forall m | m in Step(w, e).managers ensures Linked(Step(w, e), m) {
      StepLinked(w, e, m);
    }
    StepDistinct(w, e);
    StepProcesses(w, e);
    StepGateSound(w, e);
  }

  lemma {:induction false} RunSound(policy: Policy, persistent: bool, unsafe: bool, events: seq<Event>)
    ensures Sound(Run(Begin(policy, persistent, unsafe), events))
  {
    if events != [] {
      RunSound(policy, persistent, unsafe, events[..|events| - 1]);
      StepSound(Run(Begin(policy, persistent, unsafe), events[..|events| - 1]), events[|events| - 1]);
    }
  }

  // ---------- the exec gate ----------

  /** The program of an attempt starts only after a running frame that names this very process and
      attempt was committed, at every crash point and in every race. */
  lemma ExecutesOnlyAfterCommit(policy: Policy, persistent: bool, unsafe: bool, events: seq<Event>, e: Event)
    requires var w := Run(Begin(policy, persistent, unsafe), events); Executes(w, e)
    ensures var w := Run(Begin(policy, persistent, unsafe), events); Recorded(w, e.pid)
  {
    RunSound(policy, persistent, unsafe, events);
  }

  /** A launch that cannot go on: the move to running was lost, the manager died, preparation or
      the write of the token failed. */
  predicate Doomed(w: World, e: Event) {
    || (e.Crash? && Launching(w, e.m))
    || (e.CommitRunning? && e.m in w.managers && w.managers[e.m].activity.Spawned? && !Wins(w, e))
    || (e.PrepareFails? && e.m in w.managers && w.managers[e.m].activity.Spawned?)
    || (e.GateFails? && e.m in w.managers && w.managers[e.m].activity.Committed?)
  }

  ghost predicate Shut(w: World, p: nat) {
    p in w.processes && w.processes[p].gate == Closed && w.processes[p].phase != Runner
  }

  lemma ShutStays(w: World, e: Event, p: nat)
    requires Sound(w) && Shut(w, p)
    ensures Shut(Step(w, e), p)
  {
    ProcessesStay(w, e, p);
    ProcessStep(w, e, p);
    assert forall m :: m in w.managers && Launching(w, m) ==> Linked(w, m);
  }

  lemma DoomedShuts(w: World, e: Event)
    requires Sound(w) && Doomed(w, e)
    ensures Shut(Step(w, e), w.managers[e.m].activity.pid)
  {
    var p := w.managers[e.m].activity.pid;
    assert Linked(w, e.m);
    ProcessesStay(w, e, p);
    ProcessStep(w, e, p);
  }

  /** The gate of a doomed launch closes, and whatever happens afterwards its runner never starts. */
  lemma {:induction false} DoomedLaunchNeverRuns(w: World, e: Event, events: seq<Event>)
    requires Sound(w) && Doomed(w, e)
    ensures Sound(Run(Step(w, e), events)) && Shut(Run(Step(w, e), events), w.managers[e.m].activity.pid)
    decreases |events|
  {
    var p := w.managers[e.m].activity.pid;
    if events == [] {
      DoomedShuts(w, e);
      StepSound(w, e);
    } else {
      DoomedLaunchNeverRuns(w, e, events[..|events| - 1]);
      StepSound(Run(Step(w, e), events[..|events| - 1]), events[|events| - 1]);
      ShutStays(Run(Step(w, e), events[..|events| - 1]), events[|events| - 1], p);
    }
  }

  // ---------- one live attempt ----------

  ghost predicate AboutToOpen(w: World, p: nat) {
    exists m :: m in w.managers && w.managers[m].activity.Committed? && w.managers[m].activity.pid == p
  }

  /** A process that is a runner, or may still become one, and has not published its outcome. */
  ghost predicate Live(w: World, p: nat) {
    && p in w.processes && w.processes[p].phase != Dead && w.processes[p].attempt !in w.published
    && (w.processes[p].gate == Granted || AboutToOpen(w, p))
  }

  ghost predicate Holds(mk: Marker, host: nat, attempt: nat, p: nat) {
    && (mk.kind == Running || mk.kind == Cancelling)
    && mk.frame.attempt == Some(attempt) && mk.frame.process == Some(Identity(host, p))
  }

  ghost predicate Exclusive(w: World)
    requires |w.log| > 0
  {
    forall p :: Live(w, p) ==> Holds(Last(w), w.processes[p].host, w.processes[p].attempt, p)
  }

  lemma LiveBefore(w: World, e: Event, p: nat)
    requires Sound(w) && Live(Step(w, e), p)
    ensures Live(w, p) || (e.CommitRunning? && Wins(w, e) && w.managers[e.m].activity.pid == p)
    ensures p in w.processes
    ensures Step(w, e).processes[p].host == w.processes[p].host
    ensures Step(w, e).processes[p].attempt == w.processes[p].attempt
  {
    var w' := Step(w, e);
    ProcessStep(w, e, p);
    if AboutToOpen(w', p) {
      var m :| m in w'.managers && w'.managers[m].activity.Committed? && w'.managers[m].activity.pid == p;
      AboutToOpenBefore(w, e, p, m);
    } else {
      assert Opens(w, e) ==> Linked(w, e.m);
    }
  }

  lemma AboutToOpenBefore(w: World, e: Event, p: nat, m: nat)
    requires Sound(w) && m in Step(w, e).managers
    requires Step(w, e).managers[m].activity.Committed? && Step(w, e).managers[m].activity.pid == p
    ensures p in w.processes
    ensures AboutToOpen(w, p) || (e.CommitRunning? && Wins(w, e) && w.managers[e.m].activity.pid == p)
  {
    ActivityStep(w, e, m);
    assert Linked(w, m);
  }

  predicate Ends(e: Event) {
    e.CommitOutcome? || e.RejectOutcome? || e.PollExit? || e.Takeover? || e.FinishCancel?
  }

  lemma MovesOfAnAttempt(w: World, e: Event)
    requires Sound(w) && Wins(w, e) && (Last(w).kind == Running || Last(w).kind == Cancelling)
    ensures Ends(e) || e.GateFails? || e.Operator? || e.NoteCancel?
  {
    assert w.log[Proposal(w, e).value.seen] == Last(w);
    assert forall m :: m in w.managers ==> Linked(w, m);
  }

  /** Every move that ends an attempt rests on its outcome or on its death. */
  lemma EndsOnlyWithProof(w: World, e: Event, p: nat)
    requires Sound(w) && w.persistent && !w.unsafe && Wins(w, e) && Ends(e)
    requires p in w.processes && Holds(Last(w), w.processes[p].host, w.processes[p].attempt, p)
    ensures w.processes[p].phase == Dead || w.processes[p].attempt in w.published
  {
    assert w.log[Proposal(w, e).value.seen] == Last(w);
    assert Linked(w, e.m);
  }

  lemma FenceKeepsIdentity(w: World, e: Event, host: nat, attempt: nat, p: nat)
    requires |w.log| > 0 && Wins(w, e) && (e.Operator? || e.NoteCancel?) && Holds(Last(w), host, attempt, p)
    ensures Holds(Installed(w, e), host, attempt, p)
  {
    assert w.log[Proposal(w, e).value.seen] == Last(w);
  }

  /** The marker of a live attempt moves only within running and cancelling. */
  lemma LiveKeepsMarker(w: World, e: Event, p: nat)
    requires Sound(w) && w.persistent && !w.unsafe && Wins(w, e)
    requires Live(w, p) && Holds(Last(w), w.processes[p].host, w.processes[p].attempt, p)
    requires Live(Step(w, e), p)
    ensures Holds(Installed(w, e), w.processes[p].host, w.processes[p].attempt, p)
  {
    MovesOfAnAttempt(w, e);
    if Ends(e) {
      EndsOnlyWithProof(w, e, p);
    } else if e.GateFails? {
      GateFailsEndsLife(w, e, p);
    } else {
      FenceKeepsIdentity(w, e, w.processes[p].host, w.processes[p].attempt, p);
    }
  }

  lemma GateFailsEndsLife(w: World, e: Event, p: nat)
    requires Sound(w) && e.GateFails? && Wins(w, e) && p in w.processes
    requires Holds(Last(w), w.processes[p].host, w.processes[p].attempt, p)
    ensures !Live(Step(w, e), p)
  {
    assert Linked(w, e.m);
    var w' := Step(w, e);
    ProcessesStay(w, e, p);
    ProcessStep(w, e, p);
    forall m | m in w'.managers && w'.managers[m].activity.Committed?
      ensures w'.managers[m].activity.pid != p
    {
      StepLinked(w, e, m);
    }
  }

  lemma StepExclusive(w: World, e: Event)
    requires Sound(w) && w.persistent && !w.unsafe && Exclusive(w)
    ensures |Step(w, e).log| > 0 && Exclusive(Step(w, e))
  {
    var w' := Step(w, e);
    LogStep(w, e);
    forall p | Live(w', p)
      ensures Holds(Last(w'), w'.processes[p].host, w'.processes[p].attempt, p)
    {
      StepHolds(w, e, p);
    }
  }

  lemma StepHolds(w: World, e: Event, p: nat)
    requires Sound(w) && w.persistent && !w.unsafe && Exclusive(w) && Live(Step(w, e), p)
    ensures var w' := Step(w, e); |w'.log| > 0 && Holds(Last(w'), w'.processes[p].host, w'.processes[p].attempt, p)
  {
    LogStep(w, e);
    LiveBefore(w, e, p);
    if e.CommitRunning? && Wins(w, e) && w.managers[e.m].activity.pid == p {
      assert Linked(w, e.m);
      RunningInstalls(w, e);
    } else if Wins(w, e) {
      LiveKeepsMarker(w, e, p);
    }
  }

  lemma {:induction false} RunExclusive(policy: Policy, events: seq<Event>)
    ensures |Run(Begin(policy, true, false), events).log| > 0
    ensures Exclusive(Run(Begin(policy, true, false), events))
    ensures Run(Begin(policy, true, false), events).persistent && !Run(Begin(policy, true, false), events).unsafe
  {
    if events != [] {
      RunExclusive(policy, events[..|events| - 1]);
      RunSound(policy, true, false, events[..|events| - 1]);
      StepExclusive(Run(Begin(policy, true, false), events[..|events| - 1]), events[|events| - 1]);
    }
  }

  /** For a job with a persistent work directory and the unsafe override off: while the runner of an
      attempt is alive and has not published, the marker stays in running or cancelling and names
      it, whatever any number of managers do. */
  lemma LiveRunnerHoldsTheMarker(policy: Policy, events: seq<Event>, p: nat)
    requires var w := Run(Begin(policy, true, false), events);
             p in w.processes && w.processes[p].phase == Runner && w.processes[p].attempt !in w.published
    ensures var w := Run(Begin(policy, true, false), events);
            |w.log| > 0 && Holds(Last(w), w.processes[p].host, w.processes[p].attempt, p)
  {
    RunExclusive(policy, events);
    RunSound(policy, true, false, events);
    assert Live(Run(Begin(policy, true, false), events), p);
  }

  /** Hence no second attempt ever runs beside a live unpublished one. */
  lemma OneLiveRunner(policy: Policy, events: seq<Event>, p: nat, q: nat)
    requires var w := Run(Begin(policy, true, false), events);
             && p in w.processes && w.processes[p].phase == Runner && w.processes[p].attempt !in w.published
             && q in w.processes && w.processes[q].phase == Runner && w.processes[q].attempt !in w.published
    ensures p == q
  {
    LiveRunnerHoldsTheMarker(policy, events, p);
    LiveRunnerHoldsTheMarker(policy, events, q);
  }

  /** The exclusion is exactly as strong as the takeover rule: an up-to-date manager that does not
      track a live unpublished runner can take its job away if and only if the job is not
      persistent or the unsafe override is on. */
  lemma TakeoverAbandonsIffRelaxed(w: World, e: Event, p: nat)
    requires Sound(w) && e.Takeover? && e.m in w.managers && e.seen == |w.log| - 1
    requires p in w.processes && w.processes[p].phase == Runner && w.processes[p].attempt !in w.published
    requires w.processes[p].attempt !in w.managers[e.m].tracked
    requires Last(w).kind == Running && Holds(Last(w), w.processes[p].host, w.processes[p].attempt, p)
    ensures Wins(w, e) <==> !w.persistent || w.unsafe
    ensures Wins(w, e) ==>
      var w' := Step(w, e);
      && !Holds(Last(w'), w.processes[p].host, w.processes[p].attempt, p)
      && w'.processes[p].phase == Runner && w'.processes[p].attempt !in w'.published
  {
    LogStep(w, e);
  }
}
