/** A pause requested while an attempt is in flight is never lost. */
module JobPause {
  import opened Common
  import opened Job

  predicate InFlight(k: Kind) { k == Claimed || k == Running || k == Committing }

  /** How a requested pause may be left: by being honoured, or by leaving for good. */
  predicate Leaves(from: Frame, to: Marker) {
    (to.kind == Paused && to.frame.request == from.pause) || to.kind == Cancelling || Terminal(to.kind)
  }

  /** One step of a log: from a frame with a request, either the request is honoured or the same
      attempt stays in flight with a request on record. */
  ghost predicate KeepsRequest(a: Marker, b: Marker) {
    a.frame.pause.Some? ==>
      Leaves(a.frame, b) || (InFlight(b.kind) && b.frame.pause.Some? && b.frame.attempt == a.frame.attempt)
  }

  ghost predicate PauseSound(log: seq<Marker>) {
    && |log| > 0
    && (forall i :: 0 <= i < |log| && log[i].frame.pause.Some? ==> InFlight(log[i].kind))
    && (forall i :: 0 <= i < |log| - 1 ==> KeepsRequest(log[i], log[i + 1]))
  }

  /** Managers inside a launch still name the attempt of the marker they claimed. */
  ghost predicate LaunchesOwnClaim(w: World) {
    forall m :: m in w.managers ==> LaunchesClaim(w, m)
  }

  ghost predicate LaunchesClaim(w: World, m: nat)
    requires m in w.managers
  {
    var a := w.managers[m].activity;
    a.Preparing? || a.Spawned? ==> a.seen < |w.log| && w.log[a.seen].frame.attempt == Some(a.attempt)
  }

  lemma MoveKeepsRequest(w: World, e: Event)
    requires PauseSound(w.log) && LaunchesOwnClaim(w) && Wins(w, e)
    ensures KeepsRequest(Last(w), Installed(w, e))
  {
    if e.Finish? {
      FinishInstalls(w, e);
      FinishKeeps(w, e.seen, e.action);
    } else if e.Operator? {
      OperatorInstalls(w, e);
      OperatorKeeps(w, e.seen, e.request);
    } else {
      PlainKeeps(w, e);
    }
  }

  lemma FinishKeeps(w: World, seen: nat, action: Action)
    requires seen < |w.log| && w.log[seen].kind == Committing
    ensures var move := FinishMove(w, seen, action).value;
      KeepsRequest(w.log[seen], Settled(w.log[seen], move.kind, move.updates))
  {
  }

  lemma OperatorKeeps(w: World, seen: nat, request: Request)
    requires seen < |w.log| && OperatorMove(w, seen, request).Some?
    requires w.log[seen].frame.pause.Some? ==> InFlight(w.log[seen].kind)
    ensures var move := OperatorMove(w, seen, request).value;
      KeepsRequest(w.log[seen], Settled(w.log[seen], move.kind, move.updates))
  {
  }

  predicate OfLaunch(e: Event) { e.ReleaseOwn? || e.PrepareFails? || e.CommitRunning? || e.GateFails? }

  lemma PlainKeeps(w: World, e: Event)
    requires PauseSound(w.log) && LaunchesOwnClaim(w) && Wins(w, e) && !e.Finish? && !e.Operator?
    ensures KeepsRequest(Last(w), Installed(w, e))
  {
    if OfLaunch(e) { LaunchKeeps(w, e); } else { ScanKeeps(w, e); }
  }

  lemma LaunchKeeps(w: World, e: Event)
    requires |w.log| > 0 && LaunchesOwnClaim(w) && Wins(w, e) && OfLaunch(e)
    ensures KeepsRequest(Last(w), Installed(w, e))
  {
    assert w.log[Proposal(w, e).value.seen] == Last(w);
    assert LaunchesClaim(w, e.m);
  }

  lemma ScanKeeps(w: World, e: Event)
    requires PauseSound(w.log) && Wins(w, e) && !e.Finish? && !e.Operator? && !OfLaunch(e)
    ensures KeepsRequest(Last(w), Installed(w, e))
  {
    assert w.log[Proposal(w, e).value.seen] == Last(w);
  }

  lemma MoveRequestsInFlight(w: World, e: Event)
    requires PauseSound(w.log) && LaunchesOwnClaim(w) && Wins(w, e)
    ensures Installed(w, e).frame.pause.Some? ==> InFlight(Installed(w, e).kind)
  {
    if e.Finish? {
      FinishInstalls(w, e);
    } else if e.Operator? {
      OperatorInstalls(w, e);
    } else {
      PlainInFlight(w, e);
    }
  }

  lemma PlainInFlight(w: World, e: Event)
    requires PauseSound(w.log) && LaunchesOwnClaim(w) && Wins(w, e) && !e.Finish? && !e.Operator?
    ensures Installed(w, e).frame.pause.Some? ==> InFlight(Installed(w, e).kind)
  {
    assert w.log[Proposal(w, e).value.seen] == Last(w);
  }

  lemma StepKeepsPause(w: World, e: Event)
    requires PauseSound(w.log) && LaunchesOwnClaim(w)
    ensures PauseSound(Step(w, e).log) && LaunchesOwnClaim(Step(w, e))
  {
    StepPauseSound(w, e);
    StepLaunches(w, e);
  }

  lemma StepPauseSound(w: World, e: Event)
    requires PauseSound(w.log) && LaunchesOwnClaim(w)
    ensures PauseSound(Step(w, e).log)
  {
    LogStep(w, e);
    if Wins(w, e) {
      MoveKeepsRequest(w, e);
      MoveRequestsInFlight(w, e);
      GrownSound(w.log, Installed(w, e));
    }
  }

  lemma StepLaunches(w: World, e: Event)
    requires |w.log| > 0 && LaunchesOwnClaim(w)
    ensures LaunchesOwnClaim(Step(w, e))
  {
    forall m | m in Step(w, e).managers
      ensures LaunchesClaim(Step(w, e), m)
    {
      StepLaunchesClaim(w, e, m);
    }
  }

  lemma GrownSound(log: seq<Marker>, next: Marker)
    requires PauseSound(log) && KeepsRequest(log[|log| - 1], next) && (next.frame.pause.Some? ==> InFlight(next.kind))
    ensures PauseSound(log + [next])
  {
  }

  lemma StepLaunchesClaim(w: World, e: Event, m: nat)
    requires |w.log| > 0 && LaunchesOwnClaim(w) && m in Step(w, e).managers
    ensures LaunchesClaim(Step(w, e), m)
  {
    LogStep(w, e);
    ActivityStep(w, e, m);
    assert m in w.managers ==> LaunchesClaim(w, m);
    if Claims(w, e) {
      ClaimInstalls(w, e);
    }
  }

  lemma {:induction false} RunKeepsPause(policy: Policy, persistent: bool, unsafe: bool, events: seq<Event>)
    ensures PauseSound(Run(Begin(policy, persistent, unsafe), events).log)
    ensures LaunchesOwnClaim(Run(Begin(policy, persistent, unsafe), events))
  {
    if events != [] {
      RunKeepsPause(policy, persistent, unsafe, events[..|events| - 1]);
      StepKeepsPause(Run(Begin(policy, persistent, unsafe), events[..|events| - 1]), events[|events| - 1]);
    }
  }

  lemma {:induction false} RequestUntilHonoured(log: seq<Marker>, i: nat, j: nat)
    requires PauseSound(log) && i <= j < |log| && log[i].frame.pause.Some?
    ensures
      || (InFlight(log[j].kind) && log[j].frame.pause.Some? && log[j].frame.attempt == log[i].frame.attempt)
      || (exists k :: i < k <= j && log[k - 1].frame.pause.Some? && Leaves(log[k - 1].frame, log[k]))
    decreases j - i
  {
    if i < j {
      RequestUntilHonoured(log, i, j - 1);
      assert KeepsRequest(log[j - 1], log[j]);
    }
  }

  /** Over every run of any number of managers: from the frame that records a pause request on, the
      job stays in flight in the same attempt with a request on record until a frame that pauses it
      under the recorded request, or that leaves through cancelling or a terminal state. It is
      never ready, waiting, or launched for another attempt in between. */
  lemma PauseIsNeverLost(policy: Policy, persistent: bool, unsafe: bool, events: seq<Event>, i: nat, j: nat)
    requires var log := Run(Begin(policy, persistent, unsafe), events).log;
             i <= j < |log| && log[i].frame.pause.Some?
    ensures var log := Run(Begin(policy, persistent, unsafe), events).log;
      || (InFlight(log[j].kind) && log[j].frame.pause.Some? && log[j].frame.attempt == log[i].frame.attempt)
      || (exists k :: i < k <= j && log[k - 1].frame.pause.Some? && Leaves(log[k - 1].frame, log[k]))
  {
    RunKeepsPause(policy, persistent, unsafe, events);
    RequestUntilHonoured(Run(Begin(policy, persistent, unsafe), events).log, i, j);
  }

  /** The request is recorded nowhere but in claimed, running and committing frames. */
  lemma RequestOnlyInFlight(policy: Policy, persistent: bool, unsafe: bool, events: seq<Event>)
    ensures forall mk :: mk in Run(Begin(policy, persistent, unsafe), events).log && mk.frame.pause.Some? ==>
      InFlight(mk.kind)
  {
    RunKeepsPause(policy, persistent, unsafe, events);
  }
}
