/** What every marker of a job's history says about how it came about: the kinds, the counters and the
    identities, for every run of any number of managers. */
module JobHistory {
  import opened Common
  import opened Job
  import L = JobLaunch

  /** The event moves the marker. */
  ghost predicate Appends(w: World, e: Event) { |w.log| > 0 && |Step(w, e).log| == |w.log| + 1 }

  /** The marker the event leaves. */
  ghost function After(w: World, e: Event): Marker
    requires Appends(w, e)
  {
    Step(w, e).log[|w.log|]
  }

  // ---------- when an event moves the marker ----------

  /** The snapshot is current and of this kind, in the hands of a manager that is alive. */
  ghost predicate Holds(w: World, m: nat, seen: nat, kind: Kind) {
    m in w.managers && |w.log| == seen + 1 && w.log[seen].kind == kind
  }

  /** The marker the manager's launch works on is still the last one. */
  ghost predicate Launches(w: World, m: nat) {
    m in w.managers && !w.managers[m].activity.Idle? && w.managers[m].activity.seen == |w.log| - 1
  }

  ghost predicate IsPublished(w: World, seen: nat)
    requires seen < |w.log|
  {
    w.log[seen].frame.attempt.Some? && w.log[seen].frame.attempt.value in w.published
  }

  /** The manager has the attempt of the marker in its table. */
  ghost predicate Tracks(w: World, m: nat, seen: nat)
    requires m in w.managers && seen < |w.log|
  {
    w.log[seen].frame.attempt.Some? && w.log[seen].frame.attempt.value in w.managers[m].tracked
  }

  /** The process it has for that attempt is dead. */
  ghost predicate TracksDead(w: World, m: nat, seen: nat)
    requires m in w.managers && seen < |w.log|
  {
    && Tracks(w, m, seen)
    && var pid := w.managers[m].tracked[w.log[seen].frame.attempt.value];
       pid in w.processes && w.processes[pid].phase == Dead
  }

  /** The process the marker names ran on the manager's host and is dead. */
  ghost predicate NamesDead(w: World, m: nat, seen: nat)
    requires m in w.managers && seen < |w.log|
  {
    var f := w.log[seen].frame;
    && f.process.Some? && f.process.value.host == w.managers[m].host
    && f.process.value.pid in w.processes && w.processes[f.process.value.pid].phase == Dead
  }

  /** When an event moves the marker. */
  ghost predicate Enabled(w: World, e: Event) {
    match e
    case Register(m, seen, _) => Holds(w, m, seen, Submitted)
    case Claim(m, seen, attempt) =>
      Holds(w, m, seen, Ready) && w.managers[m].activity.Idle? && attempt !in w.attempts
    case ReleaseOwn(m) => Launches(w, m) && w.managers[m].activity.Preparing?
    case PrepareFails(m, _) =>
      Launches(w, m) && (w.managers[m].activity.Preparing? || w.managers[m].activity.Spawned?)
    case CommitRunning(m) => Launches(w, m) && w.managers[m].activity.Spawned?
    case GateFails(m, _) => Launches(w, m) && w.managers[m].activity.Committed?
    case CommitOutcome(m, seen) => Holds(w, m, seen, Running) && IsPublished(w, seen)
    case RejectOutcome(m, seen, _) => Holds(w, m, seen, Running) && IsPublished(w, seen)
    case PollExit(m, seen, _) => Holds(w, m, seen, Running) && TracksDead(w, m, seen)
    case Takeover(m, seen, _) =>
      Holds(w, m, seen, Running) && !Tracks(w, m, seen) && (NamesDead(w, m, seen) || !w.persistent || w.unsafe)
    case Recover(m, seen) => Holds(w, m, seen, Claimed)
    case Finish(m, seen, _) => Holds(w, m, seen, Committing)
    case DecideJoin(m, seen, _) => Holds(w, m, seen, Waiting)
    case FinishCancel(m, seen) =>
      && Holds(w, m, seen, Cancelling) && w.log[seen].frame.process.Some?
      && if Tracks(w, m, seen) then TracksDead(w, m, seen) else NamesDead(w, m, seen)
    case NoteCancel(m, seen) => Holds(w, m, seen, Cancelling)
    case Operator(m, seen, request) =>
      m in w.managers && |w.log| == seen + 1 && Accepts(request, w.log[seen])
    case _ => false
  }

  /** The markers an operator request acts on. */
  ghost predicate Accepts(request: Request, from: Marker) {
    match request
    case Cancel => from.kind !in {Succeeded, Failed, Cancelled, Cancelling}
    case SetPriority => from.kind in {Submitted, Ready, Waiting, Paused, Failed}
    case Pause(_) => from.kind in {Submitted, Ready, Waiting, Claimed, Running, Committing}
    case Continue => from.kind in {Failed, Paused} && from.frame.activation.Some?
    case Override => from.kind in {Failed, Paused}
  }

  lemma AppendsIffEnabled(w: World, e: Event)
    requires |w.log| > 0
    ensures Appends(w, e) <==> Enabled(w, e)
  {
    AppendsIffWins(w, e);
    if e.Operator? { OperatorEnabled(w, e); } else { WinsIffEnabled(w, e); }
  }

  lemma AppendsIffWins(w: World, e: Event)
    requires |w.log| > 0
    ensures Appends(w, e) <==> Wins(w, e)
  {
  }

  lemma OperatorEnabled(w: World, e: Event)
    requires |w.log| > 0 && e.Operator?
    ensures Wins(w, e) <==> Enabled(w, e)
  {
  }

  lemma WinsIffEnabled(w: World, e: Event)
    requires |w.log| > 0 && !e.Operator?
    ensures Wins(w, e) <==> Enabled(w, e)
  {
  }

  // ---------- what the events are about ----------

  ghost predicate Pending(w: World)
    requires |w.log| > 0
  {
    Last(w).frame.pause.Some?
  }

  ghost predicate Requests(e: Event, request: Request) { e.Operator? && e.request == request }

  ghost predicate Finishes(e: Event, action: Action) { e.Finish? && e.action == action }

  ghost predicate Decides(e: Event, verdict: Verdict) { e.DecideJoin? && e.verdict == verdict }

  /** The activation is over and the next one is due. */
  ghost predicate EndsActivation(e: Event) {
    Finishes(e, Advance) || Decides(e, Satisfied) || Decides(e, Impossible(true)) || Requests(e, Override)
  }

  /** No further activation is allowed; an activation that is not recorded is the first. */
  ghost predicate LastActivation(w: World)
    requires |w.log| > 0
  {
    var f := Last(w).frame;
    w.policy.activations.Some? && (if f.activation.Some? then f.activation.value else 1) >= w.policy.activations.value
  }

  /** The attempt failed, outside an outcome, before or after it ran. */
  ghost predicate FailsAttempt(w: World, e: Event)
    requires |w.log| > 0
  {
    || e.PrepareFails? || e.GateFails? || e.RejectOutcome? || e.Takeover?
    || (e.PollExit? && !(Last(w).frame.attempt.Some? && Last(w).frame.attempt.value in w.published))
  }

  /** The attempt is to be repeated in the same activation. */
  ghost predicate WantsRetry(w: World, e: Event)
    requires |w.log| > 0
  {
    || (FailsAttempt(w, e) && e.retry) || Finishes(e, Retry) || Requests(e, Continue)
    || (Finishes(e, Fail(true)) && !TotalSpent(w))
  }

  /** The activation has had all its attempts; an ordinal that is not recorded is the first. */
  ghost predicate LastAttempt(w: World)
    requires |w.log| > 0
  {
    var f := Last(w).frame;
    w.policy.perActivation.Some? && (if f.ordinal.Some? then f.ordinal.value else 1) >= w.policy.perActivation.value
  }

  /** The job has had all its attempts; a total that is not recorded is that of this activation. */
  ghost predicate TotalSpent(w: World)
    requires |w.log| > 0
  {
    var f := Last(w).frame;
    w.policy.total.Some? && w.policy.total.value <=
      if f.total.Some? then f.total.value else if f.ordinal.Some? then f.ordinal.value else 1
  }

  /** A claim that no limit forbids. */
  ghost predicate Affordable(w: World)
    requires |w.log| > 0
  {
    var f, policy := Last(w).frame, w.policy;
    && (policy.perActivation.Some? ==> (if f.ordinal.Some? then f.ordinal.value else 0) < policy.perActivation.value)
    && (policy.total.Some? ==> (if f.total.Some? then f.total.value else 0) < policy.total.value)
  }

  ghost predicate GivesBack(e: Event) { e.ReleaseOwn? || e.Recover? }

  /** A published outcome is taken into the commit. */
  ghost predicate BeginsCommit(w: World, e: Event)
    requires |w.log| > 0
  {
    e.CommitOutcome? || (e.PollExit? && !FailsAttempt(w, e))
  }

  ghost predicate PausesInFlight(w: World, e: Event)
    requires |w.log| > 0
  {
    e.Operator? && e.request.Pause? && Last(w).kind in {Claimed, Running, Committing}
  }

  // ---------- kinds ----------

  /** The event leads to ready. */
  ghost predicate SeeksReady(w: World, e: Event)
    requires |w.log| > 0
  {
    || (e.Register? && e.valid) || GivesBack(e)
    || (WantsRetry(w, e) && !LastAttempt(w)) || (EndsActivation(e) && !LastActivation(w))
    || (Requests(e, SetPriority) && Last(w).kind == Ready)
  }

  /** The event leads to waiting. */
  ghost predicate SeeksWaiting(w: World, e: Event)
    requires |w.log| > 0
  {
    Finishes(e, Wait) || Decides(e, Unresolved) || (Requests(e, SetPriority) && Last(w).kind == Waiting)
  }

  /** The event leads to paused whether or not a pause is pending. */
  ghost predicate SeeksPaused(w: World, e: Event)
    requires |w.log| > 0
  {
    || Finishes(e, PauseStep) || (Requests(e, SetPriority) && Last(w).kind == Paused)
    || (e.Operator? && e.request.Pause? && Last(w).kind in {Submitted, Ready, Waiting})
  }

  ghost predicate SeeksFailed(w: World, e: Event)
    requires |w.log| > 0
  {
    || (e.Register? && !e.valid)
    || (e.Claim? && !Pending(w) && !Affordable(w))
    || (FailsAttempt(w, e) && !e.retry) || (WantsRetry(w, e) && LastAttempt(w))
    || Finishes(e, Fail(false)) || (Finishes(e, Fail(true)) && TotalSpent(w)) || Finishes(e, Corrupt)
    || (EndsActivation(e) && LastActivation(w))
    || Decides(e, Impossible(false)) || Decides(e, Unresolvable)
    || (Requests(e, SetPriority) && Last(w).kind == Failed)
  }

  /** Why a marker has its kind, both ways: which events lead to each kind, and when. */
  ghost predicate KindExplained(w: World, e: Event, kind: Kind)
    requires |w.log| > 0
  {
    var from := Last(w).kind;
    && (kind == Succeeded <==> Finishes(e, Succeed))
    && (kind == Failed <==> SeeksFailed(w, e))
    && (kind == Cancelled <==> e.FinishCancel? || (Requests(e, Cancel) && from != Running))
    && (kind == Cancelling <==> e.NoteCancel? || (Requests(e, Cancel) && from == Running))
    && (kind == Ready <==> SeeksReady(w, e) && !Pending(w))
    && (kind == Waiting <==> SeeksWaiting(w, e) && !Pending(w))
    && (kind == Paused <==>
          || SeeksPaused(w, e)
          || (Pending(w) && (SeeksReady(w, e) || SeeksWaiting(w, e) || e.Claim?)))
    && (kind == Claimed <==> (e.Claim? && !Pending(w) && Affordable(w)) || (PausesInFlight(w, e) && from == Claimed))
    && (kind == Running <==> e.CommitRunning? || (PausesInFlight(w, e) && from == Running))
    && (kind == Committing <==> BeginsCommit(w, e) || (PausesInFlight(w, e) && from == Committing))
    && (kind == Submitted <==> Requests(e, SetPriority) && from == Submitted)
    && kind != Relocating && kind != Transferring
  }

  // ---------- frames ----------

  /** The next activation begins. */
  ghost predicate StartsNext(w: World, e: Event)
    requires |w.log| > 0
  {
    EndsActivation(e) && !LastActivation(w)
  }

  /** A new attempt is charged. */
  ghost predicate Charges(w: World, e: Event)
    requires |w.log| > 0
  {
    e.Claim? && !Pending(w) && Affordable(w)
  }

  /** The counters of a marker: which activation, how many attempts in it and in all, and which attempt. */
  ghost predicate CountersExplained(w: World, e: Event, f: Frame)
    requires |w.log| > 0
  {
    var was := Last(w).frame;
    if e.Register? then
      if e.valid then f == Frame(Some(1), Some(0), Some(0), None, None, None, None, was.pause)
      else f == Frame(None, None, None, None, None, None, None, None)
    else
      && f.activation ==
        (if StartsNext(w, e) then Some((if was.activation.Some? then was.activation.value else 1) + 1)
         else was.activation)
      && f.ordinal ==
        (if StartsNext(w, e) then Some(0)
         else if Charges(w, e) then Some((if was.ordinal.Some? then was.ordinal.value else 0) + 1)
         else if GivesBack(e) then Some(OneLess(was.ordinal))
         else was.ordinal)
      && f.total ==
        (if Charges(w, e) then Some((if was.total.Some? then was.total.value else 0) + 1)
         else if GivesBack(e) then Some(OneLess(was.total))
         else was.total)
      && f.attempt ==
        (if Charges(w, e) then Some(e.attempt)
         else if e.CommitRunning? && e.m in w.managers && w.managers[e.m].activity.Spawned?
         then Some(w.managers[e.m].activity.attempt)
         else was.attempt)
  }

  ghost function OneLess(o: Option<nat>): nat {
    if o.Some? && o.value > 1 then o.value - 1 else 0
  }

  /** The whole frame is repeated. */
  ghost predicate Repeats(w: World, e: Event)
    requires |w.log| > 0
  {
    e.NoteCancel? || e.FinishCancel? || Requests(e, Cancel) || PausesInFlight(w, e)
  }

  /** The recorded process stays on record. */
  ghost predicate KeepsProcess(w: World, e: Event)
    requires |w.log| > 0
  {
    || Repeats(w, e) || BeginsCommit(w, e) || Finishes(e, PauseStep) || Finishes(e, Corrupt)
    || (FailsAttempt(w, e) && !e.retry)
    || (Pending(w) && (e.Finish? || EndsActivation(e) || WantsRetry(w, e)))
  }

  /** Who owns the marker, which process it names, which pause it still owes and which it answers. */
  ghost predicate IdentityExplained(w: World, e: Event, kind: Kind, f: Frame)
    requires |w.log| > 0
  {
    var was := Last(w).frame;
    && f.owner ==
      (if Charges(w, e) || e.CommitRunning? || BeginsCommit(w, e) then Some(e.m)
       else if Repeats(w, e) then was.owner else None)
    && (if e.CommitRunning? then
          e.m in w.managers && w.managers[e.m].activity.Spawned?
            && f.process == Some(Identity(w.managers[e.m].host, w.managers[e.m].activity.pid))
        else f.process == if KeepsProcess(w, e) then was.process else None)
    && f.pause ==
      (if PausesInFlight(w, e) then Some(e.request.id)
       else if kind in {Submitted, Claimed, Running, Committing} then was.pause else None)
    && f.request ==
      (if kind == Paused && Pending(w) then was.pause
       else if Repeats(w, e) && !Requests(e, Cancel) then was.request else None)
  }

  /** What a marker keeps of the one before it. */
  ghost predicate Explained(w: World, e: Event, to: Marker)
    requires |w.log| > 0
  {
    && KindExplained(w, e, to.kind) && CountersExplained(w, e, to.frame)
    && (!e.Register? ==> IdentityExplained(w, e, to.kind, to.frame))
  }

  lemma Moved(w: World, e: Event)
    requires Appends(w, e)
    ensures Wins(w, e) && After(w, e) == Target(w, Proposal(w, e).value)
  {
  }

  /** Where a move from the last marker leads. */
  ghost function Target(w: World, move: Move): Marker
    requires |w.log| > 0
  {
    Settled(Last(w), move.kind, move.updates)
  }

  lemma StepExplained(w: World, e: Event)
    requires Appends(w, e)
    ensures Explained(w, e, After(w, e))
  {
    Moved(w, e);
    var move := Proposal(w, e).value;
    if e.Operator? {
      OperatorExplained(w, e, move);
    } else if e.Finish? {
      FinishExplained(w, e, move);
    } else if e.DecideJoin? {
      JoinExplained(w, e, move);
    } else if FailsAttempt(w, e) {
      FailureProposal(w, e);
      FailureExplained(w, e, move);
    } else if BeginsCommit(w, e) {
      CommitExplained(w, e, move);
    } else if e.Claim? {
      ClaimProposal(w, e);
      ClaimExplained(w, e, move);
    } else if GivesBack(e) {
      ReleaseProposal(w, e);
      ReleaseExplained(w, e, move);
    } else if e.Register? {
      RegisterExplained(w, e, move);
    } else if e.CommitRunning? {
      RunningExplained(w, e, move);
    } else {
      CancelProposal(w, e);
      CancelExplained(w, e, move);
    }
  }

  lemma OperatorExplained(w: World, e: Event, move: Move)
    requires |w.log| > 0 && e.Operator? && OperatorMove(w, |w.log| - 1, e.request) == Some(move)
    ensures Explained(w, e, Target(w, move))
  {
    OperatorKinds(w, e, move);
    OperatorCounters(w, e, move);
    OperatorIdentity(w, e, move);
  }

  lemma OperatorIdentity(w: World, e: Event, move: Move)
    requires |w.log| > 0 && e.Operator? && OperatorMove(w, |w.log| - 1, e.request) == Some(move)
    ensures IdentityExplained(w, e, Target(w, move).kind, Target(w, move).frame)
  {
  }

  lemma OperatorCounters(w: World, e: Event, move: Move)
    requires |w.log| > 0 && e.Operator? && OperatorMove(w, |w.log| - 1, e.request) == Some(move)
    ensures CountersExplained(w, e, Target(w, move).frame)
  {
  }

  lemma OperatorKinds(w: World, e: Event, move: Move)
    requires |w.log| > 0 && e.Operator? && OperatorMove(w, |w.log| - 1, e.request) == Some(move)
    ensures KindExplained(w, e, Target(w, move).kind)
  {
  }

  lemma FinishExplained(w: World, e: Event, move: Move)
    requires |w.log| > 0 && e.Finish? && Last(w).kind == Committing
    requires FinishMove(w, |w.log| - 1, e.action) == Some(move)
    ensures Explained(w, e, Target(w, move))
  {
    FinishKinds(w, e, move);
    FinishCounters(w, e, move);
  }

  lemma FinishKinds(w: World, e: Event, move: Move)
    requires |w.log| > 0 && e.Finish? && Last(w).kind == Committing
    requires FinishMove(w, |w.log| - 1, e.action) == Some(move)
    ensures KindExplained(w, e, Target(w, move).kind)
  {
  }

  lemma FinishCounters(w: World, e: Event, move: Move)
    requires |w.log| > 0 && e.Finish? && Last(w).kind == Committing
    requires FinishMove(w, |w.log| - 1, e.action) == Some(move)
    ensures CountersExplained(w, e, Target(w, move).frame)
  {
  }

  lemma JoinExplained(w: World, e: Event, move: Move)
    requires |w.log| > 0 && e.DecideJoin? && Last(w).kind == Waiting
    requires JoinMove(w, |w.log| - 1, e.verdict) == Some(move)
    ensures Explained(w, e, Target(w, move))
  {
    JoinKinds(w, e, move);
    JoinCounters(w, e, move);
  }

  lemma JoinCounters(w: World, e: Event, move: Move)
    requires |w.log| > 0 && e.DecideJoin? && Last(w).kind == Waiting
    requires JoinMove(w, |w.log| - 1, e.verdict) == Some(move)
    ensures CountersExplained(w, e, Target(w, move).frame)
  {
  }

  lemma JoinKinds(w: World, e: Event, move: Move)
    requires |w.log| > 0 && e.DecideJoin? && Last(w).kind == Waiting
    requires JoinMove(w, |w.log| - 1, e.verdict) == Some(move)
    ensures KindExplained(w, e, Target(w, move).kind)
  {
  }

  lemma FailureProposal(w: World, e: Event)
    requires |w.log| > 0 && Wins(w, e) && FailsAttempt(w, e)
    ensures Proposal(w, e) == To(|w.log| - 1, AttemptFailed(w.policy, Last(w).frame, e.retry))
  {
  }

  lemma FailureExplained(w: World, e: Event, move: Move)
    requires |w.log| > 0 && FailsAttempt(w, e)
    requires Some(move) == To(|w.log| - 1, AttemptFailed(w.policy, Last(w).frame, e.retry))
    ensures Explained(w, e, Target(w, move))
  {
    FailureKinds(w, e, move);
  }

  lemma FailureKinds(w: World, e: Event, move: Move)
    requires |w.log| > 0 && FailsAttempt(w, e)
    requires Some(move) == To(|w.log| - 1, AttemptFailed(w.policy, Last(w).frame, e.retry))
    ensures KindExplained(w, e, Target(w, move).kind)
  {
  }

  lemma CommitExplained(w: World, e: Event, move: Move)
    requires |w.log| > 0 && Wins(w, e) && Proposal(w, e) == Some(move) && BeginsCommit(w, e)
    ensures Explained(w, e, Target(w, move))
  {
  }

  lemma ClaimProposal(w: World, e: Event)
    requires |w.log| > 0 && Wins(w, e) && e.Claim?
    ensures Proposal(w, e) == ClaimMove(w, e.m, |w.log| - 1, e.attempt) && Last(w).kind == Ready
  {
  }

  lemma ClaimExplained(w: World, e: Event, move: Move)
    requires |w.log| > 0 && e.Claim? && Last(w).kind == Ready
    requires ClaimMove(w, e.m, |w.log| - 1, e.attempt) == Some(move)
    ensures Explained(w, e, Target(w, move))
  {
    ClaimKinds(w, e, move);
  }

  lemma ClaimKinds(w: World, e: Event, move: Move)
    requires |w.log| > 0 && e.Claim? && Last(w).kind == Ready
    requires ClaimMove(w, e.m, |w.log| - 1, e.attempt) == Some(move)
    ensures KindExplained(w, e, Target(w, move).kind)
  {
  }

  lemma ReleaseProposal(w: World, e: Event)
    requires |w.log| > 0 && Wins(w, e) && GivesBack(e)
    ensures Proposal(w, e) == To(|w.log| - 1, Released(Last(w).frame))
  {
  }

  lemma ReleaseExplained(w: World, e: Event, move: Move)
    requires |w.log| > 0 && GivesBack(e) && Some(move) == To(|w.log| - 1, Released(Last(w).frame))
    ensures Explained(w, e, Target(w, move))
  {
  }

  lemma RegisterExplained(w: World, e: Event, move: Move)
    requires |w.log| > 0 && Wins(w, e) && Proposal(w, e) == Some(move) && e.Register?
    ensures Explained(w, e, Target(w, move))
  {
  }

  lemma RunningExplained(w: World, e: Event, move: Move)
    requires |w.log| > 0 && Wins(w, e) && Proposal(w, e) == Some(move) && e.CommitRunning?
    ensures Explained(w, e, Target(w, move))
  {
  }

  lemma CancelProposal(w: World, e: Event)
    requires |w.log| > 0 && Wins(w, e) && (e.NoteCancel? || e.FinishCancel?)
    ensures Proposal(w, e) ==
      Some(Move(|w.log| - 1, if e.NoteCancel? then Cancelling else Cancelled, Last(w).frame))
  {
  }

  lemma CancelExplained(w: World, e: Event, move: Move)
    requires |w.log| > 0 && (e.NoteCancel? || e.FinishCancel?)
    requires move == Move(|w.log| - 1, if e.NoteCancel? then Cancelling else Cancelled, Last(w).frame)
    ensures Explained(w, e, Target(w, move))
  {
  }

  // ---------- what else an event changes ----------

  /** A running program publishes, a launcher starts its program, an attempt is claimed: in no other way
      does one of these sets grow, and none ever shrinks. */
  lemma RecordsStep(w: World, e: Event, a: nat)
    ensures a in Step(w, e).published <==>
      a in w.published || (e.Publish? && e.pid in w.processes && w.processes[e.pid].phase == Runner
                           && w.processes[e.pid].attempt == a)
    ensures a in Step(w, e).executed <==>
      a in w.executed || exists p :: Starts(w, e, p) && w.processes[p].attempt == a
    ensures a in Step(w, e).attempts <==> a in w.attempts || (e.Claim? && e.attempt == a)
  {
    if e.LauncherReads? && Executes(w, e) { assert Starts(w, e, e.pid); }
  }

  /** The launcher reads the token and becomes the program. */
  ghost predicate Starts(w: World, e: Event, p: nat) {
    e == LauncherReads(p) && p in w.processes && w.processes[p].phase == Launcher && w.processes[p].gate == Granted
  }

  /** The manager of this launch writes the token. */
  ghost predicate Grants(w: World, e: Event, p: nat) {
    e.OpenGate? && e.m in w.managers && w.managers[e.m].activity.Committed? && w.managers[e.m].activity.pid == p
  }

  /** The pipe of this launch is closed without a token: its manager died, gave the launch up, or lost the
      move to running. */
  ghost predicate Shuts(w: World, e: Event, p: nat) {
    && (e.Crash? || e.PrepareFails? || e.GateFails? || e.CommitRunning?) && e.m in w.managers
    && var a := w.managers[e.m].activity;
       || (a.Spawned? && a.pid == p && (e.Crash? || e.PrepareFails? || (e.CommitRunning? && a.seen != |w.log| - 1)))
       || (a.Committed? && a.pid == p && (e.Crash? || e.GateFails?))
  }

  /** What becomes of a process, exactly. */
  lemma ProcessExplained(w: World, e: Event, p: nat)
    ensures p in Step(w, e).processes <==>
      || p in w.processes
      || (e.Spawn? && e.pid == p && e.m in w.managers && w.managers[e.m].activity.Preparing?)
    ensures p in w.processes ==>
      var x, y := w.processes[p], Step(w, e).processes[p];
      && (y.phase == Dead <==>
            x.phase == Dead || e == Dies(p) || (e == LauncherReads(p) && x.phase == Launcher && x.gate == Closed))
      && (y.phase == Runner <==> (x.phase == Runner && e != Dies(p)) || Starts(w, e, p))
      && y.gate == if Grants(w, e, p) then Granted else if Shuts(w, e, p) then Closed else x.gate
  {
    assert Step(w, e).processes == Processes(w, e);
    if p in w.processes {
      PhaseExplained(w, e, p);
      GateExplained(w, e, p);
    }
  }

  lemma PhaseExplained(w: World, e: Event, p: nat)
    requires p in w.processes
    ensures p in Processes(w, e)
    ensures var x, y := w.processes[p], Processes(w, e)[p];
      && (y.phase == Dead <==>
            x.phase == Dead || e == Dies(p) || (e == LauncherReads(p) && x.phase == Launcher && x.gate == Closed))
      && (y.phase == Runner <==> (x.phase == Runner && e != Dies(p)) || Starts(w, e, p))
  {
  }

  lemma GateExplained(w: World, e: Event, p: nat)
    requires p in w.processes
    ensures p in Processes(w, e)
    ensures Processes(w, e)[p].gate ==
      if Grants(w, e, p) then Granted else if Shuts(w, e, p) then Closed else w.processes[p].gate
  {
  }

  /** Which attempts a manager has in its table: it gains the one whose gate it opens, and loses one when it
      reaps it, finishes its cancellation or sweeps it, each time with the process dead. */
  lemma TableExplained(w: World, e: Event, m: nat, a: nat)
    requires m in w.managers && m in Step(w, e).managers
    ensures a in Step(w, e).managers[m].tracked <==>
      || (e == OpenGate(m) && w.managers[m].activity.Committed? && w.managers[m].activity.attempt == a)
      || (a in w.managers[m].tracked && !Forgets(w, e, m, a))
  {
    if Acts(e, m) && !e.Start? {
      OwnStep(w, e, m);
      OwnTable(w, e, m, a);
    } else {
      OthersLeave(w, e, m);
    }
  }

  lemma OwnTable(w: World, e: Event, m: nat, a: nat)
    requires m in w.managers && Acts(e, m) && !e.Start? && !e.Crash?
    ensures a in ManagerAfter(w, e, m).tracked <==>
      || (e == OpenGate(m) && w.managers[m].activity.Committed? && w.managers[m].activity.attempt == a)
      || (a in w.managers[m].tracked && !Forgets(w, e, m, a))
  {
  }

  ghost predicate Forgets(w: World, e: Event, m: nat, a: nat)
    requires m in w.managers
  {
    match e
    case PollExit(n, seen, _) =>
      n == m && seen < |w.log| && w.log[seen].kind == Running && w.log[seen].frame.attempt == Some(a)
        && TracksDead(w, m, seen)
    case FinishCancel(n, seen) =>
      n == m && seen < |w.log| && w.log[seen].kind == Cancelling && w.log[seen].frame.attempt == Some(a)
        && w.log[seen].frame.process.Some? && TracksDead(w, m, seen)
    case Sweep(n, b) =>
      n == m && a == b && a in w.managers[m].tracked && w.managers[m].tracked[a] in w.processes
        && w.processes[w.managers[m].tracked[a]].phase == Dead
    case _ => false
  }

  // ---------- over every run ----------

  /** Event number n of the run appended marker number i. */
  ghost predicate Appended(begin: World, events: seq<Event>, n: nat, i: nat) {
    n < |events| && LengthAt(begin, events, n) == i && LengthAt(begin, events, n + 1) == i + 1
  }

  ghost function LengthAt(begin: World, events: seq<Event>, n: nat): nat
    requires n <= |events|
  {
    |Run(begin, events[..n]).log|
  }

  lemma OneEventMore(begin: World, events: seq<Event>, n: nat)
    requires n < |events|
    ensures Run(begin, events[..n + 1]) == Step(Run(begin, events[..n]), events[n])
  {
    assert events[..n + 1][..n] == events[..n];
  }

  lemma LogStepGrows(w: World, e: Event)
    ensures w.log <= Step(w, e).log && |Step(w, e).log| <= |w.log| + 1
    ensures |w.log| > 0 && Step(w, e).log != w.log ==> Appends(w, e)
  {
  }

  lemma {:induction false} LogGrows(begin: World, events: seq<Event>, n: nat, log: seq<Marker>)
    requires n <= |events| && log == Run(begin, events[..n]).log
    ensures log <= Run(begin, events).log
    decreases |events| - n
  {
    if n == |events| {
      assert events[..n] == events;
    } else {
      OneEventMore(begin, events, n);
      LogStepGrows(Run(begin, events[..n]), events[n]);
      LogGrows(begin, events, n + 1, Run(begin, events[..n + 1]).log);
    }
  }

  /** Every history begins with a submission that has nothing on record. */
  lemma FirstIsSubmitted(policy: Policy, persistent: bool, unsafe: bool, events: seq<Event>)
    ensures [Marker(Submitted, Frame(None, None, None, None, None, None, None, None))] <=
      Run(Begin(policy, persistent, unsafe), events).log
  {
    LogGrows(Begin(policy, persistent, unsafe), events, 0, Begin(policy, persistent, unsafe).log);
  }

  lemma GrowsAtMostByOne(begin: World, events: seq<Event>, n: nat)
    requires n < |events|
    ensures LengthAt(begin, events, n) <= LengthAt(begin, events, n + 1) <= LengthAt(begin, events, n) + 1
  {
    OneEventMore(begin, events, n);
    LogStepGrows(Run(begin, events[..n]), events[n]);
  }

  /** Every marker but the first was appended by an event. */
  lemma {:induction false} AppendedBefore(begin: World, events: seq<Event>, m: nat, i: nat) returns (n: nat)
    requires m <= |events| && LengthAt(begin, events, 0) <= i < LengthAt(begin, events, m)
    ensures Appended(begin, events, n, i)
    decreases m
  {
    GrowsAtMostByOne(begin, events, m - 1);
    if LengthAt(begin, events, m - 1) > i { n := AppendedBefore(begin, events, m - 1, i); } else { n := m - 1; }
  }

  lemma AppendedBySomeEvent(begin: World, events: seq<Event>, i: nat) returns (n: nat)
    requires |begin.log| <= i < |Run(begin, events).log|
    ensures Appended(begin, events, n, i)
  {
    assert events[..|events|] == events;
    n := AppendedBefore(begin, events, |events|, i);
  }

  /** The world in which marker number i was appended. */
  ghost predicate AppendedTo(w: World, log: seq<Marker>, i: nat, e: Event) {
    && 0 < i < |log| && |w.log| == i && Last(w) == log[i - 1]
    && Enabled(w, e) && Explained(w, e, log[i])
  }

  /** The history of a job, read off any run: the event that appended a marker was entitled to, and the
      marker is what that event makes of the marker before it. */
  lemma MarkerExplained(begin: World, events: seq<Event>, n: nat, i: nat)
    requires |begin.log| > 0 && Appended(begin, events, n, i)
    ensures AppendedTo(Run(begin, events[..n]), Run(begin, events).log, i, events[n])
  {
    var w, e := Run(begin, events[..n]), events[n];
    BeginsWithMarker(begin, events[..n]);
    OneEventMore(begin, events, n);
    LogGrows(begin, events, n + 1, Step(w, e).log);
    StepAppends(w, e, Run(begin, events).log);
  }

  lemma BeginsWithMarker(begin: World, events: seq<Event>)
    requires |begin.log| > 0
    ensures |Run(begin, events).log| > 0
  {
    LogGrows(begin, events, 0, begin.log);
  }

  lemma StepAppends(w: World, e: Event, log: seq<Marker>)
    requires |w.log| > 0 && |Step(w, e).log| == |w.log| + 1 && Step(w, e).log <= log
    ensures AppendedTo(w, log, |w.log|, e)
  {
    LogStepGrows(w, e);
    AppendsIffEnabled(w, e);
    StepExplained(w, e);
  }

  /** A job has succeeded if and only if a commit that was in progress finished with success. */
  lemma SucceededIffFinished(begin: World, events: seq<Event>, n: nat, i: nat)
    requires |begin.log| > 0 && Appended(begin, events, n, i)
    ensures SuccessIsFinish(Run(begin, events).log, i, events[n])
  {
    MarkerExplained(begin, events, n, i);
    SuccessExplained(Run(begin, events[..n]), Run(begin, events).log, i, events[n]);
  }

  ghost predicate SuccessIsFinish(log: seq<Marker>, i: nat, e: Event) {
    && 0 < i < |log|
    && (log[i].kind == Succeeded <==> e.Finish? && e.action == Succeed)
    && (log[i].kind == Succeeded ==> log[i - 1].kind == Committing)
  }

  lemma SuccessExplained(w: World, log: seq<Marker>, i: nat, e: Event)
    requires AppendedTo(w, log, i, e)
    ensures SuccessIsFinish(log, i, e)
  {
  }

  /** Where each outcome leads from the committing marker `from`. A pending pause takes the place of
      waiting and of ready; success and failure are not held up by it. */
  ghost predicate OutcomeLeads(policy: Policy, from: Marker, action: Action, to: Marker) {
    var pending := from.frame.pause.Some?;
    var activation := Or(from.frame.activation, 1);
    var used := Or(from.frame.ordinal, 1);
    var spent := policy.perActivation.Some? && used >= policy.perActivation.value;
    var same := to.frame.activation == from.frame.activation && to.frame.ordinal == from.frame.ordinal;
    match action
    case Succeed => to.kind == Succeeded && same
    case Wait => to.kind == (if pending then Paused else Waiting) && same
    case PauseStep => to.kind == Paused && same
    case Corrupt => to.kind == Failed && same
    case Advance =>
      if policy.activations.Some? && activation >= policy.activations.value then to.kind == Failed && same
      else
        && to.kind == (if pending then Paused else Ready)
        && to.frame.activation == Some(activation + 1) && to.frame.ordinal == Some(0)
    case Retry => same && to.kind == if spent then Failed else if pending then Paused else Ready
    case Fail(retryable) =>
      var out := spent || (policy.total.Some? && Or(from.frame.total, used) >= policy.total.value);
      same && to.kind == if !retryable || out then Failed else if pending then Paused else Ready
  }

  lemma OutcomeDecides(begin: World, events: seq<Event>, n: nat, i: nat)
    requires |begin.log| > 0 && Appended(begin, events, n, i) && events[n].Finish?
    ensures var log := Run(begin, events).log;
      && 0 < i < |log| && log[i - 1].kind == Committing
      && OutcomeLeads(Run(begin, events[..n]).policy, log[i - 1], events[n].action, log[i])
  {
    MarkerExplained(begin, events, n, i);
    OutcomeExplained(Run(begin, events[..n]), Run(begin, events).log, i, events[n]);
  }

  lemma OutcomeExplained(w: World, log: seq<Marker>, i: nat, e: Event)
    requires AppendedTo(w, log, i, e) && e.Finish?
    ensures log[i - 1].kind == Committing && OutcomeLeads(w.policy, log[i - 1], e.action, log[i])
  {
    var to := log[i];
    assert KindExplained(w, e, to.kind) && CountersExplained(w, e, to.frame);
    OutcomeFrom(w, e, to);
  }

  lemma OutcomeFrom(w: World, e: Event, to: Marker)
    requires |w.log| > 0 && e.Finish? && KindExplained(w, e, to.kind) && CountersExplained(w, e, to.frame)
    ensures OutcomeLeads(w.policy, Last(w), e.action, to)
  {
  }

  /** Where each verdict on a join leads: on to the next activation, to failure, or nowhere. An impossible
      join is as good as a satisfied one for a job that wants to go on all the same. */
  ghost predicate VerdictLeads(policy: Policy, from: Marker, verdict: Verdict, to: Marker) {
    var pending := from.frame.pause.Some?;
    var activation := Or(from.frame.activation, 1);
    var same := to.frame.activation == from.frame.activation && to.frame.ordinal == from.frame.ordinal;
    if verdict == Unresolved then to.kind == (if pending then Paused else Waiting) && same
    else if verdict == Unresolvable || verdict == Impossible(false) then to.kind == Failed && same
    else if policy.activations.Some? && activation >= policy.activations.value then to.kind == Failed && same
    else
      && to.kind == (if pending then Paused else Ready)
      && to.frame.activation == Some(activation + 1) && to.frame.ordinal == Some(0)
  }

  lemma VerdictDecides(begin: World, events: seq<Event>, n: nat, i: nat)
    requires |begin.log| > 0 && Appended(begin, events, n, i) && events[n].DecideJoin?
    ensures var log := Run(begin, events).log;
      && 0 < i < |log| && log[i - 1].kind == Waiting
      && VerdictLeads(Run(begin, events[..n]).policy, log[i - 1], events[n].verdict, log[i])
  {
    MarkerExplained(begin, events, n, i);
    VerdictExplained(Run(begin, events[..n]), Run(begin, events).log, i, events[n]);
  }

  lemma VerdictExplained(w: World, log: seq<Marker>, i: nat, e: Event)
    requires AppendedTo(w, log, i, e) && e.DecideJoin?
    ensures log[i - 1].kind == Waiting && VerdictLeads(w.policy, log[i - 1], e.verdict, log[i])
  {
    var to := log[i];
    assert KindExplained(w, e, to.kind) && CountersExplained(w, e, to.frame);
    VerdictFrom(w, e, to);
  }

  lemma VerdictFrom(w: World, e: Event, to: Marker)
    requires |w.log| > 0 && e.DecideJoin? && KindExplained(w, e, to.kind) && CountersExplained(w, e, to.frame)
    ensures VerdictLeads(w.policy, Last(w), e.verdict, to)
  {
  }

  /** Success and cancellation are final: no marker follows them, in any run. */
  lemma EndsAreFinal(policy: Policy, persistent: bool, unsafe: bool, events: seq<Event>, i: nat)
    requires i < |Run(Begin(policy, persistent, unsafe), events).log|
    requires Run(Begin(policy, persistent, unsafe), events).log[i].kind in {Succeeded, Cancelled}
    ensures i == |Run(Begin(policy, persistent, unsafe), events).log| - 1
  {
    var begin := Begin(policy, persistent, unsafe);
    if i + 1 < |Run(begin, events).log| {
      var n := AppendedBySomeEvent(begin, events, i + 1);
      MarkerExplained(begin, events, n, i + 1);
      MovedWasNoEnd(policy, persistent, unsafe, events[..n], events[n]);
    }
  }

  lemma MovedWasNoEnd(policy: Policy, persistent: bool, unsafe: bool, events: seq<Event>, e: Event)
    requires |Run(Begin(policy, persistent, unsafe), events).log| > 0
    requires Enabled(Run(Begin(policy, persistent, unsafe), events), e)
    ensures Last(Run(Begin(policy, persistent, unsafe), events)).kind !in {Succeeded, Cancelled}
  {
    var w := Run(Begin(policy, persistent, unsafe), events);
    if e.ReleaseOwn? || e.PrepareFails? || e.CommitRunning? || e.GateFails? {
      L.RunSound(policy, persistent, unsafe, events);
      LaunchHoldsMarker(w, e.m);
    } else {
      OthersMoveNoEnd(w, e);
    }
  }

  lemma OthersMoveNoEnd(w: World, e: Event)
    requires |w.log| > 0 && Enabled(w, e) && !(e.ReleaseOwn? || e.PrepareFails? || e.CommitRunning? || e.GateFails?)
    ensures Last(w).kind !in {Succeeded, Cancelled}
  {
  }

  lemma LaunchHoldsMarker(w: World, m: nat)
    requires L.Sound(w) && Launches(w, m)
    ensures Last(w).kind in {Claimed, Running}
  {
    assert L.Linked(w, m);
  }
}
