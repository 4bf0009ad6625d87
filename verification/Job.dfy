/** One job of a workspace, driven by any number of managers on any hosts. Every change of state
    is one marker rename: an append to `log`, won only by an actor whose snapshot is still the last
    entry. A snapshot is therefore an index into `log`, and the state generation is that index. */
module Job {
  import opened Common

  // ---------- markers and frames ----------

  datatype Identity = Identity(host: nat, pid: nat)

  /** The members of a state frame that decide what may happen next. */
  datatype Frame = Frame(
    activation: Option<nat>,
    ordinal: Option<nat>,
    total: Option<nat>,
    attempt: Option<nat>,
    pause: Option<nat>,
    owner: Option<nat>,
    process: Option<Identity>,
    request: Option<nat>)
  {
    /** The members every transition of one activation repeats. */
    function Carried(): Frame { this.(owner := None, process := None, request := None) }
  }

  const EMPTY := Frame(None, None, None, None, None, None, None, None)

  datatype Marker = Marker(kind: Kind, frame: Frame)

  function Or(o: Option<nat>, default: nat): nat {
    if o.Some? then o.value else default
  }

  /** `_transition`: a pause requested during an attempt diverts the move that would end it, and
      no other frame keeps the request. */
  function Settled(from: Marker, kind: Kind, updates: Frame): Marker {
    var seeks := kind == Ready || kind == Waiting || kind == Paused;
    var pause := if updates.pause.Some? then updates.pause else if seeks then from.frame.pause else None;
    if seeks && pause.Some? then Marker(Paused, updates.(pause := None, request := pause))
    else if seeks || Terminal(kind) || kind == Cancelling then Marker(kind, updates.(pause := None))
    else Marker(kind, updates)
  }

  // ---------- policy ----------

  datatype Policy = Policy(perActivation: Option<nat>, total: Option<nat>, activations: Option<nat>)

  predicate Exceeds(n: nat, limit: Option<nat>) { limit.Some? && n > limit.value }

  function Retain(state: Frame, progress: Frame): Frame {
    if state.pause.None? then progress else progress.(process := state.process)
  }

  function Advanced(policy: Policy, state: Frame, progress: Frame): Marker {
    var next := Or(state.activation, 1) + 1;
    var kept := Retain(state, progress);
    if Exceeds(next, policy.activations) then Marker(Failed, kept)
    else Marker(Ready, kept.(activation := Some(next), ordinal := Some(0)))
  }

  function Retried(policy: Policy, state: Frame, progress: Frame): Marker {
    var kept := Retain(state, progress);
    if policy.perActivation.Some? && Or(state.ordinal, 1) >= policy.perActivation.value
    then Marker(Failed, kept) else Marker(Ready, kept)
  }

  predicate RetryBudget(policy: Policy, state: Frame) {
    var attempts := Or(state.ordinal, 1);
    && !(policy.perActivation.Some? && attempts >= policy.perActivation.value)
    && (policy.total.None? || Or(state.total, attempts) < policy.total.value)
  }

  /** `handle_attempt_failure`, where `retry` says whether the code is in `retry_on`. */
  function AttemptFailed(policy: Policy, state: Frame, retry: bool): Marker {
    if retry then Retried(policy, state, state.Carried())
    else Marker(Failed, state.Carried().(process := state.process))
  }

  function Decremented(o: Option<nat>): Option<nat> {
    var n := Or(o, 1);
    Some(if n - 1 > 0 then n - 1 else 0)
  }

  function Released(state: Frame): Marker {
    Marker(Ready, state.Carried().(ordinal := Decremented(state.ordinal), total := Decremented(state.total)))
  }

  // ---------- processes and managers ----------

  /** The write end of the launch pipe: still open in the manager, token written, or closed without one. */
  datatype Gate = Held | Granted | Closed

  datatype Phase = Launcher | Runner | Dead

  datatype Process = Process(host: nat, attempt: nat, gate: Gate, phase: Phase)

  /** How far a manager is inside `_claim_and_launch`; `seen` is the marker it will try to move. */
  datatype Activity =
    | Idle
    | Preparing(seen: nat, attempt: nat)
    | Spawned(seen: nat, attempt: nat, pid: nat)
    | Committed(seen: nat, attempt: nat, pid: nat)

  datatype Manager = Manager(host: nat, activity: Activity, tracked: map<nat, nat>)

  datatype World = World(
    policy: Policy,
    persistent: bool,
    unsafe: bool,
    log: seq<Marker>,
    managers: map<nat, Manager>,
    processes: map<nat, Process>,
    published: set<nat>,
    attempts: set<nat>,
    executed: set<nat>,
    charged: map<nat, nat>)

  function Begin(policy: Policy, persistent: bool, unsafe: bool): World {
    World(policy, persistent, unsafe, [Marker(Submitted, EMPTY)], map[], map[], {}, {}, {}, map[])
  }

  function Last(w: World): Marker
    requires |w.log| > 0
  {
    w.log[|w.log| - 1]
  }

  predicate DeadOn(w: World, host: nat, process: Option<Identity>) {
    && process.Some? && process.value.host == host
    && process.value.pid in w.processes && w.processes[process.value.pid].phase == Dead
  }

  // ---------- events ----------

  datatype Action = Advance | Retry | Wait | Succeed | Fail(retryable: bool) | PauseStep | Corrupt

  /** What is known about a join; `onward` says whether the job wants to go on if it is impossible. */
  datatype Verdict = Satisfied | Impossible(onward: bool) | Unresolved | Unresolvable
  datatype Request = Cancel | SetPriority | Pause(id: nat) | Continue | Override

  datatype Event =
    | Start(m: nat, host: nat)
    | Crash(m: nat)
    | Register(m: nat, seen: nat, valid: bool)
    | Claim(m: nat, seen: nat, attempt: nat)
    | ReleaseOwn(m: nat)
    | PrepareFails(m: nat, retry: bool)
    | Spawn(m: nat, pid: nat)
    | CommitRunning(m: nat)
    | OpenGate(m: nat)
    | GateFails(m: nat, retry: bool)
    | LauncherReads(pid: nat)
    | Dies(pid: nat)
    | Publish(pid: nat)
    | CommitOutcome(m: nat, seen: nat)
    | RejectOutcome(m: nat, seen: nat, retry: bool)
    | PollExit(m: nat, seen: nat, retry: bool)
    | Takeover(m: nat, seen: nat, retry: bool)
    | Recover(m: nat, seen: nat)
    | Finish(m: nat, seen: nat, action: Action)
    | DecideJoin(m: nat, seen: nat, verdict: Verdict)
    | Operator(m: nat, seen: nat, request: Request)
    | FinishCancel(m: nat, seen: nat)
    | NoteCancel(m: nat, seen: nat)
    | Sweep(m: nat, attempt: nat)

  predicate Sees(w: World, m: nat, seen: nat, kind: Kind) {
    m in w.managers && seen < |w.log| && w.log[seen].kind == kind
  }

  // ---------- the marker move each event attempts ----------

  datatype Move = Move(seen: nat, kind: Kind, updates: Frame)

  function To(seen: nat, target: Marker): Option<Move> { Some(Move(seen, target.kind, target.frame)) }

  function ClaimMove(w: World, m: nat, seen: nat, attempt: nat): Option<Move>
    requires seen < |w.log|
  {
    var state := w.log[seen].frame;
    if state.pause.Some? then Some(Move(seen, Ready, state.Carried()))
    else
      var ordinal, total := Or(state.ordinal, 0) + 1, Or(state.total, 0) + 1;
      if Exceeds(ordinal, w.policy.perActivation) || Exceeds(total, w.policy.total)
      then Some(Move(seen, Failed, state.Carried()))
      else Some(Move(seen, Claimed, state.Carried().(
                  owner := Some(m), attempt := Some(attempt), ordinal := Some(ordinal), total := Some(total))))
  }

  function CommitMove(w: World, m: nat, seen: nat): Option<Move>
    requires seen < |w.log|
  {
    var state := w.log[seen].frame;
    Some(Move(seen, Committing, state.Carried().(owner := Some(m), process := state.process)))
  }

  function FinishMove(w: World, seen: nat, action: Action): Option<Move>
    requires seen < |w.log|
  {
    var state := w.log[seen].frame;
    var progress := Retain(state, state.Carried());
    match action
    case Advance => To(seen, Advanced(w.policy, state, progress))
    case Retry => To(seen, Retried(w.policy, state, progress))
    case Wait => Some(Move(seen, Waiting, progress))
    case Succeed => Some(Move(seen, Succeeded, progress))
    case Fail(retryable) =>
      if retryable && RetryBudget(w.policy, state) then To(seen, Retried(w.policy, state, progress))
      else Some(Move(seen, Failed, progress))
    case PauseStep => Some(Move(seen, Paused, progress.(process := state.process)))
    case Corrupt => Some(Move(seen, Failed, state.Carried().(process := state.process)))
  }

  function JoinMove(w: World, seen: nat, verdict: Verdict): Option<Move>
    requires seen < |w.log|
  {
    var state := w.log[seen].frame;
    match verdict
    case Satisfied => To(seen, Advanced(w.policy, state, state.Carried()))
    case Impossible(onward) =>
      if onward then To(seen, Advanced(w.policy, state, state.Carried())) else Some(Move(seen, Failed, state.Carried()))
    case Unresolved => Some(Move(seen, Waiting, state.Carried()))
    case Unresolvable => Some(Move(seen, Failed, state.Carried()))
  }

  function OperatorMove(w: World, seen: nat, request: Request): Option<Move>
    requires seen < |w.log|
  {
    var Marker(kind, state) := w.log[seen];
    match request
    case Cancel =>
      if Terminal(kind) || kind == Cancelling then None
      else Some(Move(seen, if kind == Running then Cancelling else Cancelled, state.(request := None)))
    case SetPriority =>
      if kind in {Submitted, Ready, Waiting, Paused, Failed} then Some(Move(seen, kind, state.Carried())) else None
    case Pause(id) =>
      if kind in {Claimed, Running, Committing} then Some(Move(seen, kind, state.(pause := Some(id))))
      else if kind in {Submitted, Ready, Waiting} then Some(Move(seen, Paused, state.Carried()))
      else None
    case Continue =>
      if kind in {Failed, Paused} && state.activation.Some?
      then To(seen, Retried(w.policy, state, state.Carried())) else None
    case Override =>
      if kind in {Failed, Paused} then To(seen, Advanced(w.policy, state, state.Carried())) else None
  }

  /** Why an expired lease may end an attempt: the recorded process is gone from this host, or the
      job's own policy does not insist on that proof. An outcome published after the manager looked
      for one does not prevent it. */
  predicate MayTakeOver(w: World, m: nat, state: Frame)
    requires m in w.managers
  {
    DeadOn(w, w.managers[m].host, state.process) || !w.persistent || w.unsafe
  }

  predicate CancelProof(w: World, m: nat, state: Frame)
    requires m in w.managers
  {
    var mgr := w.managers[m];
    && state.process.Some?
    && if state.attempt.Some? && state.attempt.value in mgr.tracked
       then mgr.tracked[state.attempt.value] in w.processes
         && w.processes[mgr.tracked[state.attempt.value]].phase == Dead
       else DeadOn(w, mgr.host, state.process)
  }

  /** `local.process.poll()` has a return code. */
  predicate Exited(w: World, m: nat, attempt: Option<nat>)
    requires m in w.managers
  {
    && attempt.Some? && attempt.value in w.managers[m].tracked
    && w.managers[m].tracked[attempt.value] in w.processes
    && w.processes[w.managers[m].tracked[attempt.value]].phase == Dead
  }

  predicate Outcome(w: World, attempt: Option<nat>) { attempt.Some? && attempt.value in w.published }

  function Proposal(w: World, e: Event): Option<Move> {
    match e
    case Register(m, seen, valid) =>
      if !Sees(w, m, seen, Submitted) then None
      else Some(Move(seen, if valid then Ready else Failed,
                     if valid then EMPTY.(activation := Some(1), ordinal := Some(0), total := Some(0)) else EMPTY))
    case Claim(m, seen, attempt) =>
      if Sees(w, m, seen, Ready) && w.managers[m].activity.Idle? && attempt !in w.attempts
      then ClaimMove(w, m, seen, attempt) else None
    case ReleaseOwn(m) =>
      if m in w.managers && w.managers[m].activity.Preparing? && w.managers[m].activity.seen < |w.log|
      then To(w.managers[m].activity.seen, Released(w.log[w.managers[m].activity.seen].frame)) else None
    case PrepareFails(m, retry) =>
      if m in w.managers && (w.managers[m].activity.Preparing? || w.managers[m].activity.Spawned?)
         && w.managers[m].activity.seen < |w.log|
      then To(w.managers[m].activity.seen, AttemptFailed(w.policy, w.log[w.managers[m].activity.seen].frame, retry))
        else None
    case CommitRunning(m) =>
      if m in w.managers && w.managers[m].activity.Spawned? && w.managers[m].activity.seen < |w.log|
      then
        var a := w.managers[m].activity;
        Some(Move(a.seen, Running, w.log[a.seen].frame.Carried().(
          owner := Some(m), attempt := Some(a.attempt), process := Some(Identity(w.managers[m].host, a.pid)))))
      else None
    case GateFails(m, retry) =>
      if m in w.managers && w.managers[m].activity.Committed? && w.managers[m].activity.seen < |w.log|
      then To(w.managers[m].activity.seen, AttemptFailed(w.policy, w.log[w.managers[m].activity.seen].frame, retry))
        else None
    case CommitOutcome(m, seen) =>
      if Sees(w, m, seen, Running) && Outcome(w, w.log[seen].frame.attempt) then CommitMove(w, m, seen) else None
    case RejectOutcome(m, seen, retry) =>
      if Sees(w, m, seen, Running) && Outcome(w, w.log[seen].frame.attempt)
      then To(seen, AttemptFailed(w.policy, w.log[seen].frame, retry)) else None
    case PollExit(m, seen, retry) =>
      if Sees(w, m, seen, Running) && Exited(w, m, w.log[seen].frame.attempt)
      then if Outcome(w, w.log[seen].frame.attempt) then CommitMove(w, m, seen)
           else To(seen, AttemptFailed(w.policy, w.log[seen].frame, retry))
      else None
    case Takeover(m, seen, retry) =>
      if Sees(w, m, seen, Running)
         && (w.log[seen].frame.attempt.Some? ==> w.log[seen].frame.attempt.value !in w.managers[m].tracked)
         && MayTakeOver(w, m, w.log[seen].frame)
      then To(seen, AttemptFailed(w.policy, w.log[seen].frame, retry)) else None
    case Recover(m, seen) =>
      if Sees(w, m, seen, Claimed) then To(seen, Released(w.log[seen].frame)) else None
    case Finish(m, seen, action) =>
      if Sees(w, m, seen, Committing) then FinishMove(w, seen, action) else None
    case DecideJoin(m, seen, verdict) =>
      if Sees(w, m, seen, Waiting) then JoinMove(w, seen, verdict) else None
    case Operator(m, seen, request) =>
      if m in w.managers && seen < |w.log| then OperatorMove(w, seen, request) else None
    case FinishCancel(m, seen) =>
      if Sees(w, m, seen, Cancelling) && CancelProof(w, m, w.log[seen].frame)
      then Some(Move(seen, Cancelled, w.log[seen].frame)) else None
    case NoteCancel(m, seen) =>
      if Sees(w, m, seen, Cancelling) then Some(Move(seen, Cancelling, w.log[seen].frame)) else None
    case _ => None
  }

  /** The rename succeeds exactly when nobody has moved the marker since the snapshot. */
  predicate Wins(w: World, e: Event) {
    Proposal(w, e).Some? && Proposal(w, e).value.seen == |w.log| - 1
  }

  function Installed(w: World, e: Event): Marker
    requires Wins(w, e) && |w.log| > 0
  {
    var p := Proposal(w, e).value;
    Settled(Last(w), p.kind, p.updates)
  }

  // ---------- everything else an event changes ----------

  function SetGate(ps: map<nat, Process>, pid: nat, gate: Gate): map<nat, Process> {
    if pid in ps then ps[pid := ps[pid].(gate := gate)] else ps
  }

  function SetPhase(ps: map<nat, Process>, pid: nat, phase: Phase): map<nat, Process> {
    if pid in ps then ps[pid := ps[pid].(phase := phase)] else ps
  }

  predicate Launching(w: World, m: nat) {
    m in w.managers && (w.managers[m].activity.Spawned? || w.managers[m].activity.Committed?)
  }

  /** The launcher waiting on a pipe whose write end manager `m` holds. */
  function CloseGateOf(w: World, m: nat): map<nat, Process> {
    if Launching(w, m) then SetGate(w.processes, w.managers[m].activity.pid, Closed) else w.processes
  }

  predicate Spawns(w: World, e: Event) {
    e.Spawn? && e.m in w.managers && w.managers[e.m].activity.Preparing? && e.pid !in w.processes
  }

  predicate Opens(w: World, e: Event) {
    e.OpenGate? && e.m in w.managers && w.managers[e.m].activity.Committed?
  }

  predicate Executes(w: World, e: Event) {
    e.LauncherReads? && e.pid in w.processes && w.processes[e.pid].phase == Launcher
      && w.processes[e.pid].gate == Granted
  }

  function Processes(w: World, e: Event): map<nat, Process> {
    match e
    case Spawn(m, pid) =>
      if Spawns(w, e)
      then w.processes[pid := Process(w.managers[m].host, w.managers[m].activity.attempt, Held, Launcher)]
      else w.processes
    case CommitRunning(m) =>
      if m in w.managers && w.managers[m].activity.Spawned? && !Wins(w, e) then CloseGateOf(w, m) else w.processes
    case PrepareFails(m, _) =>
      if m in w.managers && w.managers[m].activity.Spawned? then CloseGateOf(w, m) else w.processes
    case OpenGate(m) => if Opens(w, e) then SetGate(w.processes, w.managers[m].activity.pid, Granted) else w.processes
    case GateFails(m, _) =>
      if m in w.managers && w.managers[m].activity.Committed? then CloseGateOf(w, m) else w.processes
    case Crash(m) => CloseGateOf(w, m)
    case LauncherReads(pid) =>
      if Executes(w, e) then SetPhase(w.processes, pid, Runner)
      else if pid in w.processes && w.processes[pid].phase == Launcher && w.processes[pid].gate == Closed
      then SetPhase(w.processes, pid, Dead) else w.processes
    case Dies(pid) => SetPhase(w.processes, pid, Dead)
    case _ => w.processes
  }

  predicate Acts(e: Event, m: nat) {
    !e.LauncherReads? && !e.Dies? && !e.Publish? && e.m == m
  }

  function Untracked(tracked: map<nat, nat>, attempt: Option<nat>): map<nat, nat> {
    if attempt.Some? then tracked - {attempt.value} else tracked
  }

  function ManagerAfter(w: World, e: Event, m: nat): Manager
    requires m in w.managers && Acts(e, m)
  {
    var mgr := w.managers[m];
    var a := mgr.activity;
    match e
    case Claim(_, seen, attempt) =>
      if Wins(w, e) && Proposal(w, e).value.kind == Claimed then mgr.(activity := Preparing(|w.log|, attempt)) else mgr
    case ReleaseOwn(_) => if a.Preparing? then mgr.(activity := Idle) else mgr
    case PrepareFails(_, _) => if a.Preparing? || a.Spawned? then mgr.(activity := Idle) else mgr
    case Spawn(_, pid) => if Spawns(w, e) then mgr.(activity := Spawned(a.seen, a.attempt, pid)) else mgr
    case CommitRunning(_) =>
      if !a.Spawned? then mgr
      else if Wins(w, e) then mgr.(activity := Committed(|w.log|, a.attempt, a.pid)) else mgr.(activity := Idle)
    case OpenGate(_) =>
      if a.Committed? then mgr.(activity := Idle, tracked := mgr.tracked[a.attempt := a.pid]) else mgr
    case GateFails(_, _) => if a.Committed? then mgr.(activity := Idle) else mgr
    case PollExit(_, seen, _) =>
      if Proposal(w, e).Some? then mgr.(tracked := Untracked(mgr.tracked, w.log[seen].frame.attempt)) else mgr
    case FinishCancel(_, seen) =>
      if Proposal(w, e).Some? then mgr.(tracked := Untracked(mgr.tracked, w.log[seen].frame.attempt)) else mgr
    case Sweep(_, attempt) =>
      if Exited(w, m, Some(attempt)) then mgr.(tracked := mgr.tracked - {attempt}) else mgr
    case _ => mgr
  }

  function Managers(w: World, e: Event): map<nat, Manager> {
    match e
    case Start(m, host) => if m in w.managers then w.managers else w.managers[m := Manager(host, Idle, map[])]
    case Crash(m) => w.managers - {m}
    case _ => map m | m in w.managers :: if Acts(e, m) then ManagerAfter(w, e, m) else w.managers[m]
  }

  predicate Publishes(w: World, e: Event) {
    e.Publish? && e.pid in w.processes && w.processes[e.pid].phase == Runner
  }

  predicate Claims(w: World, e: Event) {
    e.Claim? && Wins(w, e) && Proposal(w, e).value.kind == Claimed
  }

  predicate Releases(w: World, e: Event) {
    (e.ReleaseOwn? || e.Recover?) && Wins(w, e)
  }

  /** Attempts claimed and not released, each under the activation it was claimed for. */
  function Charged(w: World, e: Event): map<nat, nat> {
    if Claims(w, e) then w.charged[e.attempt := Or(Proposal(w, e).value.updates.activation, 0)]
    else if Releases(w, e) then w.charged - {Or(Proposal(w, e).value.updates.attempt, 0)}
    else w.charged
  }

  function Step(w: World, e: Event): World {
    w.(log := if |w.log| > 0 && Wins(w, e) then w.log + [Installed(w, e)] else w.log,
       managers := Managers(w, e),
       processes := Processes(w, e),
       published := if Publishes(w, e) then w.published + {w.processes[e.pid].attempt} else w.published,
       attempts := if e.Claim? then w.attempts + {e.attempt} else w.attempts,
       executed := if Executes(w, e) then w.executed + {w.processes[e.pid].attempt} else w.executed,
       charged := Charged(w, e))
  }

  function Run(w: World, events: seq<Event>): World {
    if events == [] then w else Step(Run(w, events[..|events| - 1]), events[|events| - 1])
  }

  // ---------- the shape of a step ----------

  /** How one manager's place in a launch can change. */
  ghost predicate ActivityMoves(w: World, e: Event, m: nat, a: Activity, b: Activity) {
    || b == a || b.Idle?
    || (Claims(w, e) && e.m == m && a.Idle? && b == Preparing(|w.log|, e.attempt))
    || (Spawns(w, e) && e.m == m && a.Preparing? && b == Spawned(a.seen, a.attempt, e.pid))
    || (e.CommitRunning? && Wins(w, e) && e.m == m && a.Spawned? && b == Committed(|w.log|, a.attempt, a.pid))
  }

  lemma OwnStep(w: World, e: Event, m: nat)
    requires m in w.managers && Acts(e, m) && !e.Start? && !e.Crash?
    ensures m in Step(w, e).managers && Step(w, e).managers[m] == ManagerAfter(w, e, m)
  {
  }

  lemma OthersLeave(w: World, e: Event, m: nat)
    requires m in w.managers && (!Acts(e, m) || e.Start?)
    ensures m in Step(w, e).managers && Step(w, e).managers[m] == w.managers[m]
  {
  }

  lemma ActivityStep(w: World, e: Event, m: nat)
    requires m in Step(w, e).managers
    ensures m in w.managers ==>
      ActivityMoves(w, e, m, w.managers[m].activity, Step(w, e).managers[m].activity)
    ensures m !in w.managers ==> Step(w, e).managers[m].activity.Idle? && Step(w, e).managers[m].tracked == map[]
  {
    if m in w.managers {
      if Acts(e, m) && !e.Start? { OwnStep(w, e, m); } else { OthersLeave(w, e, m); }
    }
  }

  lemma TrackedStep(w: World, e: Event, m: nat, a: nat)
    requires m in Step(w, e).managers && a in Step(w, e).managers[m].tracked
    ensures m in w.managers
    ensures
      var p := Step(w, e).managers[m].tracked[a];
      || (a in w.managers[m].tracked && p == w.managers[m].tracked[a])
      || (Opens(w, e) && e.m == m && a == w.managers[m].activity.attempt && p == w.managers[m].activity.pid)
  {
    if m in w.managers {
      if Acts(e, m) && !e.Start? { OwnStep(w, e, m); } else { OthersLeave(w, e, m); }
    }
  }

  /** What a finished commit and an operator request install. */
  lemma FinishInstalls(w: World, e: Event)
    requires |w.log| > 0 && Wins(w, e) && e.Finish?
    ensures e.seen == |w.log| - 1 && w.log[e.seen] == Last(w) && Last(w).kind == Committing
    ensures var move := FinishMove(w, e.seen, e.action).value;
      Installed(w, e) == Settled(Last(w), move.kind, move.updates)
  {
  }

  lemma OperatorInstalls(w: World, e: Event)
    requires |w.log| > 0 && Wins(w, e) && e.Operator?
    ensures e.seen == |w.log| - 1 && w.log[e.seen] == Last(w) && OperatorMove(w, e.seen, e.request).Some?
    ensures var move := OperatorMove(w, e.seen, e.request).value;
      Installed(w, e) == Settled(Last(w), move.kind, move.updates)
  {
  }

  lemma ClaimInstalls(w: World, e: Event)
    requires |w.log| > 0 && Claims(w, e)
    ensures Installed(w, e).kind == Claimed && Installed(w, e).frame.attempt == Some(e.attempt)
    ensures e.attempt !in w.attempts
  {
  }

  lemma LogStep(w: World, e: Event)
    requires |w.log| > 0
    ensures Step(w, e).log == if Wins(w, e) then w.log + [Installed(w, e)] else w.log
    ensures forall i :: 0 <= i < |w.log| ==> i < |Step(w, e).log| && Step(w, e).log[i] == w.log[i]
  {
  }

  /** How one process can change: its gate only by the manager that holds it, which then has left
      the launch; its phase only towards running through a granted gate, or towards death. */
  lemma ProcessStep(w: World, e: Event, p: nat)
    requires p in Step(w, e).processes
    ensures p !in w.processes ==>
      && Spawns(w, e) && e.pid == p
      && Step(w, e).processes[p] == Process(w.managers[e.m].host, w.managers[e.m].activity.attempt, Held, Launcher)
    ensures p in w.processes ==>
      var x, y := w.processes[p], Step(w, e).processes[p];
      && y.host == x.host && y.attempt == x.attempt
      && (y.gate != x.gate ==> GateMovedBy(w, e, p) && (y.gate == Closed || (y.gate == Granted && Opens(w, e))))
      && (y.phase == x.phase || y.phase == Dead
        || (y.phase == Runner && x.gate == Granted && Executes(w, e) && e.pid == p))
  {
  }

  ghost predicate GateMovedBy(w: World, e: Event, p: nat) {
    && !e.LauncherReads? && !e.Dies? && !e.Publish?
    && Launching(w, e.m) && w.managers[e.m].activity.pid == p
    && (e.m in Step(w, e).managers ==> Step(w, e).managers[e.m].activity.Idle?)
  }

  lemma ProcessesStay(w: World, e: Event, p: nat)
    requires p in w.processes
    ensures p in Step(w, e).processes
  {
  }
}
