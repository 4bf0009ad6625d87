/** Attempt budgets: the counters in the frames are exact, and no limit is ever exceeded. */
module JobBudget {
  import opened Common
  import opened Job
  import L = JobLaunch

  // ---------- counting ----------

  function At(charged: map<nat, nat>, n: nat): set<nat> {
    set a | a in charged && charged[a] == n
  }

  /** The attempts charged to activations 0 through n, activation by activation. */
  function SumTo(charged: map<nat, nat>, n: nat): nat {
    |At(charged, n)| + if n == 0 then 0 else SumTo(charged, n - 1)
  }

  function UpTo(charged: map<nat, nat>, n: nat): set<nat> {
    set a | a in charged && charged[a] <= n
  }

  lemma {:induction false} SumCounts(charged: map<nat, nat>, n: nat)
    ensures SumTo(charged, n) == |UpTo(charged, n)|
  {
    if n == 0 {
      assert UpTo(charged, 0) == At(charged, 0);
    } else {
      SumCounts(charged, n - 1);
      assert UpTo(charged, n) == UpTo(charged, n - 1) + At(charged, n);
    }
  }

  // ---------- the invariant ----------

  predicate Sensible(policy: Policy) {
    policy.perActivation != Some(0) && policy.total != Some(0) && policy.activations != Some(0)
  }

  /** The counters of a frame are what has been charged. */
  ghost predicate Exact(f: Frame, charged: map<nat, nat>) {
    if f.activation.None? then charged == map[] && f.ordinal.None? && f.total.None?
    else
      && Or(f.total, 0) == |charged|
      && Or(f.ordinal, 0) == |At(charged, f.activation.value)|
      && forall a :: a in charged ==> charged[a] <= f.activation.value
  }

  ghost predicate Within(policy: Policy, f: Frame) {
    && !Exceeds(Or(f.ordinal, 0), policy.perActivation)
    && !Exceeds(Or(f.total, 0), policy.total)
    && !Exceeds(Or(f.activation, 0), policy.activations)
  }

  predicate MayLackActivation(k: Kind) { k == Submitted || k == Paused || k == Failed || k == Cancelled }

  ghost predicate MarkerSound(mk: Marker, policy: Policy, charged: map<nat, nat>) {
    && Exact(mk.frame, charged) && Within(policy, mk.frame)
    && (mk.frame.activation.None? ==> MayLackActivation(mk.kind))
    && (mk.kind == Submitted ==> mk.frame.activation.None?)
    && (mk.kind == Claimed ==>
          mk.frame.attempt.Some? && mk.frame.attempt.value in charged
          && charged[mk.frame.attempt.value] == mk.frame.activation.value)
  }

  /** Every attempt that a running frame names is charged, and a claim in force has no running frame. */
  ghost predicate LogSound(w: World)
    requires |w.log| > 0
  {
    && (forall i :: 0 <= i < |w.log| && w.log[i].frame.attempt.Some? ==> w.log[i].frame.attempt.value in w.attempts)
    && (forall i :: 0 <= i < |w.log| && w.log[i].kind == Running ==>
          w.log[i].frame.attempt.Some? && w.log[i].frame.attempt.value in w.charged
          && (Last(w).kind == Claimed ==> Last(w).frame.attempt != w.log[i].frame.attempt))
    && (forall a :: a in w.charged ==> a in w.attempts)
    && (forall a :: a in w.executed ==> exists i: nat :: L.Names(w, i, Running, a))
  }

  ghost predicate BudgetSound(w: World) {
    && |w.log| > 0 && Sensible(w.policy)
    && MarkerSound(Last(w), w.policy, w.charged)
    && LogSound(w)
  }

  // ---------- the moves ----------

  lemma ChargeOne(charged: map<nat, nat>, a: nat, n: nat)
    requires a !in charged
    ensures |charged[a := n]| == |charged| + 1
    ensures |At(charged[a := n], n)| == |At(charged, n)| + 1
  {
    assert charged[a := n].Keys == charged.Keys + {a};
    assert At(charged[a := n], n) == At(charged, n) + {a};
  }

  lemma RefundOne(charged: map<nat, nat>, a: nat)
    requires a in charged
    ensures |charged - {a}| == |charged| - 1
    ensures |At(charged - {a}, charged[a])| == |At(charged, charged[a])| - 1
  {
    assert (charged - {a}).Keys == charged.Keys - {a};
    assert At(charged - {a}, charged[a]) == At(charged, charged[a]) - {a};
  }

  lemma ClaimSound(w: World, e: Event)
    requires BudgetSound(w) && Claims(w, e)
    ensures MarkerSound(Installed(w, e), w.policy, Step(w, e).charged)
  {
    assert w.log[Proposal(w, e).value.seen] == Last(w);
    ChargeOne(w.charged, e.attempt, Last(w).frame.activation.value);
  }

  /** The clamps of a release never act: a claim in force has both counters positive. */
  lemma ReleaseIsExact(w: World)
    requires BudgetSound(w) && Last(w).kind == Claimed
    ensures var f := Last(w).frame;
      && f.ordinal.Some? && f.ordinal.value >= 1 && f.total.Some? && f.total.value >= 1
      && Released(f).frame.ordinal == Some(f.ordinal.value - 1) && Released(f).frame.total == Some(f.total.value - 1)
  {
    var f := Last(w).frame;
    assert f.attempt.value in At(w.charged, f.activation.value);
    SubsetSize({f.attempt.value}, At(w.charged, f.activation.value));
    SubsetSize({f.attempt.value}, w.charged.Keys);
  }

  lemma ReleaseSound(w: World, e: Event)
    requires BudgetSound(w) && Releases(w, e) && Last(w).kind == Claimed
    ensures MarkerSound(Installed(w, e), w.policy, Step(w, e).charged)
  {
    assert w.log[Proposal(w, e).value.seen] == Last(w);
    ReleaseIsExact(w);
    RefundOne(w.charged, Last(w).frame.attempt.value);
  }

  /** A frame with the counters of a sound one. */
  ghost predicate SameCounters(f: Frame, g: Frame) {
    f.activation == g.activation && f.ordinal == g.ordinal && f.total == g.total
  }

  /** A frame that starts the next activation of a sound one. */
  ghost predicate NextActivation(policy: Policy, f: Frame, g: Frame) {
    && g.activation == Some(Or(f.activation, 1) + 1) && g.ordinal == Some(0) && g.total == f.total
    && !Exceeds(Or(f.activation, 1) + 1, policy.activations)
  }

  lemma NextIsExact(policy: Policy, f: Frame, g: Frame, charged: map<nat, nat>)
    requires Exact(f, charged) && Within(policy, f) && Sensible(policy) && NextActivation(policy, f, g)
    ensures Exact(g, charged) && Within(policy, g)
  {
    assert At(charged, g.activation.value) == {};
  }

  ghost predicate Steady(policy: Policy, f: Frame, g: Frame) {
    SameCounters(f, g) || NextActivation(policy, f, g)
  }

  lemma FinishSteady(w: World, seen: nat, action: Action)
    requires seen < |w.log|
    ensures Steady(w.policy, w.log[seen].frame, FinishMove(w, seen, action).value.updates)
    ensures FinishMove(w, seen, action).value.updates.attempt == w.log[seen].frame.attempt
    ensures FinishMove(w, seen, action).value.kind != Running
  {
  }

  lemma OperatorSteady(w: World, seen: nat, request: Request)
    requires seen < |w.log| && OperatorMove(w, seen, request).Some?
    ensures Steady(w.policy, w.log[seen].frame, OperatorMove(w, seen, request).value.updates)
    ensures OperatorMove(w, seen, request).value.updates.attempt == w.log[seen].frame.attempt
    ensures OperatorMove(w, seen, request).value.kind == Running ==> w.log[seen].kind == Running
  {
  }

  /** Apart from registration, claims and releases, a move keeps the counters or starts an activation. */
  lemma OtherMoves(w: World, e: Event)
    requires |w.log| > 0 && Wins(w, e) && !Claims(w, e) && !Releases(w, e) && !e.Register?
    ensures Steady(w.policy, Last(w).frame, Installed(w, e).frame)
  {
    if e.Finish? {
      FinishInstalls(w, e);
      FinishSteady(w, e.seen, e.action);
    } else if e.Operator? {
      OperatorInstalls(w, e);
      OperatorSteady(w, e.seen, e.request);
    } else {
      PlainMoves(w, e);
    }
  }

  lemma PlainMoves(w: World, e: Event)
    requires |w.log| > 0 && Wins(w, e) && !Claims(w, e) && !Releases(w, e) && !e.Register? && !e.Finish? && !e.Operator?
    ensures Steady(w.policy, Last(w).frame, Installed(w, e).frame)
  {
    assert w.log[Proposal(w, e).value.seen] == Last(w);
  }

  /** What a move to `i` may do to the facts that depend on the kind. */
  ghost predicate KindSteady(from: Marker, i: Marker) {
    && (i.frame.activation.None? ==> from.frame.activation.None? && MayLackActivation(i.kind))
    && (i.kind == Submitted || i.kind == Claimed ==>
          from.kind == i.kind && i.frame.attempt == from.frame.attempt && i.frame.activation == from.frame.activation)
  }

  lemma FinishKinds(w: World, seen: nat, action: Action)
    requires seen < |w.log| && w.log[seen].kind == Committing && w.log[seen].frame.activation.Some?
    ensures var m := FinishMove(w, seen, action).value; KindSteady(w.log[seen], Settled(w.log[seen], m.kind, m.updates))
  {
  }

  lemma OperatorKinds(w: World, seen: nat, request: Request)
    requires seen < |w.log| && OperatorMove(w, seen, request).Some?
    requires w.log[seen].frame.activation.None? ==> MayLackActivation(w.log[seen].kind)
    ensures var m := OperatorMove(w, seen, request).value;
      KindSteady(w.log[seen], Settled(w.log[seen], m.kind, m.updates))
  {
  }

  lemma LaunchKinds(w: World, e: Event)
    requires L.Sound(w) && Wins(w, e) && (e.PrepareFails? || e.CommitRunning? || e.GateFails?)
    ensures Last(w).kind == if e.GateFails? then Running else Claimed
  {
    assert w.log[Proposal(w, e).value.seen] == Last(w);
    assert L.Linked(w, e.m);
  }

  /** Kinds that need an activation are entered only with one, and claims only by claiming. */
  lemma OtherKinds(w: World, e: Event)
    requires L.Sound(w) && Wins(w, e) && !Claims(w, e) && !Releases(w, e) && !e.Register?
    requires Last(w).frame.activation.None? ==> MayLackActivation(Last(w).kind)
    ensures KindSteady(Last(w), Installed(w, e))
  {
    if e.Finish? {
      FinishInstalls(w, e);
      FinishKinds(w, e.seen, e.action);
    } else if e.Operator? {
      OperatorInstalls(w, e);
      OperatorKinds(w, e.seen, e.request);
    } else {
      if e.PrepareFails? || e.CommitRunning? || e.GateFails? { LaunchKinds(w, e); }
      PlainKinds(w, e);
    }
  }

  lemma PlainKinds(w: World, e: Event)
    requires |w.log| > 0 && Wins(w, e) && !Claims(w, e) && !Releases(w, e)
    requires !e.Register? && !e.Finish? && !e.Operator?
    requires Last(w).frame.activation.None? ==> MayLackActivation(Last(w).kind)
    requires e.PrepareFails? || e.CommitRunning? || e.GateFails? ==> Last(w).frame.activation.Some?
    ensures KindSteady(Last(w), Installed(w, e))
  {
    assert w.log[Proposal(w, e).value.seen] == Last(w);
  }

  lemma OtherSound(w: World, e: Event)
    requires BudgetSound(w) && Wins(w, e)
    requires Steady(w.policy, Last(w).frame, Installed(w, e).frame) && KindSteady(Last(w), Installed(w, e))
    ensures MarkerSound(Installed(w, e), w.policy, w.charged)
  {
    var i := Installed(w, e);
    if !SameCounters(Last(w).frame, i.frame) {
      NextIsExact(w.policy, Last(w).frame, i.frame, w.charged);
    }
  }

  lemma RegisterSound(w: World, e: Event)
    requires BudgetSound(w) && Wins(w, e) && e.Register?
    ensures MarkerSound(Installed(w, e), w.policy, w.charged)
  {
    assert w.log[Proposal(w, e).value.seen] == Last(w);
    assert At(w.charged, 1) == {};
  }

  lemma MoveSound(w: World, e: Event)
    requires BudgetSound(w) && L.Sound(w) && Wins(w, e)
    ensures MarkerSound(Installed(w, e), w.policy, Step(w, e).charged)
  {
    if Claims(w, e) {
      ClaimSound(w, e);
    } else if Releases(w, e) {
      ReleasesClaims(w, e);
      ReleaseSound(w, e);
    } else if e.Register? {
      RegisterSound(w, e);
    } else {
      OtherMoves(w, e);
      OtherKinds(w, e);
      OtherSound(w, e);
    }
  }

  lemma ReleasesClaims(w: World, e: Event)
    requires L.Sound(w) && Releases(w, e)
    ensures Last(w).kind == Claimed
  {
    assert w.log[Proposal(w, e).value.seen] == Last(w);
    assert L.Linked(w, e.m);
  }

  // ---------- the log ----------

  lemma AttemptNamed(w: World, e: Event)
    requires L.Sound(w) && Wins(w, e)
    ensures var i := Installed(w, e).frame.attempt;
      i.None? || i == Last(w).frame.attempt || (Claims(w, e) && i == Some(e.attempt))
    ensures var i := Installed(w, e); i.kind == Running ==>
      (Last(w).kind == Running || Last(w).kind == Claimed) && i.frame.attempt == Last(w).frame.attempt
  {
    if e.Finish? {
      FinishInstalls(w, e);
      FinishSteady(w, e.seen, e.action);
    } else if e.Operator? {
      OperatorInstalls(w, e);
      OperatorSteady(w, e.seen, e.request);
    } else if e.CommitRunning? {
      LaunchedNamed(w, e);
    } else {
      PlainAttempts(w, e);
    }
  }

  lemma LaunchedNamed(w: World, e: Event)
    requires L.Sound(w) && Wins(w, e) && e.CommitRunning?
    ensures Last(w).kind == Claimed && Installed(w, e).frame.attempt == Last(w).frame.attempt
  {
    assert w.log[Proposal(w, e).value.seen] == Last(w);
    assert L.Linked(w, e.m);
  }

  lemma PlainAttempts(w: World, e: Event)
    requires |w.log| > 0 && Wins(w, e) && !e.Finish? && !e.Operator? && !e.CommitRunning?
    ensures Installed(w, e).kind != Running
    ensures var i := Installed(w, e).frame.attempt;
      i.None? || i == Last(w).frame.attempt || (Claims(w, e) && i == Some(e.attempt))
  {
    assert w.log[Proposal(w, e).value.seen] == Last(w);
  }

  lemma ChargedStep(w: World, e: Event)
    requires L.Sound(w) && BudgetSound(w)
    ensures var c := Step(w, e).charged;
      && (forall a :: a in c ==> a in Step(w, e).attempts)
      && (forall a :: a in w.charged && a !in c ==> Last(w).kind == Claimed && Last(w).frame.attempt == Some(a))
  {
    if Releases(w, e) {
      ReleasesClaims(w, e);
      assert w.log[Proposal(w, e).value.seen] == Last(w);
    }
  }

  lemma LastClaimed(w: World, e: Event)
    requires L.Sound(w) && BudgetSound(w) && Wins(w, e) && Installed(w, e).kind == Claimed
    ensures
      || (Claims(w, e) && Installed(w, e).frame.attempt == Some(e.attempt) && e.attempt !in w.attempts)
      || (Last(w).kind == Claimed && Installed(w, e).frame.attempt == Last(w).frame.attempt)
  {
    if Claims(w, e) {
      ClaimInstalls(w, e);
    } else if Releases(w, e) {
      ReleasesClaims(w, e);
    } else if !e.Register? {
      OtherKinds(w, e);
    }
  }

  lemma RunningCharged(w: World, e: Event, i: nat)
    requires L.Sound(w) && BudgetSound(w) && i < |Step(w, e).log| && Step(w, e).log[i].kind == Running
    ensures var mk := Step(w, e).log[i];
      && mk.frame.attempt.Some? && mk.frame.attempt.value in Step(w, e).charged
      && (Last(Step(w, e)).kind == Claimed ==> Last(Step(w, e)).frame.attempt != mk.frame.attempt)
  {
    LogStep(w, e);
    if i == |w.log| {
      NewRunningCharged(w, e);
    } else {
      ChargedStep(w, e);
      if Wins(w, e) && Installed(w, e).kind == Claimed { LastClaimed(w, e); }
    }
  }

  lemma NewRunningCharged(w: World, e: Event)
    requires L.Sound(w) && BudgetSound(w) && Wins(w, e) && Installed(w, e).kind == Running
    ensures var f := Installed(w, e).frame; f.attempt.Some? && f.attempt.value in Step(w, e).charged
  {
    AttemptNamed(w, e);
    CommitKeepsCharge(w, e);
  }

  lemma CommitKeepsCharge(w: World, e: Event)
    requires L.Sound(w) && BudgetSound(w) && Wins(w, e) && Installed(w, e).kind == Running
    ensures Step(w, e).charged == w.charged
  {
    if Releases(w, e) { ReleasesClaims(w, e); }
  }

  lemma StepLog(w: World, e: Event)
    requires L.Sound(w) && BudgetSound(w)
    ensures |Step(w, e).log| > 0 && LogSound(Step(w, e))
  {
    var w' := Step(w, e);
    LogStep(w, e);
    ChargedStep(w, e);
    if Wins(w, e) { AttemptNamed(w, e); }
    forall i | 0 <= i < |w'.log| && w'.log[i].kind == Running
      ensures w'.log[i].frame.attempt.Some? && w'.log[i].frame.attempt.value in w'.charged
      ensures Last(w').kind == Claimed ==> Last(w').frame.attempt != w'.log[i].frame.attempt
    {
      RunningCharged(w, e, i);
    }
    forall a | a in w'.executed
      ensures exists i: nat :: L.Names(w', i, Running, a)
    {
      ExecutedNamed(w, e, a);
    }
  }

  lemma ExecutedNamed(w: World, e: Event, a: nat)
    requires L.Sound(w) && BudgetSound(w) && a in Step(w, e).executed
    ensures exists i: nat :: L.Names(Step(w, e), i, Running, a)
  {
    if a !in w.executed { assert L.Recorded(w, e.pid); }
    var i: nat :| L.Names(w, i, Running, a);
    L.NamesStays(w, e, i, Running, a);
  }

  lemma StepBudget(w: World, e: Event)
    requires L.Sound(w) && BudgetSound(w)
    ensures BudgetSound(Step(w, e))
  {
    LogStep(w, e);
    StepLog(w, e);
    if Wins(w, e) { MoveSound(w, e); }
  }

  lemma {:induction false} RunBudget(policy: Policy, persistent: bool, unsafe: bool, events: seq<Event>)
    requires Sensible(policy)
    ensures BudgetSound(Run(Begin(policy, persistent, unsafe), events))
    ensures Run(Begin(policy, persistent, unsafe), events).policy == policy
  {
    if events != [] {
      RunBudget(policy, persistent, unsafe, events[..|events| - 1]);
      L.RunSound(policy, persistent, unsafe, events[..|events| - 1]);
      StepBudget(Run(Begin(policy, persistent, unsafe), events[..|events| - 1]), events[|events| - 1]);
    }
  }

  // ---------- what the counters promise ----------

  /** In every reachable state, under every race, crash, recovery and operator request: the total
      equals the attempts claimed and not released, summed over the activations; the attempt
      ordinal is the share of the current activation; all three configured maxima hold; and no
      more runners were ever executed than the total counts. */
  lemma CountersAreExact(policy: Policy, persistent: bool, unsafe: bool, events: seq<Event>)
    requires Sensible(policy)
    ensures var w := Run(Begin(policy, persistent, unsafe), events);
      && |w.log| > 0
      && var f := Last(w).frame;
      && (f.activation.Some? ==>
            Or(f.total, 0) == SumTo(w.charged, f.activation.value)
              && Or(f.ordinal, 0) == |At(w.charged, f.activation.value)|)
      && (f.activation.None? ==> w.charged == map[])
      && Within(policy, f)
      && |w.executed| <= Or(f.total, 0)
  {
    RunBudget(policy, persistent, unsafe, events);
    var w := Run(Begin(policy, persistent, unsafe), events);
    var f := Last(w).frame;
    forall a | a in w.executed
      ensures a in w.charged.Keys
    {
      var i: nat :| L.Names(w, i, Running, a);
    }
    SubsetSize(w.executed, w.charged.Keys);
    if f.activation.Some? {
      SumCounts(w.charged, f.activation.value);
      assert UpTo(w.charged, f.activation.value) == w.charged.Keys;
    }
  }

  /** Wherever a reachable claim is released, both counters are positive, so neither clamp acts. */
  lemma ClampsNeverFire(policy: Policy, persistent: bool, unsafe: bool, events: seq<Event>)
    requires Sensible(policy)
    ensures var w := Run(Begin(policy, persistent, unsafe), events);
      && |w.log| > 0
      && (Last(w).kind == Claimed ==>
        var f := Last(w).frame;
        && f.ordinal.Some? && f.ordinal.value >= 1 && f.total.Some? && f.total.value >= 1
        && Released(f).frame.ordinal == Some(f.ordinal.value - 1) && Released(f).frame.total == Some(f.total.value - 1))
  {
    RunBudget(policy, persistent, unsafe, events);
    if Last(Run(Begin(policy, persistent, unsafe), events)).kind == Claimed {
      ReleaseIsExact(Run(Begin(policy, persistent, unsafe), events));
    }
  }
}
