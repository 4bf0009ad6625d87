/** Resource reservations of one manager: what an attempt needs, what is left, what is claimed. */
module Scheduling {
  import opened Common

  type Resources = map<string, nat>

  /** What scheduling reads of a job definition and of the frame of a ready activation. */
  datatype Job = Job(resources: Resources, stepResources: map<string, Resources>)

  datatype State = State(resources: Option<Resources>, step: Option<string>)

  // ---------- requirements ----------

  function Stated(job: Job, state: State): Resources {
    if state.resources.Some? then state.resources.value
    else if state.step.Some? && state.step.value in job.stepResources then job.stepResources[state.step.value]
    else job.resources
  }

  /** An even part of the capacity, or all of it when there is less than one unit a worker. */
  function Share(capacity: nat, workers: nat): nat
    requires workers > 0
  {
    if capacity / workers == 0 && capacity > 0 then capacity else capacity / workers
  }

  function Filled(requirement: Resources, name: string, capacity: Resources, workers: nat): Resources
    requires workers > 0
  {
    if name in capacity && name !in requirement then requirement[name := Share(capacity[name], workers)]
      else requirement
  }

  function Effective(job: Job, state: State, capacity: Resources, workers: nat): Resources
    requires workers > 0
  {
    Filled(Filled(Stated(job, state), "procs", capacity, workers), "mem", capacity, workers)
  }

  /** The claimed frame records the requirement; recomputing it from that frame, as the launch
      does, gives the reservation that was checked, whatever the job says by then. */
  lemma RecomputedFromClaim(job: Job, state: State, later: Job, capacity: Resources, workers: nat)
    requires workers > 0
    ensures var checked := Effective(job, state, capacity, workers);
      Effective(later, state.(resources := Some(checked)), capacity, workers) == checked
  {
    var checked := Effective(job, state, capacity, workers);
    assert "procs" in capacity ==> "procs" in checked;
    assert "mem" in capacity ==> "mem" in checked;
  }

  /** Where the amount required of each resource comes from: the frame, if it states resources at all;
      else the step's entry, if the job has one; else the job. Processors and memory that are not
      stated there but exist get an even part, rounded down, of what the manager has, or all of it
      when there is less than one unit a worker; nothing else is required. */
  lemma RequiredByName(job: Job, state: State, capacity: Resources, workers: nat, name: string)
    requires workers > 0
    ensures
      var required := Effective(job, state, capacity, workers);
      var perStep := state.resources.None? && state.step.Some? && state.step.value in job.stepResources;
      && (state.resources.Some? && name in state.resources.value ==>
            name in required && required[name] == state.resources.value[name])
      && (perStep && name in job.stepResources[state.step.value] ==>
            name in required && required[name] == job.stepResources[state.step.value][name])
      && (state.resources.None? && !perStep && name in job.resources ==>
            name in required && required[name] == job.resources[name])
      && (!Mentions(job, state, name) && name in {"procs", "mem"} && name in capacity ==>
            name in required && EvenPart(required[name], capacity[name], workers))
      && (!Mentions(job, state, name) && !(name in {"procs", "mem"} && name in capacity) ==> name !in required)
  {
    if name in {"procs", "mem"} && name in capacity { ShareIsEven(capacity[name], workers); }
  }

  ghost predicate Mentions(job: Job, state: State, name: string) {
    if state.resources.Some? then name in state.resources.value
    else if state.step.Some? && state.step.value in job.stepResources then name in job.stepResources[state.step.value]
    else name in job.resources
  }

  ghost predicate EvenPart(share: nat, capacity: nat, workers: nat) {
    if capacity < workers then share == capacity else share * workers <= capacity < (share + 1) * workers
  }

  lemma ShareIsEven(capacity: nat, workers: nat)
    requires workers > 0
    ensures EvenPart(Share(capacity, workers), capacity, workers)
  {
  }

  // ---------- fitting a capacity ----------

  predicate Unfit(name: string, requirement: Resources, capacity: Resources)
    requires name in requirement
  {
    name !in capacity || capacity[name] == 0 || requirement[name] > capacity[name]
  }

  /** Text order by character code. */
  predicate Before(a: string, b: string) {
    a == [] || (b != [] && (a[0] < b[0] || (a[0] == b[0] && Before(a[1..], b[1..]))))
  }

  lemma {:induction false} BeforeTotal(a: string, b: string)
    ensures Before(a, b) || Before(b, a)
  {
    if a != [] && b != [] { BeforeTotal(a[1..], b[1..]); }
  }

  lemma {:induction false} BeforeTransitive(a: string, b: string, c: string)
    requires Before(a, b) && Before(b, c)
    ensures Before(a, c)
  {
    if a != [] && b[0] == a[0] && c[0] == b[0] { BeforeTransitive(a[1..], b[1..], c[1..]); }
  }

  /** Two texts agree up to a place where the first ends or has the lower character. */
  ghost predicate LowerAt(a: string, b: string, k: nat) {
    k <= |a| && k <= |b| && a[..k] == b[..k] && (k == |a| || (k < |b| && a[k] < b[k]))
  }

  lemma BeforeIff(a: string, b: string)
    ensures Before(a, b) <==> exists k: nat :: LowerAt(a, b, k)
  {
    if Before(a, b) { var _ := PlaceOfBefore(a, b); }
    forall k: nat | LowerAt(a, b, k) ensures Before(a, b) {
      BeforeAtPlace(a, b, k);
    }
  }

  lemma {:induction false} PlaceOfBefore(a: string, b: string) returns (k: nat)
    requires Before(a, b)
    ensures LowerAt(a, b, k)
  {
    if a == [] || a[0] < b[0] { return 0; }
    k := PlaceOfBefore(a[1..], b[1..]);
    assert a[..k + 1] == [a[0]] + a[1..][..k] && b[..k + 1] == [b[0]] + b[1..][..k];
    k := k + 1;
  }

  lemma {:induction false} BeforeAtPlace(a: string, b: string, k: nat)
    requires LowerAt(a, b, k)
    ensures Before(a, b)
  {
    if k > 0 {
      assert a[..k][0] == b[..k][0];
      assert a[..k][1..] == a[1..][..k - 1] && b[..k][1..] == b[1..][..k - 1];
      BeforeAtPlace(a[1..], b[1..], k - 1);
    }
  }

  /** The capacity has some of the resource, and at least this much. */
  ghost predicate Meets(capacity: Resources, name: string, amount: nat) {
    name in capacity && capacity[name] >= 1 && capacity[name] >= amount
  }

  /** The first name, in text order, that does not fit. */
  method UnfitResource(requirement: Resources, capacity: Resources) returns (unfit: Option<string>)
    ensures unfit.None? <==> forall name :: name in requirement ==> Meets(capacity, name, requirement[name])
    ensures unfit.Some? ==> unfit.value in requirement && !Meets(capacity, unfit.value, requirement[unfit.value])
    ensures unfit.Some? ==> forall o :: o in requirement && !Meets(capacity, o, requirement[o]) ==>
      Before(unfit.value, o)
  {
    unfit := None;
    var todo := requirement.Keys;
    while todo != {}
      invariant todo <= requirement.Keys
      invariant unfit.None? ==> forall o :: o in requirement.Keys - todo ==> Meets(capacity, o, requirement[o])
      invariant unfit.Some? ==> unfit.value in requirement && !Meets(capacity, unfit.value, requirement[unfit.value])
      invariant unfit.Some? ==> forall o :: o in requirement.Keys - todo && !Meets(capacity, o, requirement[o]) ==>
        Before(unfit.value, o)
    {
      var name :| name in todo;
      if Unfit(name, requirement, capacity) && (unfit.None? || Before(name, unfit.value)) {
        Lowered(unfit, name, set o | o in requirement && o !in todo && !Meets(capacity, o, requirement[o]));
        unfit := Some(name);
      } else if unfit.Some? {
        BeforeTotal(name, unfit.value);
      }
      todo := todo - {name};
    }
  }

  lemma Lowered(least: Option<string>, name: string, others: set<string>)
    requires least.None? ==> others == {}
    requires least.Some? ==> Before(name, least.value) && forall o :: o in others ==> Before(least.value, o)
    ensures Before(name, name) && forall o :: o in others ==> Before(name, o)
  {
    BeforeTotal(name, name);
    forall o | o in others ensures Before(name, o) {
      BeforeTransitive(name, least.value, o);
    }
  }

  // ---------- what is left ----------

  datatype Attempt = Attempt(id: string, resources: Resources)

  function Amount(r: Resources, name: string): nat { if name in r then r[name] else 0 }

  function Reserved(running: seq<Attempt>, name: string): nat {
    if running == [] then 0
    else Reserved(running[..|running| - 1], name) + Amount(running[|running| - 1].resources, name)
  }

  function Less(left: nat, amount: nat): nat { if amount > left then 0 else left - amount }

  /** Capacity less each reservation in turn, never below zero. */
  function Drained(capacity: nat, running: seq<Attempt>, name: string): nat {
    if running == [] then capacity
    else Less(Drained(capacity, running[..|running| - 1], name), Amount(running[|running| - 1].resources, name))
  }

  /** Stopping at zero loses nothing but the shortfall; with no shortfall it is plain subtraction. */
  lemma {:induction false} DrainedIsExact(capacity: nat, running: seq<Attempt>, name: string)
    ensures Drained(capacity, running, name) == Less(capacity, Reserved(running, name))
  {
    if running != [] { DrainedIsExact(capacity, running[..|running| - 1], name); }
  }

  lemma {:induction false} ReservedByShares(running: seq<Attempt>, name: string, share: nat)
    requires forall i :: 0 <= i < |running| ==> Amount(running[i].resources, name) == share
    ensures Reserved(running, name) == |running| * share
  {
    if running != [] {
      ReservedByShares(running[..|running| - 1], name, share);
    }
  }

  lemma Multiple(n: nat, workers: nat, q: nat, r: nat)
    requires n < workers
    ensures n * q + q <= workers * q + r && (n > 0 ==> q <= n * q)
  {
    assert workers * q == n * q + q + (workers - n - 1) * q;
    if n > 0 { assert n * q == q + (n - 1) * q; }
  }

  /** While a worker is free and all attempts took the default share, another one fits, except where
      the capacity is less than one unit a worker and somebody already has all of it. */
  lemma DefaultShareFitsIff(capacity: nat, workers: nat, running: seq<Attempt>, name: string)
    requires |running| < workers
    requires forall i :: 0 <= i < |running| ==> Amount(running[i].resources, name) == Share(capacity, workers)
    ensures Share(capacity, workers) <= Less(capacity, Reserved(running, name)) <==>
      capacity >= workers || running == [] || capacity == 0
  {
    ReservedByShares(running, name, Share(capacity, workers));
    Divides(capacity, workers);
    ShareFits(capacity, workers, |running|, capacity / workers, capacity % workers, Share(capacity, workers));
  }

  lemma Divides(capacity: nat, workers: nat)
    requires workers > 0
    ensures capacity == workers * (capacity / workers) + capacity % workers
  {
  }

  lemma ShareFits(capacity: nat, workers: nat, n: nat, q: nat, r: nat, share: nat)
    requires n < workers && capacity == workers * q + r && r < workers
    requires share == if q == 0 && capacity > 0 then capacity else q
    ensures share <= Less(capacity, n * share) <==> capacity >= workers || n == 0 || capacity == 0
  {
    if q == 0 {
      Multiple(n, workers, capacity, 0);
    } else {
      Multiple(n, workers, q, r);
      Multiple(0, workers, q, r);
      Multiple(workers - 1, workers, q, 0);
      assert workers <= workers * q;
    }
  }

  method AvailableResources(capacity: Resources, running: seq<Attempt>) returns (available: Resources)
    ensures available.Keys == capacity.Keys
    ensures forall name :: name in capacity ==> available[name] == Drained(capacity[name], running, name)
  {
    available := capacity;
    for i := 0 to |running|
      invariant available.Keys == capacity.Keys
      invariant forall name :: name in capacity ==> available[name] == Drained(capacity[name], running[..i], name)
    {
      var asked, before := running[i].resources, available;
      var todo := asked.Keys;
      while todo != {}
        invariant todo <= asked.Keys && available.Keys == capacity.Keys
        invariant forall name :: name in capacity ==>
          available[name] == Less(before[name], if name in todo then 0 else Amount(asked, name))
      {
        var name :| name in todo;
        if name in available {
          available := available[name := Less(available[name], asked[name])];
        }
        todo := todo - {name};
      }
      assert running[..i + 1][..i] == running[..i];
    }
    assert running[..|running|] == running;
  }

  // ---------- the manager ----------

  /** Reservations fit the capacity, resource by resource, and the attempts fit the workers. */
  ghost predicate Within(capacity: Resources, workers: nat, running: seq<Attempt>) {
    && |running| <= workers
    && (forall name :: name in capacity ==> Reserved(running, name) <= capacity[name])
    && (forall i, name :: 0 <= i < |running| && name in running[i].resources ==> name in capacity)
  }

  lemma ReservedAppend(running: seq<Attempt>, a: Attempt, name: string)
    ensures Reserved(running + [a], name) == Reserved(running, name) + Amount(a.resources, name)
  {
    assert (running + [a])[..|running|] == running;
  }

  lemma {:induction false} ReservedWithout(running: seq<Attempt>, i: nat, name: string)
    requires i < |running|
    ensures Reserved(running, name) == Reserved(running[..i] + running[i + 1..], name)
      + Amount(running[i].resources, name)
  {
    var last := |running| - 1;
    var rest := running[..i] + running[i + 1..];
    if i == last {
      assert rest == running[..last];
    } else {
      assert rest[..|rest| - 1] == running[..last][..i] + running[..last][i + 1..];
      assert rest[|rest| - 1] == running[last];
      ReservedWithout(running[..last], i, name);
    }
  }

  lemma Admitted(capacity: Resources, workers: nat, running: seq<Attempt>, a: Attempt)
    requires Within(capacity, workers, running) && |running| < workers
    requires forall name :: name in a.resources ==>
      name in capacity && a.resources[name] <= capacity[name] - Reserved(running, name)
    ensures Within(capacity, workers, running + [a])
  {
    forall name ensures Reserved(running + [a], name) == Reserved(running, name) + Amount(a.resources, name) {
      ReservedAppend(running, a, name);
    }
  }

  /** A ready job as the pass sees it; `launched` is None when the claim or the launch does not
      lead to a tracked attempt, otherwise the fresh identifier it is tracked under. */
  datatype Ready = Ready(job: Job, state: State, priority: nat, path: string, served: bool, launched: Option<string>)

  /** Lower priority numbers go first, then the marker path decides. */
  predicate Earlier(a: Ready, b: Ready) {
    a.priority < b.priority || (a.priority == b.priority && Before(a.path, b.path))
  }

  type Eligible = (Ready, Resources)

  ghost predicate Ordered(s: seq<Eligible>) {
    forall i, j :: 0 <= i < j < |s| ==> Earlier(s[i].0, s[j].0)
  }

  function Insert(e: Eligible, s: seq<Eligible>): (r: seq<Eligible>)
    requires Ordered(s)
    ensures Ordered(r) && |r| == |s| + 1 && forall x :: x in r <==> x == e || x in s
  {
    if s == [] then [e]
    else if Earlier(e.0, s[0].0) then
      BeforeAll(e, s);
      [e] + s
    else
      BeforeTotal(e.0.path, s[0].0.path);
      assert s == [s[0]] + s[1..];
      var rest := Insert(e, s[1..]);
      assert forall x :: x in rest ==> Earlier(s[0].0, x.0);
      [s[0]] + rest
  }

  lemma BeforeAll(e: Eligible, s: seq<Eligible>)
    requires Ordered(s) && s != [] && Earlier(e.0, s[0].0)
    ensures forall j :: 0 <= j < |s| ==> Earlier(e.0, s[j].0)
  {
    forall j | 0 <= j < |s| ensures Earlier(e.0, s[j].0) {
      if j > 0 && e.0.priority == s[0].0.priority == s[j].0.priority {
        BeforeTransitive(e.0.path, s[0].0.path, s[j].0.path);
      }
    }
  }

  function Sort(s: seq<Eligible>): (r: seq<Eligible>)
    ensures Ordered(r) && |r| == |s| && forall x :: x in r <==> x in s
  {
    if s == [] then []
    else
      assert s == [s[0]] + s[1..];
      Insert(s[0], Sort(s[1..]))
  }

  class Manager {
    const capacity: Resources
    const workers: nat
    var running: seq<Attempt>

    ghost predicate Valid() reads this { workers > 0 && Within(capacity, workers, running) }

    constructor (capacity: Resources, workers: nat)
      requires workers > 0
      ensures Valid() && running == [] && this.capacity == capacity && this.workers == workers
    {
      this.capacity, this.workers, running := capacity, workers, [];
    }

    /** Between the bounds kept by every operation, what is left is exactly capacity less the sum
        of the reservations. */
    method Available() returns (available: Resources)
      requires Valid()
      ensures available.Keys == capacity.Keys
      ensures forall name :: name in capacity ==> available[name] == capacity[name] - Reserved(running, name)
    {
      available := AvailableResources(capacity, running);
      forall name | name in capacity ensures available[name] == capacity[name] - Reserved(running, name) {
        DrainedIsExact(capacity[name], running, name);
      }
    }

    /** This manager serves the job and its whole capacity could meet the requirement. */
    ghost predicate Suitable(r: Ready) requires workers > 0 {
      var requirement := Effective(r.job, r.state, capacity, workers);
      r.served && forall name :: name in requirement ==> Meets(capacity, name, requirement[name])
    }

    /** Exactly the suitable jobs, each with its requirement, in the order they are to be tried. */
    method EligibleReady(ready: seq<Ready>) returns (eligible: seq<Eligible>)
      requires Valid()
      ensures forall e :: e in eligible <==>
        e.0 in ready && Suitable(e.0) && e.1 == Effective(e.0.job, e.0.state, capacity, workers)
      ensures Ordered(eligible)
    {
      eligible := [];
      for i := 0 to |ready|
        invariant forall e :: e in eligible <==>
          e.0 in ready[..i] && Suitable(e.0) && e.1 == Effective(e.0.job, e.0.state, capacity, workers)
      {
        assert ready[..i + 1] == ready[..i] + [ready[i]];
        if !ready[i].served { continue; }
        var requirement := Effective(ready[i].job, ready[i].state, capacity, workers);
        var unfit := UnfitResource(requirement, capacity);
        if unfit.Some? { continue; }
        eligible := eligible + [(ready[i], requirement)];
      }
      assert ready[..|ready|] == ready;
      eligible := Sort(eligible);
    }

    predicate Exhausted(available: Resources) {
      ("procs" in available && available["procs"] == 0) || ("mem" in available && available["mem"] == 0)
    }

    ghost predicate UsedUp(running: seq<Attempt>) {
      || ("procs" in capacity && capacity["procs"] <= Reserved(running, "procs"))
      || ("mem" in capacity && capacity["mem"] <= Reserved(running, "mem"))
    }

    /** From place `from` on, no attempt was added once processors or memory were used up. */
    ghost predicate NoneAfterUsedUp(running: seq<Attempt>, from: nat) {
      forall i :: from <= i < |running| ==> !UsedUp(running[..i])
    }

    lemma StillNoneAfter(before: seq<Attempt>, after: seq<Attempt>, from: nat)
      requires NoneAfterUsedUp(before, from) && before <= after && |after| <= |before| + 1 && !UsedUp(before)
      ensures NoneAfterUsedUp(after, from)
    {
      forall i | from <= i < |after| ensures !UsedUp(after[..i]) {
        assert after[..i] == before[..i];
        if i == |before| { assert before[..i] == before; }
      }
    }

    /** What is left beside these attempts covers the job's requirement. */
    ghost predicate Room(running: seq<Attempt>, r: Ready) requires workers > 0 {
      var requirement := Effective(r.job, r.state, capacity, workers);
      forall name :: name in requirement ==>
        && name in capacity
        && requirement[name] + Reserved(running, name) <= capacity[name]
    }

    /** The attempts from number `from` on include one of this job. */
    ghost predicate Added(running: seq<Attempt>, from: nat, r: Ready) requires workers > 0 {
      exists i :: from <= i < |running| && Launches(r, running[i])
    }

    /** The job was tried: it is added, or there is no room for it. */
    ghost predicate Tried(running: seq<Attempt>, from: nat, r: Ready) requires workers > 0 {
      r.launched.Some? ==> Added(running, from, r) || !Room(running, r)
    }

    /** The pass only adds attempts, each of a suitable job and reserving what that requires, and keeps
        within all bounds; none is added once processors or memory are used up. It leaves out a
        suitable job that can be launched only if there is no room for it, no worker free or a
        resource used up; and where it launched one, every job that goes before it was launched or
        has no room. */
    method ClaimPass(ready: seq<Ready>)
      requires Valid()
      modifies this`running
      ensures Valid() && old(running) <= running
      ensures |running| <= workers && forall name :: name in capacity ==> Reserved(running, name) <= capacity[name]
      ensures forall i :: |old(running)| <= i < |running| ==> Justified(ready, running[i])
      ensures NoneAfterUsedUp(running, |old(running)|)
      ensures forall r :: r in ready && Suitable(r) ==>
        Tried(running, |old(running)|, r) || |running| >= workers || UsedUp(running)
      ensures forall i, r ::
        |old(running)| <= i < |running| && r in ready && Suitable(r) && !Tried(running, |old(running)|, r) ==>
          GoesBefore(ready, running[i], r)
    {
      if |running| >= workers { return; }
      var available := Available();
      if Exhausted(available) { return; }
      var eligible := EligibleReady(ready);
      ghost var from := |running|;
      for k := 0 to |eligible|
        invariant Valid() && old(running) <= running && from == |old(running)| && Passed(eligible, running, from, k)
      {
        assert eligible[k] in eligible;
        var stopped := TryNext(eligible, k, from);
        if stopped {
          Stopped(ready, eligible, running, from, k);
          return;
        }
      }
      Stopped(ready, eligible, running, from, |eligible|);
    }

    /** What the pass has done by entry k. */
    ghost predicate Passed(eligible: seq<Eligible>, running: seq<Attempt>, from: nat, k: nat)
      requires workers > 0 && k <= |eligible|
    {
      && (forall i :: from <= i < |running| ==> OfFirst(eligible, k, running[i]))
      && (forall j :: 0 <= j < k ==> Tried(running, from, eligible[j].0))
      && NoneAfterUsedUp(running, from)
    }

    /** One turn of the loop: stop, or try entry k. */
    method TryNext(eligible: seq<Eligible>, k: nat, ghost from: nat) returns (stopped: bool)
      requires Valid() && from <= |running| && k < |eligible| && Passed(eligible, running, from, k)
      requires var (r, requirement) := eligible[k];
        Suitable(r) && requirement == Effective(r.job, r.state, capacity, workers)
      modifies this`running
      ensures Valid() && old(running) <= running
      ensures if stopped then running == old(running) && (|running| >= workers || UsedUp(running))
        else Passed(eligible, running, from, k + 1)
    {
      if |running| >= workers { return true; }
      var available := Available();
      if Exhausted(available) { return true; }
      ghost var before := running;
      TryOne(eligible[k].0, eligible[k].1, available, from);
      PassedOneMore(eligible, before, running, from, k);
      return false;
    }

    lemma PassedOneMore(eligible: seq<Eligible>, before: seq<Attempt>, after: seq<Attempt>, from: nat, k: nat)
      requires workers > 0 && k < |eligible| && before <= after && |after| <= |before| + 1
      requires Passed(eligible, before, from, k) && !UsedUp(before) && Tried(after, from, eligible[k].0)
      requires |after| > |before| ==> Launches(eligible[k].0, after[|before|])
      ensures Passed(eligible, after, from, k + 1)
    {
      OneMoreTried(eligible, before, after, from, k);
      StillNoneAfter(before, after, from);
    }

    ghost predicate Justified(ready: seq<Ready>, a: Attempt) requires workers > 0 {
      exists r :: r in ready && Suitable(r) && Launches(r, a)
    }

    ghost predicate Launches(r: Ready, a: Attempt) requires workers > 0 {
      r.served && r.launched == Some(a.id) && a.resources == Effective(r.job, r.state, capacity, workers)
    }

    /** An attempt of one of the first k entries. */
    ghost predicate OfFirst(eligible: seq<Eligible>, k: nat, a: Attempt) requires workers > 0 && k <= |eligible| {
      exists j :: 0 <= j < k && Launches(eligible[j].0, a)
    }

    /** The launched job goes before `r`: it has a lower priority number, or the same and a path before. */
    ghost predicate GoesBefore(ready: seq<Ready>, a: Attempt, r: Ready) requires workers > 0 {
      exists b :: b in ready && Launches(b, a)
        && b.priority <= r.priority && (b.priority == r.priority ==> Before(b.path, r.path))
    }

    method TryOne(r: Ready, requirement: Resources, available: Resources, ghost from: nat)
      requires Valid() && |running| < workers && from <= |running| && Suitable(r)
      requires requirement == Effective(r.job, r.state, capacity, workers) && available.Keys == capacity.Keys
      requires forall name :: name in capacity ==> available[name] == capacity[name] - Reserved(running, name)
      modifies this`running
      ensures Valid() && old(running) <= running && |running| <= |old(running)| + 1 && Tried(running, from, r)
      ensures |running| > |old(running)| ==> Launches(r, running[|old(running)|])
    {
      if exists name :: name in requirement && requirement[name] > Amount(available, name) { return; }
      Launch(r);
      if r.launched.Some? { assert Launches(r, running[|old(running)|]); }
    }

    lemma OneMoreTried(eligible: seq<Eligible>, before: seq<Attempt>, after: seq<Attempt>, from: nat, k: nat)
      requires workers > 0 && k < |eligible| && before <= after && |after| <= |before| + 1
      requires forall i :: from <= i < |before| ==> OfFirst(eligible, k, before[i])
      requires |after| > |before| ==> Launches(eligible[k].0, after[|before|])
      requires forall j :: 0 <= j < k ==> Tried(before, from, eligible[j].0)
      ensures forall i :: from <= i < |after| ==> OfFirst(eligible, k + 1, after[i])
      ensures forall j :: 0 <= j < k ==> Tried(after, from, eligible[j].0)
    {
      forall i | from <= i < |after| ensures OfFirst(eligible, k + 1, after[i]) {
        if i < |before| {
          assert OfFirst(eligible, k, before[i]);
        } else {
          assert Launches(eligible[k].0, after[i]);
        }
      }
      forall j | 0 <= j < k ensures Tried(after, from, eligible[j].0) {
        TriedStays(before, after, from, eligible[j].0);
      }
    }

    /** What an attempt more leaves of a job that was tried. */
    lemma TriedStays(before: seq<Attempt>, after: seq<Attempt>, from: nat, r: Ready)
      requires workers > 0 && before <= after && |after| <= |before| + 1 && Tried(before, from, r)
      ensures Tried(after, from, r)
    {
      if Added(before, from, r) {
        var i :| from <= i < |before| && Launches(r, before[i]);
        assert after[i] == before[i];
      } else if r.launched.Some? {
        var requirement := Effective(r.job, r.state, capacity, workers);
        var name :| name in requirement && !(name in capacity
          && requirement[name] + Reserved(before, name) <= capacity[name]);
        if |after| > |before| {
          assert after == before + [after[|before|]];
          ReservedAppend(before, after[|before|], name);
        } else {
          assert after == before;
        }
        assert Reserved(after, name) >= Reserved(before, name);
      }
    }

    /** What the pass has achieved when it stops before entry k. */
    lemma Stopped(ready: seq<Ready>, eligible: seq<Eligible>, running: seq<Attempt>, from: nat, k: nat)
      requires workers > 0 && k <= |eligible| && Ordered(eligible)
      requires forall e :: e in eligible <==>
        e.0 in ready && Suitable(e.0) && e.1 == Effective(e.0.job, e.0.state, capacity, workers)
      requires forall i :: from <= i < |running| ==> OfFirst(eligible, k, running[i])
      requires forall j :: 0 <= j < k ==> Tried(running, from, eligible[j].0)
      ensures forall i :: from <= i < |running| ==> Justified(ready, running[i])
      ensures forall r :: r in ready && Suitable(r) ==> Tried(running, from, r) || k < |eligible|
      ensures forall i, r :: from <= i < |running| && r in ready && Suitable(r) && !Tried(running, from, r) ==>
        GoesBefore(ready, running[i], r)
    {
      forall r | r in ready && Suitable(r) && !Tried(running, from, r)
        ensures k < |eligible| && forall j :: 0 <= j < k ==> Earlier(eligible[j].0, r)
      {
        Unprocessed(ready, eligible, running, from, k, r);
      }
      forall i | from <= i < |running|
        ensures Justified(ready, running[i])
        ensures forall r :: r in ready && Suitable(r) && !Tried(running, from, r) ==> GoesBefore(ready, running[i], r)
      {
        var j :| 0 <= j < k && Launches(eligible[j].0, running[i]);
        assert eligible[j] in eligible;
      }
    }

    lemma Unprocessed(ready: seq<Ready>, eligible: seq<Eligible>, running: seq<Attempt>, from: nat, k: nat, r: Ready)
      requires workers > 0 && k <= |eligible| && Ordered(eligible)
      requires forall e :: e in eligible <==>
        e.0 in ready && Suitable(e.0) && e.1 == Effective(e.0.job, e.0.state, capacity, workers)
      requires forall j :: 0 <= j < k ==> Tried(running, from, eligible[j].0)
      requires r in ready && Suitable(r) && !Tried(running, from, r)
      ensures k < |eligible| && forall j :: 0 <= j < k ==> Earlier(eligible[j].0, r)
    {
      var e := (r, Effective(r.job, r.state, capacity, workers));
      assert e in eligible;
      var n :| 0 <= n < |eligible| && eligible[n] == e;
      assert n >= k;
    }

    /** The claimed frame records the requirement; the reservation is recomputed from that frame. */
    method Launch(r: Ready)
      requires Valid() && |running| < workers && Suitable(r) && Room(running, r)
      modifies this`running
      ensures Valid()
      ensures old(running) <= running && |running| == |old(running)| + if r.launched.Some? then 1 else 0
      ensures r.launched.Some? ==> Launches(r, running[|old(running)|])
    {
      var claimed := r.state.(resources := Some(Effective(r.job, r.state, capacity, workers)));
      if r.launched.None? { return; }
      var requirement := Effective(r.job, claimed, capacity, workers);
      RecomputedFromClaim(r.job, r.state, r.job, capacity, workers);
      var attempt := Attempt(r.launched.value, requirement);
      Admitted(capacity, workers, running, attempt);
      running := running + [attempt];
    }

    /** An attempt that ended gives its reservation back, and nothing else. */
    method Forget(i: nat)
      requires Valid() && i < |running|
      modifies this`running
      ensures Valid() && running == old(running)[..i] + old(running)[i + 1..]
      ensures forall name ::
        Reserved(old(running), name) == Reserved(running, name) + Amount(old(running)[i].resources, name)
    {
      forall name ensures Reserved(running, name) ==
        Reserved(running[..i] + running[i + 1..], name) + Amount(running[i].resources, name) {
        ReservedWithout(running, i, name);
      }
      running := running[..i] + running[i + 1..];
    }
  }
}
