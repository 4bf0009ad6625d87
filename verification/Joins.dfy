/** Join decisions over any number of children. */
module Joins {
  import opened Common

  datatype Condition =
    | AllSucceeded | AllTerminal | AnySucceeded | AnyTerminal | AtLeast(count: int) | Unknown(name: string)

  datatype Verdict = Satisfied | Impossible | Blocked

  function Count(kinds: seq<Kind>, p: Kind -> bool): nat {
    if kinds == [] then 0
    else Count(kinds[..|kinds| - 1], p) + if p(kinds[|kinds| - 1]) then 1 else 0
  }

  const WON := (k: Kind) => k == Succeeded
  const OPEN := (k: Kind) => !Terminal(k)

  predicate IsSatisfied(c: Condition, kinds: seq<Kind>)
    requires !c.Unknown?
  {
    match c
    case AllSucceeded => forall i :: 0 <= i < |kinds| ==> kinds[i] == Succeeded
    case AllTerminal => forall i :: 0 <= i < |kinds| ==> Terminal(kinds[i])
    case AnySucceeded => exists i :: 0 <= i < |kinds| && kinds[i] == Succeeded
    case AnyTerminal => exists i :: 0 <= i < |kinds| && Terminal(kinds[i])
    case AtLeast(n) => Count(kinds, WON) >= n
  }

  predicate IsImpossible(c: Condition, kinds: seq<Kind>)
    requires !c.Unknown?
  {
    match c
    case AllSucceeded => exists i :: 0 <= i < |kinds| && (kinds[i] == Failed || kinds[i] == Cancelled)
    case AllTerminal => false
    case AnySucceeded =>
      && (forall i :: 0 <= i < |kinds| ==> Terminal(kinds[i]))
      && !(exists i :: 0 <= i < |kinds| && kinds[i] == Succeeded)
    case AnyTerminal => false
    case AtLeast(n) => Count(kinds, WON) + Count(kinds, OPEN) < n
  }

  /** `None` is the format error for an unknown condition. */
  function Classify(c: Condition, kinds: seq<Kind>): Option<Verdict> {
    if c.Unknown? then None
    else if IsSatisfied(c, kinds) then Some(Satisfied)
    else if IsImpossible(c, kinds) then Some(Impossible)
    else Some(Blocked)
  }

  // ---------- the reference: what the children may still become ----------

  /** Terminal children keep their kind; the others may become anything. */
  ghost predicate Progress(kinds: seq<Kind>, later: seq<Kind>) {
    |later| == |kinds| && forall i :: 0 <= i < |kinds| && Terminal(kinds[i]) ==> later[i] == kinds[i]
  }

  ghost predicate Completion(kinds: seq<Kind>, final: seq<Kind>) {
    Progress(kinds, final) && forall i :: 0 <= i < |final| ==> Terminal(final[i])
  }

  /** The completion in which every open child succeeds. */
  function Best(kinds: seq<Kind>): seq<Kind> {
    seq(|kinds|, i requires 0 <= i < |kinds| => if Terminal(kinds[i]) then kinds[i] else Succeeded)
  }

  lemma {:induction false} BestCount(kinds: seq<Kind>)
    ensures Count(Best(kinds), WON) == Count(kinds, WON) + Count(kinds, OPEN)
  {
    if kinds != [] {
      var n := |kinds| - 1;
      BestCount(kinds[..n]);
      assert Best(kinds)[..n] == Best(kinds[..n]);
    }
  }

  lemma {:induction false} WinsOnlyGrow(kinds: seq<Kind>, later: seq<Kind>)
    requires Progress(kinds, later)
    ensures Count(kinds, WON) <= Count(later, WON)
    ensures Count(later, WON) + Count(later, OPEN) <= Count(kinds, WON) + Count(kinds, OPEN)
  {
    if kinds != [] {
      WinsOnlyGrow(kinds[..|kinds| - 1], later[..|kinds| - 1]);
    }
  }

  lemma {:induction false} NoneOpen(kinds: seq<Kind>)
    requires forall i :: 0 <= i < |kinds| ==> Terminal(kinds[i])
    ensures Count(kinds, OPEN) == 0
  {
    if kinds != [] {
      NoneOpen(kinds[..|kinds| - 1]);
    }
  }

  // ---------- what the verdict means ----------

  /** The children of which `p` holds, by position. */
  ghost function Places(kinds: seq<Kind>, p: Kind -> bool): set<nat> {
    set i: nat | i < |kinds| && p(kinds[i])
  }

  lemma {:induction false} CountIsNumber(kinds: seq<Kind>, p: Kind -> bool)
    ensures Count(kinds, p) == |Places(kinds, p)|
  {
    if kinds != [] {
      var n := |kinds| - 1;
      CountIsNumber(kinds[..n], p);
      assert Places(kinds, p) == Places(kinds[..n], p) + if p(kinds[n]) then {n} else {};
    }
  }

  /** What the five conditions ask for, in numbers: a condition about success asks for a number of
      succeeded children, and is satisfied when it is reached and impossible when the open children
      cannot make up for what is missing; the others look at the open children alone. */
  lemma VerdictByNumbers(c: Condition, kinds: seq<Kind>)
    ensures
      var won := |set i: nat | i < |kinds| && kinds[i] == Succeeded|;
      var open := |set i: nat | i < |kinds| && kinds[i] !in {Succeeded, Failed, Cancelled}|;
      Classify(c, kinds) == match c
        case AllSucceeded => Some(ByNumber(won, open, |kinds|))
        case AnySucceeded => Some(ByNumber(won, open, 1))
        case AtLeast(n) => Some(ByNumber(won, open, n))
        case AllTerminal => Some(if open == 0 then Satisfied else Blocked)
        case AnyTerminal => Some(if open < |kinds| then Satisfied else Blocked)
        case Unknown(_) => None
  {
    CountIsNumber(kinds, WON);
    CountIsNumber(kinds, OPEN);
    assert Places(kinds, WON) == set i: nat | i < |kinds| && kinds[i] == Succeeded;
    assert Places(kinds, OPEN) == set i: nat | i < |kinds| && kinds[i] !in {Succeeded, Failed, Cancelled};
    CountsOfAll(kinds);
  }

  function ByNumber(won: nat, open: nat, asked: int): Verdict {
    if won >= asked then Satisfied else if won + open < asked then Impossible else Blocked
  }

  /** How all and any appear in the counts. */
  lemma {:induction false} CountsOfAll(kinds: seq<Kind>)
    ensures Count(kinds, WON) + Count(kinds, OPEN) <= |kinds|
    ensures Count(kinds, WON) == |kinds| <==> forall i :: 0 <= i < |kinds| ==> kinds[i] == Succeeded
    ensures Count(kinds, WON) >= 1 <==> exists i :: 0 <= i < |kinds| && kinds[i] == Succeeded
    ensures Count(kinds, OPEN) == 0 <==> forall i :: 0 <= i < |kinds| ==> Terminal(kinds[i])
    ensures Count(kinds, OPEN) < |kinds| <==> exists i :: 0 <= i < |kinds| && Terminal(kinds[i])
    ensures Count(kinds, WON) + Count(kinds, OPEN) < |kinds| <==>
      exists i :: 0 <= i < |kinds| && (kinds[i] == Failed || kinds[i] == Cancelled)
  {
    if kinds != [] {
      CountsOfAll(kinds[..|kinds| - 1]);
      assert forall i :: 0 <= i < |kinds| - 1 ==> kinds[..|kinds| - 1][i] == kinds[i];
    }
  }

  /** A join is called impossible exactly when no completion of its open children satisfies it. */
  lemma ImpossibleIffNoCompletion(c: Condition, kinds: seq<Kind>)
    requires kinds != [] && !c.Unknown?
    ensures Classify(c, kinds) == Some(Impossible) <==>
            forall final :: Completion(kinds, final) ==> !IsSatisfied(c, final)
  {
    var best := Best(kinds);
    BestCount(kinds);
    assert Completion(kinds, best);
    if IsImpossible(c, kinds) {
      forall final | Completion(kinds, final)
        ensures !IsSatisfied(c, final)
      {
        WinsOnlyGrow(kinds, final);
        NoneOpen(final);
      }
    } else {
      if c.AnySucceeded? {
        var i :| 0 <= i < |kinds| && (!Terminal(kinds[i]) || kinds[i] == Succeeded);
        assert best[i] == Succeeded;
      } else if c.AnyTerminal? {
        assert Terminal(best[0]);
      }
      assert IsSatisfied(c, best);
    }
    if IsSatisfied(c, kinds) {
      SatisfiedStays(c, kinds, best);
    }
  }

  lemma SatisfiedStays(c: Condition, kinds: seq<Kind>, later: seq<Kind>)
    requires !c.Unknown? && Progress(kinds, later) && IsSatisfied(c, kinds)
    ensures IsSatisfied(c, later)
  {
    WinsOnlyGrow(kinds, later);
    match c
    case AnySucceeded =>
      var i :| 0 <= i < |kinds| && kinds[i] == Succeeded;
      assert later[i] == Succeeded;
    case AnyTerminal =>
      var i :| 0 <= i < |kinds| && Terminal(kinds[i]);
      assert Terminal(later[i]);
    case _ =>
  }

  lemma ImpossibleStays(c: Condition, kinds: seq<Kind>, later: seq<Kind>)
    requires !c.Unknown? && Progress(kinds, later) && IsImpossible(c, kinds)
    ensures IsImpossible(c, later)
  {
    WinsOnlyGrow(kinds, later);
    match c
    case AllSucceeded =>
      var i :| 0 <= i < |kinds| && (kinds[i] == Failed || kinds[i] == Cancelled);
      assert later[i] == kinds[i];
    case AnySucceeded =>
      assert forall i :: 0 <= i < |later| ==> later[i] == kinds[i];
    case _ =>
  }

  /** The two verdicts exclude each other, so the order in which they are tried does not matter. */
  lemma NeverBoth(c: Condition, kinds: seq<Kind>)
    requires kinds != [] && !c.Unknown?
    ensures !(IsSatisfied(c, kinds) && IsImpossible(c, kinds))
  {
    if c.AllSucceeded? && IsImpossible(c, kinds) {
      var i :| 0 <= i < |kinds| && (kinds[i] == Failed || kinds[i] == Cancelled);
      assert kinds[i] != Succeeded;
    }
  }

  /** A decided join stays decided the same way as children go on, and a join whose children are all
      terminal is decided. */
  lemma VerdictsAreFinal(c: Condition, kinds: seq<Kind>, later: seq<Kind>)
    requires kinds != [] && !c.Unknown? && Progress(kinds, later)
    ensures Classify(c, kinds) != Some(Blocked) ==> Classify(c, later) == Classify(c, kinds)
    ensures (forall i :: 0 <= i < |kinds| ==> Terminal(kinds[i])) ==> Classify(c, kinds) != Some(Blocked)
  {
    if IsSatisfied(c, kinds) {
      SatisfiedStays(c, kinds, later);
    } else if IsImpossible(c, kinds) {
      ImpossibleStays(c, kinds, later);
      NeverBoth(c, later);
    }
    if forall i :: 0 <= i < |kinds| ==> Terminal(kinds[i]) {
      NoneOpen(kinds);
      assert Terminal(kinds[0]);
      assert IsSatisfied(c, kinds) || IsImpossible(c, kinds);
    }
  }

  /** The guard on empty child lists is needed: over no children the verdict "blocked" would last
      although no completion satisfies the join. */
  lemma EmptyListNeverDecides()
    ensures Classify(AnyTerminal, []) == Some(Blocked)
    ensures forall final :: Completion([], final) ==> !IsSatisfied(AnyTerminal, final)
  {
  }
}
