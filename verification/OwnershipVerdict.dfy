/** What the checkers of theory/check_model.py report: the first rule that is broken, in the order
    of their text. Each rule is stated on the states alone, whatever the rules before it say. */
module OwnershipVerdict {
  import opened Common
  import opened OwnershipModel
  import opened OwnershipOracle

  // A position in a checker: its rule, and the acquisition within the rule's loop.
  datatype Rank = Rank(rule: nat, step: nat)

  predicate NoLater(a: Rank, b: Rank)
  {
    a.rule < b.rule || (a.rule == b.rule && a.step <= b.step)
  }

  // ---- The state checker ----

  predicate Sizes(s: State)
  {
    |s.explicit| == |s.cleanup| == |s.live|
  }

  // The effects on acquisition k do not match its liveness.
  predicate Disagrees(s: State, k: nat)
    requires Sizes(s) && 1 <= k <= |s.live|
  {
    s.explicit[k - 1] + s.cleanup[k - 1] != (if s.live[k - 1] then 0 else 1)
  }

  ghost predicate StateBreaks(s: State, capacity: int, f: StateFault)
  {
    var n := |s.live|;
    match f
    case Dimensions => n > capacity || !Sizes(s)
    case UnknownAlias => exists i ::
      || (0 <= i < |s.registers| && !(0 <= s.registers[i] <= n))
      || (0 <= i < |s.spills| && !(0 <= s.spills[i] <= n))
    case NegativeCount => exists i ::
      (0 <= i < |s.explicit| && s.explicit[i] < 0) || (0 <= i < |s.cleanup| && s.cleanup[i] < 0)
    case Inconsistent(k) => Sizes(s) && 1 <= k <= n && Disagrees(s, k)
    case Accounting => s.refcount + Sum(s.explicit) + Sum(s.cleanup) != 1 + n
    case Baseline => s.refcount - Count(s.live) != 1
    case NotRestored => !s.terminal.Active? && (s.refcount != 1 || true in s.live)
    case EarlyCleanup => Sizes(s) && s.terminal.Active? && exists i :: 0 <= i < n && s.cleanup[i] != 0
  }

  function StateRank(f: StateFault): Rank
  {
    match f
    case Dimensions => Rank(0, 0)
    case UnknownAlias => Rank(1, 0)
    case NegativeCount => Rank(2, 0)
    case Inconsistent(k) => Rank(3, k)
    case Accounting => Rank(4, 0)
    case Baseline => Rank(5, 0)
    case NotRestored => Rank(6, 0)
    case EarlyCleanup => Rank(7, 0)
  }

  lemma {:induction false} FirstInconsistentFrom(s: State, i: nat)
    requires Sizes(s) && i <= |s.live|
    ensures match FirstInconsistent(s, i)
      case None => forall k :: i < k <= |s.live| ==> !Disagrees(s, k)
      case Some(f) =>
        && f.Inconsistent? && i < f.acquisition <= |s.live| && Disagrees(s, f.acquisition)
        && (forall k :: i < k < f.acquisition ==> !Disagrees(s, k))
    decreases |s.live| - i
  {
    if i < |s.live| { FirstInconsistentFrom(s, i + 1); }
  }

  // The state checker names the first broken rule, and is silent only if none is broken.
  lemma StateVerdict(s: State, capacity: int)
    ensures match StateError(s, capacity)
      case None => forall g :: !StateBreaks(s, capacity, g)
      case Some(f) =>
        && StateBreaks(s, capacity, f)
        && (forall g :: StateBreaks(s, capacity, g) ==> NoLater(StateRank(f), StateRank(g)))
  {
    hide Sum, Count;
    if Sizes(s) { FirstInconsistentFrom(s, 0); }
  }

  lemma StateRankInjective(f: StateFault, g: StateFault)
    ensures StateRank(f) == StateRank(g) ==> f == g
  {
  }

  // Which fault is reported, exactly.
  lemma StateVerdictExactly(s: State, capacity: int, f: StateFault)
    ensures StateError(s, capacity) == Some(f) <==>
      StateBreaks(s, capacity, f)
      && forall g :: StateBreaks(s, capacity, g) ==> NoLater(StateRank(f), StateRank(g))
  {
    hide StateBreaks, StateError, StateRank;
    StateVerdict(s, capacity);
    var v := StateError(s, capacity);
    if v.Some? { StateRankInjective(f, v.value); }
  }

  // ---- The edge checker ----

  predicate SameAliases(before: State, after: State)
  {
    after.registers == before.registers && after.spills == before.spills
  }

  // What acquisition k is left with after a release of token.
  predicate Miscounted(before: State, after: State, token: int, k: nat)
    requires 1 <= k <= |before.explicit| && k <= |after.explicit|
  {
    after.explicit[k - 1] != before.explicit[k - 1] + (if k == token then 1 else 0)
  }

  predicate Disturbed(before: State, after: State, token: int, k: nat)
    requires 1 <= k <= |before.live| && k <= |after.live|
  {
    k != token && after.live[k - 1] != before.live[k - 1]
  }

  predicate Miscleaned(before: State, after: State, k: nat)
    requires 1 <= k <= |before.live| && k <= |before.cleanup| && k <= |after.cleanup|
  {
    after.cleanup[k - 1] != before.cleanup[k - 1] + (if before.live[k - 1] then 1 else 0)
  }

  // The registers and slots that an operation on aliases leaves.
  predicate Transported(before: State, m: Move, after: State)
    requires Shaped(before) && InRange(before, m)
  {
    match m
    case Copy(dst, src) =>
      after.registers == before.registers[dst := before.registers[src]] && after.spills == before.spills
    case Reload(dst, slot) =>
      after.registers == before.registers[dst := before.spills[slot]] && after.spills == before.spills
    case Spill(slot, r) =>
      after.registers == before.registers && after.spills == before.spills[slot := before.registers[r]]
    case AcquireNull(r) => after.registers == before.registers[r := 0] && after.spills == before.spills
    case _ => true
  }

  // The rules of the edge checker; ended and token as its text has them.
  ghost predicate EdgeBreaks(before: State, e: Edge, capacity: int, f: EdgeFault)
    requires Shaped(before) && Shaped(e.target) && InRange(before, e.move)
  {
    var after, m := e.target, e.move;
    var n, ended, grows := |before.live|, !after.terminal.Active?, |before.live| <= |after.live|;
    var using, acquiring := m.Read? || m.Release?, m.Acquire?;
    var moving := m.Copy? || m.Spill? || m.Reload? || m.AcquireNull?;
    var token := if using then before.registers[m.r] else 0;
    var valid := using && 0 < token <= n && before.live[token - 1];
    var created := acquiring && !ended && |after.live| > n;
    match f
    case Resumed => !before.terminal.Active?
    case IdentityDiscarded => |after.live| < n
    case IdentityCreated => !acquiring && |after.live| > n
    case FinishFault => m.Finish? && (after.terminal != Finished || e.answer != Return)
    case TerminalAliases => ended && !SameAliases(before, after)
    case TerminalExplicit => ended && after.explicit != before.explicit
    case TerminalCleanup(k) => ended && grows && 1 <= k <= n && Miscleaned(before, after, k)
    case UseChangedAlias => using && !SameAliases(before, after)
    case UsedWithoutTrap => using && !valid && !ended
    case LiveRejected => valid && ended
    case WrongTrapReason => using && !valid && ended
      && var cause := if token == 0 then NullCause else StaleCause;
         !(after.terminal == Faulted(cause, m.Release?) && e.answer == if token == 0 then Null else Stale)
    case ReadFault => m.Read? && valid && !(e.answer == Value42 && after == before)
    case ReleaseAnswer => m.Release? && valid && e.answer != Consumed
    case AlsoAffects(k) => m.Release? && valid && grows && 1 <= k <= n && Miscounted(before, after, token, k)
    case AlsoChanged(k) => m.Release? && valid && grows && 1 <= k <= n && Disturbed(before, after, token, k)
    case NotConsumed =>
      m.Release? && valid && grows && (after.live[token - 1] || after.cleanup != before.cleanup)
    case AliasTrapped => moving && ended
    case AliasAnswer => moving && e.answer != if m.AcquireNull? then Null else Copied
    case AliasOwnership => moving
      && !(after.live == before.live && after.explicit == before.explicit && after.cleanup == before.cleanup
           && after.refcount == before.refcount)
    case AliasIdentity => moving && !Transported(before, m, after)
    case ExhaustionMismatch => acquiring && (ended <==> n != capacity)
    case ExhaustionReason => acquiring && ended && !(after.terminal == Exhausted && e.answer == Exhaustion)
    case NotFresh => acquiring && !ended
      && !(|after.live| == n + 1 && m.r < |after.registers| && after.registers[m.r] == n + 1)
    case NotOneReference =>
      created && !(after.live[n] && after.explicit[n] == after.cleanup[n] == 0 && after.refcount == before.refcount + 1)
    case AcquireAnswer => acquiring && !ended && e.answer != Success
    case UnrelatedAlias => acquiring && !ended
      && !(after.registers == before.registers[m.r := n + 1] && after.spills == before.spills)
    case ExistingToken =>
      created && !(before.live <= after.live && before.explicit <= after.explicit && before.cleanup <= after.cleanup)
  }

  function EdgeRank(f: EdgeFault): Rank
  {
    match f
    case Resumed => Rank(0, 0)
    case IdentityDiscarded => Rank(1, 0)
    case IdentityCreated => Rank(2, 0)
    case FinishFault => Rank(3, 0)
    case TerminalAliases => Rank(4, 0)
    case TerminalExplicit => Rank(5, 0)
    case TerminalCleanup(k) => Rank(6, k)
    case UseChangedAlias => Rank(7, 0)
    case UsedWithoutTrap => Rank(8, 0)
    case LiveRejected => Rank(9, 0)
    case WrongTrapReason => Rank(10, 0)
    case ReadFault => Rank(11, 0)
    case ReleaseAnswer => Rank(12, 0)
    case AlsoAffects(k) => Rank(13, 2 * k)
    case AlsoChanged(k) => Rank(13, 2 * k + 1)
    case NotConsumed => Rank(14, 0)
    case AliasTrapped => Rank(15, 0)
    case AliasAnswer => Rank(16, 0)
    case AliasOwnership => Rank(17, 0)
    case AliasIdentity => Rank(18, 0)
    case ExhaustionMismatch => Rank(19, 0)
    case ExhaustionReason => Rank(20, 0)
    case NotFresh => Rank(21, 0)
    case NotOneReference => Rank(22, 0)
    case AcquireAnswer => Rank(23, 0)
    case UnrelatedAlias => Rank(24, 0)
    case ExistingToken => Rank(25, 0)
  }

  lemma {:induction false} FirstMiscleanedFrom(before: State, after: State, i: nat)
    requires |before.live| == |before.cleanup| && i <= |before.live| <= |after.cleanup|
    ensures match FirstMiscleaned(before, after, i)
      case None => forall k :: i < k <= |before.live| ==> !Miscleaned(before, after, k)
      case Some(f) =>
        f.TerminalCleanup? && i < f.acquisition <= |before.live| && Miscleaned(before, after, f.acquisition)
        && (forall k :: i < k < f.acquisition ==> !Miscleaned(before, after, k))
    decreases |before.live| - i
  {
    if i < |before.live| { FirstMiscleanedFrom(before, after, i + 1); }
  }

  lemma {:induction false} FirstVictimFrom(before: State, after: State, token: int, i: nat)
    requires |before.live| == |before.explicit| && i <= |before.live|
    requires |before.live| <= |after.live| && |before.live| <= |after.explicit|
    ensures match FirstVictim(before, after, token - 1, i)
      case None => forall k :: i < k <= |before.live| ==>
        !Miscounted(before, after, token, k) && !Disturbed(before, after, token, k)
      case Some(f) =>
        && (f.AlsoAffects? || f.AlsoChanged?) && i < f.acquisition <= |before.live|
        && (if f.AlsoAffects? then Miscounted(before, after, token, f.acquisition)
            else Disturbed(before, after, token, f.acquisition) && !Miscounted(before, after, token, f.acquisition))
        && (forall k :: i < k < f.acquisition ==>
              !Miscounted(before, after, token, k) && !Disturbed(before, after, token, k))
    decreases |before.live| - i
  {
    if i < |before.live| { FirstVictimFrom(before, after, token, i + 1); }
  }

  // v is the first broken rule from rule lo on, if there is one before rule hi.
  ghost predicate Names(before: State, e: Edge, capacity: int, v: Option<EdgeFault>, lo: nat, hi: nat)
    requires Shaped(before) && Shaped(e.target) && InRange(before, e.move)
  {
    match v
    case None => forall g :: lo <= EdgeRank(g).rule < hi ==> !EdgeBreaks(before, e, capacity, g)
    case Some(f) =>
      && lo <= EdgeRank(f).rule && EdgeBreaks(before, e, capacity, f)
      && (forall g :: lo <= EdgeRank(g).rule && EdgeBreaks(before, e, capacity, g) ==>
            NoLater(EdgeRank(f), EdgeRank(g)))
  }

  lemma FrameNames(before: State, e: Edge, capacity: int)
    requires Shaped(before) && Shaped(e.target) && InRange(before, e.move)
    ensures Names(before, e, capacity, FrameFault(before, e), 0, 7)
  {
    if |before.live| <= |e.target.live| { FirstMiscleanedFrom(before, e.target, 0); }
    hide FirstMiscleaned;
  }

  lemma UseNames(before: State, e: Edge, capacity: int)
    requires Shaped(before) && Shaped(e.target) && InRange(before, e.move) && (e.move.Read? || e.move.Release?)
    requires |before.live| <= |e.target.live|
    ensures Names(before, e, capacity, UseFault(before, e), 7, 26)
  {
    if e.move.Release? { FirstVictimFrom(before, e.target, before.registers[e.move.r], 0); }
    hide FirstVictim;
  }

  lemma AliasNames(before: State, e: Edge, capacity: int)
    requires Shaped(before) && Shaped(e.target) && InRange(before, e.move)
    requires e.move.Copy? || e.move.Spill? || e.move.Reload? || e.move.AcquireNull?
    ensures Names(before, e, capacity, AliasFault(before, e), 7, 26)
  {
  }

  lemma AcquireNames(before: State, e: Edge, capacity: int)
    requires Shaped(before) && Shaped(e.target) && InRange(before, e.move) && e.move.Acquire?
    requires |before.live| <= |e.target.live|
    ensures Names(before, e, capacity, AcquireFault(before, e, capacity), 7, 26)
  {
    Prefixes(before.live, e.target.live);
    Prefixes(before.explicit, e.target.explicit);
    Prefixes(before.cleanup, e.target.cleanup);
  }

  lemma Prefixes<T>(a: seq<T>, b: seq<T>)
    requires |a| <= |b|
    ensures a <= b <==> b[..|a|] == a
  {
    if a <= b { assert forall i :: 0 <= i < |a| ==> b[..|a|][i] == b[i] == a[i]; }
  }

  lemma FinishNames(before: State, e: Edge, capacity: int)
    requires Shaped(before) && Shaped(e.target) && e.move.Finish?
    ensures Names(before, e, capacity, None, 7, 26)
  {
  }

  lemma FrameKeeps(before: State, e: Edge)
    requires Shaped(before) && Shaped(e.target)
    ensures FrameFault(before, e).None? ==> |before.live| <= |e.target.live|
  {
    hide FirstMiscleaned;
  }

  // The edge checker names the first broken rule, and is silent only if none is broken.
  lemma EdgeVerdict(before: State, e: Edge, capacity: int)
    requires Shaped(before) && Shaped(e.target) && InRange(before, e.move)
    ensures Names(before, e, capacity, EdgeError(before, e, capacity), 0, 26)
  {
    hide FrameFault, UseFault, AliasFault, AcquireFault, EdgeBreaks, InRange;
    FrameNames(before, e, capacity);
    FrameKeeps(before, e);
    if FrameFault(before, e).None? {
      match e.move {
        case Read(_) => UseNames(before, e, capacity);
        case Release(_) => UseNames(before, e, capacity);
        case Acquire(_) => AcquireNames(before, e, capacity);
        case Finish => FinishNames(before, e, capacity);
        case _ => AliasNames(before, e, capacity);
      }
    }
  }

  lemma EdgeRankInjective(f: EdgeFault, g: EdgeFault)
    ensures EdgeRank(f).rule < 26
    ensures EdgeRank(f) == EdgeRank(g) ==> f == g
  {
  }

  // Which fault is reported, exactly.
  lemma EdgeVerdictExactly(before: State, e: Edge, capacity: int, f: EdgeFault)
    requires Shaped(before) && Shaped(e.target) && InRange(before, e.move)
    ensures EdgeError(before, e, capacity) == Some(f) <==>
      && EdgeBreaks(before, e, capacity, f)
      && forall g :: EdgeBreaks(before, e, capacity, g) ==> NoLater(EdgeRank(f), EdgeRank(g))
  {
    hide EdgeBreaks, EdgeError, EdgeRank;
    EdgeVerdict(before, e, capacity);
    EdgeRankInjective(f, f);
    var v := EdgeError(before, e, capacity);
    if v.Some? { EdgeRankInjective(f, v.value); }
    forall g ensures EdgeRank(g).rule < 26 {
      EdgeRankInjective(g, g);
    }
  }
}
