/** The independent checkers of theory/check_model.py, and what they decide. */
module OwnershipOracle {
  import opened Common
  import opened OwnershipModel

  datatype StateFault =
    | Dimensions
    | UnknownAlias
    | NegativeCount
    | Inconsistent(acquisition: nat)
    | Accounting
    | Baseline
    | NotRestored
    | EarlyCleanup

  datatype EdgeFault =
    | Resumed
    | IdentityDiscarded
    | IdentityCreated
    | FinishFault
    | TerminalAliases
    | TerminalExplicit
    | TerminalCleanup(acquisition: nat)
    | UseChangedAlias
    | UsedWithoutTrap
    | LiveRejected
    | WrongTrapReason
    | ReadFault
    | ReleaseAnswer
    | AlsoAffects(acquisition: nat)
    | AlsoChanged(acquisition: nat)
    | NotConsumed
    | AliasTrapped
    | AliasAnswer
    | AliasOwnership
    | AliasIdentity
    | ExhaustionMismatch
    | ExhaustionReason
    | NotFresh
    | NotOneReference
    | AcquireAnswer
    | UnrelatedAlias
    | ExistingToken

  // The first acquisition whose liveness and effect counts disagree.
  function FirstInconsistent(s: State, i: nat): Option<StateFault>
    requires |s.explicit| == |s.cleanup| == |s.live| && i <= |s.live|
    decreases |s.live| - i
  {
    if i == |s.live| then None
    else
      var drops := s.explicit[i] + s.cleanup[i];
      if !(drops == 0 || drops == 1) || s.live[i] != (drops == 0) then Some(Inconsistent(i + 1))
      else FirstInconsistent(s, i + 1)
  }

  predicate Nonnegative(counts: seq<int>)
  {
    forall i :: 0 <= i < |counts| ==> counts[i] >= 0
  }

  function StateError(s: State, capacity: int): Option<StateFault>
  {
    var n := |s.live|;
    if n > capacity || |s.explicit| != n || |s.cleanup| != n then Some(Dimensions)
    else if !Named(s.registers, n) || !Named(s.spills, n) then Some(UnknownAlias)
    else if !Nonnegative(s.explicit) || !Nonnegative(s.cleanup) then Some(NegativeCount)
    else if FirstInconsistent(s, 0).Some? then FirstInconsistent(s, 0)
    else if s.refcount != 1 + n - Sum(s.explicit) - Sum(s.cleanup) then Some(Accounting)
    else if s.refcount != 1 + Count(s.live) then Some(Baseline)
    else if !s.terminal.Active? && ((exists i :: 0 <= i < n && s.live[i]) || s.refcount != 1) then Some(NotRestored)
    else if s.terminal.Active? && exists i :: 0 <= i < n && s.cleanup[i] != 0 then Some(EarlyCleanup)
    else None
  }

  // The three ownership invariants, read directly off the state.
  ghost predicate Owned(s: State, capacity: int)
  {
    && Shaped(s)
    && |s.live| <= capacity
    && (forall i :: 0 <= i < |s.live| ==>
          s.explicit[i] >= 0 && s.cleanup[i] >= 0
          && s.explicit[i] + s.cleanup[i] == (if s.live[i] then 0 else 1))
    && s.refcount == 1 + Count(s.live)
    && (!s.terminal.Active? ==> forall i :: 0 <= i < |s.live| ==> !s.live[i])
    && (s.terminal.Active? ==> forall i :: 0 <= i < |s.live| ==> s.cleanup[i] == 0)
  }

  lemma {:induction false} ConsistentFrom(s: State, i: nat)
    requires |s.explicit| == |s.cleanup| == |s.live| && i <= |s.live|
    ensures FirstInconsistent(s, i).None? <==>
      forall j :: i <= j < |s.live| ==>
        (s.explicit[j] + s.cleanup[j] == 0 || s.explicit[j] + s.cleanup[j] == 1)
        && s.live[j] == (s.explicit[j] + s.cleanup[j] == 0)
    decreases |s.live| - i
  {
    if i < |s.live| {
      ConsistentFrom(s, i + 1);
    }
  }

  lemma CountsBalance(s: State)
    requires |s.explicit| == |s.cleanup| == |s.live|
    requires forall i :: 0 <= i < |s.live| ==>
      s.explicit[i] + s.cleanup[i] == (if s.live[i] then 0 else 1)
    ensures Count(s.live) == |s.live| - Sum(s.explicit) - Sum(s.cleanup)
  {
    var drops := seq(|s.live|, i requires 0 <= i < |s.live| => s.explicit[i] + s.cleanup[i]);
    var ones := seq(|s.live|, _ => 1);
    SumAdds(s.explicit, s.cleanup, drops);
    SumAdds(drops, Bits(s.live), ones);
    SumConstant(ones, 1);
  }

  // The state checker accepts exactly the states that satisfy the three invariants.
  lemma StateCheckerExact(s: State, capacity: int)
    ensures StateError(s, capacity).None? <==> Owned(s, capacity)
  {
    if |s.explicit| == |s.cleanup| == |s.live| {
      ConsistentFrom(s, 0);
      if forall i :: 0 <= i < |s.live| ==>
        s.explicit[i] + s.cleanup[i] == (if s.live[i] then 0 else 1)
      {
        CountsBalance(s);
        CountBounds(s.live);
      }
    }
  }

  function FirstMiscleaned(before: State, after: State, i: nat): Option<EdgeFault>
    requires |before.live| == |before.cleanup| && i <= |before.live| <= |after.cleanup|
    decreases |before.live| - i
  {
    if i == |before.live| then None
    else if after.cleanup[i] - before.cleanup[i] != Bits(before.live)[i] then Some(TerminalCleanup(i + 1))
    else FirstMiscleaned(before, after, i + 1)
  }

  function FirstVictim(before: State, after: State, target: int, i: nat): Option<EdgeFault>
    requires |before.live| == |before.explicit| && i <= |before.live|
    requires |before.live| <= |after.live| && |before.live| <= |after.explicit|
    decreases |before.live| - i
  {
    if i == |before.live| then None
    else if after.explicit[i] - before.explicit[i] != (if i == target then 1 else 0) then Some(AlsoAffects(i + 1))
    else if i != target && after.live[i] != before.live[i] then Some(AlsoChanged(i + 1))
    else FirstVictim(before, after, target, i + 1)
  }

  // Checks that do not depend on which operation was taken, and on termination.
  function FrameFault(before: State, e: Edge): Option<EdgeFault>
    requires Shaped(before) && Shaped(e.target)
  {
    var after := e.target;
    if !before.terminal.Active? then Some(Resumed)
    else if |after.live| < |before.live| then Some(IdentityDiscarded)
    else if !e.move.Acquire? && |after.live| != |before.live| then Some(IdentityCreated)
    else if e.move.Finish? && (after.terminal != Finished || e.answer != Return) then Some(FinishFault)
    else if !after.terminal.Active? then
      if (after.registers, after.spills) != (before.registers, before.spills) then Some(TerminalAliases)
      else if after.explicit != before.explicit then Some(TerminalExplicit)
      else FirstMiscleaned(before, after, 0)
    else None
  }

  function UseFault(before: State, e: Edge): Option<EdgeFault>
    requires Shaped(before) && Shaped(e.target) && InRange(before, e.move)
    requires (e.move.Read? || e.move.Release?) && |before.live| <= |e.target.live|
  {
    var after := e.target;
    var token := before.registers[e.move.r];
    var valid := Holds(before, token);
    var cause := CauseOf(token);
    if (after.registers, after.spills) != (before.registers, before.spills) then Some(UseChangedAlias)
    else if !valid && after.terminal.Active? then Some(UsedWithoutTrap)
    else if valid && !after.terminal.Active? then Some(LiveRejected)
    else if !valid && (after.terminal != Faulted(cause, e.move.Release?) || e.answer != CauseAnswer(cause)) then
      Some(WrongTrapReason)
    else if e.move.Read? && valid && (e.answer != Value42 || after != before) then Some(ReadFault)
    else if e.move.Release? && valid then
      if e.answer != Consumed then Some(ReleaseAnswer)
      else if FirstVictim(before, after, token - 1, 0).Some? then FirstVictim(before, after, token - 1, 0)
      else if after.live[token - 1] || after.cleanup != before.cleanup then Some(NotConsumed)
      else None
    else None
  }

  function AliasFault(before: State, e: Edge): Option<EdgeFault>
    requires Shaped(before) && InRange(before, e.move)
    requires e.move.Copy? || e.move.Spill? || e.move.Reload? || e.move.AcquireNull?
  {
    var after := e.target;
    var registers :=
      match e.move
      case Copy(dst, src) => before.registers[dst := before.registers[src]]
      case Reload(dst, slot) => before.registers[dst := before.spills[slot]]
      case AcquireNull(r) => before.registers[r := 0]
      case _ => before.registers;
    var spills :=
      if e.move.Spill? then before.spills[e.move.slot := before.registers[e.move.r]] else before.spills;
    if !after.terminal.Active? then Some(AliasTrapped)
    else if e.answer != (if e.move.AcquireNull? then Null else Copied) then Some(AliasAnswer)
    else if (after.live, after.explicit, after.cleanup, after.refcount)
         != (before.live, before.explicit, before.cleanup, before.refcount) then Some(AliasOwnership)
    else if after.registers != registers || after.spills != spills then Some(AliasIdentity)
    else None
  }

  function AcquireFault(before: State, e: Edge, capacity: int): Option<EdgeFault>
    requires Shaped(before) && Shaped(e.target) && InRange(before, e.move)
    requires e.move.Acquire? && |before.live| <= |e.target.live|
  {
    var after, n, r := e.target, |before.live|, e.move.r;
    if !after.terminal.Active? != (n == capacity) then Some(ExhaustionMismatch)
    else if !after.terminal.Active? then
      if after.terminal != Exhausted || e.answer != Exhaustion then Some(ExhaustionReason) else None
    else if |after.live| != n + 1 || r >= |after.registers| || after.registers[r] != n + 1 then Some(NotFresh)
    else if !after.live[n] || after.explicit[n] != 0 || after.cleanup[n] != 0
         || after.refcount != before.refcount + 1 then Some(NotOneReference)
    else if e.answer != Success then Some(AcquireAnswer)
    else if after.registers != before.registers[r := n + 1] || after.spills != before.spills then Some(UnrelatedAlias)
    else if (after.live[..n], after.explicit[..n], after.cleanup[..n])
         != (before.live, before.explicit, before.cleanup) then Some(ExistingToken)
    else None
  }

  // Observations and effects of one edge, checked apart from the transition constructors.
  function EdgeError(before: State, e: Edge, capacity: int): Option<EdgeFault>
    requires Shaped(before) && Shaped(e.target) && InRange(before, e.move)
  {
    var frame := FrameFault(before, e);
    if frame.Some? then frame
    else
      match e.move
      case Read(_) => UseFault(before, e)
      case Release(_) => UseFault(before, e)
      case Acquire(_) => AcquireFault(before, e, capacity)
      case Finish => None
      case _ => AliasFault(before, e)
  }

  // Both checkers pass, the state checker first.
  predicate Accepted(before: State, e: Edge, capacity: int)
    requires Shaped(before) && InRange(before, e.move)
  {
    StateError(e.target, capacity).None?
    && (StateCheckerExact(e.target, capacity); EdgeError(before, e, capacity).None?)
  }

  lemma {:induction false} MiscleanedExact(before: State, after: State, i: nat)
    requires |before.live| == |before.cleanup| && i <= |before.live| <= |after.cleanup|
    ensures FirstMiscleaned(before, after, i).None? <==>
      forall j :: i <= j < |before.live| ==> after.cleanup[j] == before.cleanup[j] + Bits(before.live)[j]
    decreases |before.live| - i
  {
    if i < |before.live| {
      MiscleanedExact(before, after, i + 1);
    }
  }

  lemma {:induction false} VictimExact(before: State, after: State, target: int, i: nat)
    requires |before.live| == |before.explicit| && i <= |before.live|
    requires |before.live| <= |after.live| && |before.live| <= |after.explicit|
    ensures FirstVictim(before, after, target, i).None? <==>
      forall j :: i <= j < |before.live| ==>
        after.explicit[j] == before.explicit[j] + (if j == target then 1 else 0)
        && (j != target ==> after.live[j] == before.live[j])
    decreases |before.live| - i
  {
    if i < |before.live| {
      VictimExact(before, after, target, i + 1);
    }
  }

  lemma TerminateOwned(s: State, capacity: int, reason: Terminal)
    requires Owned(s, capacity) && s.terminal.Active? && !reason.Active?
    ensures Owned(Terminate(s, reason), capacity)
  {
    CountNone(Terminate(s, reason).live);
  }

  lemma ConsumeOwned(s: State, capacity: int, token: int, mutation: bool)
    requires Owned(s, capacity) && s.terminal.Active?
    ensures Owned(Consume(s, token, mutation), capacity)
  {
    var v, after := Victims(s, token, mutation), Consume(s, token, mutation);
    SumAdds(Bits(after.live), Bits(v), Bits(s.live));
  }

  // Every edge, of the machine and of its mutant, leads to a state with the three invariants.
  lemma FireKeepsOwned(s: State, m: Move, capacity: int, mutation: bool)
    requires Owned(s, capacity) && s.terminal.Active? && InRange(s, m)
    ensures Owned(Fire(s, m, capacity, mutation).target, capacity)
  {
    match m {
      case Acquire(r) =>
        if |s.live| == capacity { TerminateOwned(s, capacity, Exhausted); }
        else { CountPush(s.live, true); }
      case Read(r) =>
        TerminateOwned(s, capacity, Faulted(CauseOf(s.registers[r]), false));
      case Release(r) =>
        TerminateOwned(s, capacity, Faulted(CauseOf(s.registers[r]), true));
        ConsumeOwned(s, capacity, s.registers[r], mutation);
      case Finish => TerminateOwned(s, capacity, Finished);
      case _ =>
    }
  }

  lemma FireIsAccepted(s: State, m: Move, capacity: int)
    requires Owned(s, capacity) && s.terminal.Active? && InRange(s, m)
    ensures Accepted(s, Fire(s, m, capacity, false), capacity)
  {
    hide Sum, Count, StateError;
    var e := Fire(s, m, capacity, false);
    FireKeepsOwned(s, m, capacity, false);
    StateCheckerExact(e.target, capacity);
    MiscleanedExact(s, e.target, 0);
    if m.Release? {
      VictimExact(s, e.target, s.registers[m.r] - 1, 0);
    }
  }

  // Two terminal states with the same frame and reason are the same state.
  lemma TerminalDetermined(before: State, after: State, capacity: int)
    requires Owned(before, capacity) && Owned(after, capacity) && !after.terminal.Active?
    requires |after.live| >= |before.live|
    requires after.registers == before.registers && after.spills == before.spills
    requires after.explicit == before.explicit
    requires forall j :: 0 <= j < |before.live| ==> after.cleanup[j] == before.cleanup[j] + Bits(before.live)[j]
    ensures after == Terminate(before, after.terminal)
  {
    CountNone(after.live);
    assert after.live == Terminate(before, after.terminal).live;
    assert after.cleanup == Terminate(before, after.terminal).cleanup;
  }

  lemma ReleaseDetermined(before: State, after: State, capacity: int, token: int)
    requires Owned(before, capacity) && Owned(after, capacity)
    requires before.terminal.Active? && after.terminal.Active?
    requires 0 <= token <= |before.live| && Holds(before, token)
    requires |after.live| == |before.live|
    requires after.registers == before.registers && after.spills == before.spills
    requires after.cleanup == before.cleanup && !after.live[token - 1]
    requires forall j :: 0 <= j < |before.live| ==>
      after.explicit[j] == before.explicit[j] + (if j == token - 1 then 1 else 0)
      && (j != token - 1 ==> after.live[j] == before.live[j])
    ensures after == Consume(before, token, false)
  {
    var wanted := Consume(before, token, false);
    ConsumeOwned(before, capacity, token, false);
    assert after.live == wanted.live;
    assert after.explicit == wanted.explicit;
  }

  // What the operation-independent checks establish.
  ghost predicate Framed(before: State, e: Edge, capacity: int)
  {
    var after := e.target;
    && Owned(before, capacity) && Owned(after, capacity)
    && InRange(before, e.move)
    && before.terminal.Active?
    && |before.live| <= |after.live|
    && (!e.move.Acquire? ==> |after.live| == |before.live|)
    && (!after.terminal.Active? ==> after == Terminate(before, after.terminal))
  }

  lemma FrameMeans(before: State, e: Edge, capacity: int)
    requires Owned(before, capacity) && Owned(e.target, capacity) && InRange(before, e.move)
    requires FrameFault(before, e).None?
    ensures Framed(before, e, capacity)
    ensures e.move.Finish? ==> e.target.terminal == Finished && e.answer == Return
  {
    MiscleanedExact(before, e.target, 0);
    if !e.target.terminal.Active? {
      TerminalDetermined(before, e.target, capacity);
    }
  }

  lemma AcquireDetermined(before: State, e: Edge, capacity: int)
    requires Framed(before, e, capacity) && e.move.Acquire?
    requires AcquireFault(before, e, capacity).None?
    ensures e == Fire(before, e.move, capacity, false)
  {
    var after, n := e.target, |before.live|;
    if after.terminal.Active? {
      var wanted := Fire(before, e.move, capacity, false).target;
      assert after.live == after.live[..n] + [true] == wanted.live;
      assert after.explicit == after.explicit[..n] + [0] == wanted.explicit;
      assert after.cleanup == after.cleanup[..n] + [0] == wanted.cleanup;
    }
  }

  lemma UseDetermined(before: State, e: Edge, capacity: int)
    requires Framed(before, e, capacity) && (e.move.Read? || e.move.Release?)
    requires UseFault(before, e).None?
    ensures e == Fire(before, e.move, capacity, false)
  {
    var token := before.registers[e.move.r];
    if e.move.Release? && Holds(before, token) {
      VictimExact(before, e.target, token - 1, 0);
      ReleaseDetermined(before, e.target, capacity, token);
    }
  }

  lemma AliasDetermined(before: State, e: Edge, capacity: int)
    requires Framed(before, e, capacity)
    requires e.move.Copy? || e.move.Spill? || e.move.Reload? || e.move.AcquireNull?
    requires AliasFault(before, e).None?
    ensures e == Fire(before, e.move, capacity, false)
  {
  }

  lemma AcceptedIsFire(before: State, e: Edge, capacity: int)
    requires Owned(before, capacity) && InRange(before, e.move) && Accepted(before, e, capacity)
    ensures before.terminal.Active? && e == Fire(before, e.move, capacity, false)
  {
    StateCheckerExact(e.target, capacity);
    FrameMeans(before, e, capacity);
    match e.move {
      case Acquire(_) => AcquireDetermined(before, e, capacity);
      case Read(_) => UseDetermined(before, e, capacity);
      case Release(_) => UseDetermined(before, e, capacity);
      case Finish =>
      case _ => AliasDetermined(before, e, capacity);
    }
  }

  // The edge oracle is exact: it accepts an edge if and only if the machine has it.
  lemma OracleExact(before: State, e: Edge, capacity: int)
    requires Owned(before, capacity) && InRange(before, e.move)
    ensures Accepted(before, e, capacity) <==> e in Transitions(before, capacity, false)
  {
    TransitionsAreFirings(before, capacity, false, e);
    if Accepted(before, e, capacity) {
      AcceptedIsFire(before, e, capacity);
    }
    if e in Transitions(before, capacity, false) {
      FireIsAccepted(before, e.move, capacity);
    }
  }

  // With a second live acquisition the mutant's release is not the machine's release.
  lemma MutantDiffers(s: State, token: int, capacity: int)
    requires Owned(s, capacity) && 0 <= token <= |s.live| && Holds(s, token)
    ensures Consume(s, token, true) == Consume(s, token, false) <==> Count(s.live) < 2
  {
    var rest := s.live[token - 1 := false];
    CountUpdate(s.live, token - 1, false);
    CountBounds(rest);
    if Count(s.live) >= 2 {
      var i :| 0 <= i < |rest| && rest[i];
      assert Consume(s, token, true).explicit[i] != Consume(s, token, false).explicit[i];
    } else {
      forall i | 0 <= i < |s.live|
        ensures Victims(s, token, true)[i] == Victims(s, token, false)[i]
      {
        assert !rest[i];
      }
      assert Victims(s, token, true) == Victims(s, token, false);
    }
  }

  // The mutant keeps every state invariant, and the edge oracle rejects one of its edges
  // exactly when the edge is a valid release taken with another acquisition still live.
  lemma MutantRejectedExactly(s: State, m: Move, capacity: int)
    requires Owned(s, capacity) && s.terminal.Active? && InRange(s, m)
    ensures StateError(Fire(s, m, capacity, true).target, capacity).None?
    ensures !Accepted(s, Fire(s, m, capacity, true), capacity) <==>
      m.Release? && Holds(s, s.registers[m.r]) && Count(s.live) >= 2
  {
    var mutant := Fire(s, m, capacity, true);
    FireKeepsOwned(s, m, capacity, true);
    StateCheckerExact(mutant.target, capacity);
    if Accepted(s, mutant, capacity) { AcceptedIsFire(s, mutant, capacity); }
    FireIsAccepted(s, m, capacity);
    if m.Release? && Holds(s, s.registers[m.r]) {
      MutantDiffers(s, s.registers[m.r], capacity);
    } else {
      assert mutant == Fire(s, m, capacity, false);
    }
  }
}
