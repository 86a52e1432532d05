/** theory/check_conformance.py: a history of the ownership model is translated to a program
    and to the observation that program must produce. For every history, not only the replayed
    ones, the reference interpreter produces exactly that observation, event by event. */
module Conformance {
  import opened Common
  import opened HostMachine
  import opened HostOwnership
  import opened Refinement
  import M = OwnershipModel
  import O = OwnershipOracle

  // The translation of a history: the state it leads to, its program and its events.
  datatype Replay = Replay(state: M.State, code: seq<Insn>, events: seq<Event>, readCount: nat, scalar: int)

  function InsnOf(m: M.Move, scalar: int): Insn
  {
    match m
    case Acquire(r) => Insn(Acquire, r, 0, 1)
    case AcquireNull(r) => Insn(Acquire, r, 0, 0)
    case Copy(dst, src) => Insn(Copy, dst, src, 0)
    case Spill(slot, r) => Insn(Spill, slot, r, 0)
    case Reload(dst, slot) => Insn(Reload, dst, slot, 0)
    case Read(r) => Insn(Read, r, 0, 0)
    case Release(r) => Insn(Release, r, 0, 0)
    case Finish => Insn(Return, 0, 0, scalar)
  }

  // The token an edge's event carries.
  function TokenOf(before: M.State, e: M.Edge): int
    requires M.InRange(before, e.move) && |e.target.registers| == |before.registers|
    requires |e.target.spills| == |before.spills|
  {
    match e.move
    case Acquire(_) => if e.target.terminal.Active? then |e.target.live| else 0
    case Copy(dst, _) => e.target.registers[dst]
    case Reload(dst, _) => e.target.registers[dst]
    case Spill(slot, _) => e.target.spills[slot]
    case Read(r) => before.registers[r]
    case Release(r) => before.registers[r]
    case _ => 0
  }

  // One cleanup record per live acquisition from i on, counting refs down.
  function CleanupEvents(live: seq<bool>, i: nat, pc: nat, refs: int): seq<Event>
    decreases |live| - i
  {
    if i >= |live| then []
    else if live[i] then
      [Event(CleanupEvent, Release, pc, i + 1, refs - 1)] + CleanupEvents(live, i + 1, pc, refs - 1)
    else CleanupEvents(live, i + 1, pc, refs)
  }

  function ToNat(x: int): nat
  {
    if x < 0 then 0 else x
  }

  lemma AcceptedShape(before: M.State, e: M.Edge, capacity: int)
    requires O.Owned(before, capacity) && M.InRange(before, e.move) && O.Accepted(before, e, capacity)
    ensures |e.target.registers| == |before.registers| && |e.target.spills| == |before.spills|
  {
    O.AcceptedIsFire(before, e, capacity);
    hide O.Accepted;
  }

  // One edge appended; None is the refusal of an edge the oracle rejects.
  function AppendEdge(run: Replay, e: M.Edge, capacity: int, scalar: int): Option<Replay>
    requires O.Owned(run.state, capacity) && M.InRange(run.state, e.move)
  {
    if !O.Accepted(run.state, e, capacity) then None
    else
      AcceptedShape(run.state, e, capacity);
      var before, after, pc := run.state, e.target, |run.code|;
      var x := InsnOf(e.move, scalar);
      var trapped := !after.terminal.Active? && after.terminal != M.Finished;
      var refs := if after.terminal.Active? then after.refcount else before.refcount;
      var event := Event(if trapped then TrapEvent else StepEvent, x.op, pc, ToNat(TokenOf(before, e)), refs);
      var cleanup := if after.terminal.Active? then [] else CleanupEvents(before.live, 0, pc, refs);
      Some(Replay(after, run.code + [x], run.events + [event] + cleanup,
                  run.readCount + (if e.move.Read? && e.answer == M.Value42 then 1 else 0),
                  if e.move.Finish? then scalar else 0))
  }

  function Padded(s: seq<int>, n: nat): (r: seq<nat>)
    ensures |s| <= n ==> |r| == n
  {
    seq(if |s| <= n then n else |s|, i requires 0 <= i => if i < |s| then ToNat(s[i]) else 0)
  }

  function TrapOf(t: M.Terminal): Trap
  {
    match t
    case Exhausted => ExhaustedTrap
    case Faulted(NullCause, _) => NullTrap
    case Faulted(StaleCause, _) => StaleTrap
    case _ => NoTrap
  }

  // The observation a finished replay predicts.
  function Expected(L: Limits, run: Replay): Result
    requires run.events != []
  {
    var s := run.state;
    Result(if s.terminal == M.Finished then Returned else Trapped,
           TrapOf(s.terminal),
           run.events[|run.events| - 1].pc,
           run.scalar,
           |s.live|,
           run.readCount,
           ToNat(Sum(s.explicit)),
           ToNat(Sum(s.cleanup)),
           if run.readCount > 0 then 42 else 0,
           s.refcount,
           Padded(s.explicit, L.cells),
           Padded(s.cleanup, L.cells),
           run.events)
  }

  // ---- The interpreter's side ----

  lemma {:induction false} CleanupLogs(c: Config, i: nat)
    requires c.r.acquired <= |c.live| && c.r.acquired <= |c.r.cleanupBy| && i <= c.r.acquired
    ensures Cleanup(c, i).r.events
      == c.r.events + CleanupEvents(c.live[..c.r.acquired], i, c.r.pc, c.r.refs)
    decreases c.r.acquired - i
  {
    if i < c.r.acquired {
      var d, live := CleanupCell(c, i), c.live[..c.r.acquired];
      CleanupLogs(d, i + 1);
      if c.live[i] {
        CleanupFrom(live, d.live[..c.r.acquired], i + 1, c.r.pc, c.r.refs - 1);
      }
    }
  }

  // Cleanup records from i on depend on the cells from i on only.
  lemma {:induction false} CleanupFrom(a: seq<bool>, b: seq<bool>, i: nat, pc: nat, refs: int)
    requires |a| == |b| && forall j :: i <= j < |a| ==> a[j] == b[j]
    ensures CleanupEvents(a, i, pc, refs) == CleanupEvents(b, i, pc, refs)
    decreases |a| - i
  {
    if i < |a| {
      CleanupFrom(a, b, i + 1, pc, if a[i] then refs - 1 else refs);
    }
  }

  lemma {:induction false} SumPadded(s: seq<int>, padded: seq<int>)
    requires |s| <= |padded| && padded[..|s|] == s && forall i :: |s| <= i < |padded| ==> padded[i] == 0
    ensures Sum(padded) == Sum(s)
    decreases |padded|
  {
    if |padded| > |s| {
      var k := |padded| - 1;
      assert padded[..k][..|s|] == s;
      SumPadded(s, padded[..k]);
    } else {
      assert padded == s;
    }
  }

  // The instruction of an enabled move is well formed and denotes that move.
  lemma InsnDenotes(L: Limits, s: M.State, m: M.Move, scalar: int, n: nat, pc: nat)
    requires M.InRange(s, m) && |s.registers| == L.regs && |s.spills| == L.spills
    ensures var x := InsnOf(m, scalar);
      Wellformed(L, n, pc, x) && MoveOf(x) == m && !x.op.BrNull? && (x.op.Return? <==> m.Finish?)
  {
  }

  // What the edge e, taken at pc by instruction x, predicts of the interpreter's step from c.
  ghost predicate Predicted(L: Limits, x: Insn, c: Config, pc: nat, e: M.Edge, o: Outcome)
  {
    && c.r.acquired <= |c.live| && c.r.acquired <= |c.r.explicitBy| && c.r.acquired <= |c.r.cleanupBy|
    && M.InRange(Project(c, M.Active), e.move)
    && |e.target.registers| == |c.regs| && |e.target.spills| == |c.spills|
    && o.c.r.events == c.r.events + [
         Event(if !e.target.terminal.Active? && e.target.terminal != M.Finished then TrapEvent else StepEvent,
               x.op, pc, ToNat(TokenOf(Project(c, M.Active), e)),
               if e.target.terminal.Active? then e.target.refcount else c.r.refs)]
    && o.c.r.pc == pc
    && (o.Halt? <==> !e.target.terminal.Active?)
    && (o.Halt? ==> o.c.live == c.live && o.c.r.acquired == c.r.acquired && o.c.r.refs == c.r.refs)
    && (o.Next? ==> o.pc == pc + 1)
    && o.c.r.readCount == c.r.readCount + (if e.move.Read? && e.answer == M.Value42 then 1 else 0)
    && o.c.r.returned == (if e.move.Finish? then x.imm else 0)
  }

  lemma AcquirePredicted(L: Limits, p: seq<Insn>, c: Config, pc: nat)
    requires Running(L, c) && pc < |p| && Wellformed(L, |p|, pc, p[pc]) && p[pc].op.Acquire?
    ensures Predicted(L, p[pc], c, pc, EdgeOf(L, p, c, pc), Step(L, p, c, pc))
  {
  }

  lemma ReadPredicted(L: Limits, p: seq<Insn>, c: Config, pc: nat)
    requires Running(L, c) && pc < |p| && Wellformed(L, |p|, pc, p[pc]) && p[pc].op.Read?
    ensures Predicted(L, p[pc], c, pc, EdgeOf(L, p, c, pc), Step(L, p, c, pc))
  {
    hide Sum, Count, Bits;
  }

  lemma ReleasePredicted(L: Limits, p: seq<Insn>, c: Config, pc: nat)
    requires Running(L, c) && pc < |p| && Wellformed(L, |p|, pc, p[pc]) && p[pc].op.Release?
    ensures Predicted(L, p[pc], c, pc, EdgeOf(L, p, c, pc), Step(L, p, c, pc))
  {
    hide Sum, Count, Bits;
    var token := c.regs[p[pc].dst];
    if token != 0 && c.live[token - 1] {
      DropProjects(L, c, token);
      hide Accounted, M.Victims;
    }
  }

  lemma OtherPredicted(L: Limits, p: seq<Insn>, c: Config, pc: nat)
    requires Running(L, c) && pc < |p| && Wellformed(L, |p|, pc, p[pc])
    requires p[pc].op.Copy? || p[pc].op.Spill? || p[pc].op.Reload? || p[pc].op.Return?
    ensures Predicted(L, p[pc], c, pc, EdgeOf(L, p, c, pc), Step(L, p, c, pc))
  {
  }

  // The event an instruction records, and everything else it does, is what its edge predicts.
  lemma StepPredicted(L: Limits, p: seq<Insn>, c: Config, pc: nat)
    requires Running(L, c) && pc < |p| && Wellformed(L, |p|, pc, p[pc]) && !p[pc].op.BrNull?
    ensures Predicted(L, p[pc], c, pc, EdgeOf(L, p, c, pc), Step(L, p, c, pc))
  {
    hide Predicted;
    match p[pc].op {
      case Acquire => AcquirePredicted(L, p, c, pc);
      case Read => ReadPredicted(L, p, c, pc);
      case Release => ReleasePredicted(L, p, c, pc);
      case _ => OtherPredicted(L, p, c, pc);
    }
  }

  // ---- A replay and the interpreter, side by side ----

  // Running q from the start has executed run's program and recorded run's events.
  ghost predicate Replayed(L: Limits, q: seq<Insn>, run: Replay, c: Config)
  {
    && Valid(L, q) && |run.code| < |q| && run.code <= q
    && Running(L, c) && Shape(L, c)
    && Project(c, M.Active) == run.state
    && c.r.events == run.events && c.r.readCount == run.readCount && run.scalar == 0
    && Exec(L, q, Initial(L), 0) == Exec(L, q, c, |run.code|)
  }

  // The next edge of a replay is the edge of the interpreter's next instruction.
  lemma NextEdge(L: Limits, q: seq<Insn>, run: Replay, c: Config, e: M.Edge, scalar: int)
    requires Replayed(L, q, run, c) && M.Enabled(run.state, e, L.cells, false)
    requires q[|run.code|] == InsnOf(e.move, scalar)
    ensures var pc := |run.code|;
      && Wellformed(L, |q|, pc, q[pc]) && !q[pc].op.BrNull? && (q[pc].op.Return? <==> e.move.Finish?)
      && e == EdgeOf(L, q, c, pc)
    ensures O.Owned(run.state, L.cells) && M.InRange(run.state, e.move) && O.Accepted(run.state, e, L.cells)
  {
    hide Exec, M.Fire, M.Enabled, O.Accepted, Running, O.Owned;
    M.EnabledMeans(run.state, e, L.cells, false);
    ProjectOwned(L, c);
    O.FireIsAccepted(run.state, e.move, L.cells);
    InsnDenotes(L, run.state, e.move, scalar, |q|, |run.code|);
  }

  lemma AppendActive(L: Limits, q: seq<Insn>, run: Replay, c: Config, e: M.Edge, scalar: int) returns (c': Config)
    requires Replayed(L, q, run, c) && M.Enabled(run.state, e, L.cells, false)
    requires e.target.terminal.Active? && |run.code| + 1 < |q| && q[|run.code|] == InsnOf(e.move, scalar)
    ensures O.Owned(run.state, L.cells) && M.InRange(run.state, e.move)
    ensures AppendEdge(run, e, L.cells, scalar).Some?
    ensures Replayed(L, q, AppendEdge(run, e, L.cells, scalar).value, c')
  {
    hide M.Fire, M.Enabled, Step, EdgeOf, O.Accepted, Running, O.Owned, Wellformed, Project, Exec, Shape, TokenOf;
    var pc := |run.code|;
    NextEdge(L, q, run, c, e, scalar);
    StepPredicted(L, q, c, pc);
    StepMatches(L, q, c, pc);
    StepRunning(L, q, c, pc);
    ExecUnfolds(L, q, c, pc);
    c' := Step(L, q, c, pc).c;
    FinishEnds(run.state, e, L.cells);
    var run' := AppendEdge(run, e, L.cells, scalar).value;
    assert run'.events == run.events + [c'.r.events[|c.r.events|]];
    assert run.code + [q[pc]] <= q;
  }

  lemma FinishEnds(s: M.State, e: M.Edge, capacity: int)
    requires M.Enabled(s, e, capacity, false)
    ensures e.move.Finish? <==> e.target.terminal == M.Finished
    ensures M.Shaped(s) && s.terminal.Active?
  {
    M.EnabledMeans(s, e, capacity, false);
    hide M.Enabled;
  }

  lemma {:induction false} CleanupPcs(live: seq<bool>, i: nat, pc: nat, refs: int)
    ensures forall k :: 0 <= k < |CleanupEvents(live, i, pc, refs)| ==> CleanupEvents(live, i, pc, refs)[k].pc == pc
    decreases |live| - i
  {
    if i < |live| {
      CleanupPcs(live, i + 1, pc, if live[i] then refs - 1 else refs);
    }
  }

  // The counts of a balanced result, in the observation's padded form.
  lemma CountsPadded(s: seq<int>, counts: seq<nat>, total: nat)
    requires |s| <= |counts| && counts[..|s|] == s && total == Sum(counts)
    requires forall i :: |s| <= i < |counts| ==> counts[i] == 0
    ensures counts == Padded(s, |counts|) && total == ToNat(Sum(s))
  {
    SumPadded(s, counts);
    assert forall i :: 0 <= i < |s| ==> counts[i] == s[i];
  }

  // The observation of the run that ends with edge e, apart from its events.
  lemma EndsAsExpected(L: Limits, q: seq<Insn>, f: Config, pc: nat, e: M.Edge, run: Replay)
    requires Valid(L, q) && Exec(L, q, Initial(L), 0) == f && Accounted(L, f) && Ending(L, q, f.r)
    requires f.r.pc == pc && pc < |q| && Shape(L, f)
    requires run.state == e.target == M.Terminate(Project(f, M.Active), Reason(f.r, q[pc].op))
    requires run.readCount == f.r.readCount && run.scalar == f.r.returned
    requires run.events != [] && run.events[|run.events| - 1].pc == pc
    requires run.events == Cleanup(f, 0).r.events
    ensures Run(L, q) == Expected(L, run)
  {
    hide Exec, Cleanup, Run, Valid, Accounted, M.Terminate, Project, Padded, Shape, Wellformed, Initial;
    var r := Run(L, q);
    RunIs(L, q);
    FinalProjects(L, q, f, Reason(f.r, q[pc].op));
    CleanupKeeps(L, f);
    RunBalanced(L, q);
    CountsPadded(run.state.explicit, r.explicitBy, r.explicitReleases);
    CountsPadded(run.state.cleanup, r.cleanupBy, r.cleanupReleases);
  }

  lemma RunIs(L: Limits, q: seq<Insn>)
    requires Valid(L, q)
    ensures Run(L, q) == Cleanup(Exec(L, q, Initial(L), 0), 0).r
  {
    hide Exec, Cleanup;
  }

  lemma CleanupKeeps(L: Limits, f: Config)
    requires Shape(L, f)
    ensures var r := Cleanup(f, 0).r;
      && r.status == f.r.status && r.trap == f.r.trap && r.pc == f.r.pc && r.returned == f.r.returned
      && r.readCount == f.r.readCount && r.lastRead == f.r.lastRead
  {
    CleanupDrops(f, 0);
    hide Cleanup;
  }

  lemma AppendTerminal(L: Limits, q: seq<Insn>, run: Replay, c: Config, e: M.Edge, scalar: int)
    requires Replayed(L, q, run, c) && M.Enabled(run.state, e, L.cells, false)
    requires !e.target.terminal.Active? && q[|run.code|] == InsnOf(e.move, scalar)
    ensures O.Owned(run.state, L.cells) && M.InRange(run.state, e.move)
    ensures AppendEdge(run, e, L.cells, scalar).Some?
    ensures AppendEdge(run, e, L.cells, scalar).value.events != []
    ensures Run(L, q) == Expected(L, AppendEdge(run, e, L.cells, scalar).value)
  {
    hide M.Fire, M.Enabled, Step, EdgeOf, O.Accepted, Running, O.Owned, Wellformed, Project, Exec, Shape, TokenOf,
      Accounted, Ending, M.Terminate, Expected, Cleanup;
    var pc := |run.code|;
    NextEdge(L, q, run, c, e, scalar);
    StepPredicted(L, q, c, pc);
    StepMatches(L, q, c, pc);
    StepEnds(L, q, c, pc);
    ExecUnfolds(L, q, c, pc);
    ExecAccounted(L, q);
    FinishEnds(run.state, e, L.cells);
    var f := Step(L, q, c, pc).c;
    var done := AppendEdge(run, e, L.cells, scalar).value;
    CleanupOf(L, f, pc);
    ProjectLive(c);
    CleanupPcs(run.state.live, 0, pc, c.r.refs);
    EndsAsExpected(L, q, f, pc, e, done);
  }

  lemma ProjectLive(c: Config)
    requires c.r.acquired <= |c.live| && c.r.acquired <= |c.r.explicitBy| && c.r.acquired <= |c.r.cleanupBy|
    ensures Project(c, M.Active).live == c.live[..c.r.acquired] && Project(c, M.Active).refcount == c.r.refs
  {
  }

  lemma CleanupOf(L: Limits, f: Config, pc: nat)
    requires Shape(L, f) && f.r.pc == pc
    ensures Cleanup(f, 0).r.events == f.r.events + CleanupEvents(f.live[..f.r.acquired], 0, pc, f.r.refs)
  {
    CleanupLogs(f, 0);
  }

  // ---- Whole histories ----

  function Fresh(L: Limits): Replay
  {
    Replay(M.Initial(L.regs, L.spills), [], [], 0, 0)
  }

  // The program of a history, instruction by instruction.
  function CodeOf(history: seq<M.Edge>, scalar: int): (code: seq<Insn>)
    ensures |code| == |history|
  {
    seq(|history|, i requires 0 <= i < |history| => InsnOf(history[i].move, scalar))
  }

  // A model history that stays active before its last edge and ends there.
  ghost predicate Complete(L: Limits, history: seq<M.Edge>)
  {
    && history != [] && Follows(M.Initial(L.regs, L.spills), history, L.cells)
    && !history[|history| - 1].target.terminal.Active?
  }

  // The program run for a history: after a trap comes a return that must never execute.
  function Program(history: seq<M.Edge>, scalar: int, unreached: int): seq<Insn>
    requires history != []
  {
    CodeOf(history, scalar) +
      if history[|history| - 1].target.terminal == M.Finished then [] else [Insn(Return, 0, 0, unreached)]
  }

  // Repeated AppendEdge; None as soon as an edge is refused.
  ghost function Build(L: Limits, run: Replay, history: seq<M.Edge>, scalar: int): Option<Replay>
    decreases |history|
  {
    if history == [] then Some(run)
    else if O.Owned(run.state, L.cells) && M.InRange(run.state, history[0].move) then
      var next := AppendEdge(run, history[0], L.cells, scalar);
      if next.None? then None else Build(L, next.value, history[1..], scalar)
    else None
  }

  // Every edge of a followed path is active at its source, so only the last can be terminal.
  lemma {:induction false} HistoryInner(s: M.State, history: seq<M.Edge>, capacity: int, i: nat)
    requires Follows(s, history, capacity) && i + 1 < |history|
    ensures history[i].target.terminal.Active?
    decreases |history|
  {
    hide M.Enabled;
    if i == 0 {
      assert history[1..][0] == history[1];
      M.EnabledMeans(history[0].target, history[1], capacity, false);
    } else {
      HistoryInner(history[0].target, history[1..], capacity, i - 1);
    }
  }

  lemma {:induction false} ReplayFrom(L: Limits, q: seq<Insn>, run: Replay, c: Config, history: seq<M.Edge>,
                                      scalar: int)
    requires Replayed(L, q, run, c)
    requires history != [] && Follows(run.state, history, L.cells)
    requires !history[|history| - 1].target.terminal.Active?
    requires |run.code| + |history| <= |q|
    requires forall i :: 0 <= i < |history| ==> q[|run.code| + i] == InsnOf(history[i].move, scalar)
    ensures Build(L, run, history, scalar).Some?
    ensures var done := Build(L, run, history, scalar).value;
      && done.events != [] && Run(L, q) == Expected(L, done)
      && done.code == run.code + CodeOf(history, scalar)
      && done.state == history[|history| - 1].target
    decreases |history|
  {
    hide M.Enabled, Run, Expected, Follows, Replayed, AppendEdge, Build, CodeOf, InsnOf;
    var e, rest := history[0], history[1..];
    assert q[|run.code| + 0] == InsnOf(e.move, scalar);
    FollowsHead(run.state, history, L.cells);
    HistoryCons(L, run, history, scalar);
    if |history| == 1 {
      AppendTerminal(L, q, run, c, e, scalar);
      NoHistory(L, AppendEdge(run, e, L.cells, scalar).value, scalar);
      AppendCode(L, run, e, scalar);
      assert rest == [];
    } else {
      HistoryInner(run.state, history, L.cells, 0);
      var c' := AppendActive(L, q, run, c, e, scalar);
      AppendCode(L, run, e, scalar);
      var next := AppendEdge(run, e, L.cells, scalar).value;
      forall i | 0 <= i < |rest| ensures q[|next.code| + i] == InsnOf(rest[i].move, scalar) {
        assert rest[i] == history[i + 1];
      }
      ReplayFrom(L, q, next, c', rest, scalar);
    }
  }

  lemma FollowsHead(s: M.State, history: seq<M.Edge>, capacity: int)
    requires Follows(s, history, capacity) && history != []
    ensures M.Enabled(s, history[0], capacity, false) && Follows(history[0].target, history[1..], capacity)
  {
    hide M.Enabled;
  }

  lemma HistoryCons(L: Limits, run: Replay, history: seq<M.Edge>, scalar: int)
    requires history != []
    ensures CodeOf(history, scalar) == [InsnOf(history[0].move, scalar)] + CodeOf(history[1..], scalar)
    ensures O.Owned(run.state, L.cells) && M.InRange(run.state, history[0].move) ==>
      var next := AppendEdge(run, history[0], L.cells, scalar);
      Build(L, run, history, scalar) == if next.None? then None else Build(L, next.value, history[1..], scalar)
  {
    hide O.Owned, AppendEdge;
  }

  lemma NoHistory(L: Limits, run: Replay, scalar: int)
    ensures Build(L, run, [], scalar) == Some(run) && CodeOf([], scalar) == []
  {
  }

  lemma AppendCode(L: Limits, run: Replay, e: M.Edge, scalar: int)
    requires O.Owned(run.state, L.cells) && M.InRange(run.state, e.move)
    requires AppendEdge(run, e, L.cells, scalar).Some?
    ensures var next := AppendEdge(run, e, L.cells, scalar).value;
      next.code == run.code + [InsnOf(e.move, scalar)] && next.state == e.target
  {
    hide O.Accepted, O.Owned;
  }

  // The interpreter's start is the empty replay.
  lemma FreshReplayed(L: Limits, q: seq<Insn>)
    requires Valid(L, q)
    ensures Replayed(L, q, Fresh(L), Initial(L))
  {
    StartRefines(L, q);
    InitialRunning(L);
    hide Exec, Valid, Project, Running;
  }

  lemma {:induction false} HistoryInRange(L: Limits, s: M.State, history: seq<M.Edge>, i: nat)
    requires Follows(s, history, L.cells) && i < |history|
    requires |s.registers| == L.regs && |s.spills| == L.spills
    ensures exists t :: M.InRange(t, history[i].move) && |t.registers| == L.regs && |t.spills| == L.spills
    ensures history[i].move.Finish? <==> history[i].target.terminal == M.Finished
    decreases |history|
  {
    hide M.Enabled, M.Fire;
    M.EnabledMeans(s, history[0], L.cells, false);
    if i == 0 {
      FinishEnds(s, history[0], L.cells);
      assert M.InRange(s, history[0].move);
    } else {
      FireDims(s, history[0].move, L.cells);
      HistoryInRange(L, history[0].target, history[1..], i - 1);
    }
  }

  lemma FireDims(s: M.State, m: M.Move, capacity: int)
    requires M.Shaped(s) && M.InRange(s, m)
    ensures var t := M.Fire(s, m, capacity, false).target;
      |t.registers| == |s.registers| && |t.spills| == |s.spills|
  {
  }

  lemma ProgramValid(L: Limits, history: seq<M.Edge>, scalar: int, unreached: int)
    requires Complete(L, history) && |Program(history, scalar, unreached)| <= L.maxInsns
    ensures Valid(L, Program(history, scalar, unreached))
  {
    hide Follows;
    var q, s := Program(history, scalar, unreached), M.Initial(L.regs, L.spills);
    forall i | 0 <= i < |q| ensures Wellformed(L, |q|, i, q[i]) {
      if i < |history| {
        HistoryInRange(L, s, history, i);
        var t :| M.InRange(t, history[i].move) && |t.registers| == L.regs && |t.spills| == L.spills;
        InsnDenotes(L, t, history[i].move, scalar, |q|, i);
      }
    }
    HistoryInRange(L, s, history, |history| - 1);
  }

  // Every complete history of the model that fits the program limit, of any length: the
  // oracle accepts each edge, and the interpreter produces exactly the predicted observation.
  lemma HistoryConforms(L: Limits, history: seq<M.Edge>, scalar: int, unreached: int)
    requires Complete(L, history) && |Program(history, scalar, unreached)| <= L.maxInsns
    ensures Build(L, Fresh(L), history, scalar).Some?
    ensures var done := Build(L, Fresh(L), history, scalar).value;
      && done.events != [] && done.code == CodeOf(history, scalar)
      && Run(L, Program(history, scalar, unreached)) == Expected(L, done)
  {
    var q := Program(history, scalar, unreached);
    ProgramValid(L, history, scalar, unreached);
    FreshReplayed(L, q);
    hide Replayed, Build, Expected, Run, Follows, Valid;
    ReplayFrom(L, q, Fresh(L), Initial(L), history, scalar);
  }

  // ---- Branch cases ----

  // The replay of a null branch: its event, and the code that has been passed over.
  function Branched(run: Replay, register: nat): Replay
    requires register < |run.state.registers|
  {
    var pc, token := |run.code|, run.state.registers[register];
    var branch := Insn(BrNull, register, 0, pc + 2);
    Replay(run.state,
           run.code + (if token == 0 then [branch, Insn(Return, 0, 0, -17)] else [branch]),
           run.events + [Event(StepEvent, BrNull, pc, ToNat(token), run.state.refcount)],
           run.readCount, 0)
  }

  function BranchProgram(run: Replay, register: nat): seq<Insn>
  {
    run.code + [Insn(BrNull, register, 0, |run.code| + 2), Insn(Return, 0, 0, -17), Insn(Return, 0, 0, 23)]
  }

  // The branch program's run is the predicted observation: the branch recorded with its token,
  // then the scalar of the exit that the token selects.
  ghost predicate BranchPredicted(L: Limits, run: Replay, register: nat)
  {
    && register < |run.state.registers| && O.Owned(run.state, L.cells)
    && var finish := M.Fire(run.state, M.Finish, L.cells, false);
       var scalar := if run.state.registers[register] == 0 then 23 else -17;
       var done := AppendEdge(Branched(run, register), finish, L.cells, scalar);
    done.Some? && done.value.events != [] && Run(L, BranchProgram(run, register)) == Expected(L, done.value)
  }

  // After any replay, a null branch is taken exactly on the NULL token, and records it.
  lemma BranchConforms(L: Limits, run: Replay, register: nat, c: Config)
    requires Replayed(L, BranchProgram(run, register), run, c) && register < |run.state.registers|
    ensures BranchPredicted(L, run, register)
  {
    var q, pc, branched := BranchProgram(run, register), |run.code|, Branched(run, register);
    ProjectOwned(L, c);
    BranchReplayed(L, run, register, c);
    hide Replayed, Expected, Run, Project, M.Fire, Step, Exec, O.Accepted;
    var finish := M.Fire(run.state, M.Finish, L.cells, false);
    M.EnabledMeans(run.state, finish, L.cells, false);
    FireFinish(run.state, L.cells);
    AppendTerminal(L, q, branched, Step(L, q, c, pc).c, finish,
                   if run.state.registers[register] == 0 then 23 else -17);
  }

  lemma FireFinish(s: M.State, capacity: int)
    requires M.Shaped(s)
    ensures var e := M.Fire(s, M.Finish, capacity, false);
      e.move.Finish? && e.target.terminal == M.Finished
  {
  }

  lemma BranchReplayed(L: Limits, run: Replay, register: nat, c: Config)
    requires Replayed(L, BranchProgram(run, register), run, c) && register < |run.state.registers|
    ensures var q := BranchProgram(run, register);
      && Wellformed(L, |q|, |run.code|, q[|run.code|])
      && Replayed(L, q, Branched(run, register), Step(L, q, c, |run.code|).c)
  {
    hide Sum, Count, Bits, Exec;
    var q, pc := BranchProgram(run, register), |run.code|;
    ExecUnfolds(L, q, c, pc);
    StepRunning(L, q, c, pc);
    StepMatches(L, q, c, pc);
    hide Exec, Running, Accounted, Valid;
    assert Branched(run, register).code <= q;
  }

  // A model history that has not ended.
  ghost predicate Ongoing(L: Limits, history: seq<M.Edge>)
  {
    && Follows(M.Initial(L.regs, L.spills), history, L.cells)
    && forall i :: 0 <= i < |history| ==> history[i].target.terminal.Active?
  }

  lemma {:induction false} ReplayActive(L: Limits, q: seq<Insn>, run: Replay, c: Config, history: seq<M.Edge>)
    returns (c': Config)
    requires Replayed(L, q, run, c) && Follows(run.state, history, L.cells)
    requires forall i :: 0 <= i < |history| ==> history[i].target.terminal.Active?
    requires |run.code| + |history| < |q|
    requires forall i :: 0 <= i < |history| ==> q[|run.code| + i] == InsnOf(history[i].move, 0)
    ensures Build(L, run, history, 0).Some? && Replayed(L, q, Build(L, run, history, 0).value, c')
    ensures Build(L, run, history, 0).value.code == run.code + CodeOf(history, 0)
    decreases |history|
  {
    hide M.Enabled, Follows, Replayed, AppendEdge, Build, CodeOf, InsnOf;
    if history == [] {
      NoHistory(L, run, 0);
      c' := c;
    } else {
      var e, rest := history[0], history[1..];
      assert q[|run.code| + 0] == InsnOf(e.move, 0);
      FollowsHead(run.state, history, L.cells);
      HistoryCons(L, run, history, 0);
      var d := AppendActive(L, q, run, c, e, 0);
      AppendCode(L, run, e, 0);
      var next := AppendEdge(run, e, L.cells, 0).value;
      forall i | 0 <= i < |rest| ensures q[|next.code| + i] == InsnOf(rest[i].move, 0) {
        assert rest[i] == history[i + 1];
      }
      c' := ReplayActive(L, q, next, d, rest);
    }
  }

  // The code of a history, then a branch with its two exits.
  function BranchCase(history: seq<M.Edge>, register: nat): seq<Insn>
  {
    CodeOf(history, 0)
    + [Insn(BrNull, register, 0, |history| + 2), Insn(Return, 0, 0, -17), Insn(Return, 0, 0, 23)]
  }

  lemma BranchCaseValid(L: Limits, history: seq<M.Edge>, register: nat)
    requires Ongoing(L, history) && register < L.regs && |history| + 3 <= L.maxInsns
    ensures Valid(L, BranchCase(history, register))
  {
    hide Follows;
    var q := BranchCase(history, register);
    forall i | 0 <= i < |q| ensures Wellformed(L, |q|, i, q[i]) {
      if i < |history| {
        HistoryInRange(L, M.Initial(L.regs, L.spills), history, i);
        var t :| M.InRange(t, history[i].move) && |t.registers| == L.regs && |t.spills| == L.spills;
        InsnDenotes(L, t, history[i].move, 0, |q|, i);
      }
    }
  }

  // After any unfinished history that fits, for every register: the branch program's run is the
  // predicted observation, with the scalar of the exit the token selects.
  lemma HistoryBranchConforms(L: Limits, history: seq<M.Edge>, register: nat)
    requires Ongoing(L, history) && register < L.regs && |history| + 3 <= L.maxInsns
    ensures Build(L, Fresh(L), history, 0).Some?
    ensures BranchPredicted(L, Build(L, Fresh(L), history, 0).value, register)
  {
    hide Replayed, Build, Follows, Valid, BranchPredicted, CodeOf, Ongoing, BranchCase;
    var q := BranchCase(history, register);
    BranchCaseValid(L, history, register);
    BranchCaseCode(L, history, register);
    FreshReplayed(L, q);
    var c := ReplayActive(L, q, Fresh(L), Initial(L), history);
    var run := Build(L, Fresh(L), history, 0).value;
    BranchCaseIs(history, run, register);
    ReplayedDims(L, q, run, c);
    BranchConforms(L, run, register, c);
  }

  lemma BranchCaseCode(L: Limits, history: seq<M.Edge>, register: nat)
    requires Ongoing(L, history)
    ensures |history| < |BranchCase(history, register)| && Fresh(L).code == []
    ensures Follows(Fresh(L).state, history, L.cells)
    ensures forall i :: 0 <= i < |history| ==> history[i].target.terminal.Active?
    ensures forall i :: 0 <= i < |history| ==> BranchCase(history, register)[0 + i] == InsnOf(history[i].move, 0)
  {
    hide Follows;
  }

  lemma BranchCaseIs(history: seq<M.Edge>, run: Replay, register: nat)
    requires run.code == CodeOf(history, 0) || run.code == [] + CodeOf(history, 0)
    ensures BranchProgram(run, register) == BranchCase(history, register)
  {
    assert [] + CodeOf(history, 0) == CodeOf(history, 0);
  }

  lemma ReplayedDims(L: Limits, q: seq<Insn>, run: Replay, c: Config)
    requires Replayed(L, q, run, c)
    ensures |run.state.registers| == L.regs
  {
  }
}
