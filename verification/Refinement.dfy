/** The reference interpreter of src/cbpf.c refines the machine of theory/check_model.py: with
    null branches erased as stutters, every run is a path of the model, edge by edge. */
module Refinement {
  import opened Common
  import opened HostMachine
  import opened HostOwnership
  import M = OwnershipModel
  import O = OwnershipOracle

  // ---- The model state a configuration stands for ----

  function Project(c: Config, terminal: M.Terminal): M.State
    requires c.r.acquired <= |c.live| && c.r.acquired <= |c.r.explicitBy| && c.r.acquired <= |c.r.cleanupBy|
  {
    var n := c.r.acquired;
    M.State(c.live[..n], c.regs, c.spills, c.r.explicitBy[..n], c.r.cleanupBy[..n], c.r.refs, terminal)
  }

  function Reason(r: Result, op: Opcode): M.Terminal
  {
    match r.trap
    case NoTrap => M.Finished
    case ExhaustedTrap => M.Exhausted
    case NullTrap => M.Faulted(M.NullCause, op.Release?)
    case StaleTrap => M.Faulted(M.StaleCause, op.Release?)
  }

  // The model's move for an instruction other than a null branch.
  function MoveOf(x: Insn): M.Move
  {
    match x.op
    case Acquire => if x.imm == 0 then M.AcquireNull(x.dst) else M.Acquire(x.dst)
    case Copy => M.Copy(x.dst, x.src)
    case Spill => M.Spill(x.dst, x.src)
    case Reload => M.Reload(x.dst, x.src)
    case Read => M.Read(x.dst)
    case Release => M.Release(x.dst)
    case _ => M.Finish
  }

  lemma CountPrefix(live: seq<bool>, n: nat)
    requires n <= |live| && forall i :: n <= i < |live| ==> !live[i]
    ensures Count(live[..n]) == Count(live)
    decreases |live| - n
  {
    if n < |live| {
      CountPrefix(live, n + 1);
      assert live[..n + 1] == live[..n] + [live[n]];
      CountPush(live[..n], live[n]);
    } else {
      assert live[..n] == live;
    }
  }

  // A running configuration stands for an active state with the model's three invariants.
  lemma ProjectOwned(L: Limits, c: Config)
    requires Running(L, c)
    ensures O.Owned(Project(c, M.Active), L.cells)
  {
    CountPrefix(c.live, c.r.acquired);
  }

  // The state after cleanup is the model's terminated state.
  lemma CleanupProjects(L: Limits, c: Config, reason: M.Terminal)
    requires Accounted(L, c) && !reason.Active?
    ensures Shape(L, Cleanup(c, 0))
    ensures Project(Cleanup(c, 0), reason) == M.Terminate(Project(c, M.Active), reason)
  {
    hide Cleanup, Sum, Count;
    CleanupDrops(c, 0);
    DroppedProjects(L, c, Cleanup(c, 0), reason);
  }

  lemma DroppedProjects(L: Limits, c: Config, d: Config, reason: M.Terminal)
    requires Accounted(L, c) && Shape(L, d) && Dropped(c, d, 0, c.r.acquired)
    ensures Project(d, reason) == M.Terminate(Project(c, M.Active), reason)
  {
    hide Sum;
    var n := c.r.acquired;
    CountPrefix(c.live, n);
    CountNone(d.live);
    var t := M.Terminate(Project(c, M.Active), reason);
    assert d.live[..n] == t.live;
    assert d.r.cleanupBy[..n] == t.cleanup;
  }

  // ---- One instruction ----

  // The model edge of a non-branch instruction taken in configuration c.
  function EdgeOf(L: Limits, p: seq<Insn>, c: Config, pc: nat): M.Edge
    requires Shape(L, c) && pc < |p| && Wellformed(L, |p|, pc, p[pc])
  {
    M.Fire(Project(c, M.Active), MoveOf(p[pc]), L.cells, false)
  }

  // What the instruction's event shows of the edge.
  function AnswerOf(x: Insn, e: Event): M.Answer
  {
    if e.kind.TrapEvent? then
      if x.op.Acquire? then M.Exhaustion else if e.token == 0 then M.Null else M.Stale
    else
      match x.op
      case Acquire => if x.imm == 0 then M.Null else M.Success
      case Read => M.Value42
      case Release => M.Consumed
      case Return => M.Return
      case _ => M.Copied
  }

  // An outcome agrees with an edge: the next state, or the terminated one.
  ghost predicate Matches(L: Limits, p: seq<Insn>, c: Config, pc: nat, o: Outcome)
    requires Shape(L, c) && pc < |p| && Wellformed(L, |p|, pc, p[pc]) && Shape(L, o.c)
  {
    var e := EdgeOf(L, p, c, pc);
    && |o.c.r.events| > 0
    && e.answer == AnswerOf(p[pc], o.c.r.events[|o.c.r.events| - 1])
    && (o.Next? ==> e.target == Project(o.c, M.Active))
    && (o.Halt? ==> e.target == M.Terminate(Project(o.c, M.Active), Reason(o.c.r, p[pc].op)))
  }

  lemma AcquireMatches(L: Limits, p: seq<Insn>, c: Config, pc: nat)
    requires Running(L, c) && pc < |p| && Wellformed(L, |p|, pc, p[pc]) && p[pc].op.Acquire?
    ensures Matches(L, p, c, pc, Step(L, p, c, pc))
  {
    var x, n := p[pc], c.r.acquired;
    if x.imm == 1 && n < L.cells {
      var d := Step(L, p, c, pc).c;
      assert d.live[..n + 1] == c.live[..n] + [true];
      assert d.r.explicitBy[..n + 1] == c.r.explicitBy[..n] + [0];
      assert d.r.cleanupBy[..n + 1] == c.r.cleanupBy[..n] + [0];
    }
  }

  lemma ReadMatches(L: Limits, p: seq<Insn>, c: Config, pc: nat)
    requires Running(L, c) && pc < |p| && Wellformed(L, |p|, pc, p[pc]) && p[pc].op.Read?
    ensures Matches(L, p, c, pc, Step(L, p, c, pc))
  {
    hide Sum, Count, Bits;
  }

  lemma DropProjects(L: Limits, c: Config, token: nat)
    requires Running(L, c) && 0 < token <= c.r.acquired && c.live[token - 1]
    ensures Shape(L, DropCell(c, token))
    ensures Project(DropCell(c, token), M.Active) == M.Consume(Project(c, M.Active), token, false)
  {
    var n, s, d := c.r.acquired, Project(c, M.Active), DropCell(c, token);
    var v := M.Victims(s, token, false);
    var none := seq(n, _ => false);
    CountNone(none);
    CountUpdate(none, token - 1, true);
    assert v == none[token - 1 := true];
    assert d.live[..n] == M.Consume(s, token, false).live;
    assert d.r.explicitBy[..n] == M.Consume(s, token, false).explicit;
  }

  // A release through c, as an outcome and as an edge.
  lemma UseMatches(L: Limits, c: Config, x: Insn)
    requires Running(L, c) && x.op.Release? && x.dst < L.regs
    requires c.regs[x.dst] != 0 && c.live[c.regs[x.dst] - 1] ==>
      Project(DropCell(c, c.regs[x.dst]), M.Active) == M.Consume(Project(c, M.Active), c.regs[x.dst], false)
    ensures var o := UseStep(L, c, x);
      var e := M.Fire(Project(c, M.Active), M.Release(x.dst), L.cells, false);
      && e.answer == AnswerOf(x, o.c.r.events[|o.c.r.events| - 1])
      && (o.Next? ==> e.target == Project(o.c, M.Active))
      && (o.Halt? ==> e.target == M.Terminate(Project(o.c, M.Active), Reason(o.c.r, x.op)))
  {
    assert Shape(L, c);
    hide M.Consume, Accounted;
  }

  lemma ReleaseMatches(L: Limits, p: seq<Insn>, before: Config, pc: nat)
    requires Running(L, before) && pc < |p| && Wellformed(L, |p|, pc, p[pc]) && p[pc].op.Release?
    ensures Matches(L, p, before, pc, Step(L, p, before, pc))
  {
    var c := before.(r := before.r.(pc := pc));
    var token := c.regs[p[pc].dst];
    assert Project(before, M.Active) == Project(c, M.Active);
    if token != 0 && c.live[token - 1] {
      DropProjects(L, c, token);
    }
    UseMatches(L, c, p[pc]);
  }

  lemma OtherMatches(L: Limits, p: seq<Insn>, c: Config, pc: nat)
    requires Running(L, c) && pc < |p| && Wellformed(L, |p|, pc, p[pc])
    requires p[pc].op.Copy? || p[pc].op.Spill? || p[pc].op.Reload? || p[pc].op.Return?
    ensures Matches(L, p, c, pc, Step(L, p, c, pc))
  {
  }

  // Every instruction is one model edge, except a null branch, which is none.
  lemma StepMatches(L: Limits, p: seq<Insn>, c: Config, pc: nat)
    requires Running(L, c) && pc < |p| && Wellformed(L, |p|, pc, p[pc])
    ensures !p[pc].op.BrNull? ==> Matches(L, p, c, pc, Step(L, p, c, pc))
    ensures p[pc].op.BrNull? ==>
      var o := Step(L, p, c, pc); o.Next? && Project(o.c, M.Active) == Project(c, M.Active)
  {
    if p[pc].op.BrNull? { return; }
    hide Matches;
    match p[pc].op {
      case Acquire => AcquireMatches(L, p, c, pc);
      case Read => ReadMatches(L, p, c, pc);
      case Release => ReleaseMatches(L, p, c, pc);
      case _ => OtherMatches(L, p, c, pc);
    }
  }

  // ---- Whole runs ----

  // path is a path of the model from s.
  ghost predicate Follows(s: M.State, path: seq<M.Edge>, capacity: int)
    decreases |path|
  {
    path != [] ==>
      && M.Enabled(s, path[0], capacity, false)
      && Follows(path[0].target, path[1..], capacity)
  }

  function Last(s: M.State, path: seq<M.Edge>): M.State
  {
    if path == [] then s else path[|path| - 1].target
  }

  // The model path of the run from pc on.
  function PathOf(L: Limits, p: seq<Insn>, c: Config, pc: nat): seq<M.Edge>
    requires Valid(L, p) && Shape(L, c) && pc < |p|
    decreases |p| - pc
  {
    var o := Step(L, p, c, pc);
    var rest := if o.Halt? then [] else PathOf(L, p, o.c, o.pc);
    if p[pc].op.BrNull? then rest else [EdgeOf(L, p, c, pc)] + rest
  }

  // The labels of a path, as an observer of the trace reconstructs them.
  function Erase(p: seq<Insn>, events: seq<Event>): seq<(M.Move, M.Answer)>
  {
    if events == [] then []
    else
      var k := |events| - 1;
      var e := events[k];
      var rest := Erase(p, events[..k]);
      if e.kind.CleanupEvent? || e.op.BrNull? || e.pc >= |p| then rest
      else rest + [(MoveOf(p[e.pc]), AnswerOf(p[e.pc], e))]
  }

  function Shown(path: seq<M.Edge>): (r: seq<(M.Move, M.Answer)>)
    ensures |r| == |path|
  {
    seq(|path|, i requires 0 <= i < |path| => (path[i].move, path[i].answer))
  }

  // What one run of the loop from pc establishes about its path.
  ghost predicate Refines(L: Limits, p: seq<Insn>, c: Config, pc: nat)
    requires Valid(L, p) && Shape(L, c) && pc < |p|
  {
    var path, s, f := PathOf(L, p, c, pc), Project(c, M.Active), Exec(L, p, c, pc);
    && Follows(s, path, L.cells) && path != []
    && f.r.pc < |p|
    && Last(s, path) == M.Terminate(Project(f, M.Active), Reason(f.r, p[f.r.pc].op))
    && Erase(p, f.r.events) == Erase(p, c.r.events) + Shown(path)
  }

  lemma EdgeIsTransition(L: Limits, p: seq<Insn>, c: Config, pc: nat)
    requires Running(L, c) && pc < |p| && Wellformed(L, |p|, pc, p[pc]) && !p[pc].op.BrNull?
    ensures M.Enabled(Project(c, M.Active), EdgeOf(L, p, c, pc), L.cells, false)
    ensures EdgeOf(L, p, c, pc).move == MoveOf(p[pc])
  {
    ProjectOwned(L, c);
    FireKeepsMove(Project(c, M.Active), MoveOf(p[pc]), L.cells);
    hide M.Fire, M.Enabled;
    M.EnabledMeans(Project(c, M.Active), EdgeOf(L, p, c, pc), L.cells, false);
  }

  lemma FireKeepsMove(s: M.State, m: M.Move, capacity: int)
    requires M.Shaped(s) && M.InRange(s, m)
    ensures M.Fire(s, m, capacity, false).move == m
  {
  }

  // One iteration logs one event, at its own pc and with its own opcode.
  lemma StepLogs(L: Limits, p: seq<Insn>, c: Config, pc: nat)
    requires Shape(L, c) && pc < |p| && Wellformed(L, |p|, pc, p[pc])
    ensures var r := Step(L, p, c, pc).c.r;
      r.pc == pc && exists e :: r.events == c.r.events + [e] && e.pc == pc && e.op == p[pc].op && !e.kind.CleanupEvent?
  {
  }

  lemma EraseStep(L: Limits, p: seq<Insn>, c: Config, pc: nat)
    requires Running(L, c) && pc < |p| && Wellformed(L, |p|, pc, p[pc])
    ensures var o := Step(L, p, c, pc);
      Erase(p, o.c.r.events) == Erase(p, c.r.events)
        + (if p[pc].op.BrNull? then [] else [(EdgeOf(L, p, c, pc).move, EdgeOf(L, p, c, pc).answer)])
  {
    assert Shape(L, c);
    StepLogs(L, p, c, pc);
    StepMatches(L, p, c, pc);
    var o := Step(L, p, c, pc);
    if !p[pc].op.BrNull? {
      EdgeIsTransition(L, p, c, pc);
    }
    hide Step, EdgeOf, Running, Project, AnswerOf, MoveOf;
    var e :| o.c.r.events == c.r.events + [e] && e.pc == pc && e.op == p[pc].op && !e.kind.CleanupEvent?;
    assert o.c.r.events[..|c.r.events|] == c.r.events;
  }

  lemma PathUnfolds(L: Limits, p: seq<Insn>, c: Config, pc: nat)
    requires Valid(L, p) && Shape(L, c) && pc < |p|
    ensures var o := Step(L, p, c, pc);
      && (p[pc].op.BrNull? ==> o.Next? && PathOf(L, p, c, pc) == PathOf(L, p, o.c, o.pc))
      && (!p[pc].op.BrNull? && o.Halt? ==> PathOf(L, p, c, pc) == [EdgeOf(L, p, c, pc)])
      && (!p[pc].op.BrNull? && o.Next? ==> PathOf(L, p, c, pc) == [EdgeOf(L, p, c, pc)] + PathOf(L, p, o.c, o.pc))
  {
    hide EdgeOf, M.Fire, AcquireStep, UseStep, MoveStep;
  }

  lemma FollowsCons(s: M.State, e: M.Edge, rest: seq<M.Edge>, capacity: int)
    requires M.Enabled(s, e, capacity, false) && Follows(e.target, rest, capacity)
    ensures Follows(s, [e] + rest, capacity)
    ensures Last(s, [e] + rest) == Last(e.target, rest)
    ensures Shown([e] + rest) == [(e.move, e.answer)] + Shown(rest)
  {
    hide M.Enabled;
    assert ([e] + rest)[1..] == rest;
  }

  lemma HaltRefines(L: Limits, p: seq<Insn>, c: Config, pc: nat)
    requires Valid(L, p) && Running(L, c) && pc < |p| && Shape(L, c) && Step(L, p, c, pc).Halt?
    ensures Refines(L, p, c, pc)
  {
    assert Wellformed(L, |p|, pc, p[pc]);
    hide Step, Exec, PathOf, EdgeOf, Project, Follows, Shown, M.Terminate, M.Enabled, Erase, Running, Accounted,
      Shape, M.Fire, Wellformed, Valid;
    ExecUnfolds(L, p, c, pc);
    PathUnfolds(L, p, c, pc);
    StepMatches(L, p, c, pc);
    StepLogs(L, p, c, pc);
    EraseStep(L, p, c, pc);
    EdgeIsTransition(L, p, c, pc);
    NoSteps(EdgeOf(L, p, c, pc).target, L.cells);
    FollowsCons(Project(c, M.Active), EdgeOf(L, p, c, pc), [], L.cells);
    assert [EdgeOf(L, p, c, pc)] + [] == [EdgeOf(L, p, c, pc)];
    var shown := (EdgeOf(L, p, c, pc).move, EdgeOf(L, p, c, pc).answer);
    assert [shown] + [] == [shown];
  }

  lemma NoSteps(s: M.State, capacity: int)
    ensures Follows(s, [], capacity) && Shown([]) == []
  {
  }

  lemma Bounds(L: Limits, p: seq<Insn>, c: Config, pc: nat)
    requires Valid(L, p) && Shape(L, c) && pc < |p|
    ensures Wellformed(L, |p|, pc, p[pc])
    ensures c.r.acquired <= |c.live| && c.r.acquired <= |c.r.explicitBy| && c.r.acquired <= |c.r.cleanupBy|
  {
  }

  lemma NextRefines(L: Limits, p: seq<Insn>, c: Config, pc: nat)
    requires Valid(L, p) && Running(L, c) && pc < |p| && Shape(L, c) && Step(L, p, c, pc).Next?
    requires var o := Step(L, p, c, pc); o.pc < |p| && Refines(L, p, o.c, o.pc)
    ensures Refines(L, p, c, pc)
  {
    hide Step, Exec, PathOf, EdgeOf, Project, Follows, Shown, M.Terminate, M.Enabled, Erase, Running, Accounted,
      Shape, M.Fire, Wellformed, Valid;
    Bounds(L, p, c, pc);
    ExecUnfolds(L, p, c, pc);
    PathUnfolds(L, p, c, pc);
    StepMatches(L, p, c, pc);
    EraseStep(L, p, c, pc);
    var o := Step(L, p, c, pc);
    var rest := PathOf(L, p, o.c, o.pc);
    if !p[pc].op.BrNull? {
      EdgeIsTransition(L, p, c, pc);
      FollowsCons(Project(c, M.Active), EdgeOf(L, p, c, pc), rest, L.cells);
    }
  }

  lemma {:induction false} ExecRefines(L: Limits, p: seq<Insn>, c: Config, pc: nat)
    requires Valid(L, p) && Running(L, c) && pc < |p|
    ensures Refines(L, p, c, pc)
    decreases |p| - pc
  {
    assert Shape(L, c) && Wellformed(L, |p|, pc, p[pc]);
    hide *;
    ExecUnfolds(L, p, c, pc);
    StepRunning(L, p, c, pc);
    var o := Step(L, p, c, pc);
    if o.Next? {
      ExecRefines(L, p, o.c, o.pc);
      NextRefines(L, p, c, pc);
    } else {
      HaltRefines(L, p, c, pc);
    }
  }

  lemma {:induction false} EraseCleanup(L: Limits, p: seq<Insn>, c: Config, i: nat)
    requires Shape(L, c)
    ensures Erase(p, Cleanup(c, i).r.events) == Erase(p, c.r.events)
    decreases c.r.acquired - i
  {
    if i < c.r.acquired {
      var d := CleanupCell(c, i);
      if c.live[i] {
        assert d.r.events[..|c.r.events|] == c.r.events;
      }
      EraseCleanup(L, p, d, i + 1);
    }
  }

  // What cleanup leaves is the result of the run, read as a terminal state of the model.
  lemma FinalProjects(L: Limits, p: seq<Insn>, f: Config, reason: M.Terminal)
    requires Accounted(L, f) && !reason.Active?
    ensures Shape(L, f)
    ensures var r, final := Cleanup(f, 0).r, M.Terminate(Project(f, M.Active), reason);
      && r.acquired <= L.cells && |r.explicitBy| == |r.cleanupBy| == L.cells
      && r.pc == f.r.pc && r.trap == f.r.trap
      && final.terminal == reason && |final.live| == r.acquired && final.refcount == r.refs
      && final.explicit == r.explicitBy[..r.acquired] && final.cleanup == r.cleanupBy[..r.acquired]
      && Erase(p, r.events) == Erase(p, f.r.events)
  {
    CleanupProjects(L, f, reason);
    CleanupDrops(f, 0);
    EraseCleanup(L, p, f, 0);
    hide Cleanup, M.Terminate, Accounted, Erase;
  }

  lemma StartRefines(L: Limits, p: seq<Insn>)
    requires Valid(L, p)
    ensures |p| > 0 && Erase(p, Initial(L).r.events) == []
    ensures Project(Initial(L), M.Active) == M.Initial(L.regs, L.spills)
    ensures Run(L, p) == Cleanup(Exec(L, p, Initial(L), 0), 0).r
  {
    assert |p| > 0;
    hide Exec, Cleanup, Valid;
  }

  // Every validated program's run is a path of the ownership model to a terminal state that
  // has the C result's ending, effects and reference count, and its trace spells the path.
  lemma RunRefines(L: Limits, p: seq<Insn>) returns (path: seq<M.Edge>)
    requires Valid(L, p)
    ensures var r, final := Run(L, p), Last(M.Initial(L.regs, L.spills), path);
      && Follows(M.Initial(L.regs, L.spills), path, L.cells)
      && r.pc < |p| && r.acquired <= L.cells && |r.explicitBy| == |r.cleanupBy| == L.cells
      && final.terminal == Reason(r, p[r.pc].op)
      && |final.live| == r.acquired
      && final.explicit == r.explicitBy[..r.acquired] && final.cleanup == r.cleanupBy[..r.acquired]
      && final.refcount == r.refs
      && Erase(p, r.events) == Shown(path)
  {
    var c := Initial(L);
    hide Step, Exec, PathOf, Accounted, Running, Valid, Follows, Cleanup, Erase, Project, M.Terminate, Shown, Run,
      Shape, Wellformed, Initial;
    StartRefines(L, p);
    InitialRunning(L);
    ExecRefines(L, p, c, 0);
    ExecAccounted(L, p);
    var f := Exec(L, p, c, 0);
    path := PathOf(L, p, c, 0);
    var reason := Reason(f.r, p[f.r.pc].op);
    FinalProjects(L, p, f, reason);
    assert [] + Shown(path) == Shown(path);
  }
}
