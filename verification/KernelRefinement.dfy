/** The kernel path refines the ownership machine of theory/check_model.py, as
    theory/kernel-ownership.md argues: every run of an admitted program on the kernel gate, with
    the wrapper's cleanup, is a path of that machine with the same effects per identity. */
module KernelRefinement {
  import opened Capabilities
  import opened Common
  import B = Bpf
  import A = Admission
  import F = AdmissionFixpoint
  import S = AdmissionSound
  import M = OwnershipModel
  import R = Refinement
  import C = CompilerCorrect
  import opened KernelMachine
  import opened KernelOwnership
  import opened KernelProgram

  // ---- State correspondence ----

  // The acquisitions, authority, effects and reference count of a session. The gate keeps
  // aggregate counters; the effects of one identity are its lines in the trace.
  ghost predicate Stands(base: int, s: Session, u: M.State)
  {
    && s.acquired <= |s.cells| && u.live == Tags(s.cells)[..s.acquired]
    && Effects(s.log, Release, u.explicit) && Effects(s.log, Cleanup, u.cleanup)
    && |u.explicit| == |u.cleanup| == s.acquired
    && Sum(u.explicit) == s.released - s.cleanup && Sum(u.cleanup) == s.cleanup
    && u.refcount == s.refs - base + 1
  }

  ghost predicate Effects(log: seq<Line>, kind: TraceKind, counts: seq<int>)
  {
    forall i :: 0 <= i < |counts| ==> counts[i] == Tally(log, kind, i + 1)
  }

  // A handle in a register or the sidecar is the canonical view of the identity the machine
  // keeps there. Where the program holds no handle the machine may keep an older alias.
  ghost predicate Carries(K: Kernel, acquired: nat, v: B.Val, token: int)
  {
    v.Def? && B.IsHandle(v.c) ==> 0 < token <= acquired && v.c == View(K, token - 1)
  }

  // The machine's registers are the program's ten, and its one spill slot the sidecar.
  ghost predicate Simulates(K: Kernel, base: int, k: B.Config, u: M.State)
  {
    var s := After(K, base, k.calls);
    && B.Shape(k) && Stands(base, s, u) && Aliased(K, s.acquired, k.regs, k.spill, u)
  }

  ghost predicate Aliased(K: Kernel, acquired: nat, regs: seq<B.Val>, spill: B.Val, u: M.State)
  {
    && M.Shaped(u) && u.terminal.Active? && |regs| == |u.registers| == 10 && |u.spills| == 1
    && Carries(K, acquired, spill, u.spills[0])
    && forall r :: 0 <= r < 10 ==> Carries(K, acquired, regs[r], u.registers[r])
  }

  // ---- Moves and answers ----

  // The machine's move for a gate call, and for an instruction that copies a value.
  function Asks(call: B.GateCall): M.Move
  {
    if call.operation == B.ACQUIRE then if call.argument.address == 0 then M.Acquire(0) else M.AcquireNull(0)
    else if call.operation == B.READ then M.Read(1)
    else M.Release(1)
  }

  function Transports(x: B.Insn): Option<M.Move>
  {
    match x.code
    case MovReg => Some(M.Copy(x.dst, x.src))
    case Stx => Some(M.Spill(0, x.src))
    case Ldx => Some(M.Reload(x.dst, 0))
    case _ => None
  }

  // What the gate's reply shows of the machine's answer.
  function Shows(call: B.GateCall, a: B.Answer): M.Answer
  {
    if a.Refused? then M.Stale
    else if call.operation == B.ACQUIRE then if a.c == Scalar(0) then M.Null else M.Success
    else if call.operation == B.READ then M.Value42
    else M.Consumed
  }

  // The calls of a run with their answers, as labels of the machine.
  function Labelled(gate: B.Gate, calls: seq<B.GateCall>): (l: seq<M.Label>)
    ensures |l| == |calls|
  {
    seq(|calls|, i requires 0 <= i < |calls| => M.Label(Asks(calls[i]), Shows(calls[i], gate(calls[..i + 1]))))
  }

  // What the trace shows of one edge: gate calls are printed, copies and the finish are not.
  function Shown(e: M.Edge): seq<M.Label>
  {
    var m := e.move;
    if m.Acquire? || m.AcquireNull? || m.Read? || m.Release? then [M.Label(m, e.answer)] else []
  }

  function Asked(path: seq<M.Edge>): seq<M.Label>
  {
    if path == [] then [] else Shown(path[0]) + Asked(path[1..])
  }

  // ---- The session side of each call ----

  lemma EffectsPush(log: seq<Line>, l: Line, kind: TraceKind, counts: seq<int>)
    requires Effects(log, kind, counts)
    ensures l.kind != kind ==> Effects(log + [l], kind, counts)
    ensures l.kind == kind && 0 < l.id <= |counts| ==>
      Effects(log + [l], kind, counts[l.id - 1 := counts[l.id - 1] + 1])
  {
    forall i | 0 <= i < |counts|
      ensures Tally(log + [l], kind, i + 1) == counts[i] + (if l.kind == kind && l.id == i + 1 then 1 else 0)
    {
      TallyPush(log, l, kind, i + 1);
    }
  }

  // A line about neither a release nor a cleanup leaves every effect alone.
  lemma TraceStands(base: int, s: Session, u: M.State, kind: TraceKind, pc: nat, id: nat)
    requires Stands(base, s, u) && kind != Release && kind != Cleanup
    ensures Stands(base, Trace(s, kind, pc, id), u)
  {
    hide Tags, Effects, Sum;
    var l := Trace(s, kind, pc, id).log[|s.log|];
    EffectsPush(s.log, l, Release, u.explicit);
    EffectsPush(s.log, l, Cleanup, u.cleanup);
  }

  function Taken(u: M.State): M.State
    requires M.Shaped(u) && |u.registers| > 0
  {
    u.(live := u.live + [true], registers := u.registers[0 := |u.live| + 1],
       explicit := u.explicit + [0], cleanup := u.cleanup + [0], refcount := u.refcount + 1)
  }

  lemma NewEffects(log: seq<Line>, kind: TraceKind, counts: seq<int>)
    requires Effects(log, kind, counts) && Tally(log, kind, |counts| + 1) == 0
    ensures Effects(log, kind, counts + [0]) && Sum(counts + [0]) == Sum(counts)
  {
    SumPush(counts, 0);
    hide Tally;
  }

  lemma TakeStands(K: Kernel, base: int, s: Session, u: M.State, pc: nat)
    requires Sound(K, base, s) && Logged(base, s) && s.acquired < K.cells
    requires M.Shaped(u) && |u.registers| > 0 && Stands(base, s, u)
    ensures Stands(base, Take(K, s, View(K, s.acquired), Object(K), pc), Taken(u))
  {
    var n, t := s.acquired, Take(K, s, View(K, s.acquired), Object(K), pc);
    var l := t.log[|s.log|];
    assert History(s.log, false, s.cells[n].tag, n + 1);
    assert Tags(t.cells)[..n + 1] == Tags(s.cells)[..n] + [true];
    hide Effects, Tally, Sum, Tags, Sound, Logged;
    NewEffects(s.log, Release, u.explicit);
    NewEffects(s.log, Cleanup, u.cleanup);
    EffectsPush(s.log, l, Release, u.explicit + [0]);
    EffectsPush(s.log, l, Cleanup, u.cleanup + [0]);
  }

  // Consumption of one live identity, on the machine.
  function Dropped(u: M.State, i: nat): M.State
    requires M.Shaped(u) && i < |u.live|
  {
    u.(live := u.live[i := false], explicit := u.explicit[i := u.explicit[i] + 1], refcount := u.refcount - 1)
  }

  lemma ConsumeDrops(u: M.State, i: nat)
    requires M.Shaped(u) && i < |u.live| && u.live[i]
    ensures M.Consume(u, i + 1, false) == Dropped(u, i)
  {
    var v, c := M.Victims(u, i + 1, false), M.Consume(u, i + 1, false);
    var none := seq(|u.live|, _ => false);
    assert v == none[i := true];
    CountNone(none);
    CountUpdate(none, i, true);
    hide Count;
    assert c.live == u.live[i := false];
    assert c.explicit == u.explicit[i := u.explicit[i] + 1];
  }

  lemma ConsumeStands(K: Kernel, base: int, s: Session, u: M.State, i: nat, pc: nat)
    requires Shape(K, s) && i < s.acquired && M.Shaped(u) && Stands(base, s, u)
    ensures Stands(base, Consume(s, i, pc, false), Dropped(u, i))
  {
    var cut, t := Cut(s, i, pc), Consume(s, i, pc, false);
    assert Tags(t.cells)[..s.acquired] == Tags(s.cells)[..s.acquired][i := false];
    SumUpdate(u.explicit, i, u.explicit[i] + 1);
    hide Effects, Tags, Sum;
    var a, b := cut.log[|s.log|], t.log[|cut.log|];
    EffectsPush(s.log, a, Release, u.explicit);
    EffectsPush(s.log, a, Cleanup, u.cleanup);
    EffectsPush(cut.log, b, Release, u.explicit);
    EffectsPush(cut.log, b, Cleanup, u.cleanup);
  }

  // ---- One gate call ----

  // What a session, its machine state and a call must have in common.
  ghost predicate Meets(K: Kernel, base: int, s: Session, u: M.State, call: B.GateCall)
  {
    && Sane(K) && K.cells >= 2 && Sound(K, base, s) && Logged(base, s) && s.entered && !s.failed
    && M.Shaped(u) && u.terminal.Active? && |u.registers| == 10 && Stands(base, s, u)
    && 1 <= call.operation <= 3
    && (call.operation == B.ACQUIRE ==> B.IsScalar(call.argument) && s.acquired < 2)
    && (call.operation != B.ACQUIRE ==>
          0 < u.registers[1] <= s.acquired && call.argument == View(K, u.registers[1] - 1))
  }

  // The accepted call is the machine's edge: same answer, same effects, and the alias it makes.
  ghost predicate Agrees(K: Kernel, base: int, s: Session, u: M.State, call: B.GateCall, r: Reply)
    requires M.Shaped(u) && M.InRange(u, Asks(call))
  {
    var e := M.Fire(u, Asks(call), K.cells, false);
    && !r.s.failed && Stands(base, r.s, e.target) && e.target.terminal.Active?
    && e.answer == Shows(call, B.Value(r.value)) && e.target.spills == u.spills
    && e.target.registers ==
         if call.operation != B.ACQUIRE then u.registers
         else u.registers[0 := if call.argument.address == 0 then s.acquired + 1 else 0]
  }

  lemma AcquireAgrees(K: Kernel, base: int, s: Session, u: M.State, call: B.GateCall)
    requires Meets(K, base, s, u, call) && call.operation == B.ACQUIRE && !Refuses(K, s, call)
    ensures Agrees(K, base, s, u, call, Gate(K, s, call.argument, call.operation, call.pc))
  {
    ExactMeans(K, K.cellAddress(s.acquired), K.cellBytes);
    ExactMeans(K, K.objectAddress, K.objectBytes);
    assert |u.live| == s.acquired;
    hide Stands, Sound, Logged;
    if call.argument.address == 0 {
      TakeStands(K, base, s, u, call.pc);
    } else {
      TraceStands(base, s, u, Null, call.pc, 0);
      NullStands(base, Trace(s, Null, call.pc, 0), u);
    }
  }

  lemma NullStands(base: int, s: Session, u: M.State)
    requires Stands(base, s, u) && |u.registers| > 0
    ensures Stands(base, s, u.(registers := u.registers[0 := 0]))
  {
  }

  lemma Resolves(K: Kernel, base: int, s: Session, i: nat)
    requires Sound(K, base, s) && Sane(K) && i < s.acquired
    ensures FindView(s.views, View(K, i), 0, s.acquired) == i
  {
    var k := FindView(s.views, View(K, i), 0, s.acquired);
    assert s.views[i] == View(K, i);
    if k < s.acquired { ViewsApart(K, i, k); }
  }

  lemma UseAgrees(K: Kernel, base: int, s: Session, u: M.State, call: B.GateCall)
    requires Meets(K, base, s, u, call) && call.operation != B.ACQUIRE && !Refuses(K, s, call)
    ensures Agrees(K, base, s, u, call, Gate(K, s, call.argument, call.operation, call.pc))
  {
    var i := u.registers[1] - 1;
    Resolves(K, base, s, i);
    assert u.live[i] == s.cells[i].tag;
    hide Tally, Tags, Effects, Sum, Sound, Logged, View, Sane;
    var t := s.(readCount := (s.readCount + 1) % U32);
    assert Stands(base, t, u);
    TraceStands(base, t, u, Read, call.pc, i + 1);
    ConsumeStands(K, base, s, u, i, call.pc);
    ConsumeDrops(u, i);
  }

  lemma StaleUse(u: M.State, call: B.GateCall, capacity: int)
    requires M.Shaped(u) && |u.registers| == 10 && (call.operation == B.READ || call.operation == B.RELEASE)
    requires u.registers[1] != 0 && !u.live[u.registers[1] - 1]
    ensures M.Fire(u, Asks(call), capacity, false)
      == M.Edge(Asks(call), M.Stale, M.Terminate(u, M.Faulted(M.StaleCause, call.operation == B.RELEASE)))
  {
  }

  // A refused use is the machine's stale fault; a refused acquisition is no edge of it.
  lemma RefusedStale(K: Kernel, base: int, s: Session, u: M.State, call: B.GateCall)
    requires Meets(K, base, s, u, call) && Refuses(K, s, call) && call.operation != B.ACQUIRE
    ensures M.Fire(u, Asks(call), K.cells, false)
      == M.Edge(Asks(call), M.Stale, M.Terminate(u, M.Faulted(M.StaleCause, call.operation == B.RELEASE)))
  {
    var i := u.registers[1] - 1;
    var j :| 0 <= j < s.acquired && j < |s.cells| && call.argument == View(K, j) && !s.cells[j].tag;
    ViewsApart(K, i, j);
    assert !u.live[i];
    hide *;
    StaleUse(u, call, K.cells);
  }

  lemma FailStands(base: int, s: Session, u: M.State, pc: nat)
    requires Stands(base, s, u)
    ensures Stands(base, Fail(s, pc), u)
  {
    assert Stands(base, s.(failed := true), u);
    hide Stands;
    TraceStands(base, s.(failed := true), u, Reject, pc, 0);
  }

  lemma RefusedFails(K: Kernel, base: int, s: Session, u: M.State, call: B.GateCall)
    requires Meets(K, base, s, u, call) && Refuses(K, s, call)
    ensures Gate(K, s, call.argument, call.operation, call.pc).s == Fail(s, call.pc)
  {
    hide Stands, Sound, Logged, Sane;
    if call.operation == B.ACQUIRE {
      ExactMeans(K, K.cellAddress(s.acquired), K.cellBytes);
      ExactMeans(K, K.objectAddress, K.objectBytes);
    } else {
      var j :| 0 <= j < s.acquired && j < |s.cells| && call.argument == View(K, j) && !s.cells[j].tag;
      Resolves(K, base, s, j);
    }
  }

  // ---- The wrapper's cleanup ----

  lemma {:induction false} CleanupKeepsReleases(K: Kernel, s: Session, i: nat, id: nat)
    requires Shape(K, s)
    ensures Tally(CleanupAll(K, s, i).log, Release, id) == Tally(s.log, Release, id)
    decreases s.acquired - i
  {
    if i < s.acquired {
      var t := if s.cells[i].tag then Consume(s, i, U64 - 1, true) else s;
      if s.cells[i].tag {
        var cut := Cut(s, i, U64 - 1);
        TallyPush(s.log, cut.log[|s.log|], Release, id);
        TallyPush(cut.log, t.log[|cut.log|], Release, id);
      }
      hide Consume, Tally;
      CleanupKeepsReleases(K, t, i + 1, id);
    }
  }

  // A live identity gains one cleanup effect, and no other gains any.
  lemma CleanupEffect(K: Kernel, base: int, s: Session, i: nat)
    requires Sound(K, base, s) && Logged(base, s) && i < s.acquired
    ensures var t := CleanupAll(K, s, 0);
      && Tally(t.log, Release, i + 1) == Tally(s.log, Release, i + 1)
      && Tally(t.log, Cleanup, i + 1) == Tally(s.log, Cleanup, i + 1) + (if s.cells[i].tag then 1 else 0)
  {
    var t := CleanupAll(K, s, 0);
    CleanupSound(K, base, s, 0);
    CleanupKeepsReleases(K, s, 0, i + 1);
    hide CleanupAll, Tally, Sum, Count, Numbered;
    assert History(s.log, true, s.cells[i].tag, i + 1);
    assert History(t.log, true, false, i + 1);
  }

  lemma CleanupEffects(K: Kernel, base: int, s: Session, u: M.State, reason: M.Terminal)
    requires Sound(K, base, s) && Logged(base, s) && M.Shaped(u) && Stands(base, s, u)
    ensures var t, v := CleanupAll(K, s, 0), M.Terminate(u, reason);
      Effects(t.log, Release, v.explicit) && Effects(t.log, Cleanup, v.cleanup)
  {
    var t, v := CleanupAll(K, s, 0), M.Terminate(u, reason);
    hide CleanupAll, Tally, Sum, Count, Logged, Sound;
    forall i | 0 <= i < s.acquired
      ensures v.explicit[i] == Tally(t.log, Release, i + 1) && v.cleanup[i] == Tally(t.log, Cleanup, i + 1)
    {
      CleanupEffect(K, base, s, i);
      assert u.live[i] == s.cells[i].tag;
    }
  }

  lemma LiveCount(K: Kernel, base: int, s: Session, u: M.State)
    requires Sound(K, base, s) && Stands(base, s, u)
    ensures Count(u.live) == s.acquired - s.released
  {
    hide Count, Sum;
    R.CountPrefix(Tags(s.cells), s.acquired);
  }

  lemma CleanupTotals(K: Kernel, base: int, s: Session, u: M.State, reason: M.Terminal)
    requires Sound(K, base, s) && Logged(base, s) && M.Shaped(u) && Stands(base, s, u)
    ensures var t, v := CleanupAll(K, s, 0), M.Terminate(u, reason);
      && t.acquired == s.acquired && |t.cells| == |s.cells| && v.refcount == t.refs - base + 1
      && (forall i :: 0 <= i < |t.cells| ==> !t.cells[i].tag)
      && Sum(v.explicit) == t.released - t.cleanup && Sum(v.cleanup) == t.cleanup
  {
    var t, v := CleanupAll(K, s, 0), M.Terminate(u, reason);
    LiveCount(K, base, s, u);
    CleanupSound(K, base, s, 0);
    NoneLeft(t);
    SumAdds(u.cleanup, Bits(u.live), v.cleanup);
    hide CleanupAll, Effects, Logged, Tags, Sum;
  }

  // The exit line and the scrub change no effect.
  lemma ScrubStands(base: int, s: Session, t: Session, v: M.State)
    requires Stands(base, s, v) && (forall i :: 0 <= i < |s.cells| ==> !s.cells[i].tag)
    requires |t.cells| == |s.cells| && (forall i :: 0 <= i < |t.cells| ==> !t.cells[i].tag)
    requires t == s.(cells := t.cells, views := t.views, failed := t.failed)
    ensures Stands(base, t, v)
  {
    hide Effects, Sum;
    assert Tags(t.cells) == Tags(s.cells);
  }

  lemma FinishStands(K: Kernel, base: int, s: Session, u: M.State, reason: M.Terminal)
    requires Sound(K, base, s) && Logged(base, s) && M.Shaped(u) && Stands(base, s, u)
    ensures Stands(base, Finish(K, s), M.Terminate(u, reason))
  {
    CleanupEffects(K, base, s, u, reason);
    CleanupTotals(K, base, s, u, reason);
    var c, v := CleanupAll(K, s, 0), M.Terminate(u, reason);
    var d := if !c.entered || c.acquired != c.released then c.(failed := true) else c;
    hide CleanupAll, Effects, Sum, Count, Sound, Logged;
    assert v.live == Tags(c.cells)[..c.acquired];
    assert Stands(base, c, v);
    hide Stands, Tags, M.Terminate;
    ScrubStands(base, c, d, v);
    var e := Trace(d, if d.failed then Failed else Exit, U64 - 1, 0);
    TraceStands(base, d, v, if d.failed then Failed else Exit, U64 - 1, 0);
    ScrubStands(base, e, Finish(K, s), v);
  }

  // ---- One instruction ----

  lemma {:induction false} AfterLogged(K: Kernel, base: int, calls: seq<B.GateCall>)
    requires Sane(K)
    ensures Logged(base, After(K, base, calls))
    decreases |calls|
  {
    hide Gate, Sane, Sound, Logged;
    if calls == [] {
      FreshLogged(K, base);
    } else {
      var rest, last := calls[..|calls| - 1], calls[|calls| - 1];
      AfterLogged(K, base, rest);
      AfterSound(K, base, rest);
      GateLogged(K, base, After(K, base, rest), last.argument, last.operation, last.pc);
    }
  }

  lemma FreshLogged(K: Kernel, base: int)
    ensures Logged(base, Entered(K, base))
  {
    FreshSound(K, base);
  }

  // A move that does not finish keeps the machine's shape.
  lemma FireShaped(u: M.State, m: M.Move, capacity: int)
    requires M.Shaped(u) && M.InRange(u, m)
    ensures M.Shaped(M.Fire(u, m, capacity, false).target) && M.Fire(u, m, capacity, false).move == m
  {
    hide Count;
  }

  lemma EdgeEnabled(u: M.State, m: M.Move, capacity: int)
    requires M.Shaped(u) && M.InRange(u, m) && u.terminal.Active?
    ensures M.Enabled(u, M.Fire(u, m, capacity, false), capacity, false)
  {
    FireShaped(u, m, capacity);
    hide M.Enabled, M.Fire;
    M.EnabledMeans(u, M.Fire(u, m, capacity, false), capacity, false);
  }

  // Copies and constants move aliases and leave the session alone.
  lemma TransportSimulates(K: Kernel, base: int, p: B.Program, k: B.Config, u: M.State)
    requires Simulates(K, base, k, u) && k.pc < |p.insns| && !p.insns[k.pc].code.Call?
    requires B.Shape(k) && B.Step(p, KernelGate(K, base), k).Running?
    ensures var (s, m) := (B.Step(p, KernelGate(K, base), k), Transports(p.insns[k.pc]));
      && s.k.calls == k.calls
      && (m.None? ==> Simulates(K, base, s.k, u))
      && (m.Some? ==> M.InRange(u, m.value) && Simulates(K, base, s.k, M.Fire(u, m.value, K.cells, false).target))
  {
    hide After, KernelGate, Effects, Sum, Tags, View;
  }

  // The aliases after a call: r0 has the result, r1 to r5 nothing.
  lemma CallAliased(K: Kernel, n: nat, regs: seq<B.Val>, spill: B.Val, u: M.State, v: M.State, t: nat, value: B.Val)
    requires Aliased(K, n, regs, spill, u) && n <= t
    requires M.Shaped(v) && v.terminal.Active? && v.spills == u.spills && |v.registers| == 10
    requires v.registers[1..] == u.registers[1..] && Carries(K, t, value, v.registers[0])
    ensures Aliased(K, t, B.AfterCall(regs, value), spill, v)
  {
    hide View, B.IsHandle, M.Shaped;
    forall r | 0 <= r < 10 ensures Carries(K, t, B.AfterCall(regs, value)[r], v.registers[r]) {
      if r > 0 { assert v.registers[r] == v.registers[1..][r - 1] == u.registers[r]; }
    }
  }

  lemma CallMeets(K: Kernel, base: int, p: B.Program, k: B.Config, u: M.State)
    requires Sane(K) && K.cells >= 2 && Owns(K, base, p, k) && Simulates(K, base, k, u)
    requires k.pc < |p.insns| && p.insns[k.pc].code.Call? && !B.Step(p, KernelGate(K, base), k).Stuck?
    ensures k.regs[1].Def? && Meets(K, base, After(K, base, k.calls), u, CallAt(p, k))
  {
    AfterSound(K, base, k.calls);
    AfterLogged(K, base, k.calls);
    CallAllowed(K, base, p, k);
    CallHandle(p, KernelGate(K, base), k);
    hide After, Sane, Sound, Logged, Stands, KernelGate, Owns, B.Step, B.Operation, View;
    assert Carries(K, After(K, base, k.calls).acquired, k.regs[1], u.registers[1]);
  }

  lemma CallHandle(p: B.Program, gate: B.Gate, k: B.Config)
    requires B.Shape(k) && k.pc < |p.insns| && p.insns[k.pc].code.Call? && !B.Step(p, gate, k).Stuck?
    ensures k.regs[1].Def? && (CallAt(p, k).operation != B.ACQUIRE ==> B.IsHandle(k.regs[1].c))
  {
  }

  // What the reply leaves in r0 is the alias the edge records.
  lemma ReplyCarried(K: Kernel, base: int, s: Session, u: M.State, call: B.GateCall, r: Reply)
    requires Meets(K, base, s, u, call) && r == Gate(K, s, call.argument, call.operation, call.pc)
    requires Agrees(K, base, s, u, call, r) && !Refuses(K, s, call)
    ensures var v := M.Fire(u, Asks(call), K.cells, false).target;
      && v.registers[1..] == u.registers[1..] && |v.registers| == 10 && s.acquired <= r.s.acquired
      && Carries(K, r.s.acquired, B.Def(r.value), v.registers[0])
  {
    RefusedExactly(K, base, s, call);
    hide Sane, Sound, Logged, Stands, View, Gate, Refuses, M.Fire;
  }

  // An accepted call is one edge of the machine, with the same answer.
  lemma CallSimulates(K: Kernel, base: int, p: B.Program, k: B.Config, u: M.State)
    requires Sane(K) && K.cells >= 2 && Owns(K, base, p, k) && Simulates(K, base, k, u)
    requires k.pc < |p.insns| && p.insns[k.pc].code.Call? && B.Step(p, KernelGate(K, base), k).Running?
    ensures k.regs[1].Def? && var (call, s) := (CallAt(p, k), B.Step(p, KernelGate(K, base), k));
      && s.k.calls == k.calls + [call] && M.InRange(u, Asks(call))
      && var e := M.Fire(u, Asks(call), K.cells, false);
         e.answer == Shows(call, KernelGate(K, base)(s.k.calls)) && Simulates(K, base, s.k, e.target)
  {
    CallMeets(K, base, p, k, u);
    CallRefused(K, base, p, k);
    CallReturns(p, KernelGate(K, base), k);
    var call, s := CallAt(p, k), After(K, base, k.calls);
    AfterPush(K, base, k.calls, call);
    hide After, Meets, Stands, KernelGate, Owns, B.Step, B.Operation, Gate, Refuses, M.Fire, Aliased, Asks;
    CallEdge(K, base, s, u, call, k.regs, k.spill);
  }

  lemma CallEdge(K: Kernel, base: int, s: Session, u: M.State, call: B.GateCall, regs: seq<B.Val>, spill: B.Val)
    requires Meets(K, base, s, u, call) && !Refuses(K, s, call) && Aliased(K, s.acquired, regs, spill, u)
    ensures M.InRange(u, Asks(call)) && |regs| == 10
    ensures var (r, e) := (Gate(K, s, call.argument, call.operation, call.pc), M.Fire(u, Asks(call), K.cells, false));
      && Stands(base, r.s, e.target) && e.answer == Shows(call, B.Value(r.value))
      && Aliased(K, r.s.acquired, B.AfterCall(regs, B.Def(r.value)), spill, e.target)
  {
    var r := Gate(K, s, call.argument, call.operation, call.pc);
    hide Meets, Stands, Gate, Refuses, M.Fire, Agrees, Carries, View, Sound, M.InRange;
    MeetsLive(K, base, s, u, call);
    MeetsShape(K, base, s, u, call);
    CallAgrees(K, base, s, u, call);
    ReplyCarried(K, base, s, u, call, r);
    AgreedState(K, base, s, u, call, r);
    hide *;
    var v := M.Fire(u, Asks(call), K.cells, false).target;
    CallAliased(K, s.acquired, regs, spill, u, v, r.s.acquired, B.Def(r.value));
  }

  lemma CallAgrees(K: Kernel, base: int, s: Session, u: M.State, call: B.GateCall)
    requires Meets(K, base, s, u, call) && !Refuses(K, s, call)
    ensures Agrees(K, base, s, u, call, Gate(K, s, call.argument, call.operation, call.pc))
  {
    hide Agrees, Gate, Refuses, Sane, Sound, Logged, Stands;
    if call.operation == B.ACQUIRE {
      AcquireAgrees(K, base, s, u, call);
    } else {
      UseAgrees(K, base, s, u, call);
    }
  }

  lemma AgreedState(K: Kernel, base: int, s: Session, u: M.State, call: B.GateCall, r: Reply)
    requires M.Shaped(u) && M.InRange(u, Asks(call)) && Agrees(K, base, s, u, call, r)
    ensures var e := M.Fire(u, Asks(call), K.cells, false);
      && Stands(base, r.s, e.target) && M.Shaped(e.target) && e.target.terminal.Active?
      && e.target.spills == u.spills && !r.s.failed && e.answer == Shows(call, B.Value(r.value))
  {
    FireShaped(u, Asks(call), K.cells);
    hide Stands, M.Fire;
  }

  lemma CallReturns(p: B.Program, gate: B.Gate, k: B.Config)
    requires B.Shape(k) && k.pc < |p.insns| && p.insns[k.pc].code.Call? && B.Step(p, gate, k).Running?
    ensures k.regs[1].Def? && var (call, s) := (CallAt(p, k), B.Step(p, gate, k));
      && s.k.calls == k.calls + [call] && gate(s.k.calls).Value? && s.k.spill == k.spill
      && s.k.regs == B.AfterCall(k.regs, B.Def(gate(s.k.calls).c))
  {
  }

  // ---- Whole runs ----

  // The calls of a run that are edges of the machine: a refused acquisition is none.
  function Edges(gate: B.Gate, run: B.State): seq<B.GateCall>
  {
    match run
    case Exited(_, calls) => calls
    case Aborted(calls) =>
      if calls != [] && calls[|calls| - 1].operation == B.ACQUIRE && gate(calls).Refused? then calls[..|calls| - 1]
      else calls
    case _ => []
  }

  // How the machine's path ends, and what the wrapper leaves. A refused acquisition, and an
  // answer of all ones, end the program without an edge: the wrapper's cleanup then is
  // termination, whatever its reason is called.
  ghost predicate Concludes(K: Kernel, base: int, run: B.State, f: M.State)
  {
    match run
    case Exited(_, calls) => f.terminal == M.Finished && Stands(base, Finish(K, After(K, base, calls)), f)
    case Aborted(calls) =>
      && calls != [] && M.Shaped(f)
      && var (call, s) := (calls[|calls| - 1], Finish(K, After(K, base, calls)));
      if call.operation == B.ACQUIRE || KernelGate(K, base)(calls).Value? then
        f.terminal.Active? && forall reason {:trigger M.Terminate(f, reason)} :: Stands(base, s, M.Terminate(f, reason))
      else f.terminal == M.Faulted(M.StaleCause, call.operation == B.RELEASE) && Stands(base, s, f)
    case _ => false
  }

  // A path for the rest of a run.
  ghost predicate Follows(K: Kernel, base: int, k: B.Config, u: M.State, run: B.State, path: seq<M.Edge>)
  {
    && R.Follows(u, path, K.cells)
    && Labelled(KernelGate(K, base), k.calls) + Asked(path)
         == Labelled(KernelGate(K, base), Edges(KernelGate(K, base), run))
    && Concludes(K, base, run, R.Last(u, path))
  }

  lemma LabelledPush(gate: B.Gate, calls: seq<B.GateCall>, call: B.GateCall)
    ensures Labelled(gate, calls + [call])
      == Labelled(gate, calls) + [M.Label(Asks(call), Shows(call, gate(calls + [call])))]
  {
    var all := calls + [call];
    forall i | 0 <= i < |calls| ensures all[i] == calls[i] && all[..i + 1] == calls[..i + 1] {
    }
    assert all[..|all|] == all;
  }

  // One edge in front of a path.
  lemma EdgeThen(K: Kernel, base: int, k: B.Config, u: M.State, run: B.State, m: M.Move, t: B.Config, rest: seq<M.Edge>)
    requires M.Shaped(u) && M.InRange(u, m) && u.terminal.Active?
    requires var e := M.Fire(u, m, K.cells, false);
      && Follows(K, base, t, e.target, run, rest)
      && Labelled(KernelGate(K, base), t.calls) == Labelled(KernelGate(K, base), k.calls) + Shown(e)
    ensures Follows(K, base, k, u, run, [M.Fire(u, m, K.cells, false)] + rest)
  {
    FireShaped(u, m, K.cells);
    EdgeEnabled(u, m, K.cells);
    hide M.Fire, M.Enabled, M.Shaped, M.InRange, Concludes, Labelled, Shown, Asked, KernelGate, R.Follows, R.Last,
      Edges;
    var e := M.Fire(u, m, K.cells, false);
    R.FollowsCons(u, e, rest, K.cells);
    AskedThen(Labelled(KernelGate(K, base), k.calls), e, rest);
  }

  lemma AskedThen(before: seq<M.Label>, e: M.Edge, rest: seq<M.Edge>)
    ensures before + Asked([e] + rest) == before + Shown(e) + Asked(rest)
  {
    hide Shown;
    assert ([e] + rest)[1..] == rest;
  }

  // The end of a run, where no edge is left.
  lemma NoneThen(K: Kernel, base: int, k: B.Config, u: M.State, run: B.State)
    requires k.calls == Edges(KernelGate(K, base), run) && Concludes(K, base, run, u)
    ensures Follows(K, base, k, u, run, [])
  {
    R.NoSteps(u, K.cells);
    hide Concludes, Labelled;
  }

  lemma AfterFinishes(K: Kernel, base: int, calls: seq<B.GateCall>, u: M.State)
    requires Sane(K) && M.Shaped(u) && Stands(base, After(K, base, calls), u)
    ensures forall reason {:trigger M.Terminate(u, reason)} ::
      Stands(base, Finish(K, After(K, base, calls)), M.Terminate(u, reason))
  {
    hide Stands, Sound, Logged, Sane, After, M.Terminate, Finish;
    AfterSound(K, base, calls);
    AfterLogged(K, base, calls);
    forall reason
      ensures Stands(base, Finish(K, After(K, base, calls)), M.Terminate(u, reason))
    {
      FinishStands(K, base, After(K, base, calls), u, reason);
    }
  }

  lemma ExitFollows(K: Kernel, base: int, k: B.Config, u: M.State, run: B.State) returns (path: seq<M.Edge>)
    requires Sane(K) && Simulates(K, base, k, u) && run.Exited? && run.calls == k.calls
    ensures Follows(K, base, k, u, run, path)
  {
    hide Stands, Sane, After, M.Terminate, Finish, Carries, KernelGate, M.Shaped;
    AfterFinishes(K, base, k.calls, u);
    var e := M.Fire(u, M.Finish, K.cells, false);
    TerminateShaped(u, M.Finished);
    NoneThen(K, base, k, e.target, run);
    hide Follows, Labelled;
    EdgeThen(K, base, k, u, run, M.Finish, k, []);
    path := [e] + [];
  }

  // The session after a refused call stands for the same state.
  lemma AbortStands(K: Kernel, base: int, p: B.Program, k: B.Config, u: M.State)
    requires Sane(K) && K.cells >= 2 && Owns(K, base, p, k) && Simulates(K, base, k, u)
    requires k.pc < |p.insns| && p.insns[k.pc].code.Call? && B.Step(p, KernelGate(K, base), k).Aborted?
    ensures k.regs[1].Def? && var call := CallAt(p, k);
      && Meets(K, base, After(K, base, k.calls), u, call) && Refuses(K, After(K, base, k.calls), call)
      && B.Step(p, KernelGate(K, base), k) == B.Aborted(k.calls + [call])
      && Stands(base, After(K, base, k.calls + [call]), u)
      && KernelGate(K, base)(k.calls + [call]).Refused?
  {
    CallMeets(K, base, p, k, u);
    CallRefused(K, base, p, k);
    CallEnds(p, KernelGate(K, base), k);
    var call, s := CallAt(p, k), After(K, base, k.calls);
    AfterPush(K, base, k.calls, call);
    hide After, Sane, Sound, Logged, Stands, Owns, B.Step, B.Operation, Gate, Refuses, Carries, M.Shaped;
    RefusedFails(K, base, s, u, call);
    FailStands(base, s, u, call.pc);
  }

  lemma AbortFollows(K: Kernel, base: int, p: B.Program, k: B.Config, u: M.State) returns (path: seq<M.Edge>)
    requires Sane(K) && K.cells >= 2 && Owns(K, base, p, k) && Simulates(K, base, k, u)
    requires k.pc < |p.insns| && p.insns[k.pc].code.Call? && B.Step(p, KernelGate(K, base), k).Aborted?
    ensures Follows(K, base, k, u, B.Step(p, KernelGate(K, base), k), path)
  {
    AbortStands(K, base, p, k, u);
    var call, run := CallAt(p, k), B.Step(p, KernelGate(K, base), k);
    hide Stands, Sane, Sound, Logged, After, M.Terminate, Finish, Carries, KernelGate, M.Shaped, B.Step, B.Operation,
      Refuses, Owns, M.Fire, Labelled, Follows;
    AfterFinishes(K, base, run.calls, u);
    assert run.calls[..|k.calls|] == k.calls;
    if call.operation == B.ACQUIRE {
      path := [];
      NoneThen(K, base, k, u, run);
    } else {
      path := RefusalFollows(K, base, k, u, call);
    }
  }

  lemma RefusalFollows(K: Kernel, base: int, k: B.Config, u: M.State, call: B.GateCall) returns (path: seq<M.Edge>)
    requires var s := After(K, base, k.calls); Meets(K, base, s, u, call) && Refuses(K, s, call)
    requires call.operation != B.ACQUIRE && KernelGate(K, base)(k.calls + [call]).Refused?
    requires forall reason {:trigger M.Terminate(u, reason)} ::
      Stands(base, Finish(K, After(K, base, k.calls + [call])), M.Terminate(u, reason))
    ensures Follows(K, base, k, u, B.Aborted(k.calls + [call]), path)
  {
    var s, t := After(K, base, k.calls), k.(calls := k.calls + [call]);
    StaleConcludes(K, base, k.calls, u, call);
    LabelledPush(KernelGate(K, base), k.calls, call);
    MeetsLive(K, base, s, u, call);
    hide Refuses, Meets, After, KernelGate, M.Shaped, M.Fire, Labelled, Concludes, Asks, M.InRange;
    var e := M.Fire(u, Asks(call), K.cells, false);
    NoneThen(K, base, t, e.target, B.Aborted(t.calls));
    hide Follows;
    EdgeThen(K, base, k, u, B.Aborted(t.calls), Asks(call), t, []);
    path := [e] + [];
  }

  lemma MeetsShape(K: Kernel, base: int, s: Session, u: M.State, call: B.GateCall)
    requires Meets(K, base, s, u, call)
    ensures Shape(K, s) && |u.registers| == 10
  {
    hide Sane, Logged, Stands, M.Shaped;
  }

  lemma MeetsLive(K: Kernel, base: int, s: Session, u: M.State, call: B.GateCall)
    requires Meets(K, base, s, u, call)
    ensures M.Shaped(u) && u.terminal.Active? && M.InRange(u, Asks(call))
  {
  }

  lemma StaleConcludes(K: Kernel, base: int, calls: seq<B.GateCall>, u: M.State, call: B.GateCall)
    requires var s := After(K, base, calls); Meets(K, base, s, u, call) && Refuses(K, s, call)
    requires call.operation != B.ACQUIRE && KernelGate(K, base)(calls + [call]).Refused?
    requires forall reason {:trigger M.Terminate(u, reason)} ::
      Stands(base, Finish(K, After(K, base, calls + [call])), M.Terminate(u, reason))
    ensures M.InRange(u, Asks(call)) && var e := M.Fire(u, Asks(call), K.cells, false);
      && Concludes(K, base, B.Aborted(calls + [call]), e.target)
      && Edges(KernelGate(K, base), B.Aborted(calls + [call])) == calls + [call]
      && Shown(e) == [M.Label(Asks(call), M.Stale)]
  {
    hide Meets, Stands, After, M.Terminate, Finish, M.Shaped, Refuses, M.Fire;
    MeetsLive(K, base, After(K, base, calls), u, call);
    RefusedStale(K, base, After(K, base, calls), u, call);
    TerminateShaped(u, M.Faulted(M.StaleCause, call.operation == B.RELEASE));
    assert Asks(call).Read? || Asks(call).Release?;
  }

  lemma TerminateShaped(u: M.State, reason: M.Terminal)
    requires M.Shaped(u)
    ensures M.Shaped(M.Terminate(u, reason)) && M.Terminate(u, reason).terminal == reason
  {
    hide Count;
  }

  // One running step, in front of a path for the rest.
  lemma StepFollows(K: Kernel, base: int, p: B.Program, k: B.Config, u: M.State)
    returns (v: M.State, m: Option<M.Move>)
    requires Sane(K) && K.cells >= 2 && Owns(K, base, p, k) && Simulates(K, base, k, u) && k.pc < |p.insns|
    requires B.Shape(k) && B.Step(p, KernelGate(K, base), k).Running?
    ensures var t := B.Step(p, KernelGate(K, base), k).k;
      && Simulates(K, base, t, v) && (m.None? ==> v == u && t.calls == k.calls)
      && M.Shaped(u) && u.terminal.Active?
      && (m.Some? ==> M.InRange(u, m.value) && var e := M.Fire(u, m.value, K.cells, false);
            && e.target == v
            && Labelled(KernelGate(K, base), t.calls) == Labelled(KernelGate(K, base), k.calls) + Shown(e))
  {
    var gate, t := KernelGate(K, base), B.Step(p, KernelGate(K, base), k).k;
    SimulatesLive(K, base, k, u);
    hide Sane, Owns, Simulates, KernelGate, B.Step, M.Fire, M.Shaped, M.InRange, Labelled, B.Operation;
    if p.insns[k.pc].code.Call? {
      CallSimulates(K, base, p, k, u);
      var call := CallAt(p, k);
      LabelledPush(gate, k.calls, call);
      m := Some(Asks(call));
      FireShaped(u, m.value, K.cells);
      v := M.Fire(u, m.value, K.cells, false).target;
    } else {
      TransportSimulates(K, base, p, k, u);
      m := Transports(p.insns[k.pc]);
      v := u;
      if m.Some? {
        FireShaped(u, m.value, K.cells);
        v := M.Fire(u, m.value, K.cells, false).target;
      }
    }
  }

  lemma SimulatesLive(K: Kernel, base: int, k: B.Config, u: M.State)
    requires Simulates(K, base, k, u)
    ensures M.Shaped(u) && u.terminal.Active?
  {
    hide M.Shaped, Stands;
  }

  // An answer that the gateway takes for a refusal is still the machine's edge.
  lemma LostFollows(K: Kernel, base: int, p: B.Program, k: B.Config, u: M.State) returns (path: seq<M.Edge>)
    requires Sane(K) && K.cells >= 2 && Owns(K, base, p, k) && Simulates(K, base, k, u) && k.pc < |p.insns|
    requires B.Shape(k) && B.Step(p, KernelGate(K, base), k).Running?
    requires B.Step(p, KernelGate(K, base), k).k.calls != k.calls
    ensures Follows(K, base, k, u, B.Aborted(B.Step(p, KernelGate(K, base), k).k.calls), path)
  {
    hide Sane, Owns, KernelGate, Follows, M.Fire, Labelled, Stands, After, Finish, M.Terminate, M.Shaped, Carries,
      B.Step, B.Operation, M.InRange;
    var gate, t := KernelGate(K, base), B.Step(p, KernelGate(K, base), k).k;
    var v, m := StepFollows(K, base, p, k, u);
    StepAnswered(p, gate, k);
    SimulatesLive(K, base, t, v);
    AfterFinishes(K, base, t.calls, v);
    NoneThen(K, base, t, v, B.Aborted(t.calls));
    EdgeThen(K, base, k, u, B.Aborted(t.calls), m.value, t, []);
    path := [M.Fire(u, m.value, K.cells, false)] + [];
  }

  lemma StepAnswered(p: B.Program, gate: B.Gate, k: B.Config)
    requires B.Shape(k) && B.Step(p, gate, k).Running? && B.Step(p, gate, k).k.calls != k.calls
    ensures var calls := B.Step(p, gate, k).k.calls; calls != [] && gate(calls).Value?
  {
  }

  // The run on the gate, or on the gate as the gateway hears it.
  ghost predicate Listens(gate: B.Gate, g: B.Gate)
  {
    g == gate || g == C.Heard(gate)
  }

  // A step either is the gate's own, or ends the run at an answer of all ones.
  lemma ListenedStep(p: B.Program, gate: B.Gate, g: B.Gate, k: B.Config)
    requires B.Shape(k) && Listens(gate, g)
    ensures var s, h := B.Step(p, gate, k), B.Step(p, g, k);
      h == s || (s.Running? && s.k.calls != k.calls && h == B.Aborted(s.k.calls))
  {
    hide B.Step, C.Heard;
    C.StepAsks(p, gate, k);
  }

  lemma {:induction false} RunFollows(K: Kernel, base: int, p: B.Program, g: B.Gate, k: B.Config, u: M.State)
    returns (path: seq<M.Edge>)
    requires Sane(K) && K.cells >= 2 && A.Admit(p).Admitted? && Owns(K, base, p, k) && Simulates(K, base, k, u)
    requires B.Shape(k) && S.Consistent(p, A.Admit(p).flow, k) && Listens(KernelGate(K, base), g)
    ensures Follows(K, base, k, u, B.Run(p, g, k), path)
    decreases |p.insns| - k.pc
  {
    hide A.Admit, Sane, Owns, Simulates, B.Obeys, S.Describes, KernelGate, B.Step, Follows, EndsWell, M.Fire, Labelled,
      Listens;
    var gate := KernelGate(K, base);
    KernelGateObeys(K, base);
    S.StepConsistent(p, gate, k);
    StepDischarged(K, base, p, k);
    ListenedStep(p, gate, g, k);
    var s := B.Step(p, gate, k);
    if B.Step(p, g, k) != s {
      path := LostFollows(K, base, p, k, u);
    } else if s.Running? {
      var v, m := StepFollows(K, base, p, k, u);
      path := RunFollows(K, base, p, g, s.k, v);
      if m.Some? {
        EdgeThen(K, base, k, u, B.Run(p, g, k), m.value, s.k, path);
        path := [M.Fire(u, m.value, K.cells, false)] + path;
      } else {
        SameCalls(K, base, k, s.k, u, B.Run(p, g, k), path);
      }
    } else {
      StepEnds(p, gate, k);
      if s.Exited? {
        path := ExitFollows(K, base, k, u, s);
      } else {
        path := AbortFollows(K, base, p, k, u);
      }
    }
  }

  lemma SameCalls(K: Kernel, base: int, k: B.Config, t: B.Config, u: M.State, run: B.State, path: seq<M.Edge>)
    requires Follows(K, base, t, u, run, path) && t.calls == k.calls
    ensures Follows(K, base, k, u, run, path)
  {
    hide Concludes, Labelled, KernelGate;
  }

  lemma StepEnds(p: B.Program, gate: B.Gate, k: B.Config)
    requires B.Shape(k) && k.pc < |p.insns| && !B.Step(p, gate, k).Running? && !B.Step(p, gate, k).Stuck?
    ensures var s := B.Step(p, gate, k);
      if s.Exited? then s.calls == k.calls else s.Aborted? && p.insns[k.pc].code.Call?
  {
  }

  lemma StartSimulates(K: Kernel, base: int)
    ensures Simulates(K, base, B.Start(), M.Initial(10, 1)) && B.Shape(B.Start())
  {
    assert After(K, base, []) == Entered(K, base);
    assert Tags(Entered(K, base).cells)[..0] == [];
  }

  // Every run of an admitted program on the kernel gate, or on the gate as compiled code hears
  // it, is a path of the ownership machine: the gate's calls, with their answers, are the path's
  // edges in order, and the invocation as the wrapper leaves it has the terminal state's
  // identities, effects and reference count. A use of a consumed handle is the machine's stale
  // fault.
  lemma KernelRefines(K: Kernel, base: int, p: B.Program, g: B.Gate) returns (path: seq<M.Edge>)
    requires Sane(K) && K.cells >= 2 && A.Admit(p).Admitted? && Listens(KernelGate(K, base), g)
    ensures var run := B.Run(p, g, B.Start());
      && R.Follows(M.Initial(10, 1), path, K.cells)
      && Asked(path) == Labelled(KernelGate(K, base), Edges(KernelGate(K, base), run))
      && Concludes(K, base, run, R.Last(M.Initial(10, 1), path))
  {
    hide A.Admit, Sane, B.Run, KernelGate, R.Follows, R.Last, Concludes, Listens;
    F.AdmittedCounts(p);
    StartOwns(K, base, p);
    S.StartConsistent(p);
    StartSimulates(K, base);
    path := RunFollows(K, base, p, g, B.Start(), M.Initial(10, 1));
    assert Labelled(KernelGate(K, base), []) + Asked(path) == Asked(path);
  }
}
