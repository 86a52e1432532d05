/** An admitted program against the kernel gate: admission leaves the gate only three reasons to
    refuse a call, and the wrapper, the image and the program agree from invocation to result. */
module KernelProgram {
  import opened Capabilities
  import opened Common
  import B = Bpf
  import A = Admission
  import F = AdmissionFixpoint
  import S = AdmissionSound
  import opened KernelMachine
  import opened KernelOwnership

  // ---- The kernel gate as the program's gate ----

  function Entered(K: Kernel, base: int): (s: Session)
    ensures Shape(K, s)
  {
    Fresh(K, base).(entered := true)
  }

  // The session after a sequence of gate calls.
  function After(K: Kernel, base: int, calls: seq<B.GateCall>): (s: Session)
    ensures Shape(K, s)
    decreases |calls|
  {
    if calls == [] then Entered(K, base)
    else
      var last := calls[|calls| - 1];
      Gate(K, After(K, base, calls[..|calls| - 1]), last.argument, last.operation, last.pc).s
  }

  // The answer to the last call: refused when the invocation has failed.
  function Answer(K: Kernel, base: int, calls: seq<B.GateCall>): B.Answer
  {
    if calls == [] then B.Refused
    else
      var last := calls[|calls| - 1];
      var r := Gate(K, After(K, base, calls[..|calls| - 1]), last.argument, last.operation, last.pc);
      if r.s.failed then B.Refused else B.Value(r.value)
  }

  function KernelGate(K: Kernel, base: int): B.Gate
  {
    calls => Answer(K, base, calls)
  }

  lemma {:induction false} AfterSound(K: Kernel, base: int, calls: seq<B.GateCall>)
    requires Sane(K)
    ensures Sound(K, base, After(K, base, calls)) && After(K, base, calls).entered
    decreases |calls|
  {
    hide Gate, Sane, Count, Tags;
    if calls == [] {
      FreshSound(K, base);
    } else {
      var rest, last := calls[..|calls| - 1], calls[|calls| - 1];
      AfterSound(K, base, rest);
      GateSound(K, base, After(K, base, rest), last.argument, last.operation, last.pc);
      GateKeepsEntry(K, After(K, base, rest), last.argument, last.operation, last.pc);
    }
  }

  lemma GateKeepsEntry(K: Kernel, s: Session, argument: Capability, operation: nat, pc: nat)
    requires Shape(K, s)
    ensures Gate(K, s, argument, operation, pc).s.entered == s.entered
  {
  }

  // What a reply that is not a failure can be.
  lemma RepliesLawful(K: Kernel, base: int, s: Session, argument: Capability, operation: nat, pc: nat)
    requires Sane(K) && Sound(K, base, s)
    ensures var r := Gate(K, s, argument, operation, pc);
      !r.s.failed ==> B.Lawful(B.GateCall(operation, pc, argument), B.Value(r.value))
    ensures var r := Gate(K, s, argument, operation, pc);
      !r.s.failed && K.value != -1 ==> r.value.address != U64 - 1
  {
    hide Take, Consume, Count, Tags, Widen;
    if s.entered && !s.failed && operation == 1 && s.acquired < K.cells {
      ExactMeans(K, K.cellAddress(s.acquired), K.cellBytes);
      var a := K.cellAddress(s.acquired);
    }
    WidenSigned(K.value);
  }

  lemma WidenSigned(value: int)
    requires -U64 < value < U64
    ensures Widen(value) == if value < 0 then value + U64 else value
  {
    assert value < 0 ==> (value + U64) % U64 == value + U64;
  }

  // The kernel gate keeps the kfuncs' contracts; no value it returns reads as a failure unless
  // the object holds -1.
  lemma KernelGateObeys(K: Kernel, base: int)
    requires Sane(K)
    ensures B.Obeys(KernelGate(K, base))
    ensures K.value != -1 ==> forall calls {:trigger KernelGate(K, base)(calls)} ::
      KernelGate(K, base)(calls).Value? ==> KernelGate(K, base)(calls).c.address != U64 - 1
  {
    forall calls: seq<B.GateCall> | |calls| > 0
      ensures B.Lawful(calls[|calls| - 1], KernelGate(K, base)(calls))
      ensures K.value != -1 && KernelGate(K, base)(calls).Value? ==> KernelGate(K, base)(calls).c.address != U64 - 1
    {
      var rest, last := calls[..|calls| - 1], calls[|calls| - 1];
      AfterSound(K, base, rest);
      hide Sane, Gate, B.Lawful, Sound;
      RepliesLawful(K, base, After(K, base, rest), last.argument, last.operation, last.pc);
      RefusalLawful(last);
    }
  }

  lemma RefusalLawful(call: B.GateCall)
    ensures B.Lawful(call, B.Refused)
  {
  }

  // ---- What the program holds ----

  // A handle the program holds names an acquired cell.
  ghost predicate Named(K: Kernel, s: Session, v: B.Val)
  {
    v.Def? && B.IsHandle(v.c) ==> exists i :: 0 <= i < s.acquired && v.c == View(K, i)
  }

  // The session behind a configuration: entered, not failed, with room for every acquisition
  // site that control can still reach.
  ghost predicate Owns(K: Kernel, base: int, p: B.Program, k: B.Config)
  {
    var s := After(K, base, k.calls);
    && B.Shape(k) && k.pc <= |p.insns| && !s.failed
    && s.acquired + F.Sites(p, k.pc) <= 2
    && Named(K, s, k.spill) && forall r :: 0 <= r < 10 ==> Named(K, s, k.regs[r])
  }

  lemma {:induction false} SitesFall(p: B.Program, a: nat, b: nat)
    requires a <= b <= |p.insns|
    ensures F.Sites(p, b) <= F.Sites(p, a)
    decreases b - a
  {
    if a < b { SitesFall(p, a + 1, b); }
  }

  // The reasons left to the gate, each decidable before the call.
  ghost predicate Refuses(K: Kernel, s: Session, call: B.GateCall)
  {
    if call.operation == B.ACQUIRE then
      call.argument.address > 1 || (call.argument.address == 0 && !Buildable(K, s.acquired))
    else exists i :: 0 <= i < s.acquired && i < |s.cells| && call.argument == View(K, i) && !s.cells[i].tag
  }

  // A call the admission checks allow is refused exactly for one of those reasons: the gate's
  // capacity, unknown-view, tagged-argument and bad-operation rejections cannot happen.
  lemma RefusedExactly(K: Kernel, base: int, s: Session, call: B.GateCall)
    requires Sane(K) && K.cells >= 2 && Sound(K, base, s) && s.entered && !s.failed
    requires 1 <= call.operation <= 3
    requires call.operation == B.ACQUIRE ==> B.IsScalar(call.argument) && s.acquired < 2
    requires call.operation != B.ACQUIRE ==> exists i :: 0 <= i < s.acquired && call.argument == View(K, i)
    ensures var r := Gate(K, s, call.argument, call.operation, call.pc);
      && (r.s.failed <==> Refuses(K, s, call))
      && (call.operation == B.ACQUIRE && !r.s.failed ==>
            if call.argument.address == 0 then r.s.acquired == s.acquired + 1 && r.value == View(K, s.acquired)
            else r.s.acquired == s.acquired && r.value == Scalar(0))
      && (call.operation != B.ACQUIRE && !r.s.failed ==> r.s.acquired == s.acquired && B.IsScalar(r.value))
  {
    hide Take, Consume, Trace, Count, Tags, Sane;
    if call.operation == B.ACQUIRE {
      ExactMeans(K, K.cellAddress(s.acquired), K.cellBytes);
      ExactMeans(K, K.objectAddress, K.objectBytes);
      TakeKeeps(K, s, call.pc);
    } else {
      var i :| 0 <= i < s.acquired && call.argument == View(K, i);
      UseExactly(K, base, s, call.argument, call.operation, call.pc, i);
      UseKeeps(K, s, call.argument, call.operation, call.pc);
      forall j | 0 <= j < s.acquired ensures View(K, j) == View(K, i) <==> j == i {
        ViewsApart(K, i, j);
      }
    }
  }

  lemma TakeKeeps(K: Kernel, s: Session, pc: nat)
    requires Shape(K, s) && s.acquired < K.cells
    ensures forall v, o ::
      var t := Take(K, s, v, o, pc); t.acquired == s.acquired + 1 && t.failed == s.failed
    ensures forall id :: Trace(s, Null, pc, id).acquired == s.acquired && Trace(s, Null, pc, id).failed == s.failed
    ensures Fail(s, pc).failed
  {
  }

  lemma UseKeeps(K: Kernel, s: Session, argument: Capability, operation: nat, pc: nat)
    requires Shape(K, s) && operation != 1
    ensures Gate(K, s, argument, operation, pc).s.acquired == s.acquired
    ensures Rejected(s, pc).s.failed
  {
  }

  // ---- Every reachable call ----

  lemma AfterPush(K: Kernel, base: int, calls: seq<B.GateCall>, call: B.GateCall)
    ensures After(K, base, calls + [call])
      == Gate(K, After(K, base, calls), call.argument, call.operation, call.pc).s
    ensures var r := Gate(K, After(K, base, calls), call.argument, call.operation, call.pc);
      Answer(K, base, calls + [call]) == if r.s.failed then B.Refused else B.Value(r.value)
  {
    assert (calls + [call])[..|calls|] == calls;
    hide Gate;
  }

  // The call an instruction makes.
  function CallAt(p: B.Program, k: B.Config): B.GateCall
    requires k.pc < |p.insns| && B.Shape(k) && k.regs[1].Def?
  {
    B.GateCall(B.Operation(p, p.insns[k.pc]), k.pc, k.regs[1].c)
  }

  // A gate call of a running program is refused exactly for one of the three reasons.
  lemma CallRefused(K: Kernel, base: int, p: B.Program, k: B.Config)
    requires Sane(K) && K.cells >= 2 && Owns(K, base, p, k) && k.pc < |p.insns| && p.insns[k.pc].code.Call?
    requires !B.Step(p, KernelGate(K, base), k).Stuck?
    ensures k.regs[1].Def? && var (call, s) := (CallAt(p, k), After(K, base, k.calls));
      && (B.Step(p, KernelGate(K, base), k) == B.Aborted(k.calls + [call]) <==> Refuses(K, s, call))
      && (Refuses(K, s, call) <==> After(K, base, k.calls + [call]).failed)
      && (B.Step(p, KernelGate(K, base), k).Running? ==> OwnsAfter(K, base, p, k))
  {
    AfterSound(K, base, k.calls);
    CallAllowed(K, base, p, k);
    hide Gate, Sane, After, Answer, Sound, Refuses, Owns, B.Operation, OwnsAfter;
    var call, s := CallAt(p, k), After(K, base, k.calls);
    AfterPush(K, base, k.calls, call);
    RefusedExactly(K, base, s, call);
    if !Refuses(K, s, call) { CallOwns(K, base, p, k); }
  }

  // What the source's own checks give the gate.
  lemma CallAllowed(K: Kernel, base: int, p: B.Program, k: B.Config)
    requires Owns(K, base, p, k) && k.pc < |p.insns| && p.insns[k.pc].code.Call?
    requires !B.Step(p, KernelGate(K, base), k).Stuck?
    ensures k.regs[1].Def? && B.Shape(k) && !After(K, base, k.calls).failed
    ensures var (call, s) := (CallAt(p, k), After(K, base, k.calls));
      && 1 <= call.operation <= 3
      && (call.operation == B.ACQUIRE ==> B.IsScalar(call.argument) && s.acquired < 2)
      && (call.operation != B.ACQUIRE ==> exists i :: 0 <= i < s.acquired && call.argument == View(K, i))
  {
    hide After;
    assert Named(K, After(K, base, k.calls), k.regs[1]);
  }

  // The configuration after an answered call still owns what it holds.
  ghost predicate OwnsAfter(K: Kernel, base: int, p: B.Program, k: B.Config)
    requires B.Shape(k) && k.pc < |p.insns|
  {
    var s := B.Step(p, KernelGate(K, base), k);
    s.Running? && Owns(K, base, p, s.k)
  }

  lemma CallOwns(K: Kernel, base: int, p: B.Program, k: B.Config)
    requires Sane(K) && K.cells >= 2 && Owns(K, base, p, k) && k.pc < |p.insns| && p.insns[k.pc].code.Call?
    requires !B.Step(p, KernelGate(K, base), k).Stuck? && k.regs[1].Def?
    requires !Refuses(K, After(K, base, k.calls), CallAt(p, k))
    ensures OwnsAfter(K, base, p, k)
  {
    hide Gate, Sane, After, Answer, Sound, Refuses, Owns, Named, B.Operation, F.Sites, B.IsHandle, B.IsScalar, View;
    AfterSound(K, base, k.calls);
    CallAllowed(K, base, p, k);
    var call, s := CallAt(p, k), After(K, base, k.calls);
    AfterPush(K, base, k.calls, call);
    RefusedExactly(K, base, s, call);
    var t := After(K, base, k.calls + [call]);
    var r := Gate(K, s, call.argument, call.operation, call.pc);
    ResultNamed(K, s, call, r);
    KeepsOwning(K, base, p, k, call, t, r.value);
  }

  // What the call returns names an acquired cell, if it is a handle at all.
  lemma ResultNamed(K: Kernel, s: Session, call: B.GateCall, r: Reply)
    requires call.operation == B.ACQUIRE ==>
      if call.argument.address == 0 then r.s.acquired == s.acquired + 1 && r.value == View(K, s.acquired)
      else r.s.acquired == s.acquired && r.value == Scalar(0)
    requires call.operation != B.ACQUIRE ==> r.s.acquired == s.acquired && B.IsScalar(r.value)
    ensures s.acquired <= r.s.acquired <= s.acquired + (if call.operation == B.ACQUIRE then 1 else 0)
    ensures Named(K, r.s, B.Def(r.value))
  {
  }

  lemma KeepsOwning(K: Kernel, base: int, p: B.Program, k: B.Config, call: B.GateCall, t: Session, value: Capability)
    requires Owns(K, base, p, k) && k.pc < |p.insns| && call.operation == B.Operation(p, p.insns[k.pc])
    requires t == After(K, base, k.calls + [call]) && !t.failed && Named(K, t, B.Def(value))
    requires var s := After(K, base, k.calls);
      s.acquired <= t.acquired <= s.acquired + (if call.operation == B.ACQUIRE then 1 else 0)
    ensures B.Shape(k)
    ensures Owns(K, base, p, B.Config(k.pc + 1, B.AfterCall(k.regs, B.Def(value)), k.spill, k.calls + [call]))
  {
    hide After, B.Operation, B.IsHandle, View;
    var s, regs := After(K, base, k.calls), B.AfterCall(k.regs, B.Def(value));
    SitesFall(p, k.pc, k.pc + 1);
    forall v | Named(K, s, v) ensures Named(K, t, v) {
    }
    forall r | 0 <= r < 10 ensures Named(K, t, regs[r]) {
      assert r > 5 ==> Named(K, s, k.regs[r]);
    }
  }

  // The other instructions move values and never touch the session.
  lemma MoveOwns(K: Kernel, base: int, p: B.Program, k: B.Config)
    requires Owns(K, base, p, k) && k.pc < |p.insns| && !p.insns[k.pc].code.Call?
    requires B.Step(p, KernelGate(K, base), k).Running? && B.Step(p, KernelGate(K, base), k).k.pc <= |p.insns|
    ensures OwnsAfter(K, base, p, k)
  {
    hide After, KernelGate;
    var t := B.Step(p, KernelGate(K, base), k).k;
    SitesFall(p, k.pc, t.pc);
    forall r | 0 <= r < 10 ensures Named(K, After(K, base, k.calls), t.regs[r]) {
      assert Named(K, After(K, base, k.calls), k.regs[r]);
    }
  }

  lemma StartOwns(K: Kernel, base: int, p: B.Program)
    requires F.Sites(p, 0) <= 2
    ensures Owns(K, base, p, B.Start())
  {
    assert forall r :: 0 <= r < 10 ==> B.Start().regs[r].Undef?;
  }

  // How the whole run ends, at the gate.
  ghost predicate EndsWell(K: Kernel, base: int, s: B.State)
  {
    match s
    case Exited(_, calls) => !After(K, base, calls).failed
    case Aborted(calls) =>
      && |calls| > 0 && After(K, base, calls).failed
      && !After(K, base, calls[..|calls| - 1]).failed
      && Refuses(K, After(K, base, calls[..|calls| - 1]), calls[|calls| - 1])
    case _ => false
  }

  // One step keeps the session owned, or ends well.
  lemma StepDischarged(K: Kernel, base: int, p: B.Program, k: B.Config)
    requires Sane(K) && K.cells >= 2 && Owns(K, base, p, k) && k.pc < |p.insns|
    requires !B.Step(p, KernelGate(K, base), k).Stuck?
    requires B.Step(p, KernelGate(K, base), k).Running? ==> B.Step(p, KernelGate(K, base), k).k.pc <= |p.insns|
    ensures var s := B.Step(p, KernelGate(K, base), k);
      if s.Running? then Owns(K, base, p, s.k) else EndsWell(K, base, s)
  {
    hide Sane, After, Refuses, Owns, KernelGate, B.Operation, B.IsScalar;
    OwnsLive(K, base, p, k);
    var gate := KernelGate(K, base);
    if p.insns[k.pc].code.Call? {
      CallRefused(K, base, p, k);
      assert (k.calls + [CallAt(p, k)])[..|k.calls|] == k.calls;
      CallEnds(p, gate, k);
    } else {
      PlainEnds(p, gate, k);
      if B.Step(p, gate, k).Running? { MoveOwns(K, base, p, k); }
    }
  }

  lemma CallEnds(p: B.Program, gate: B.Gate, k: B.Config)
    requires B.Shape(k) && k.pc < |p.insns| && p.insns[k.pc].code.Call? && !B.Step(p, gate, k).Stuck?
    ensures k.regs[1].Def? && (B.Step(p, gate, k).Running? || B.Step(p, gate, k) == B.Aborted(k.calls + [CallAt(p, k)]))
  {
  }

  lemma PlainEnds(p: B.Program, gate: B.Gate, k: B.Config)
    requires B.Shape(k) && k.pc < |p.insns| && !p.insns[k.pc].code.Call? && !B.Step(p, gate, k).Stuck?
    ensures var s := B.Step(p, gate, k); s.Running? || (s.Exited? && s.calls == k.calls)
  {
  }

  lemma {:induction false} RunDischarged(K: Kernel, base: int, p: B.Program, k: B.Config)
    requires Sane(K) && K.cells >= 2 && A.Admit(p).Admitted? && Owns(K, base, p, k)
    requires S.Consistent(p, A.Admit(p).flow, k)
    ensures B.Shape(k) && EndsWell(K, base, B.Run(p, KernelGate(K, base), k))
    decreases |p.insns| - k.pc
  {
    hide A.Admit, Sane, After, Refuses, Owns, B.Obeys, S.Describes, KernelGate, B.Step, EndsWell;
    KernelGateObeys(K, base);
    OwnsLive(K, base, p, k);
    S.StepConsistent(p, KernelGate(K, base), k);
    StepDischarged(K, base, p, k);
    var s := B.Step(p, KernelGate(K, base), k);
    if s.Running? { RunDischarged(K, base, p, s.k); }
  }

  lemma OwnsLive(K: Kernel, base: int, p: B.Program, k: B.Config)
    requires Owns(K, base, p, k)
    ensures !After(K, base, k.calls).failed && B.Shape(k)
  {
  }

  // Admission discharges the gate's failures: a run of an admitted program ends by its exit with
  // the invocation unfailed, or by a call refused for an out-of-range acquire argument, a
  // capability that could not be built, or a handle already consumed.
  lemma AdmissionDischarges(K: Kernel, base: int, p: B.Program)
    requires Sane(K) && K.cells >= 2 && A.Admit(p).Admitted?
    ensures EndsWell(K, base, B.Run(p, KernelGate(K, base), B.Start()))
  {
    F.AdmittedCounts(p);
    StartOwns(K, base, p);
    S.StartConsistent(p);
    RunDischarged(K, base, p, B.Start());
  }
}
