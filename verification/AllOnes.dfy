/** Why the object must not hold -1: an admitted program for which, on every gate that reads all
    ones, the compiled function and the program disagree. */
module AllOnes {
  import opened Capabilities
  import opened Common
  import opened Bpf
  import opened Admission
  import opened CompilerCorrect
  import E = Emission
  import F = AdmissionFixpoint
  import N = NativeMachine

  // r1 = 0; r0 = acquire(r1); if r0 == 0 goto exit; r1 = r0; r0 = read(r1); exit.
  function Reader(): (p: Program)
    ensures |p.insns| == 6
  {
    Program([Insn(MovImm, 1, 0, 0, 0), Insn(Call, 0, 2, 0, ACQUIRE), Insn(Jeq, 0, 0, 2, 0), Insn(MovReg, 1, 0, 0, 0),
             Insn(Call, 0, 2, 0, READ), Insn(Exit, 0, 0, 0, 0)],
            (x: Insn) => if 0 <= x.imm <= 3 then x.imm else 0)
  }

  const ACQUIRED := [GateCall(ACQUIRE, 1, Scalar(0))]

  // The gate grants the handle h and then reads all ones through it.
  ghost predicate ReadsAllOnes(gate: Gate, h: Capability)
  {
    && IsHandle(h) && h.address != U64 - 1 && gate(ACQUIRED) == Value(h)
    && gate(ACQUIRED + [GateCall(READ, 4, h)]) == Value(Scalar(U64 - 1))
  }

  lemma AdmitStep(p: Program, flow: seq<Point>, pc: nat, acquisitions: nat, hasExit: bool)
    requires |flow| == |p.insns| + 1 && pc < |p.insns| && Check(p, pc, flow[pc], acquisitions).None?
    ensures Check(p, pc, flow[pc], 0).None?
    ensures AdmitFrom(p, flow, pc, acquisitions, hasExit)
      == AdmitFrom(p, Propagate(p, flow, pc), pc + 1, acquisitions + IsAcquire(p, p.insns[pc]),
                   hasExit || p.insns[pc].code.Exit?)
  {
    CheckCount(p, pc, flow[pc], acquisitions);
    hide Check, Propagate, IsAcquire;
  }

  // A point that knows r0 and r1.
  predicate Knows(f: Point, r0: Kind, r1: Kind)
  {
    f.reached && f.reg[0] == r0 && f.reg[1] == r1
  }

  lemma AdmitsExit(f: seq<Point>)
    requires |f| == 7 && Knows(f[5], Kind(false, true, true, false), UNINIT) && f[6] == Unreached()
    ensures AdmitFrom(Reader(), f, 5, 1, false).Admitted?
  {
    hide AdmitFrom;
    var p := Reader();
    AdmitStep(p, f, 5, 1, false);
    assert Propagate(p, f, 5) == f;
    AdmitEnd(p, f);
  }

  lemma AdmitEnd(p: Program, f: seq<Point>)
    requires |f| == |p.insns| + 1 && !f[|p.insns|].reached
    ensures AdmitFrom(p, f, |p.insns|, 1, true).Admitted?
  {
  }

  lemma AdmitsRead(f: seq<Point>)
    requires |f| == 7 && Knows(f[4], HANDLE, HANDLE) && Knows(f[5], ZERO, UNINIT) && f[6] == Unreached()
    ensures AdmitFrom(Reader(), f, 4, 1, false).Admitted?
  {
    hide AdmitFrom;
    AdmitStep(Reader(), f, 4, 1, false);
    AdmitsExit(Propagate(Reader(), f, 4));
  }

  lemma AdmitsMove(f: seq<Point>)
    requires |f| == 7 && Knows(f[3], HANDLE, UNINIT) && Knows(f[5], ZERO, UNINIT)
    requires f[4] == Unreached() && f[6] == Unreached()
    ensures AdmitFrom(Reader(), f, 3, 1, false).Admitted?
  {
    hide AdmitFrom;
    AdmitStep(Reader(), f, 3, 1, false);
    AdmitsRead(Propagate(Reader(), f, 3));
  }

  lemma AdmitsBranch(f: seq<Point>)
    requires |f| == 7 && Knows(f[2], NULLABLE, UNINIT) && forall i :: 3 <= i <= 6 ==> f[i] == Unreached()
    ensures AdmitFrom(Reader(), f, 2, 1, false).Admitted?
  {
    hide AdmitFrom;
    AdmitStep(Reader(), f, 2, 1, false);
    AdmitsMove(Propagate(Reader(), f, 2));
  }

  lemma AdmitsAcquire(f: seq<Point>)
    requires |f| == 7 && Knows(f[1], UNINIT, ZERO) && forall i :: 2 <= i <= 6 ==> f[i] == Unreached()
    ensures AdmitFrom(Reader(), f, 1, 0, false).Admitted?
  {
    hide AdmitFrom;
    AdmitStep(Reader(), f, 1, 0, false);
    AdmitsBranch(Propagate(Reader(), f, 1));
  }

  lemma ReaderAdmitted()
    ensures Admit(Reader()).Admitted?
  {
    hide AdmitFrom;
    AdmitStep(Reader(), EntryFlow(6), 0, 0, false);
    AdmitsAcquire(Propagate(Reader(), EntryFlow(6), 0));
  }

  lemma RunStep(p: Program, gate: Gate, k: Config, next: Config)
    requires Shape(k) && Step(p, gate, k) == Running(next)
    ensures Run(p, gate, k) == Run(p, gate, next)
  {
    hide Step;
  }

  lemma RunEnd(p: Program, gate: Gate, k: Config)
    requires Shape(k) && !Step(p, gate, k).Running?
    ensures Run(p, gate, k) == Step(p, gate, k)
  {
    hide Step;
  }

  // Up to the read, any gate that grants the handle behaves the same.
  lemma RunsToRead(gate: Gate, h: Capability) returns (k: Config)
    requires IsHandle(h) && gate(ACQUIRED) == Value(h)
    ensures Shape(k) && k.pc == 4 && k.regs[1] == Def(h) && k.calls == ACQUIRED
    ensures Run(Reader(), gate, Start()) == Run(Reader(), gate, k)
  {
    hide Run;
    var p := Reader();
    var k0 := Start();
    var k1 := k0.(pc := 1, regs := k0.regs[1 := Def(Scalar(0))]);
    RunStep(p, gate, k0, k1);
    assert k1.calls + [GateCall(ACQUIRE, 1, Scalar(0))] == ACQUIRED;
    var k2 := Config(2, AfterCall(k1.regs, Def(h)), k1.spill, ACQUIRED);
    RunStep(p, gate, k1, k2);
    var k3 := k2.(pc := 3);
    RunStep(p, gate, k2, k3);
    k := k3.(pc := 4, regs := k3.regs[1 := k3.regs[0]]);
    RunStep(p, gate, k3, k);
  }

  // At the read, all ones is a value to the program.
  lemma ReadReturns(gate: Gate, h: Capability, k: Config)
    requires ReadsAllOnes(gate, h) && Shape(k) && k.pc == 4 && k.regs[1] == Def(h) && k.calls == ACQUIRED
    ensures Run(Reader(), gate, k) == Exited(U64 - 1, ACQUIRED + [GateCall(READ, 4, h)])
  {
    hide Run;
    var calls := ACQUIRED + [GateCall(READ, 4, h)];
    var next := Config(5, AfterCall(k.regs, Def(Scalar(U64 - 1))), k.spill, calls);
    RunStep(Reader(), gate, k, next);
    RunEnd(Reader(), gate, next);
  }

  // The gateway hears it as a refusal.
  lemma ReadAborts(gate: Gate, h: Capability, k: Config)
    requires ReadsAllOnes(gate, h) && Shape(k) && k.pc == 4 && k.regs[1] == Def(h) && k.calls == ACQUIRED
    ensures Run(Reader(), Heard(gate), k) == Aborted(ACQUIRED + [GateCall(READ, 4, h)])
  {
    hide Run;
    assert Heard(gate)(ACQUIRED + [GateCall(READ, 4, h)]) == Refused;
    RunEnd(Reader(), Heard(gate), k);
  }

  // The program is admitted and returns the all-ones value; the compiled function's gate ends
  // the run at that read.
  lemma AllOnesIsLost(gate: Gate, h: Capability)
    requires ReadsAllOnes(gate, h)
    ensures Admit(Reader()).Admitted?
    ensures Run(Reader(), gate, Start()) == Exited(U64 - 1, ACQUIRED + [GateCall(READ, 4, h)])
    ensures Run(Reader(), Heard(gate), Start()) == Aborted(ACQUIRED + [GateCall(READ, 4, h)])
  {
    ReaderAdmitted();
    assert Heard(gate)(ACQUIRED) == Value(h);
    hide Run, Admit, Heard, IsHandle;
    var k := RunsToRead(gate, h);
    ReadReturns(gate, h, k);
    var n := RunsToRead(Heard(gate), h);
    ReadAborts(gate, h, n);
  }

  // The image of that program, on any such gate: whatever the build and the caller, it returns 0.
  lemma CompiledReturnsZero(build: E.Build, env: N.Env, m: N.Machine, h: Capability) returns (n: nat, y: N.Machine)
    requires ReadsAllOnes(env.gate, h) && Obeys(env.gate) && Integers(m.c) && Enters(env, build, m)
    requires m.pc == 0 && m.executive && m.calls == []
    requires build.cookie < U64 && build.enter < U64 && env.enter == build.enter
    ensures F.Formed(Reader()) && N.Steps(E.Image(build, Reader()), env, m, n) == N.Returned(0, y)
  {
    AllOnesIsLost(env.gate, h);
    hide Run, Admit, Heard, Obeys, F.Formed, E.Image, N.Steps, Restored, Enters, ReadsAllOnes;
    n, y := CompilerIsCorrect(build, Reader(), env, m);
  }
}
