/** The body of the image simulates the BPF program: instruction by instruction the machine makes
    the same gate calls and holds the same defined values, and it leaves for the executive
    epilogue with the program's scalar, or with zero when the gate refuses. */
module BodyCorrect {
  import opened Capabilities
  import opened Common
  import B = Bpf
  import A = Admission
  import S = AdmissionSound
  import opened AdmissionFixpoint
  import opened Emission
  import opened NativeMachine
  import opened Templates

  // The defined BPF registers are in their native registers.
  ghost predicate Related(regs: seq<B.Val>, c: seq<Reg>)
  {
    |regs| == 10 && |c| == 31 && forall r :: 0 <= r < 10 ==> regs[r].Def? ==> c[NativeReg(r)] == Data(regs[r].c)
  }

  // Between two instructions every register that is not a BPF register, the sidecar's address,
  // the gate, its continuation or the exit is zero.
  predicate Scrubbed(c: seq<Reg>)
    requires |c| == 31
  {
    forall i :: 5 <= i < 30 && i != 7 && i != 14 && i != 15 && i != 17 && !(19 <= i <= 22) ==> c[i] == Data(Scalar(0))
  }

  // The machine stands at the block of k.pc with the defined values of k; saved is the frame
  // above the sidecar.
  ghost predicate Sim(p: B.Program, build: Build, k: B.Config, m: Machine, saved: seq<Slot>)
  {
    && Shape(m) && Related(k.regs, m.c) && Scrubbed(m.c) && k.pc <= |p.insns|
    && m.pc == Offset(p, PrologueLength(build), k.pc) && !m.executive && m.calls == k.calls
    && m.c[15].Data? && m.c[17] == GateEntry && m.c[30] == Code(Recorded(build, p).executive)
    && |m.frame| > 0 && m.frame[0].One? && m.frame[1..] == saved
    && (k.spill.Def? ==> m.frame[0].r == Data(k.spill.c))
  }

  // The machine stands at the executive epilogue with its result in x7.
  ghost predicate AtExit(p: B.Program, build: Build, m: Machine, value: nat, calls: seq<B.GateCall>, saved: seq<Slot>)
  {
    && Shape(m) && m.pc == Recorded(build, p).executive && m.executive && m.calls == calls
    && m.c[7].Data? && m.c[7].c.address == value
    && |m.frame| > 0 && m.frame[0].One? && m.frame[1..] == saved
  }

  // What the machine reaches when the source reaches s.
  ghost predicate Reaches(p: B.Program, build: Build, s: B.State, m: Machine, saved: seq<Slot>)
  {
    match s
    case Running(k) => Sim(p, build, k, m, saved)
    case Exited(value, calls) => AtExit(p, build, m, value, calls, saved)
    case Aborted(calls) => AtExit(p, build, m, 0, calls, saved)
    case Stuck(_) => false
  }

  ghost predicate Follows(p: B.Program, build: Build, env: Env, s: B.State, m: Machine, n: nat, saved: seq<Slot>)
    requires Formed(p) && Shape(m)
  {
    var o := Steps(Image(build, p), env, m, n);
    o.Going? && Reaches(p, build, s, o.m, saved)
  }

  lemma RelatedSet(regs: seq<B.Val>, c: seq<Reg>, d: nat, v: B.Val, x: Reg)
    requires Related(regs, c) && d <= 9 && (v.Def? ==> x == Data(v.c))
    ensures Related(regs[d := v], c[NativeReg(d) := x])
  {
    forall r | 0 <= r < 10 && regs[d := v][r].Def?
      ensures c[NativeReg(d) := x][NativeReg(r)] == Data(regs[d := v][r].c)
    {
      NativeRegInjective(r, d);
    }
  }

  // Native registers of BPF avoid the gateway's and the link registers.
  lemma NativeRegApart(r: nat)
    requires r <= 9
    ensures NativeReg(r) != 15 && NativeReg(r) != 17 && NativeReg(r) != 30 && NativeReg(r) != 13 && NativeReg(r) != 5
  {
  }

  lemma StepsOne(code: seq<Native>, env: Env, m: Machine)
    requires Shape(m)
    ensures Steps(code, env, m, 1) == Step(code, env, m)
  {
    hide Step;
    var o := Step(code, env, m);
    if o.Going? { assert Steps(code, env, o.m, 0) == o; }
  }

  // The first word of the block at pc.
  lemma FirstWord(build: Build, p: B.Program, pc: nat)
    requires Formed(p) && pc < |p.insns|
    ensures var at := Offset(p, PrologueLength(build), pc);
      var w := Block(p, Recorded(build, p), pc, at);
      |w| > 0 ==> at < |Image(build, p)| && Image(build, p)[at] == w[0]
  {
    hide Image, Block, Recorded, Formed;
    BlockAt(build, p, pc);
    var at := Offset(p, PrologueLength(build), pc);
    var w := Block(p, Recorded(build, p), pc, at);
    if |w| > 0 { assert Image(build, p)[at + 0] == w[0]; }
  }

  lemma OffsetNext(p: B.Program, start: nat, pc: nat)
    requires pc < |p.insns|
    ensures Offset(p, start, pc + 1) == Offset(p, start, pc) + BlockLength(p.insns[pc])
  {
  }

  // ---- Moves ----

  lemma MoveFollows(p: B.Program, build: Build, env: Env, k: B.Config, m: Machine, saved: seq<Slot>)
    requires Formed(p) && k.pc < |p.insns| && Sim(p, build, k, m, saved) && !B.Step(p, env.gate, k).Stuck?
    requires var c := p.insns[k.pc].code; c.MovReg? || c.Stx? || c.Ldx?
    ensures Follows(p, build, env, B.Step(p, env.gate, k), m, 1, saved)
  {
    hide Image, Recorded, Offset, Steps;
    var x := p.insns[k.pc];
    FirstWord(build, p, k.pc);
    StepsOne(Image(build, p), env, m);
    OffsetNext(p, PrologueLength(build), k.pc);
    if !x.code.Stx? { ScrubbedSet(m.c, x.dst, if x.code.MovReg? then m.c[NativeReg(x.src)] else m.frame[0].r); }
    hide Related, NativeReg, Scrubbed;
    match x.code {
      case MovReg =>
        NativeRegApart(x.dst);
        RelatedAt(k.regs, m.c, x.src);
        RelatedSet(k.regs, m.c, x.dst, k.regs[x.src], m.c[NativeReg(x.src)]);
      case Stx =>
        RelatedAt(k.regs, m.c, x.src);
      case Ldx =>
        NativeRegApart(x.dst);
        RelatedSet(k.regs, m.c, x.dst, k.spill, m.frame[0].r);
    }
  }

  lemma ScrubbedSet(c: seq<Reg>, d: nat, x: Reg)
    requires |c| == 31 && d <= 9 && Scrubbed(c)
    ensures Scrubbed(c[NativeReg(d) := x])
  {
  }

  lemma RelatedAt(regs: seq<B.Val>, c: seq<Reg>, r: nat)
    requires Related(regs, c) && r <= 9
    ensures |c| == 31 && |regs| == 10 && (regs[r].Def? ==> c[NativeReg(r)] == Data(regs[r].c))
  {
  }

  lemma ImmediateFollows(p: B.Program, build: Build, env: Env, k: B.Config, m: Machine, saved: seq<Slot>)
    requires Formed(p) && k.pc < |p.insns| && Sim(p, build, k, m, saved) && p.insns[k.pc].code.MovImm?
    ensures Follows(p, build, env, B.Step(p, env.gate, k), m, 4, saved)
  {
    hide Image, Recorded, Offset, Steps, HoldsAt, ExecAll, ImmediateWords;
    var x := p.insns[k.pc];
    assert A.Sized(x);
    BlockAt(build, p, k.pc);
    OffsetNext(p, PrologueLength(build), k.pc);
    NativeRegApart(x.dst);
    ImmediateLoads(env, NativeReg(x.dst), Widen(x.imm), m);
    BlockRuns(Image(build, p), env, ImmediateWords(NativeReg(x.dst), Widen(x.imm)), m);
    hide Related, NativeReg;
    RelatedSet(k.regs, m.c, x.dst, B.Def(Scalar(Widen(x.imm))), Data(Scalar(Widen(x.imm))));
  }

  // ---- Branches ----

  lemma BranchFollows(p: B.Program, build: Build, env: Env, k: B.Config, m: Machine, saved: seq<Slot>)
    requires Formed(p) && k.pc < |p.insns| <= MAX_INSNS && Sim(p, build, k, m, saved)
    requires p.insns[k.pc].code.Jeq? && !B.Step(p, env.gate, k).Stuck?
    ensures Follows(p, build, env, B.Step(p, env.gate, k), m, 1, saved)
  {
    hide Image, Steps, Related, NativeReg;
    var x := p.insns[k.pc];
    var start, t := PrologueLength(build), k.pc + 1 + x.off;
    FirstWord(build, p, k.pc);
    StepsOne(Image(build, p), env, m);
    OffsetNext(p, start, k.pc);
    RelatedAt(k.regs, m.c, x.dst);
    BranchEncodes(p, build, k.pc, t);
    hide Recorded, Offset;
  }

  // The displacement to a recorded start is in range.
  lemma BranchEncodes(p: B.Program, build: Build, pc: nat, t: nat)
    requires pc <= |p.insns| <= MAX_INSNS && t <= |p.insns|
    ensures var start, l := PrologueLength(build), Recorded(build, p);
      && l.offset[t] == Offset(p, start, t) && l.executive == l.restricted + 1
      && -0x4_0000 <= l.offset[t] - Offset(p, start, pc) < 0x4_0000
      && -0x4_0000 <= l.restricted - Offset(p, start, pc) < 0x4_0000
  {
  }

  // ---- Exit ----

  lemma ExitFollows(p: B.Program, build: Build, env: Env, k: B.Config, m: Machine, saved: seq<Slot>)
    requires Formed(p) && k.pc < |p.insns| <= MAX_INSNS && Sim(p, build, k, m, saved)
    requires p.insns[k.pc].code.Exit? && !B.Step(p, env.gate, k).Stuck?
    ensures Follows(p, build, env, B.Step(p, env.gate, k), m, 2, saved)
  {
    hide Image, Related, Recorded, Offset, Steps;
    ExitWords(p, build, k.pc);
    RelatedAt(k.regs, m.c, 0);
    var code, l := Image(build, p), Recorded(build, p);
    var j := m.(pc := l.restricted);
    assert Step(code, env, m) == Going(j);
    assert Step(code, env, j) == Going(j.(pc := l.executive, executive := true));
    StepsOne(code, env, m);
    StepsThen(code, env, m, 1);
  }

  // The branch of an exit and its target.
  lemma ExitWords(p: B.Program, build: Build, pc: nat)
    requires Formed(p) && pc < |p.insns| <= MAX_INSNS && p.insns[pc].code.Exit?
    ensures var code, l, at := Image(build, p), Recorded(build, p), Offset(p, PrologueLength(build), pc);
      && at < |code| && code[at] == B(l.restricted - at)
      && l.restricted < |code| && code[l.restricted] == RetClr && l.executive == l.restricted + 1
  {
    hide Image, Recorded, Offset, Prologue, Epilogue, Body, HoldsAt, Formed;
    ImageHolds(build, p);
    FirstWord(build, p, pc);
    BranchEncodes(p, build, pc, pc);
  }

  // One more step.
  lemma StepsThen(code: seq<Native>, env: Env, m: Machine, n: nat)
    requires Shape(m) && Steps(code, env, m, n).Going?
    ensures Steps(code, env, m, n + 1) == Step(code, env, Steps(code, env, m, n).m)
  {
    hide Steps, Step;
    StepsCompose(code, env, m, n, 1);
    StepsOne(code, env, Steps(code, env, m, n).m);
  }

  // ---- Calls ----

  // The all-ones address is never a value.
  ghost predicate Signals(gate: B.Gate)
  {
    forall calls {:trigger gate(calls)} :: gate(calls).Value? ==> gate(calls).c.address != U64 - 1
  }

  // The registers as the gate's entry finds them.
  function Arguments(c: seq<Reg>, operation: nat, pc: nat): (n: seq<Reg>)
    requires |c| == 31
    ensures |n| == 31
  {
    c[4 := Data(Scalar(operation))][5 := Data(Scalar(pc))][13 := c[30]]
  }

  lemma ArgumentsLoad(env: Env, m: Machine, operation: nat, pc: nat)
    requires Shape(m) && operation < 0x10000 && pc < 0x10000
    ensures var w := [EncodeMovZ(4, operation, 0), EncodeMovZ(5, pc, 0), CapMov(13, LR)];
      && ExecAll(env, w, m) == Going(m.(pc := m.pc + 3, c := Arguments(m.c, operation, pc)))
      && forall i :: 0 <= i < 3 ==> Straight(w[i])
  {
    var a, b, d := MovZ(4, operation, 0), MovZ(5, pc, 0), CapMov(13, LR);
    assert Power16(0) == 1;
    var m1 := Set(m, 4, Data(Scalar(operation)));
    var m2 := Set(m1, 5, Data(Scalar(pc)));
    assert [a, b, d][1..] == [b, d] && [b, d][1..] == [d] && [d][1..] == [];
    assert ExecAll(env, [d], m2) == Going(Set(m2, 13, m2.c[30]));
    assert ExecAll(env, [b, d], m1) == ExecAll(env, [d], m2);
  }

  // The machine where the gate is entered.
  function AtGate(p: B.Program, k: B.Config, m: Machine): (n: Machine)
    requires Shape(m) && k.pc < |p.insns|
    ensures Shape(n)
  {
    m.(pc := m.pc + 3, c := Arguments(m.c, B.Operation(p, p.insns[k.pc]), k.pc))
  }

  lemma CallFollows(p: B.Program, build: Build, env: Env, k: B.Config, m: Machine, saved: seq<Slot>)
    returns (n: nat)
    requires Formed(p) && k.pc < |p.insns| <= MAX_INSNS && Sim(p, build, k, m, saved) && Signals(env.gate)
    requires p.insns[k.pc].code.Call? && !B.Step(p, env.gate, k).Stuck?
    ensures Follows(p, build, env, B.Step(p, env.gate, k), m, n, saved)
  {
    hide Image, Step, Steps, B.Step, Sim, Reaches, CallGate, Signals, Formed, AtGate;
    SimPlace(p, build, k, m, saved);
    var code, m3 := Image(build, p), AtGate(p, k, m);
    CallReaches(p, build, env, k, m, saved);
    GateAnswers(p, build, env, k, m, saved);
    StepsThen(code, env, m, 3);
    var o := CallGate(env, m3);
    if o.m.executive {
      n := 4;
    } else {
      n := 5;
      ResultMoves(code, env, o.m);
      StepsThen(code, env, m, 4);
    }
  }

  lemma ResultMoves(code: seq<Native>, env: Env, m: Machine)
    requires Shape(m) && m.pc < |code| && code[m.pc] == CapMov(7, 0)
    ensures Step(code, env, m) == Going(m.(pc := m.pc + 1, c := m.c[7 := m.c[0]]))
  {
  }

  // A call's five words.
  lemma CallWordsAt(p: B.Program, build: Build, pc: nat)
    requires Formed(p) && pc < |p.insns| && p.insns[pc].code.Call?
    ensures var code, at := Image(build, p), Offset(p, PrologueLength(build), pc);
      && HoldsAt(code, at, [EncodeMovZ(4, B.Operation(p, p.insns[pc]), 0), EncodeMovZ(5, pc, 0), CapMov(13, LR)])
      && at + 4 < |code| && code[at + 3] == Blrs(17) && code[at + 4] == CapMov(7, 0)
  {
    hide Image, Recorded, Offset, B.Operation, Formed, Block, CallWords, HoldsAt;
    var code, op, at := Image(build, p), B.Operation(p, p.insns[pc]), Offset(p, PrologueLength(build), pc);
    BlockAt(build, p, pc);
    CallBlock(p, Recorded(build, p), pc, at);
    var w := [EncodeMovZ(4, op, 0), EncodeMovZ(5, pc, 0), CapMov(13, LR)];
    HoldsPrefix(code, at, w, [Blrs(17), CapMov(7, 0)]);
    HoldsTwo(code, at + 3, Blrs(17), CapMov(7, 0));
  }

  lemma CallBlock(p: B.Program, layout: Layout, pc: nat, at: nat)
    requires Formed(p) && |layout.offset| == |p.insns| + 1 && pc < |p.insns| && p.insns[pc].code.Call?
    ensures Block(p, layout, pc, at)
      == [EncodeMovZ(4, B.Operation(p, p.insns[pc]), 0), EncodeMovZ(5, pc, 0), CapMov(13, LR)]
         + [Blrs(17), CapMov(7, 0)]
  {
    hide ImmediateWords, B.Operation, Formed;
  }

  lemma HoldsTwo(code: seq<Native>, at: nat, a: Native, b: Native)
    requires HoldsAt(code, at, [a, b])
    ensures at + 1 < |code| && code[at] == a && code[at + 1] == b
  {
    assert code[at + 0] == [a, b][0] && code[at + 1] == [a, b][1];
  }

  lemma SimPlace(p: B.Program, build: Build, k: B.Config, m: Machine, saved: seq<Slot>)
    requires Sim(p, build, k, m, saved)
    ensures B.Shape(k) && Shape(m) && k.pc <= |p.insns| && m.pc == Offset(p, PrologueLength(build), k.pc)
    ensures m.c[17] == GateEntry && !m.executive
  {
  }

  // The three words before the transfer, and the transfer itself.
  lemma CallReaches(p: B.Program, build: Build, env: Env, k: B.Config, m: Machine, saved: seq<Slot>)
    requires Formed(p) && k.pc < |p.insns| <= MAX_INSNS && Sim(p, build, k, m, saved)
    requires p.insns[k.pc].code.Call?
    ensures var code := Image(build, p);
      && Shape(m) && Steps(code, env, m, 3) == Going(AtGate(p, k, m))
      && Step(code, env, AtGate(p, k, m)) == CallGate(env, AtGate(p, k, m))
      && m.pc + 4 < |code| && code[m.pc + 4] == CapMov(7, 0)
  {
    hide Image, Recorded, Offset, ExecAll, Sim, Steps, CallGate, HoldsAt, Straight, EncodeMovZ, Step,
      B.Operation, Formed;
    var code, op := Image(build, p), B.Operation(p, p.insns[k.pc]);
    SimPlace(p, build, k, m, saved);
    CallWordsAt(p, build, k.pc);
    var w := [EncodeMovZ(4, op, 0), EncodeMovZ(5, k.pc, 0), CapMov(13, LR)];
    ArgumentsLoad(env, m, op, k.pc);
    BlockRuns(code, env, w, m);
    Transfers(code, env, AtGate(p, k, m));
  }

  lemma Transfers(code: seq<Native>, env: Env, m: Machine)
    requires Shape(m) && m.pc < |code| && code[m.pc] == Blrs(17) && m.c[17] == GateEntry && !m.executive
    ensures Step(code, env, m) == CallGate(env, m)
  {
  }

  // What the gate is asked, and where the machine goes with its answer.
  lemma GateAsked(p: B.Program, build: Build, env: Env, k: B.Config, m: Machine, saved: seq<Slot>)
    requires k.pc < |p.insns| && Sim(p, build, k, m, saved)
    requires p.insns[k.pc].code.Call? && !B.Step(p, env.gate, k).Stuck?
    ensures var (x, n) := (p.insns[k.pc], AtGate(p, k, m));
      var calls := k.calls + [B.GateCall(B.Operation(p, x), k.pc, k.regs[1].c)];
      && k.regs[1].Def? && n.c[0] == Data(k.regs[1].c) && n.c[4] == Data(Scalar(B.Operation(p, x)))
      && n.c[5] == Data(Scalar(k.pc)) && n.c[13] == m.c[30] && n.calls == k.calls && n.frame == m.frame
      && B.Step(p, env.gate, k) == (match env.gate(calls)
           case Refused => B.Aborted(calls)
           case Value(c) => B.Running(B.Config(k.pc + 1, B.AfterCall(k.regs, B.Def(c)), k.spill, calls)))
  {
    hide Recorded, Offset;
    RelatedAt(k.regs, m.c, 1);
  }

  ghost predicate Answers(p: B.Program, build: Build, s: B.State, m: Machine, n: Machine, saved: seq<Slot>)
    requires Shape(n)
  {
    if n.executive then Reaches(p, build, s, n, saved)
    else n.pc == m.pc + 4 && Reaches(p, build, s, n.(pc := n.pc + 1, c := n.c[7 := n.c[0]]), saved)
  }

  // The gate's answer, in the source and through the gateway.
  lemma GateAnswers(p: B.Program, build: Build, env: Env, k: B.Config, m: Machine, saved: seq<Slot>)
    requires Formed(p) && k.pc < |p.insns| <= MAX_INSNS && Sim(p, build, k, m, saved) && Signals(env.gate)
    requires p.insns[k.pc].code.Call? && !B.Step(p, env.gate, k).Stuck?
    ensures Shape(m) && var o := CallGate(env, AtGate(p, k, m));
      o.Going? && Shape(o.m) && Answers(p, build, B.Step(p, env.gate, k), m, o.m, saved)
  {
    hide Recorded, Offset, B.Step, Formed, B.AfterCall, Related;
    var op := B.Operation(p, p.insns[k.pc]);
    SimPlace(p, build, k, m, saved);
    GateAsked(p, build, env, k, m, saved);
    OffsetNext(p, PrologueLength(build), k.pc);
    var calls := k.calls + [B.GateCall(op, k.pc, k.regs[1].c)];
    var o := CallGate(env, AtGate(p, k, m));
    assert o.Going? && Shape(o.m) && o.m.calls == calls && o.m.frame == m.frame;
    if env.gate(calls).Value? {
      AfterCallRelated(k.regs, m.c, op, k.pc, m.pc + 4, env.gate(calls).c);
      assert Sim(p, build, B.Step(p, env.gate, k).k, o.m.(pc := o.m.pc + 1, c := o.m.c[7 := o.m.c[0]]), saved);
    } else {
      assert AtExit(p, build, o.m, 0, calls, saved);
    }
  }

  // Callee-saved BPF registers survive the gateway, and the result reaches r0's register.
  lemma AfterCallRelated(regs: seq<B.Val>, c: seq<Reg>, op: nat, pc: nat, ret: nat, v: Capability)
    requires Related(regs, c)
    ensures var n := Gateway(Arguments(c, op, pc), c[30], Code(ret), v);
      Related(B.AfterCall(regs, B.Def(v)), n[7 := n[0]]) && (c[15].Data? ==> n[15].Data?)
  {
    var n := Gateway(Arguments(c, op, pc), c[30], Code(ret), v);
    var after := B.AfterCall(regs, B.Def(v));
    assert Arguments(c, op, pc)[15] == c[15] && n[15] == Truncated(c[15]);
    forall r | 0 <= r < 10 && after[r].Def? ensures n[7 := n[0]][NativeReg(r)] == Data(after[r].c) {
      assert r == 0 || r >= 6;
      assert regs[r].Def? ==> c[NativeReg(r)] == Data(regs[r].c);
    }
  }

  // ---- Runs ----

  lemma StepFollows(p: B.Program, build: Build, env: Env, k: B.Config, m: Machine, saved: seq<Slot>) returns (n: nat)
    requires Formed(p) && k.pc < |p.insns| <= MAX_INSNS && Sim(p, build, k, m, saved) && Signals(env.gate)
    requires !B.Step(p, env.gate, k).Stuck?
    ensures Follows(p, build, env, B.Step(p, env.gate, k), m, n, saved)
  {
    hide Follows, Sim, Signals, Formed;
    var x := p.insns[k.pc].code;
    SimPlace(p, build, k, m, saved);
    match x {
      case MovImm => n := 4; ImmediateFollows(p, build, env, k, m, saved);
      case Jeq => n := 1; BranchFollows(p, build, env, k, m, saved);
      case Call => n := CallFollows(p, build, env, k, m, saved);
      case Exit => n := 2; ExitFollows(p, build, env, k, m, saved);
      case Other => assert false;
      case _ => n := 1; MoveFollows(p, build, env, k, m, saved);
    }
  }

  lemma FollowsThen(p: B.Program, build: Build, env: Env, k: B.Config, s: B.State, m: Machine, a: nat, b: nat,
                    saved: seq<Slot>)
    requires Formed(p) && Shape(m) && Follows(p, build, env, B.Running(k), m, a, saved)
    requires Follows(p, build, env, s, Steps(Image(build, p), env, m, a).m, b, saved)
    ensures Follows(p, build, env, s, m, a + b, saved)
  {
    hide Image, Steps, Reaches;
    StepsCompose(Image(build, p), env, m, a, b);
  }

  lemma FollowsSim(p: B.Program, build: Build, env: Env, k: B.Config, m: Machine, a: nat, saved: seq<Slot>)
    requires Formed(p) && Shape(m) && Follows(p, build, env, B.Running(k), m, a, saved)
    ensures var o := Steps(Image(build, p), env, m, a); o.Going? && Shape(o.m) && Sim(p, build, k, o.m, saved)
  {
    hide Image, Steps, Sim;
  }

  // From any configuration that the flow table describes, the machine follows the whole run.
  lemma {:induction false} RunFollows(p: B.Program, build: Build, env: Env, k: B.Config, m: Machine, saved: seq<Slot>)
    returns (n: nat)
    requires A.Admit(p).Admitted? && |p.insns| <= MAX_INSNS && B.Obeys(env.gate) && Signals(env.gate)
    requires S.Consistent(p, A.Admit(p).flow, k) && Sim(p, build, k, m, saved)
    ensures Formed(p) && Shape(m) && B.Shape(k)
    ensures Follows(p, build, env, B.Run(p, env.gate, k), m, n, saved)
    decreases |p.insns| - k.pc
  {
    hide A.Admit, Formed, B.Step, Sim, B.Obeys, Signals, Image, S.Describes, A.Check, Closed, Steps, Follows;
    AdmittedIsClosed(p);
    SimPlace(p, build, k, m, saved);
    S.StepConsistent(p, env.gate, k);
    var a := StepFollows(p, build, env, k, m, saved);
    var s := B.Step(p, env.gate, k);
    n := a;
    if s.Running? {
      FollowsSim(p, build, env, s.k, m, a, saved);
      var t := Steps(Image(build, p), env, m, a).m;
      var b := RunFollows(p, build, env, s.k, t, saved);
      FollowsThen(p, build, env, s.k, B.Run(p, env.gate, s.k), m, a, b, saved);
      n := a + b;
    }
  }
}
